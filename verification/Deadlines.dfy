/** Time limits: a clock that ticks, a deadline counted in ticks from the last call, and when a guest call stops. */
module Deadlines {

  /** epochCounterMs */
  const PERIOD: nat := 10

  /** `globalInit`: the limit in epochs for a limit of `ms` milliseconds; 0 turns deadlines off. */
  function LimitEpochs(ms: nat): (n: nat)
    ensures ms > 0 ==> n >= 2
    ensures ms == 0 <==> n == 0
  {
    if ms > 0 then ms / PERIOD + 2 else 0
  }

  /** `ticks(i)` is the time of the i-th increment of the engine's epoch, in milliseconds. */
  type Clock = nat -> real

  /** The epoch thread sleeps at least the period between increments. */
  ghost predicate AtLeastPeriod(ticks: Clock) { forall i: nat :: ticks(i + 1) >= ticks(i) + PERIOD as real }

  ghost predicate ExactPeriod(ticks: Clock) { forall i: nat :: ticks(i + 1) == ticks(i) + PERIOD as real }

  /** At time `t` exactly the first `epoch` ticks have happened. */
  ghost predicate EpochAt(ticks: Clock, t: real, epoch: nat) {
    ticks(epoch) > t && (epoch > 0 ==> ticks(epoch - 1) <= t)
  }

  /** `setWasmDeadline` at epoch `e` sets the deadline `e + n`; it is reached with the tick that makes that the
      epoch. */
  function Reached(ticks: Clock, epoch: nat, n: nat): real
    requires n > 0
  {
    ticks(epoch + n - 1)
  }

  lemma {:induction false} TicksApart(ticks: Clock, i: nat, k: nat)
    requires AtLeastPeriod(ticks)
    ensures ticks(i + k) >= ticks(i) + (k * PERIOD) as real
  {
    if k == 0 {
    } else {
      TicksApart(ticks, i, k - 1);
      assert ticks(i + k - 1 + 1) >= ticks(i + k - 1) + PERIOD as real;
    }
  }

  lemma {:induction false} TicksExact(ticks: Clock, i: nat, k: nat)
    requires ExactPeriod(ticks)
    ensures ticks(i + k) == ticks(i) + (k * PERIOD) as real
  {
    if k == 0 {
    } else {
      TicksExact(ticks, i, k - 1);
      assert ticks(i + k - 1 + 1) == ticks(i + k - 1) + PERIOD as real;
    }
  }

  /** A call is never interrupted before its limit, however late the epoch thread runs. */
  lemma {:induction false} NotBeforeLimit(ticks: Clock, t: real, epoch: nat, ms: nat)
    requires ms > 0 && AtLeastPeriod(ticks) && EpochAt(ticks, t, epoch)
    ensures Reached(ticks, epoch, LimitEpochs(ms)) > t + ms as real
  {
    var n := LimitEpochs(ms);
    TicksApart(ticks, epoch, n - 1);
    assert (n - 1) * PERIOD > ms;
  }

  function Later(s: real, t: real): (m: real)
    ensures m >= s && m >= t && (m == s || m == t)
  {
    if s < t then t else s
  }

  /** When the limit starts to run out: with the call, or one period before the first tick if the epoch thread, which
      ticks as soon as it runs, has not got that far. */
  function Begin(ticks: Clock, t: real): real { Later(t, ticks(0) - PERIOD as real) }

  /** With exact ticks it is interrupted at most 20 ms after its limit. */
  lemma {:induction false} ByLimitPlusTwenty(ticks: Clock, t: real, epoch: nat, ms: nat)
    requires ms > 0 && ExactPeriod(ticks) && EpochAt(ticks, t, epoch)
    ensures Reached(ticks, epoch, LimitEpochs(ms)) <= Begin(ticks, t) + ms as real + 20.0
    ensures epoch > 0 ==> Reached(ticks, epoch, LimitEpochs(ms)) <= t + ms as real + 20.0
  {
    var n := LimitEpochs(ms);
    if epoch > 0 { TicksExact(ticks, epoch - 1, n); } else { TicksExact(ticks, 0, n - 1); }
    assert n * PERIOD <= ms + 20;
  }

  // ---- Re-entrant calls on the same store

  /** The times at which the store's deadline was set: by the outermost call, then by each call made from within a host
      function it called.  Guest code is running whenever a host function is entered, so the deadline in force had
      not been reached then. */
  datatype Reset = Reset(time: real, epoch: nat)

  ghost predicate Resets(ticks: Clock, sets: seq<Reset>, ms: nat)
    requires ms > 0
    decreases |sets|
  {
    && sets != []
    && EpochAt(ticks, Last(sets).time, Last(sets).epoch)
    && (|sets| > 1 ==>
          var before := sets[..|sets| - 1];
          Resets(ticks, before, ms)
          && Last(before).time <= Last(sets).time < Interrupted(ticks, before, ms))
  }

  function Last(sets: seq<Reset>): Reset
    requires sets != []
  {
    sets[|sets| - 1]
  }

  /** When the call is interrupted if nobody sets the deadline again. */
  function Interrupted(ticks: Clock, sets: seq<Reset>, ms: nat): real
    requires ms > 0 && sets != []
  {
    Reached(ticks, Last(sets).epoch, LimitEpochs(ms))
  }

  /** The time that `n` calls may take in all. */
  function Budget(n: nat, ms: nat): (b: real)
    ensures b >= 0.0
  {
    if n == 0 then 0.0 else Budget(n - 1, ms) + ms as real + 20.0
  }

  lemma {:induction false} BudgetIs(n: nat, ms: nat)
    ensures Budget(n, ms) == (n * (ms + 20)) as real
  {
    if n == 0 {
    } else {
      BudgetIs(n - 1, ms);
      assert n * (ms + 20) == (n - 1) * (ms + 20) + (ms + 20);
    }
  }

  lemma {:induction false} WithinBudget(ticks: Clock, sets: seq<Reset>, ms: nat)
    requires ms > 0 && ExactPeriod(ticks) && Resets(ticks, sets, ms)
    ensures Interrupted(ticks, sets, ms) <= Begin(ticks, sets[0].time) + Budget(|sets|, ms)
    decreases |sets|
  {
    var k := |sets| - 1;
    ByLimitPlusTwenty(ticks, sets[k].time, sets[k].epoch, ms);
    if k == 0 {
      assert Budget(0, ms) == 0.0;
    } else {
      WithinBudget(ticks, sets[..k], ms);
    }
  }

  /** With n re-entrant calls the outermost one still ends by (n + 1) times its limit plus 20 ms. */
  lemma {:induction false} ReentrantBound(ticks: Clock, sets: seq<Reset>, ms: nat)
    requires ms > 0 && ExactPeriod(ticks) && Resets(ticks, sets, ms)
    ensures Interrupted(ticks, sets, ms) <= Begin(ticks, sets[0].time) + (|sets| * (ms + 20)) as real
  {
    WithinBudget(ticks, sets, ms);
    BudgetIs(|sets|, ms);
  }

  lemma {:induction false} ReentrantNotBefore(ticks: Clock, sets: seq<Reset>, ms: nat)
    requires ms > 0 && AtLeastPeriod(ticks) && Resets(ticks, sets, ms)
    ensures Interrupted(ticks, sets, ms) > Last(sets).time + ms as real && Last(sets).time >= sets[0].time
    ensures Interrupted(ticks, sets, ms) > sets[0].time + ms as real
    decreases |sets|
  {
    var k := |sets| - 1;
    NotBeforeLimit(ticks, sets[k].time, sets[k].epoch, ms);
    if k == 0 {
    } else {
      ReentrantNotBefore(ticks, sets[..k], ms);
    }
  }

  /** The extra 20 ms are needed: a limit that is a multiple of the period, set right on a tick, uses all of them. */
  lemma {:induction false} TwentyIsTight(ms: nat)
    requires ms > 0 && ms % PERIOD == 0
    ensures var ticks: Clock := i => (i * PERIOD) as real;
            && ExactPeriod(ticks) && EpochAt(ticks, 0.0, 1)
            && Reached(ticks, 1, LimitEpochs(ms)) == 0.0 + ms as real + 20.0
  {
    var ticks: Clock := i => (i * PERIOD) as real;
    assert forall i: nat :: ticks(i + 1) == ticks(i) + PERIOD as real;
    assert LimitEpochs(ms) * PERIOD == ms + 20;
  }
}
