/** The base destructor's polling loop ends: a lexicographic measure over spawners in flight, guest threads with
    their remaining epoch ticks, and the destructor itself, carried to infinite runs under weak fairness. */
module Teardown {
  import opened Wrappers
  import opened GuestThreads

  type Run = nat -> State
  type Schedule = nat -> Label

  // ---- The measure

  ghost function PcWork(pc: SpawnPc): nat {
    match pc
    case NotSpawning => 0
    case SawHook(_) => 4
    case Locked(_) => 3
    case Launched(_) => 2
    case Assigned(_) => 1
  }

  /** A thread not yet asked to stop may have its deadline moved back once more, so its ticks do not count yet. */
  ghost function ThreadWork(th: GuestThread, limit: nat): nat {
    match th.stage
    case Gone => 0
    case Finishing => if th.stop then 1 else 2
    case Starting => if th.stop then limit + 3 else 2 * limit + 4
    case Running(ticks) => if th.stop then ticks + 2 else 2 * limit + 3
  }

  ghost function Work(th: GuestThread, limit: nat, spawning: bool): nat {
    if spawning then PcWork(th.spawn) else ThreadWork(th, limit)
  }

  ghost function Total(ths: seq<GuestThread>, limit: nat, spawning: bool): nat {
    if ths == [] then 0 else Total(ths[..|ths| - 1], limit, spawning) + Work(ths[|ths| - 1], limit, spawning)
  }

  ghost function Spawners(s: State): nat { Total(s.threads, s.limit, true) }
  ghost function Remaining(s: State): nat { Total(s.threads, s.limit, false) }
  ghost function Loop(s: State): nat { if s.phase == Destroyed then 0 else 1 }

  ghost predicate Less(s': State, s: State) {
    || Spawners(s') < Spawners(s)
    || (Spawners(s') == Spawners(s) && Remaining(s') < Remaining(s))
    || (Spawners(s') == Spawners(s) && Remaining(s') == Remaining(s) && Loop(s') < Loop(s))
  }

  ghost predicate Same(s': State, s: State) {
    Spawners(s') == Spawners(s) && Remaining(s') == Remaining(s) && Loop(s') == Loop(s)
  }

  lemma {:induction false} TotalUpdate(ths: seq<GuestThread>, t: nat, th: GuestThread, limit: nat, spawning: bool)
    requires t < |ths|
    ensures Total(ths[t := th], limit, spawning) + Work(ths[t], limit, spawning)
         == Total(ths, limit, spawning) + Work(th, limit, spawning)
  {
    var last := |ths| - 1;
    if t == last {
      assert ths[t := th][..last] == ths[..last];
    } else {
      assert ths[t := th][..last] == ths[..last][t := th];
      TotalUpdate(ths[..last], t, th, limit, spawning);
    }
  }

  lemma {:induction false} TotalPointwise(a: seq<GuestThread>, b: seq<GuestThread>, limit: nat, spawning: bool)
    requires |a| == |b|
    requires forall t :: 0 <= t < |a| ==> Work(a[t], limit, spawning) <= Work(b[t], limit, spawning)
    ensures Total(a, limit, spawning) <= Total(b, limit, spawning)
    ensures (exists t :: 0 <= t < |a| && Work(a[t], limit, spawning) < Work(b[t], limit, spawning))
            <==> Total(a, limit, spawning) < Total(b, limit, spawning)
  {
    if a == [] {
    } else {
      TotalPointwise(a[..|a| - 1], b[..|b| - 1], limit, spawning);
    }
  }

  // ---- One step while draining

  lemma {:induction false} PcStep(s: State, t: nat, pc: SpawnPc)
    requires t < |s.threads|
    ensures Spawners(SetPc(s, Guest(t), pc)) + PcWork(s.threads[t].spawn) == Spawners(s) + PcWork(pc)
    ensures Remaining(SetPc(s, Guest(t), pc)) == Remaining(s)
  {
    TotalUpdate(s.threads, t, s.threads[t].(spawn := pc), s.limit, true);
    TotalUpdate(s.threads, t, s.threads[t].(spawn := pc), s.limit, false);
  }

  lemma {:induction false} StageStep(s: State, t: nat, th: GuestThread)
    requires t < |s.threads| && th.spawn == s.threads[t].spawn
    ensures var s' := s.(threads := s.threads[t := th]);
            Spawners(s') == Spawners(s)
            && Remaining(s') + ThreadWork(s.threads[t], s.limit) == Remaining(s) + ThreadWork(th, s.limit)
  {
    TotalUpdate(s.threads, t, th, s.limit, true);
    TotalUpdate(s.threads, t, th, s.limit, false);
  }

  lemma {:induction false} LaunchMeasure(s: State, who: Who)
    requires Inv(s) && s.phase == Draining && Enabled(s, Launch(who))
    ensures Spawners(LaunchStep(s, who)) < Spawners(s)
  {
    var s' := LaunchStep(s, who);
    PcStep(s, who.t, Launched(Pc(s', who).made));
    var ths := SetPc(s, who, Launched(Pc(s', who).made)).threads;
    assert s'.threads[..|s'.threads| - 1] == ths;
  }

  /** A label whose step is due: no step of anyone else undoes it, and its own step makes progress. */
  ghost predicate Due(s: State, l: Label) {
    s.phase == Draining && Enabled(s, l) &&
    match l
    case Take(who) => who.Guest?
    case Launch(who) => who.Guest?
    case Assign(who) => who.Guest?
    case Return(who) => who.Guest?
    case Find(t) => Spawners(s) == 0
    case Exit(t) => Spawners(s) == 0
    case Terminate(t) => Spawners(s) == 0
    case Tick => exists t :: 0 <= t < |s.threads| && s.threads[t].stop && Counting(s.threads[t])
    case Poll =>
      Spawners(s) == 0 && forall t :: 0 <= t < |s.threads| && s.threads[t].stage != Gone ==> !s.threads[t].stop
    case _ => false
  }

  ghost predicate Counting(th: GuestThread) { th.stage.Running? && th.stage.ticks > 0 }

  lemma {:induction false} TickMeasure(s: State)
    requires Inv(s)
    ensures Spawners(Apply(s, Tick)) == Spawners(s) && Remaining(Apply(s, Tick)) <= Remaining(s)
    ensures (exists t :: 0 <= t < |s.threads| && s.threads[t].stop && Counting(s.threads[t]))
            <==> Remaining(Apply(s, Tick)) < Remaining(s)
  {
    var s' := Apply(s, Tick);
    forall t | 0 <= t < |s.threads| ensures s'.threads[t] == TickThread(s.threads[t]) {}
    TotalPointwise(s'.threads, s.threads, s.limit, true);
    TotalPointwise(s.threads, s'.threads, s.limit, true);
    TotalPointwise(s'.threads, s.threads, s.limit, false);
  }

  lemma {:induction false} PollThread(s: State, t: nat)
    requires Inv(s) && Enabled(s, Poll) && Apply(s, Poll).phase == Draining && t < |s.threads|
    ensures var th, th' := s.threads[t], Apply(s, Poll).threads[t];
            th'.spawn == th.spawn
            && if th.stage == Gone || th.stop then th' == th
               else th' == th.(stop := true) && ThreadWork(th', s.limit) < ThreadWork(th, s.limit)
  {
    assert ThreadOk(s, t);
    assert s.threads[t].stage != Gone ==> InSlot(s, t);
  }

  lemma {:induction false} PollTotals(s: State)
    requires Inv(s) && Enabled(s, Poll) && Apply(s, Poll).phase == Draining
    ensures Spawners(Apply(s, Poll)) == Spawners(s) && Remaining(Apply(s, Poll)) <= Remaining(s)
    ensures Remaining(Apply(s, Poll)) < Remaining(s)
            <==> exists t :: 0 <= t < |s.threads| && s.threads[t].stage != Gone && !s.threads[t].stop
  {
    var s' := Apply(s, Poll);
    forall t | 0 <= t < |s.threads|
      ensures Work(s'.threads[t], s.limit, true) == Work(s.threads[t], s.limit, true)
      ensures Work(s'.threads[t], s.limit, false) <= Work(s.threads[t], s.limit, false)
      ensures s.threads[t].stage != Gone && !s.threads[t].stop
              <==> Work(s'.threads[t], s.limit, false) < Work(s.threads[t], s.limit, false)
    {
      PollThread(s, t);
    }
    TotalPointwise(s'.threads, s.threads, s.limit, true);
    TotalPointwise(s.threads, s'.threads, s.limit, true);
    TotalPointwise(s'.threads, s.threads, s.limit, false);
  }

  lemma {:induction false} PollChangesNothing(s: State)
    requires Inv(s) && Enabled(s, Poll) && Apply(s, Poll).phase == Draining
    requires forall t :: 0 <= t < |s.threads| && s.threads[t].stage != Gone ==> s.threads[t].stop
    ensures Apply(s, Poll) == s
  {
    forall t | 0 <= t < |s.threads| ensures Apply(s, Poll).threads[t] == s.threads[t] {
      PollThread(s, t);
    }
  }

  /** Polling flags every live thread it had not flagged, or finds nobody left. */
  lemma {:induction false} PollMeasure(s: State)
    requires Inv(s) && Enabled(s, Poll)
    ensures Less(Apply(s, Poll), s) || Apply(s, Poll) == s
    ensures Due(s, Poll) ==> Less(Apply(s, Poll), s)
  {
    if Apply(s, Poll).phase == Draining {
      PollTotals(s);
      if forall t :: 0 <= t < |s.threads| && s.threads[t].stage != Gone ==> s.threads[t].stop { PollChangesNothing(s); }
      if Due(s, Poll) {
        var i :| 0 <= i < |s.slots| && s.slots[i].Some?;
        assert Live(s, s.slots[i].value.owner);
      }
    }
  }

  // ---- Every step while draining

  lemma {:induction false} StageMeasure(s: State, l: Label)
    requires Inv(s) && s.phase == Draining && Enabled(s, l)
    requires l.Find? || l.Finish? || l.Terminate? || l.Extend? || l.Exit?
    ensures Less(Apply(s, l), s) || (l.Extend? && Same(Apply(s, l), s))
  {
    var t := l.t;
    assert ThreadOk(s, t);
    StageStep(s, t, Apply(s, l).threads[t]);
  }

  lemma {:induction false} SpawnMeasure(s: State, l: Label)
    requires Inv(s) && s.phase == Draining && Enabled(s, l)
    requires l.Take? || l.Fail? || l.Launch? || l.Assign? || l.Return?
    ensures Spawners(Apply(s, l)) < Spawners(s)
  {
    if l.Launch? { LaunchMeasure(s, l.who); }
    else { PcStep(s, l.who.t, Pc(Apply(s, l), l.who)); }
  }

  /** Nothing that can happen while draining increases the measure. */
  lemma {:induction false} StepMeasure(s: State, l: Label)
    requires Inv(s) && s.phase == Draining && Enabled(s, l)
    ensures Less(Apply(s, l), s) || (Same(Apply(s, l), s) && (l.Tick? || l.Poll? || l.Extend? || l.Decline?))
    ensures Due(s, l) ==> Less(Apply(s, l), s)
  {
    match l
    case Tick => TickMeasure(s);
    case Poll => PollMeasure(s);
    case Find(_) => StageMeasure(s, l);
    case Finish(_) => StageMeasure(s, l);
    case Terminate(_) => StageMeasure(s, l);
    case Extend(_) => StageMeasure(s, l);
    case Exit(_) => StageMeasure(s, l);
    case Take(_) => SpawnMeasure(s, l);
    case Fail(_) => SpawnMeasure(s, l);
    case Launch(_) => SpawnMeasure(s, l);
    case Assign(_) => SpawnMeasure(s, l);
    case Return(_) => SpawnMeasure(s, l);
    case _ =>
  }

  lemma {:induction false} DueThroughTick(s: State, l: Label)
    requires Inv(s) && Due(s, l) && !Less(Apply(s, Tick), s)
    ensures Due(Apply(s, Tick), l)
  {
    TickMeasure(s);
    var s' := Apply(s, Tick);
    forall t | 0 <= t < |s.threads| && s.threads[t].stop ensures s'.threads[t] == s.threads[t] {
      assert !Counting(s.threads[t]);
    }
  }

  lemma {:induction false} DueThroughExtend(s: State, l: Label, t: nat)
    requires Inv(s) && Due(s, l) && Enabled(s, Extend(t)) && Same(Apply(s, Extend(t)), s)
    ensures Due(Apply(s, Extend(t)), l)
  {
    var s' := Apply(s, Extend(t));
    if l == Tick {
      var u :| 0 <= u < |s.threads| && s.threads[u].stop && Counting(s.threads[u]);
      assert s'.threads[u] == s.threads[u];
    }
  }

  /** A due step stays due until something makes progress. */
  lemma {:induction false} DueStays(s: State, l: Label, other: Label)
    requires Inv(s) && Due(s, l) && Enabled(s, other) && !Less(Apply(s, other), s)
    ensures Due(Apply(s, other), l)
  {
    StepMeasure(s, other);
    match other
    case Tick => DueThroughTick(s, l);
    case Poll => PollMeasure(s);
    case Extend(t) => DueThroughExtend(s, l, t);
    case _ =>
  }

  /** While the destructor still polls, some step is due: there is never a deadlock or a livelock. */
  lemma {:induction false} SomethingIsDue(s: State) returns (l: Label)
    requires Inv(s) && s.phase == Draining && s.limit > 0
    ensures Due(s, l)
  {
    if s.lock.Some? {
      assert s.lock.value.Guest?;
      assert ThreadOk(s, s.lock.value.t);
      var who := s.lock.value;
      l := if Pc(s, who).Locked? then Launch(who) else if Pc(s, who).Launched? then Assign(who) else Return(who);
    } else if t: nat :| t < |s.threads| && s.threads[t].spawn != NotSpawning {
      assert !Holding(Pc(s, Guest(t)));
      l := Take(Guest(t));
    } else {
      NoSpawners(s.threads, s.limit);
      if t: nat :| t < |s.threads| && s.threads[t].stage != Gone && s.threads[t].stop {
        assert ThreadOk(s, t);
        l := match s.threads[t].stage case Starting => Find(t) case Finishing => Exit(t)
             case Running(k) => if k > 0 then Tick else Terminate(t) case Gone => Poll;
        assert Counting(s.threads[t]) ==> l == Tick;
      } else {
        l := Poll;
      }
    }
  }

  lemma {:induction false} NoSpawners(ths: seq<GuestThread>, limit: nat)
    requires forall t :: 0 <= t < |ths| ==> ths[t].spawn == NotSpawning
    ensures Total(ths, limit, true) == 0
  {
    if ths == [] {
    } else {
      NoSpawners(ths[..|ths| - 1], limit);
    }
  }

  // ---- How long a stopped thread may still run

  ghost function Ticks(labels: seq<Label>, i: nat, j: nat): nat
    requires i <= j <= |labels|
  {
    if i == j then 0 else Ticks(labels, i, j - 1) + if labels[j - 1] == Tick then 1 else 0
  }

  /** `th'` is `th` some steps and `n` ticks later, stopped all along: still counting down, or out of guest code. */
  ghost predicate CountsDown(th: GuestThread, th': GuestThread, n: nat) {
    && th'.stop && th'.stage != Starting
    && (th'.stage.Running? ==>
          th.stage.Running? && th'.stage.ticks == if n < th.stage.ticks then th.stage.ticks - n else 0)
  }

  lemma {:induction false} CountsDownTwice(a: GuestThread, b: GuestThread, c: GuestThread, m: nat, n: nat)
    requires CountsDown(a, b, m) && CountsDown(b, c, n)
    ensures CountsDown(a, c, m + n)
  {}

  lemma {:induction false} StageStays(s: State, l: Label, t: nat)
    requires Enabled(s, l) && t < |s.threads|
    requires !(l.Find? || l.Finish? || l.Terminate? || l.Extend? || l.Exit? || l.Tick?)
    ensures t < |Apply(s, l).threads| && Apply(s, l).threads[t].stage == s.threads[t].stage
    ensures s.threads[t].stop ==> Apply(s, l).threads[t].stop
  {}

  /** Nothing moves the deadline of a stopped thread, and no thread goes back into guest code. */
  lemma {:induction false} StoppedStep(s: State, l: Label, t: nat)
    requires Inv(s) && Enabled(s, l) && t < |s.threads| && s.threads[t].stop && s.threads[t].stage != Starting
    ensures t < |Apply(s, l).threads|
    ensures CountsDown(s.threads[t], Apply(s, l).threads[t], if l == Tick then 1 else 0)
  {
    if !(l.Find? || l.Finish? || l.Terminate? || l.Extend? || l.Exit? || l.Tick?) { StageStays(s, l, t); }
  }

  /** Every tick counts down a stopped thread that is still in guest code. */
  lemma {:induction false} StoppedCountsDown(states: seq<State>, labels: seq<Label>, i: nat, j: nat, t: nat)
    requires IsRun(states, labels) && i <= j < |states| && t < |states[i].threads|
    requires states[i].threads[t].stop && states[i].threads[t].stage != Starting
    ensures t < |states[j].threads|
    ensures CountsDown(states[i].threads[t], states[j].threads[t], Ticks(labels, i, j))
  {
    if i == j {
    } else {
      StoppedCountsDown(states, labels, i, j - 1, t);
      RunInv(states, labels, j - 1);
      StoppedStep(states[j - 1], labels[j - 1], t);
      CountsDownTwice(states[i].threads[t], states[j - 1].threads[t], states[j].threads[t], Ticks(labels, i, j - 1),
                      if labels[j - 1] == Tick then 1 else 0);
    }
  }

  /** After `limit` ticks the deadline of a stopped thread has passed: it can only end. */
  lemma {:induction false} StoppedThreadRunsOut(states: seq<State>, labels: seq<Label>, i: nat, j: nat, t: nat)
    requires IsRun(states, labels) && i <= j < |states| && t < |states[i].threads|
    requires states[i].threads[t].stop && states[i].threads[t].stage != Starting
    requires Ticks(labels, i, j) >= states[i].limit
    ensures t < |states[j].threads|
    ensures states[j].threads[t].stage in {Running(0), Finishing, Gone}
  {
    StoppedCountsDown(states, labels, i, j, t);
    RunInv(states, labels, i);
    assert ThreadOk(states[i], t);
  }

  /** A thread in guest code has at least the ticks left that its last deadline gave it, less those gone by. */
  lemma {:induction false} TicksLeft(states: seq<State>, labels: seq<Label>, i: nat, j: nat, t: nat)
    requires IsRun(states, labels) && i < j < |states| && labels[i] in {Find(t), Extend(t)}
    ensures t < |states[j].threads| && states[j].threads[t].stage != Starting && states[j].limit == states[i].limit
    ensures states[j].threads[t].stage.Running? ==>
              states[j].threads[t].stage.ticks + Ticks(labels, i, j) >= states[i].limit
  {
    if j == i + 1 {
      assert Ticks(labels, i, i) == 0;
    } else {
      TicksLeft(states, labels, i, j - 1, t);
      RunInv(states, labels, j - 1);
      StageStepTicks(states[j - 1], labels[j - 1], t);
    }
  }

  lemma {:induction false} StageStepTicks(s: State, l: Label, t: nat)
    requires Enabled(s, l) && t < |s.threads| && s.threads[t].stage != Starting
    ensures var s' := Apply(s, l);
            && t < |s'.threads| && s'.threads[t].stage != Starting && s'.limit == s.limit
            && (s'.threads[t].stage.Running? ==>
                  s'.threads[t].stage == Running(s.limit)
                  || (s.threads[t].stage.Running?
                      && s'.threads[t].stage.ticks + (if l == Tick then 1 else 0) >= s.threads[t].stage.ticks))
  {
    if !(l.Find? || l.Finish? || l.Terminate? || l.Extend? || l.Exit? || l.Tick?) { StageStays(s, l, t); }
  }

  /** No thread is ended before `limit` ticks have passed since it started or last had its deadline moved back, and
      none before the module's destructor has begun to poll. */
  lemma {:induction false} TerminatedOnlyAtDeadline(states: seq<State>, labels: seq<Label>, i: nat, j: nat, t: nat)
    requires IsRun(states, labels) && i < j < |labels| && labels[i] in {Find(t), Extend(t)} && labels[j] == Terminate(t)
    ensures Ticks(labels, i, j) >= states[i].limit
    ensures states[j].phase == Draining
  {
    TicksLeft(states, labels, i, j, t);
    StopMeansDraining(states, labels, j, t);
  }

  lemma {:induction false} StopMeansDraining(states: seq<State>, labels: seq<Label>, j: nat, t: nat)
    requires IsRun(states, labels) && j < |states| && t < |states[j].threads| && states[j].threads[t].stop
    ensures states[j].phase in {Draining, Destroyed}
    ensures states[j].threads[t].stage != Gone ==> states[j].phase == Draining
  {
    RunInv(states, labels, j);
    if j == 0 {
    } else {
      var s, l := states[j - 1], labels[j - 1];
      if t < |s.threads| && s.threads[t].stop {
        StopMeansDraining(states, labels, j - 1, t);
        assert Apply(s, l).phase in {Draining, Destroyed};
      } else {
        OnlyPollStops(s, l, t);
      }
    }
  }

  lemma {:induction false} OnlyPollStops(s: State, l: Label, t: nat)
    requires Enabled(s, l) && t < |Apply(s, l).threads| && Apply(s, l).threads[t].stop
    requires t < |s.threads| ==> !s.threads[t].stop
    ensures l == Poll
  {}

  // ---- Infinite runs

  ghost predicate IsInfiniteRun(run: Run, labels: Schedule) {
    forall i: nat {:trigger labels(i)} :: Enabled(run(i), labels(i)) && run(i + 1) == Apply(run(i), labels(i))
  }

  /** Steps the scheduler owes: locks granted, code that only runs forward, time, the polling loop.
      Guest code owes nothing: it need not return, call or finish unless its deadline stops it. */
  ghost predicate Owed(l: Label) {
    l.Take? || l.Launch? || l.Assign? || l.Return? || l.Find? || l.Terminate? || l.Exit? || l.Tick? || l.Poll?
  }

  ghost predicate Always(run: Run, l: Label, from: nat) {
    forall j: nat :: j >= from ==> Enabled(run(j), l)
  }

  ghost predicate Taken(labels: Schedule, l: Label, from: nat) {
    exists j: nat :: j >= from && labels(j) == l
  }

  /** Weak fairness: no owed step stays possible for ever without being taken. */
  ghost predicate Fair(run: Run, labels: Schedule) {
    forall l: Label, from: nat :: Owed(l) && Always(run, l, from) ==> Taken(labels, l, from)
  }

  lemma {:induction false} StuckStep(s: State, from: State, l: Label, taken: Label)
    requires Inv(s) && Due(s, l) && Enabled(s, taken) && Same(s, from) && !Less(Apply(s, taken), from)
    ensures Inv(Apply(s, taken)) && Due(Apply(s, taken), l) && Same(Apply(s, taken), from)
    ensures Apply(s, taken).limit == s.limit
  {
    StepInv(s, taken);
    StepMeasure(s, taken);
    DueStays(s, l, taken);
  }

  lemma {:induction false} StuckStaysDue(run: Run, labels: Schedule, i: nat, l: Label, j: nat)
    requires IsInfiniteRun(run, labels) && Inv(run(i)) && Due(run(i), l) && i <= j
    requires forall k: nat :: i <= k <= j ==> !Less(run(k), run(i))
    ensures Inv(run(j)) && Due(run(j), l) && Same(run(j), run(i)) && run(j).limit == run(i).limit
  {
    if i == j {
    } else {
      StuckStaysDue(run, labels, i, l, j - 1);
      assert run(j - 1 + 1) == Apply(run(j - 1), labels(j - 1));
      StuckStep(run(j - 1), run(i), l, labels(j - 1));
    }
  }

  lemma {:induction false} DrainingStays(run: Run, labels: Schedule, i: nat, j: nat)
    requires IsInfiniteRun(run, labels) && Inv(run(i)) && run(i).phase == Draining && i <= j
    ensures Inv(run(j)) && run(j).phase in {Draining, Destroyed} && run(j).limit == run(i).limit
  {
    if i == j {
    } else {
      DrainingStays(run, labels, i, j - 1);
      StepInv(run(j - 1), labels(j - 1));
      assert run(j - 1 + 1) == Apply(run(j - 1), labels(j - 1));
    }
  }

  lemma {:induction false} DueStepMeasure(run: Run, labels: Schedule, k: nat, l: Label)
    requires IsInfiniteRun(run, labels) && Inv(run(k)) && Due(run(k), l) && labels(k) == l
    ensures Less(run(k + 1), run(k))
  {
    StepMeasure(run(k), l);
    assert run(k + 1) == Apply(run(k), labels(k));
  }

  lemma {:induction false} Progress(run: Run, labels: Schedule, i: nat) returns (j: nat)
    requires IsInfiniteRun(run, labels) && Fair(run, labels)
    requires Inv(run(i)) && run(i).phase == Draining && run(i).limit > 0
    ensures j > i && Less(run(j), run(i))
  {
    var l := SomethingIsDue(run(i));
    if forall k: nat :: i <= k ==> !Less(run(k), run(i)) {
      forall k: nat | k >= i ensures Due(run(k), l) && Inv(run(k)) && Same(run(k), run(i)) {
        StuckStaysDue(run, labels, i, l, k);
      }
      assert Always(run, l, i);
      assert Taken(labels, l, i);
      var k: nat :| k >= i && labels(k) == l;
      DueStepMeasure(run, labels, k, l);
      assert false;
    }
    j :| i <= j && Less(run(j), run(i));
  }

  /** Teardown terminates: with a nonzero time limit, every fair run that has cleared the hook destroys the module,
      whatever the guest code does and whichever spawns were in flight. */
  lemma {:induction false} TeardownTerminates(run: Run, labels: Schedule, i: nat) returns (j: nat)
    requires IsInfiniteRun(run, labels) && Fair(run, labels)
    requires Inv(run(i)) && run(i).phase == Draining && run(i).limit > 0
    ensures j >= i && run(j).phase == Destroyed && forall t :: !Live(run(j), t)
    decreases Spawners(run(i)), Remaining(run(i)), Loop(run(i))
  {
    j := Progress(run, labels, i);
    DrainingStays(run, labels, i, j);
    if run(j).phase == Draining { j := TeardownTerminates(run, labels, j); }
  }

  // ---- No limit, no guarantee

  ghost predicate Reachable(s: State) {
    exists states: seq<State>, labels: seq<Label> :: IsRun(states, labels) && states[|labels|] == s
  }

  /** The one thread of the run below, and the state it gets stuck in: asked to stop, inside guest code, no deadline. */
  const MADE := ThreadObject(0, 1, 7, 0)

  ghost function Spawning(pc: SpawnPc, slot: Option<ThreadObject>, lock: Option<Who>): State {
    State(0, true, Open, [None, slot], [GuestThread(MADE, None, Starting, false, NotSpawning)], [pc], lock, 1)
  }

  ghost function InGuest(hook: bool, phase: Phase, stop: bool): State {
    State(0, hook, phase, [None, Some(MADE)], [GuestThread(MADE, Some(MADE), Running(0), stop, NotSpawning)],
          [NotSpawning], None, 1)
  }

  ghost function Stuck(): State { InGuest(false, Draining, true) }

  /** A host call spawns a thread, the host closes the module, the hook is cleared, the destructor polls once. */
  const PATH: seq<Label> := [ReadHook(Host(0), 7), Take(Host(0)), Launch(Host(0)), Assign(Host(0)), Return(Host(0)),
                             Find(0), BeginClose, ClearHook, Poll]

  ghost function PathState(i: nat): State {
    match i
    case 0 => State(0, true, Open, [None], [], [NotSpawning], None, 0)
    case 1 => State(0, true, Open, [None], [], [SawHook(7)], None, 0)
    case 2 => State(0, true, Open, [None], [], [Locked(7)], Some(Host(0)), 0)
    case 3 => Spawning(Launched(MADE), None, Some(Host(0)))
    case 4 => Spawning(Assigned(MADE), Some(MADE), Some(Host(0)))
    case 5 => Spawning(NotSpawning, Some(MADE), None)
    case 6 => InGuest(true, Open, false)
    case 7 => InGuest(true, Closing, false)
    case 8 => InGuest(false, Draining, false)
    case _ => Stuck()
  }

  ghost predicate PathStep(i: nat)
    requires i < |PATH|
  {
    Enabled(PathState(i), PATH[i]) && PathState(i + 1) == Apply(PathState(i), PATH[i])
  }

  lemma {:induction false} SpawnSteps()
    ensures PathStep(0) && PathStep(1) && PathStep(3) && PathStep(4)
  {}

  lemma {:induction false} LaunchAndFind()
    ensures PathStep(2) && PathStep(5)
  {}

  lemma {:induction false} CloseSteps()
    ensures PathStep(6) && PathStep(7) && PathStep(8)
  {
    PollsStuck(false);
  }

  lemma {:induction false} PathReaches(path: nat -> State, labels: seq<Label>)
    requires Initial(path(0))
    requires forall i {:trigger labels[i]} :: 0 <= i < |labels| ==>
               Enabled(path(i), labels[i]) && path(i + 1) == Apply(path(i), labels[i])
    ensures Reachable(path(|labels|))
  {
    var states := seq(|labels| + 1, i requires 0 <= i => path(i));
    assert IsRun(states, labels) && states[|labels|] == path(|labels|);
  }

  lemma {:induction false} AllPathSteps(i: nat)
    requires i < |PATH|
    ensures PathStep(i)
  {
    SpawnSteps();
    LaunchAndFind();
    CloseSteps();
    assert i == 0 || i == 1 || i == 2 || i == 3 || i == 4 || i == 5 || i == 6 || i == 7 || i == 8;
  }

  lemma {:induction false} StuckIsReachable()
    ensures Reachable(Stuck())
  {
    forall i {:trigger PATH[i]} | 0 <= i < |PATH|
      ensures Enabled(PathState(i), PATH[i]) && PathState(i + 1) == Apply(PathState(i), PATH[i])
    {
      AllPathSteps(i);
    }
    PathReaches(PathState, PATH);
  }

  lemma {:induction false} PollsStuck(stop: bool)
    ensures Enabled(InGuest(false, Draining, stop), Poll) && Apply(InGuest(false, Draining, stop), Poll) == Stuck()
  {
    var s := InGuest(false, Draining, stop);
    assert s.slots[1].Some? && InSlot(s, 0);
    assert Apply(s, Poll).threads == Stuck().threads;
  }

  lemma {:induction false} TicksStuck()
    ensures Apply(Stuck(), Tick) == Stuck()
  {
    assert Apply(Stuck(), Tick).threads == Stuck().threads;
  }

  /** In the stuck state the scheduler owes nothing but time and polling. */
  lemma {:induction false} OwedWhenStuck(l: Label)
    requires Owed(l) && Enabled(Stuck(), l)
    ensures l == Poll || l == Tick
  {}

  /** The limit is needed: with none, a reachable draining state goes on for ever in a fair run, because a guest that
      never returns is never stopped. */
  lemma {:induction false} NoLimitNeedNotTerminate() returns (run: Run, labels: Schedule)
    ensures Reachable(run(0)) && IsInfiniteRun(run, labels) && Fair(run, labels)
    ensures forall i: nat :: run(i).phase == Draining && run(i).limit == 0
  {
    StuckIsReachable();
    PollsStuck(true);
    TicksStuck();
    run := (i: nat) => Stuck();
    labels := (i: nat) => if i % 2 == 0 then Poll else Tick;
    forall l: Label, from: nat | Owed(l) && Always(run, l, from) ensures Taken(labels, l, from) {
      assert Enabled(run(from), l);
      OwedWhenStuck(l);
      assert labels(if l == Poll then 2 * from else 2 * from + 1) == l;
    }
  }

  /** From any reachable draining state, every fair run ends. */
  ghost predicate AlwaysEnds(limit: nat) {
    forall run: Run, labels: Schedule {:trigger IsInfiniteRun(run, labels)} ::
      IsInfiniteRun(run, labels) && Fair(run, labels)
      && Reachable(run(0)) && run(0).phase == Draining && run(0).limit == limit
      ==> exists j: nat :: run(j).phase == Destroyed
  }

  /** Teardown is sure to end exactly when there is a time limit. */
  lemma {:induction false} AlwaysEndsIff(limit: nat)
    ensures AlwaysEnds(limit) <==> limit > 0
  {
    if limit == 0 {
      var run, labels := NoLimitNeedNotTerminate();
      assert run(0).limit == 0;
    } else {
      forall run: Run, labels: Schedule | IsInfiniteRun(run, labels) && Fair(run, labels)
        && Reachable(run(0)) && run(0).phase == Draining && run(0).limit == limit
        ensures exists j: nat :: run(j).phase == Destroyed
      {
        var states: seq<State>, past: seq<Label> :| IsRun(states, past) && states[|past|] == run(0);
        RunInv(states, past, |past|);
        var j := TeardownTerminates(run, labels, 0);
      }
    }
  }
}
