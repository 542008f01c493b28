/** Host functions in instances' tables: one set of template indices has to mean the same host method everywhere. */
module HostTable {

  /** What a function-table slot holds: the guest's own code, or the wrapper of the k-th registered host method. */
  datatype Entry = GuestFn(id: nat) | HostFn(method_: nat)

  /** The registrations of `addHostFunctions`, in order. */
  const METHODS: nat := 41

  /** `-1` after the cut to `uint32_t` that both pointer widths go through. */
  const CUT: nat := 0xFFFF_FFFF

  datatype Attempt = Attempt(table: seq<Entry>, fails: seq<bool>)
  datatype Outcome = Outcome(templates: seq<nat>, table: seq<Entry>, ok: bool)

  /** An instance to register on, and which of its registrations meet a group error or a table that cannot grow. */
  ghost predicate AttemptOk(a: Attempt) {
    |a.fails| == METHODS && |a.table| + METHODS <= CUT
  }

  function IndexOf(table: seq<Entry>, fail: bool): nat { if fail then CUT else |table| }

  function Grown(table: seq<Entry>, k: nat, fail: bool): seq<Entry> { if fail then table else table + [HostFn(k)] }

  /** `registerHost` for method `k`: the template is overwritten first, the tests come after. */
  function Accepted(prev: nat, index: nat, wide: bool): bool {
    (wide || index != CUT) && (prev == 0 || index == prev)
  }

  /** Registrations from the k-th on; the first refusal ends the attempt. */
  function AddFrom(templates: seq<nat>, table: seq<Entry>, fails: seq<bool>, wide: bool, k: nat): (r: Outcome)
    requires |templates| == METHODS == |fails| && k <= METHODS
    ensures |r.templates| == METHODS
    decreases METHODS - k
  {
    if k == METHODS then Outcome(templates, table, true) else
      var index := IndexOf(table, fails[k]);
      var templates', table' := templates[k := index], Grown(table, k, fails[k]);
      if !Accepted(templates[k], index, wide) then Outcome(templates', table', false)
      else AddFrom(templates', table', fails, wide, k + 1)
  }

  class Instance {
    var table: seq<Entry>

    constructor (table: seq<Entry>)
      ensures this.table == table
    {
      this.table := table;
    }

    /** `registerHostGeneric`: one more table entry, or `-1`. */
    method RegisterHostGeneric(k: nat, fail: bool) returns (index: int)
      modifies this
      ensures table == Grown(old(table), k, fail)
      ensures index == if fail then -1 else |old(table)|
    {
      if fail { return -1; }
      index := |table|;
      table := table + [HostFn(k)];
    }
  }

  class WclapModule {
    const wide: bool             // wasm64
    var templates: seq<nat>
    var hasError: bool

    constructor (wide: bool)
      ensures this.wide == wide && templates == seq(METHODS, _ => 0) && !hasError
    {
      this.wide, templates, hasError := wide, seq(METHODS, _ => 0), false;
    }

    method RegisterHost(instance: Instance, k: nat, fail: bool) returns (ok: bool)
      requires |templates| == METHODS && k < METHODS && |instance.table| + 1 <= CUT
      modifies this, instance
      ensures templates == old(templates)[k := IndexOf(old(instance.table), fail)]
      ensures instance.table == Grown(old(instance.table), k, fail)
      ensures ok == Accepted(old(templates[k]), IndexOf(old(instance.table), fail), wide)
      ensures hasError == (old(hasError) || !ok)
    {
      var prevIndex := templates[k];
      var raw := instance.RegisterHostGeneric(k, fail);
      var index: nat := raw % 0x1_0000_0000;
      templates := templates[k := index];
      var failure := if wide then 0xFFFF_FFFF_FFFF_FFFF else 0xFFFF_FFFF;
      if index == failure {
        hasError := true;
        return false;
      }
      if prevIndex != 0 && index != prevIndex {
        hasError := true;
        return false;
      }
      return true;
    }

    method AddHostFunctions(instance: Instance, fails: seq<bool>) returns (ok: bool)
      requires |templates| == METHODS && AttemptOk(Attempt(instance.table, fails))
      modifies this, instance
      ensures Outcome(templates, instance.table, ok) == AddFrom(old(templates), old(instance.table), fails, wide, 0)
      ensures |templates| == METHODS && hasError == (old(hasError) || !ok)
    {
      var k := 0;
      while k < METHODS
        invariant 0 <= k <= METHODS && |templates| == METHODS && |instance.table| + (METHODS - k) <= CUT
        invariant AddFrom(templates, instance.table, fails, wide, k)
               == AddFrom(old(templates), old(instance.table), fails, wide, 0)
        invariant hasError == old(hasError)
      {
        ok := RegisterHost(instance, k, fails[k]);
        if !ok { return; }
        k := k + 1;
      }
      ok := true;
    }
  }

  // ---- One attempt

  /** `table[i]` is the wrapper of method `k`. */
  ghost predicate Resolves(table: seq<Entry>, i: nat, k: nat) { i < |table| && table[i] == HostFn(k) }

  ghost predicate AllResolve(table: seq<Entry>, templates: seq<nat>) {
    |templates| == METHODS && forall k :: 0 <= k < METHODS ==> Resolves(table, templates[k], k)
  }

  ghost predicate NoFails(a: Attempt) { forall k :: 0 <= k < |a.fails| ==> !a.fails[k] }

  function Run(templates: seq<nat>, a: Attempt, wide: bool): Outcome
    requires |templates| == METHODS == |a.fails|
  {
    AddFrom(templates, a.table, a.fails, wide, 0)
  }

  /** From the k-th registration on, an attempt without failures succeeds exactly when every template still to come is
      unset or already holds the index it is going to get; and then it puts that index there. */
  lemma {:induction false} AddFromIff(templates: seq<nat>, table: seq<Entry>, fails: seq<bool>, wide: bool, k: nat)
    requires |templates| == METHODS == |fails| && k <= METHODS && |table| + (METHODS - k) <= CUT
    requires forall i :: k <= i < METHODS ==> !fails[i]
    ensures var r := AddFrom(templates, table, fails, wide, k);
            && (r.ok <==> forall i :: k <= i < METHODS ==> templates[i] == 0 || templates[i] == |table| + (i - k))
            && (r.ok ==> (forall i :: 0 <= i < k ==> r.templates[i] == templates[i])
                         && (forall i :: k <= i < METHODS ==> r.templates[i] == |table| + (i - k)))
    decreases METHODS - k
  {
    if k == METHODS {
    } else {
      var t' := templates[k := |table|];
      AddFromIff(t', table + [HostFn(k)], fails, wide, k + 1);
      assert forall i :: k + 1 <= i < METHODS ==> t'[i] == templates[i];
    }
  }

  /** The wrappers of the methods from the k-th on, in order. */
  ghost function WrappersFrom(k: nat): (ws: seq<Entry>)
    requires k <= METHODS
    ensures |ws| == METHODS - k && forall i :: 0 <= i < |ws| ==> ws[i] == HostFn(k + i)
  {
    seq(METHODS - k, i requires 0 <= i => HostFn(k + i))
  }

  /** And its table grows by the wrappers. */
  lemma {:induction false} AddFromTable(templates: seq<nat>, table: seq<Entry>, fails: seq<bool>, wide: bool, k: nat)
    requires |templates| == METHODS == |fails| && k <= METHODS
    requires forall i :: k <= i < METHODS ==> !fails[i]
    ensures var r := AddFrom(templates, table, fails, wide, k);
            r.ok ==> r.table == table + WrappersFrom(k)
    decreases METHODS - k
  {
    if k == METHODS {
    } else {
      AddFromTable(templates[k := |table|], table + [HostFn(k)], fails, wide, k + 1);
      assert table + [HostFn(k)] + WrappersFrom(k + 1) == table + WrappersFrom(k);
    }
  }

  /** On 32-bit guests a success means no registration failed: the cut value is caught. */
  lemma {:induction false} NarrowSuccessHasNoFails(templates: seq<nat>, table: seq<Entry>, fails: seq<bool>, k: nat)
    requires |templates| == METHODS == |fails| && k <= METHODS
    requires AddFrom(templates, table, fails, false, k).ok
    ensures forall i :: k <= i < METHODS ==> !fails[i]
    decreases METHODS - k
  {
    if k == METHODS {
    } else {
      var index := IndexOf(table, fails[k]);
      NarrowSuccessHasNoFails(templates[k := index], Grown(table, k, fails[k]), fails, k + 1);
    }
  }

  /** The scope of the claim: a 32-bit guest, or no failure met. */
  ghost predicate InScope(a: Attempt, wide: bool) { AttemptOk(a) && (!wide || NoFails(a)) }

  ghost predicate Unset(templates: seq<nat>) {
    |templates| == METHODS && forall k :: 0 <= k < METHODS ==> templates[k] == 0
  }

  /** Templates as left by a first success on a table of `size` entries. */
  ghost predicate SetAt(templates: seq<nat>, size: nat) {
    |templates| == METHODS && forall k :: 0 <= k < METHODS ==> templates[k] == size + k
  }

  /** Any success in scope, whatever the templates were before it, puts them at its own table's size and makes each
      resolve to its method there. */
  lemma {:induction false} SuccessSets(templates: seq<nat>, a: Attempt, wide: bool)
    requires |templates| == METHODS && InScope(a, wide) && Run(templates, a, wide).ok
    ensures SetAt(Run(templates, a, wide).templates, |a.table|)
    ensures AllResolve(Run(templates, a, wide).table, Run(templates, a, wide).templates)
  {
    if !wide { NarrowSuccessHasNoFails(templates, a.table, a.fails, 0); }
    AddFromIff(templates, a.table, a.fails, wide, 0);
    TableHolds(templates, a, wide);
    SetResolves(Run(templates, a, wide).table, a.table, Run(templates, a, wide).templates);
  }

  lemma {:induction false} SetResolves(table: seq<Entry>, own: seq<Entry>, templates: seq<nat>)
    requires TableOfWrappers(table, own) && SetAt(templates, |own|)
    ensures AllResolve(table, templates)
  {
    forall k | 0 <= k < METHODS ensures Resolves(table, templates[k], k) {
      assert table[|own| + k] == WrappersFrom(0)[k];
    }
  }

  /** No registration from the k-th on fails, and each gets the index its template already holds. */
  ghost predicate Repeats(templates: seq<nat>, table: seq<Entry>, fails: seq<bool>, k: nat)
    requires |templates| == METHODS == |fails|
  {
    forall i :: k <= i < METHODS ==> !fails[i] && templates[i] == |table| + (i - k)
  }

  lemma {:induction false} RepeatsStep(templates: seq<nat>, table: seq<Entry>, fails: seq<bool>, k: nat)
    requires |templates| == METHODS == |fails| && k < METHODS
    ensures Repeats(templates, table, fails, k)
            <==> !fails[k] && templates[k] == |table| && Repeats(templates, table + [HostFn(k)], fails, k + 1)
  {
    if !fails[k] && templates[k] == |table| && Repeats(templates, table + [HostFn(k)], fails, k + 1) {
      forall i | k <= i < METHODS ensures !fails[i] && templates[i] == |table| + (i - k) {}
    }
  }

  lemma {:induction false} Untouched(templates: seq<nat>, table: seq<Entry>, fails: seq<bool>, wide: bool, k: nat)
    requires |templates| == METHODS == |fails| && k <= METHODS
    ensures forall i :: 0 <= i < k ==> AddFrom(templates, table, fails, wide, k).templates[i] == templates[i]
    decreases METHODS - k
  {
    if k == METHODS {
    } else {
      var index := IndexOf(table, fails[k]);
      Untouched(templates[k := index], Grown(table, k, fails[k]), fails, wide, k + 1);
    }
  }

  /** The templates survive an attempt exactly when it writes into each what is there already. */
  lemma {:induction false} KeptIff(templates: seq<nat>, table: seq<Entry>, fails: seq<bool>, wide: bool, k: nat)
    requires |templates| == METHODS == |fails| && k <= METHODS && |table| + (METHODS - k) <= CUT
    requires forall i :: k <= i < METHODS ==> templates[i] < CUT
    ensures AddFrom(templates, table, fails, wide, k).templates == templates <==> Repeats(templates, table, fails, k)
    ensures Repeats(templates, table, fails, k) ==> AddFrom(templates, table, fails, wide, k).ok
    decreases METHODS - k
  {
    if k == METHODS {
    } else {
      var index := IndexOf(table, fails[k]);
      var templates', table' := templates[k := index], Grown(table, k, fails[k]);
      RepeatsStep(templates, table, fails, k);
      Untouched(templates', table', fails, wide, k + 1);
      if index == templates[k] {
        assert templates' == templates;
        KeptIff(templates, table', fails, wide, k + 1);
      } else {
        assert AddFrom(templates, table, fails, wide, k).templates[k] == index;
      }
    }
  }

  /** Where every template is set, an attempt of either width succeeds exactly when it repeats them. */
  lemma {:induction false} SetSuccessIff(templates: seq<nat>, table: seq<Entry>, fails: seq<bool>, wide: bool, k: nat)
    requires |templates| == METHODS == |fails| && k <= METHODS && |table| + (METHODS - k) <= CUT
    requires forall i :: k <= i < METHODS ==> 0 < templates[i] < CUT
    ensures AddFrom(templates, table, fails, wide, k).ok <==> Repeats(templates, table, fails, k)
    decreases METHODS - k
  {
    if k == METHODS {
    } else {
      var index := IndexOf(table, fails[k]);
      RepeatsStep(templates, table, fails, k);
      if index == templates[k] {
        assert templates[k := index] == templates;
        SetSuccessIff(templates, Grown(table, k, fails[k]), fails, wide, k + 1);
      }
    }
  }

  lemma {:induction false} RepeatsAll(templates: seq<nat>, size: nat, a: Attempt)
    requires SetAt(templates, size) && |a.fails| == METHODS
    ensures Repeats(templates, a.table, a.fails, 0) <==> NoFails(a) && |a.table| == size
  {
    if Repeats(templates, a.table, a.fails, 0) { assert !a.fails[0] && templates[0] == |a.table|; }
  }

  ghost predicate OnlyFirstFails(a: Attempt) {
    a.fails != [] && a.fails[0] && forall k :: 1 <= k < |a.fails| ==> !a.fails[k]
  }

  /** The one failure that index 0, exempt from the mismatch test, lets through: the first table was empty, and the
      cut failure value is taken for an index. */
  ghost predicate SlipsThrough(a: Attempt, size: nat, wide: bool) {
    wide && size == 0 && |a.table| == 1 && OnlyFirstFails(a)
  }

  /** A later attempt, of either width, succeeds exactly when nothing fails and its table has the size the first one
      had - or when a failure slips through at index 0. */
  lemma {:induction false} LaterSuccessIff(templates: seq<nat>, size: nat, a: Attempt, wide: bool)
    requires SetAt(templates, size) && AttemptOk(a) && size + METHODS <= CUT
    ensures Run(templates, a, wide).ok <==> (NoFails(a) && |a.table| == size) || SlipsThrough(a, size, wide)
    ensures NoFails(a) && |a.table| == size ==>
              Run(templates, a, wide).templates == templates && AllResolve(Run(templates, a, wide).table, templates)
  {
    RepeatsAll(templates, size, a);
    KeptIff(templates, a.table, a.fails, wide, 0);
    if NoFails(a) && |a.table| == size { SuccessSets(templates, a, wide); }
    if size > 0 { SetSuccessIff(templates, a.table, a.fails, wide, 0); } else { FirstExempt(templates, a, wide); }
  }

  lemma {:induction false} FirstExempt(templates: seq<nat>, a: Attempt, wide: bool)
    requires SetAt(templates, 0) && AttemptOk(a)
    ensures Run(templates, a, wide).ok <==> (NoFails(a) && |a.table| == 0) || SlipsThrough(a, 0, wide)
  {
    var index, table := IndexOf(a.table, a.fails[0]), Grown(a.table, 0, a.fails[0]);
    var t' := templates[0 := index];
    if Accepted(0, index, wide) {
      SetSuccessIff(t', table, a.fails, wide, 1);
      if Repeats(t', table, a.fails, 1) { assert t'[1] == |table|; }
      assert Run(templates, a, wide).ok <==> Repeats(t', table, a.fails, 1);
    }
  }

  /** A failing attempt goes unnoticed exactly on a 64-bit guest whose templates are unset - a first attempt - or when
      its failure slips through at index 0. */
  lemma {:induction false} FailureUnnoticedIff(templates: seq<nat>, size: nat, a: Attempt, wide: bool)
    requires AttemptOk(a) && !NoFails(a)
    requires Unset(templates) || (SetAt(templates, size) && size + METHODS <= CUT)
    ensures Run(templates, a, wide).ok <==> wide && (Unset(templates) || SlipsThrough(a, size, wide))
  {
    if !Unset(templates) {
      LaterSuccessIff(templates, size, a, wide);
    } else if wide {
      WideAllOk(templates, a.table, a.fails, 0);
    } else if Run(templates, a, false).ok {
      NarrowSuccessHasNoFails(templates, a.table, a.fails, 0);
    }
  }

  /** A first attempt on a 32-bit guest succeeds exactly when nothing fails; on a 64-bit guest it always does. */
  lemma {:induction false} FirstAttemptIff(templates: seq<nat>, a: Attempt, wide: bool)
    requires Unset(templates) && AttemptOk(a)
    ensures Run(templates, a, wide).ok <==> wide || NoFails(a)
  {
    if NoFails(a) {
      AddFromIff(templates, a.table, a.fails, wide, 0);
    } else {
      FailureUnnoticedIff(templates, 0, a, wide);
    }
  }

  /** One such attempt: every registration fails, success is reported, and no template resolves. */
  lemma {:induction false} UnnoticedFailure()
    ensures var a := Attempt([GuestFn(0)], seq(METHODS, _ => true));
            var r := Run(seq(METHODS, _ => 0), a, true);
            r.ok && forall k :: 0 <= k < METHODS ==> !Resolves(r.table, r.templates[k], k)
  {
    var a := Attempt([GuestFn(0)], seq(METHODS, _ => true));
    WideAllOk(seq(METHODS, _ => 0), a.table, a.fails, 0);
  }

  lemma {:induction false} LaterKeeps(templates: seq<nat>, size: nat, a: Attempt, wide: bool)
    requires SetAt(templates, size) && size + METHODS <= CUT && InScope(a, wide) && Run(templates, a, wide).ok
    ensures Run(templates, a, wide).templates == templates && AllResolve(Run(templates, a, wide).table, templates)
  {
    if !wide { NarrowSuccessHasNoFails(templates, a.table, a.fails, 0); }
    LaterSuccessIff(templates, size, a, wide);
    assert !a.fails[0];
  }

  // ---- Any number of instances

  /** Templates after the attempts in turn. */
  function After(templates: seq<nat>, attempts: seq<Attempt>, wide: bool): (r: seq<nat>)
    requires |templates| == METHODS && forall i :: 0 <= i < |attempts| ==> |attempts[i].fails| == METHODS
    ensures |r| == METHODS
    decreases |attempts|
  {
    if attempts == [] then templates
    else Run(After(templates, attempts[..|attempts| - 1], wide), attempts[|attempts| - 1], wide).templates
  }

  /** All attempts so far were in scope and succeeded. */
  ghost predicate AllSucceed(templates: seq<nat>, attempts: seq<Attempt>, wide: bool)
    requires |templates| == METHODS
    decreases |attempts|
  {
    && (forall i :: 0 <= i < |attempts| ==> InScope(attempts[i], wide))
    && (attempts != [] ==>
          AllSucceed(templates, attempts[..|attempts| - 1], wide)
          && Run(After(templates, attempts[..|attempts| - 1], wide), attempts[|attempts| - 1], wide).ok)
  }

  lemma {:induction false} TemplatesSettle(templates: seq<nat>, attempts: seq<Attempt>, wide: bool)
    requires Unset(templates) && attempts != [] && AllSucceed(templates, attempts, wide)
    ensures SetAt(After(templates, attempts, wide), |attempts[0].table|)
    ensures var n := |attempts| - 1;
            AllResolve(Run(After(templates, attempts[..n], wide), attempts[n], wide).table,
                       After(templates, attempts, wide))
    decreases |attempts|
  {
    var n := |attempts| - 1;
    if n == 0 {
      assert attempts[..0] == [];
      SuccessSets(templates, attempts[0], wide);
    } else {
      TemplatesSettle(templates, attempts[..n], wide);
      LaterKeeps(After(templates, attempts[..n], wide), |attempts[0].table|, attempts[n], wide);
    }
  }

  lemma {:induction false} SucceedPrefix(templates: seq<nat>, attempts: seq<Attempt>, wide: bool, i: nat)
    requires |templates| == METHODS && AllSucceed(templates, attempts, wide) && i <= |attempts|
    ensures AllSucceed(templates, attempts[..i], wide)
    decreases |attempts|
  {
    if i < |attempts| {
      assert attempts[..|attempts| - 1][..i] == attempts[..i];
      SucceedPrefix(templates, attempts[..|attempts| - 1], wide, i);
    } else {
      assert attempts[..i] == attempts;
    }
  }

  /** The table of the i-th instance after its own registrations. */
  function TableOf(templates: seq<nat>, attempts: seq<Attempt>, wide: bool, i: nat): seq<Entry>
    requires |templates| == METHODS && i < |attempts|
    requires forall j :: 0 <= j < |attempts| ==> |attempts[j].fails| == METHODS
  {
    Run(After(templates, attempts[..i], wide), attempts[i], wide).table
  }

  lemma {:induction false} SetAtUnique(a: seq<nat>, b: seq<nat>, size: nat)
    requires SetAt(a, size) && SetAt(b, size)
    ensures a == b
  {}

  lemma {:induction false} PrefixSet(templates: seq<nat>, attempts: seq<Attempt>, wide: bool, i: nat)
    requires Unset(templates) && i < |attempts| && AllSucceed(templates, attempts, wide)
    ensures SetAt(After(templates, attempts[..i + 1], wide), |attempts[0].table|)
  {
    SucceedPrefix(templates, attempts, wide, i + 1);
    TemplatesSettle(templates, attempts[..i + 1], wide);
  }

  lemma {:induction false} PrefixTemplates(templates: seq<nat>, attempts: seq<Attempt>, wide: bool, i: nat)
    requires Unset(templates) && i < |attempts| && AllSucceed(templates, attempts, wide)
    ensures After(templates, attempts, wide) == After(templates, attempts[..i + 1], wide)
  {
    TemplatesSettle(templates, attempts, wide);
    PrefixSet(templates, attempts, wide, i);
    SetAtUnique(After(templates, attempts, wide), After(templates, attempts[..i + 1], wide), |attempts[0].table|);
  }

  lemma {:induction false} TableOfPrefix(templates: seq<nat>, attempts: seq<Attempt>, wide: bool, i: nat)
    requires |templates| == METHODS && i < |attempts|
    requires forall j :: 0 <= j < |attempts| ==> |attempts[j].fails| == METHODS
    ensures TableOf(templates, attempts[..i + 1], wide, i) == TableOf(templates, attempts, wide, i)
  {
    assert attempts[..i + 1][..i] == attempts[..i];
  }

  lemma {:induction false} PrefixAgrees(templates: seq<nat>, attempts: seq<Attempt>, wide: bool, i: nat)
    requires Unset(templates) && i < |attempts| && AllSucceed(templates, attempts, wide)
    ensures After(templates, attempts, wide) == After(templates, attempts[..i + 1], wide)
    ensures AllResolve(TableOf(templates, attempts, wide, i), After(templates, attempts, wide))
  {
    PrefixTemplates(templates, attempts, wide, i);
    SucceedPrefix(templates, attempts, wide, i + 1);
    TemplatesSettle(templates, attempts[..i + 1], wide);
    TableOfPrefix(templates, attempts, wide, i);
  }

  /** One set of indices for all instances: whichever instance resolves it, and however its guest has grown its table
      since, template `k` is the wrapper of host method `k`; and no success after the first changes a template. */
  lemma {:induction false} EveryInstanceAgrees(templates: seq<nat>, attempts: seq<Attempt>, wide: bool, i: nat,
                                               later: seq<Entry>, k: nat)
    requires Unset(templates) && i < |attempts| && AllSucceed(templates, attempts, wide) && k < METHODS
    requires TableOf(templates, attempts, wide, i) <= later
    ensures Resolves(later, After(templates, attempts, wide)[k], k)
    ensures After(templates, attempts, wide) == After(templates, attempts[..i + 1], wide)
  {
    PrefixAgrees(templates, attempts, wide, i);
    assert Resolves(TableOf(templates, attempts, wide, i), After(templates, attempts, wide)[k], k);
  }

  // ---- Where the claim stops

  lemma {:induction false} WideAllOk(templates: seq<nat>, table: seq<Entry>, fails: seq<bool>, k: nat)
    requires |templates| == METHODS == |fails| && k <= METHODS
    requires forall i :: k <= i < METHODS ==> templates[i] == 0
    ensures AddFrom(templates, table, fails, true, k).ok
    ensures forall i :: 0 <= i < k ==> AddFrom(templates, table, fails, true, k).templates[i] == templates[i]
    ensures forall i :: k <= i < METHODS && fails[i] ==> AddFrom(templates, table, fails, true, k).templates[i] == CUT
    ensures |AddFrom(templates, table, fails, true, k).table| <= |table| + (METHODS - k)
    decreases METHODS - k
  {
    if k == METHODS {
    } else {
      WideAllOk(templates[k := IndexOf(table, fails[k])], Grown(table, k, fails[k]), fails, k + 1);
    }
  }

  /** For 64-bit guests the failure value is cut to 32 bits and the `-1` test never fires: the first attempt always
      reports success, and its templates resolve exactly when nothing failed. */
  lemma {:induction false} WideFirstAttempt(templates: seq<nat>, a: Attempt)
    requires Unset(templates) && AttemptOk(a)
    ensures Run(templates, a, true).ok
    ensures AllResolve(Run(templates, a, true).table, Run(templates, a, true).templates) <==> NoFails(a)
  {
    WideAllOk(templates, a.table, a.fails, 0);
    if NoFails(a) { SuccessSets(templates, a, true); }
    else {
      var k :| 0 <= k < METHODS && a.fails[k];
      assert !Resolves(Run(templates, a, true).table, CUT, k);
    }
  }

  /** After a first success, an attempt of either width leaves the templates as they are exactly when nothing fails and
      its table has the first one's size: any other has overwritten one by the time it is refused. */
  lemma {:induction false} RefusalOverwrites(templates: seq<nat>, size: nat, a: Attempt, wide: bool)
    requires SetAt(templates, size) && AttemptOk(a) && size + METHODS <= CUT
    ensures Run(templates, a, wide).templates == templates <==> NoFails(a) && |a.table| == size
  {
    RepeatsAll(templates, size, a);
    KeptIff(templates, a.table, a.fails, wide, 0);
  }

  /** One such attempt: a table larger by one entry is refused, and template 0 is already the new index. */
  lemma {:induction false} RefusedAttempt(wide: bool)
    ensures var templates: seq<nat> := seq(METHODS, k => 1 + k);
            var r := Run(templates, Attempt([GuestFn(0), GuestFn(1)], seq(METHODS, _ => false)), wide);
            !r.ok && r.templates == templates[0 := 2]
  {
    var templates: seq<nat> := seq(METHODS, k => 1 + k);
    assert templates[0] == 1;
  }

  ghost predicate Lengths(templates: seq<nat>, attempts: seq<Attempt>) {
    |templates| == METHODS && forall k :: 0 <= k < |attempts| ==> |attempts[k].fails| == METHODS
  }

  /** The i-th attempt, in its turn, is in scope and succeeds; before it the table held the guest's own functions. */
  ghost predicate SucceedsAt(templates: seq<nat>, attempts: seq<Attempt>, wide: bool, i: nat)
    requires Lengths(templates, attempts)
  {
    && i < |attempts| && InScope(attempts[i], wide) && (forall e :: e in attempts[i].table ==> e.GuestFn?)
    && Run(After(templates, attempts[..i], wide), attempts[i], wide).ok
  }

  lemma {:induction false} AfterOneMore(templates: seq<nat>, attempts: seq<Attempt>, wide: bool, j: nat)
    requires Lengths(templates, attempts) && j < |attempts|
    ensures After(templates, attempts[..j + 1], wide)
         == Run(After(templates, attempts[..j], wide), attempts[j], wide).templates
  {
    assert attempts[..j + 1][..j] == attempts[..j];
  }

  /** Refusals in between: whatever the attempts, and whatever the templates at first, those left by the j-th attempt
      mean the same methods in the i-th instance's table exactly when the two tables had the same size. */
  lemma {:induction false} AgreeAcrossRefusals(templates: seq<nat>, attempts: seq<Attempt>, wide: bool, i: nat, j: nat)
    requires Lengths(templates, attempts)
    requires SucceedsAt(templates, attempts, wide, i) && SucceedsAt(templates, attempts, wide, j)
    ensures AllResolve(TableOf(templates, attempts, wide, i), After(templates, attempts[..j + 1], wide))
            <==> |attempts[i].table| == |attempts[j].table|
  {
    AfterOneMore(templates, attempts, wide, j);
    SuccessAgrees(After(templates, attempts[..i], wide), attempts[i],
                  After(templates, attempts[..j], wide), attempts[j], wide);
  }

  lemma {:induction false} SuccessAgrees(t: seq<nat>, a: Attempt, u: seq<nat>, b: Attempt, wide: bool)
    requires |t| == METHODS == |u| && InScope(a, wide) && InScope(b, wide)
    requires Run(t, a, wide).ok && Run(u, b, wide).ok && forall e :: e in a.table ==> e.GuestFn?
    ensures AllResolve(Run(t, a, wide).table, Run(u, b, wide).templates) <==> |a.table| == |b.table|
  {
    SuccessSets(t, a, wide);
    SuccessSets(u, b, wide);
    TableHolds(t, a, wide);
    if |a.table| == |b.table| {
      SetAtUnique(Run(u, b, wide).templates, Run(t, a, wide).templates, |a.table|);
    } else {
      OtherSizeMisses(Run(t, a, wide).table, a.table, |b.table|);
      assert Run(u, b, wide).templates[0] == |b.table|;
    }
  }

  ghost predicate TableOfWrappers(table: seq<Entry>, own: seq<Entry>) { table == own + WrappersFrom(0) }

  lemma {:induction false} OtherSizeMisses(table: seq<Entry>, own: seq<Entry>, size: nat)
    requires TableOfWrappers(table, own) && size != |own| && forall e :: e in own ==> e.GuestFn?
    ensures !Resolves(table, size, 0)
  {
    if size < |own| {
      assert table[size] == own[size] && own[size] in own;
    } else if size < |table| {
      assert table[size] == WrappersFrom(0)[size - |own|];
    }
  }

  /** The table of a success: its own entries, then the wrappers in order. */
  lemma {:induction false} TableHolds(templates: seq<nat>, a: Attempt, wide: bool)
    requires |templates| == METHODS && InScope(a, wide) && Run(templates, a, wide).ok
    ensures TableOfWrappers(Run(templates, a, wide).table, a.table)
  {
    if !wide { NarrowSuccessHasNoFails(templates, a.table, a.fails, 0); }
    AddFromTable(templates, a.table, a.fails, wide, 0);
  }
}
