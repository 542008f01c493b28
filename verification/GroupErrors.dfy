/** The instance group's error and initialisation under any interleaving of its callers.
    `setError(const char *)` tests and writes under the group lock; `setError(wasmtime_error_t *)` tests before
    taking it. */
module GroupErrors {
  import opened Wrappers

  datatype Message = Constant(id: nat) | Library(id: nat)

  datatype State = State(
    constant: Option<nat>,         // constantErrorMessage
    lib: Option<nat>,              // wtError
    pending: map<nat, nat>,        // callers between the unlocked test and the locked write of a library error
    hadInit: bool,
    lock: Option<nat>,             // held over several steps only by a caller inside `wasiInit`
    inside: bool,                  // that caller is running `_initialize`
    entered: nat)                  // how often `_initialize` has been entered

  datatype Label =
    | SetConstant(a: nat, id: nat)
    | TestLibrary(a: nat, id: nat)
    | StoreLibrary(a: nat)
    | InitRefused(a: nat, id: nat)     // an error already, or initialised already (which is itself an error)
    | InitBegin(a: nat)
    | EnterInitialize(a: nat)
    | InitFails(a: nat, id: nat)
    | InitDone(a: nat)

  ghost predicate Initial(s: State) {
    s == State(None, None, map[], false, None, false, 0)
  }

  predicate HasError(s: State) { s.constant.Some? || s.lib.Some? }

  /** `error()`: the constant message wins. */
  function Reported(s: State): Option<Message> {
    if s.constant.Some? then Some(Constant(s.constant.value))
    else if s.lib.Some? then Some(Library(s.lib.value)) else None
  }

  /** The lock is recursive: its holder may take it again. */
  predicate CanLock(s: State, a: nat) { s.lock == None || s.lock == Some(a) }

  predicate Enabled(s: State, l: Label) {
    match l
    case SetConstant(a, _) => CanLock(s, a)
    case TestLibrary(a, _) => a !in s.pending
    case StoreLibrary(a) => a in s.pending && CanLock(s, a)
    case InitRefused(a, _) => s.lock == None && (HasError(s) || s.hadInit)
    case InitBegin(a) => s.lock == None && !HasError(s) && !s.hadInit
    case EnterInitialize(a) => s.lock == Some(a) && !s.inside
    case InitFails(a, _) => s.lock == Some(a)
    case InitDone(a) => s.lock == Some(a)
  }

  function WithConstant(s: State, id: nat): State {
    if HasError(s) then s else s.(constant := Some(id))
  }

  function Apply(s: State, l: Label): State
    requires Enabled(s, l)
  {
    match l
    case SetConstant(a, id) => WithConstant(s, id)
    case TestLibrary(a, id) => if HasError(s) then s else s.(pending := s.pending[a := id])
    case StoreLibrary(a) => s.(lib := Some(s.pending[a]), pending := s.pending - {a})
    case InitRefused(a, id) => WithConstant(s, id)
    case InitBegin(a) => s.(lock := Some(a))
    case EnterInitialize(a) => s.(inside := true, entered := s.entered + 1)
    case InitFails(a, id) => WithConstant(s, id).(lock := None, inside := false)
    case InitDone(a) => s.(lock := None, inside := false, hadInit := true)
  }

  ghost predicate Inv(s: State) {
    && (s.inside ==> s.lock.Some?)
    && (s.lock.Some? ==> !s.hadInit)
    && s.entered <= 1
    && (s.entered == 1 ==> s.inside || s.hadInit || HasError(s))
    && (s.inside ==> s.entered == 1)
    && (s.lock.Some? && !s.inside ==> s.entered == 0)
  }

  lemma {:induction false} StepInv(s: State, l: Label)
    requires Inv(s) && Enabled(s, l)
    ensures Inv(Apply(s, l))
    ensures HasError(s) ==> HasError(Apply(s, l))
  {}

  // ---- Runs

  ghost predicate IsRun(states: seq<State>, labels: seq<Label>) {
    && |states| == |labels| + 1 && Initial(states[0])
    && forall i :: 0 <= i < |labels| ==> Enabled(states[i], labels[i]) && states[i + 1] == Apply(states[i], labels[i])
  }

  lemma {:induction false} RunInv(states: seq<State>, labels: seq<Label>, i: nat)
    requires IsRun(states, labels) && i < |states|
    ensures Inv(states[i])
  {
    if i == 0 {
    } else {
      RunInv(states, labels, i - 1);
      StepInv(states[i - 1], labels[i - 1]);
    }
  }

  /** In every interleaving an error stays an error, and `_initialize` is entered at most once. */
  lemma {:induction false} ErrorStaysInitOnce(states: seq<State>, labels: seq<Label>, i: nat, j: nat)
    requires IsRun(states, labels) && i <= j < |states|
    ensures HasError(states[i]) ==> HasError(states[j])
    ensures states[i].entered <= states[j].entered <= 1
  {
    RunInv(states, labels, j);
    if i == j {
    } else {
      ErrorStaysInitOnce(states, labels, i, j - 1);
      RunInv(states, labels, j - 1);
      StepInv(states[j - 1], labels[j - 1]);
    }
  }

  /** After an error or a finished initialisation, `_initialize` is not entered any more. */
  lemma {:induction false} EnteredInOrder(states: seq<State>, labels: seq<Label>, i: nat)
    requires IsRun(states, labels) && i < |labels| && labels[i].EnterInitialize?
    ensures states[i].entered == 0 && !states[i].hadInit
  {
    RunInv(states, labels, i);
  }

  /** The message a step carries, if it is one that records an error. */
  function Carried(s: State, l: Label): Option<Message>
    requires Enabled(s, l)
  {
    match l
    case SetConstant(_, id) => Some(Constant(id))
    case StoreLibrary(a) => Some(Library(s.pending[a]))
    case InitRefused(_, id) => Some(Constant(id))
    case InitFails(_, id) => Some(Constant(id))
    case _ => None
  }

  /** An error-free group reports nothing; the step that records its first error makes that the message reported, and
      no other step makes an error. */
  lemma {:induction false} FirstErrorIsReported(s: State, l: Label)
    requires Enabled(s, l) && !HasError(s)
    ensures Reported(s) == None && Reported(Apply(s, l)) == Carried(s, l)
    ensures HasError(Apply(s, l)) <==> Carried(s, l).Some?
  {}

  // ---- The first message

  /** The only step that can replace a reported message: a library error landing on another one. */
  lemma {:induction false} MessageChangesIff(s: State, l: Label)
    requires Enabled(s, l) && HasError(s)
    ensures Reported(Apply(s, l)) != Reported(s) <==>
              l.StoreLibrary? && s.constant == None && s.pending[l.a] != s.lib.value
  {}

  /** Library errors do not overlap: at most one caller is between its test and its write. */
  ghost predicate NoOverlap(s: State) {
    forall a, b :: a in s.pending && b in s.pending ==> a == b
  }

  lemma {:induction false} PendingMeansUnset(states: seq<State>, labels: seq<Label>, i: nat)
    requires IsRun(states, labels) && i < |states|
    requires forall k :: 0 <= k <= i ==> NoOverlap(states[k])
    ensures states[i].pending != map[] ==> states[i].lib == None
  {
    if i == 0 {
    } else {
      PendingMeansUnset(states, labels, i - 1);
      var s, l := states[i - 1], labels[i - 1];
      assert NoOverlap(s);
      if l.StoreLibrary? {
        assert forall b :: b in s.pending ==> b == l.a;
        assert s.pending - {l.a} == map[];
      } else if l.TestLibrary? && !HasError(s) {
        assert l.a in states[i].pending;
      }
    }
  }

  /** When they do not overlap, the first message is the one reported ever after. */
  lemma {:induction false} FirstMessageStays(states: seq<State>, labels: seq<Label>, i: nat, j: nat)
    requires IsRun(states, labels) && i <= j < |states| && HasError(states[i])
    requires forall k :: 0 <= k <= j ==> NoOverlap(states[k])
    ensures Reported(states[j]) == Reported(states[i])
  {
    if i == j {
    } else {
      FirstMessageStays(states, labels, i, j - 1);
      ErrorStaysInitOnce(states, labels, i, j - 1);
      PendingMeansUnset(states, labels, j - 1);
      MessageChangesIff(states[j - 1], labels[j - 1]);
    }
  }

  /** When two do overlap the first message can be lost. */
  lemma {:induction false} OverlapCanLoseFirst() returns (states: seq<State>, labels: seq<Label>)
    ensures IsRun(states, labels) && |states| == 5
    ensures HasError(states[3]) && Reported(states[4]) != Reported(states[3])
  {
    var s0 := State(None, None, map[], false, None, false, 0);
    labels := [TestLibrary(0, 10), TestLibrary(1, 11), StoreLibrary(0), StoreLibrary(1)];
    var s1 := Apply(s0, labels[0]);
    var s2 := Apply(s1, labels[1]);
    var s3 := Apply(s2, labels[2]);
    assert 1 in s3.pending;
    states := [s0, s1, s2, s3, Apply(s3, labels[3])];
  }
}
