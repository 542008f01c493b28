/** Guest threads: the spawn hook, the slot vector under one mutex, and the two-stage teardown.
    A transition system with any number of host callers and guest threads.  A critical section that neither blocks
    nor calls out is one step; the spawner's is several, because the thread it creates starts running inside it. */
module GuestThreads {
  import opened Wrappers

  /** The heap object a slot owns.  `owner` is the guest thread it was made for. */
  datatype ThreadObject = ThreadObject(owner: nat, index: nat, arg: nat, instance: nat)

  /** Where a caller is inside `wtWasiThreadSpawn` / `wasiThreadSpawn`. */
  datatype SpawnPc =
    | NotSpawning
    | SawHook(arg: nat)                  // hook and context read, mutex not yet taken
    | Locked(arg: nat)                   // mutex held, slot not chosen
    | Launched(made: ThreadObject)       // the new thread runs, its slot is still empty
    | Assigned(made: ThreadObject)       // slot filled, mutex still held

  /** Where a guest thread is inside `runThread`; `ticks` is what is left before its epoch deadline. */
  datatype Stage = Starting | Running(ticks: nat) | Finishing | Gone

  datatype GuestThread = GuestThread(
    made: ThreadObject,             // the object its spawner built for it
    found: Option<ThreadObject>,    // the object it read out of its slot
    stage: Stage,
    stop: bool,                     // `requestStop` was called on its instance
    spawn: SpawnPc)

  datatype Phase = Open | Closing | Draining | Destroyed

  datatype Who = Host(h: nat) | Guest(t: nat)

  datatype State = State(
    limit: nat,                            // timeLimitEpochs; 0 means no deadline is ever set
    hook: bool,
    phase: Phase,
    slots: seq<Option<ThreadObject>>,
    threads: seq<GuestThread>,
    hosts: seq<SpawnPc>,
    lock: Option<Who>,
    instances: nat)                        // instances started so far, so the next one is new

  datatype Label =
    | ReadHook(who: Who, arg: nat) | Decline(who: Who)
    | Take(who: Who) | Fail(who: Who) | Launch(who: Who) | Assign(who: Who) | Return(who: Who)
    | Find(t: nat) | Finish(t: nat) | Terminate(t: nat) | Extend(t: nat) | Exit(t: nat)
    | Tick
    | BeginClose | ClearHook | Poll

  ghost predicate Initial(s: State) {
    s.hook && s.phase == Open && s.slots == [None] && s.threads == [] && s.lock == None
    && forall h :: 0 <= h < |s.hosts| ==> s.hosts[h] == NotSpawning
  }

  // ---- The slot search

  /** The first empty slot from `from` on, or the length of the vector when there is none. */
  ghost function FirstFree(slots: seq<Option<ThreadObject>>, from: nat): (index: nat)
    requires from <= |slots|
    ensures from <= index <= |slots|
    ensures index < |slots| ==> slots[index] == None
    ensures forall i :: from <= i < index ==> slots[i] != None
    decreases |slots| - from
  {
    if from == |slots| || slots[from] == None then from else FirstFree(slots, from + 1)
  }

  /** The search loop of `wasiThreadSpawn`: never slot 0, and the lowest reusable one. */
  method FindSlot(slots: seq<Option<ThreadObject>>) returns (index: nat)
    requires |slots| >= 1
    ensures index == FirstFree(slots, 1)
  {
    index := |slots|;
    for i := 1 to |slots|
      invariant index == |slots|
      invariant FirstFree(slots, 1) == FirstFree(slots, i)
    {
      if slots[i] == None {
        index := i;
        break;
      }
    }
  }

  // ---- Steps

  ghost predicate Exists(s: State, who: Who) {
    match who
    case Host(h) => h < |s.hosts|
    case Guest(t) => t < |s.threads|
  }

  ghost function Pc(s: State, who: Who): SpawnPc
    requires Exists(s, who)
  {
    match who
    case Host(h) => s.hosts[h]
    case Guest(t) => s.threads[t].spawn
  }

  ghost function SetPc(s: State, who: Who, pc: SpawnPc): State
    requires Exists(s, who)
  {
    match who
    case Host(h) => s.(hosts := s.hosts[h := pc])
    case Guest(t) => s.(threads := s.threads[t := s.threads[t].(spawn := pc)])
  }

  ghost function SetStage(s: State, t: nat, stage: Stage): State
    requires t < |s.threads|
  {
    s.(threads := s.threads[t := s.threads[t].(stage := stage)])
  }

  /** Guest code calls `thread-spawn`: on a host call (only while the module is open), or on a running guest thread. */
  ghost predicate MayCall(s: State, who: Who) {
    Exists(s, who) && Pc(s, who) == NotSpawning
    && match who
       case Host(_) => s.phase == Open
       case Guest(t) => s.threads[t].stage.Running?
  }

  ghost predicate At(s: State, t: nat, stage: Stage) {
    t < |s.threads| && s.threads[t].stage == stage
  }

  ghost predicate Enabled(s: State, l: Label) {
    match l
    case ReadHook(who, _) => MayCall(s, who) && s.hook
    case Decline(who) => MayCall(s, who)        // hook already null, or the module has an error
    case Take(who) => Exists(s, who) && Pc(s, who).SawHook? && s.lock == None
    case Fail(who) => Exists(s, who) && Pc(s, who).Locked?
    case Launch(who) => Exists(s, who) && Pc(s, who).Locked? && |s.slots| >= 1
    case Assign(who) => Exists(s, who) && Pc(s, who).Launched? && Pc(s, who).made.index < |s.slots|
    case Return(who) => Exists(s, who) && Pc(s, who).Assigned?
    case Find(t) => At(s, t, Starting) && s.lock == None && s.threads[t].made.index < |s.slots|
    case Finish(t) => t < |s.threads| && s.threads[t].stage.Running? && s.threads[t].spawn == NotSpawning
    case Terminate(t) => At(s, t, Running(0)) && s.threads[t].spawn == NotSpawning && s.threads[t].stop && s.limit > 0
    case Extend(t) => At(s, t, Running(0)) && s.threads[t].spawn == NotSpawning && !s.threads[t].stop && s.limit > 0
    case Exit(t) => At(s, t, Finishing) && s.lock == None && s.threads[t].made.index < |s.slots|
    case Tick => true
    case BeginClose => s.phase == Open && forall h :: 0 <= h < |s.hosts| ==> s.hosts[h] == NotSpawning
    case ClearHook => s.phase == Closing && s.lock == None
    case Poll => s.phase == Draining && s.lock == None
  }

  ghost function TickThread(th: GuestThread): GuestThread {
    if th.stage.Running? && th.stage.ticks > 0 then th.(stage := Running(th.stage.ticks - 1)) else th
  }

  /** `checkThreadsStopped` asks every thread found in a slot to stop. */
  ghost predicate InSlot(s: State, t: nat) {
    exists i :: 0 <= i < |s.slots| && s.slots[i].Some? && s.slots[i].value.owner == t
  }

  ghost function LaunchStep(s: State, who: Who): State
    requires Exists(s, who) && Pc(s, who).Locked? && |s.slots| >= 1
  {
    var index := FirstFree(s.slots, 1);
    var made := ThreadObject(|s.threads|, index, Pc(s, who).arg, s.instances);
    var grown := if index == |s.slots| then s.slots + [None] else s.slots;
    var s' := SetPc(s, who, Launched(made));
    s'.(slots := grown,
        instances := s.instances + 1,
        threads := s'.threads + [GuestThread(made, None, Starting, false, NotSpawning)])
  }

  ghost function PollStep(s: State): State {
    if forall i :: 0 <= i < |s.slots| ==> s.slots[i] == None then s.(phase := Destroyed)
    else s.(threads := seq(|s.threads|, t requires 0 <= t < |s.threads| =>
                             if InSlot(s, t) then s.threads[t].(stop := true) else s.threads[t]))
  }

  ghost function Apply(s: State, l: Label): State
    requires Enabled(s, l)
  {
    match l
    case ReadHook(who, arg) => SetPc(s, who, SawHook(arg))
    case Decline(who) => s
    case Take(who) => SetPc(s, who, Locked(Pc(s, who).arg)).(lock := Some(who))
    case Fail(who) => SetPc(s, who, NotSpawning).(lock := None)
    case Launch(who) => LaunchStep(s, who)
    case Assign(who) =>
      var made := Pc(s, who).made;
      SetPc(s, who, Assigned(made)).(slots := s.slots[made.index := Some(made)])
    case Return(who) => SetPc(s, who, NotSpawning).(lock := None)
    case Find(t) =>
      var th := s.threads[t];
      s.(threads := s.threads[t := th.(found := s.slots[th.made.index], stage := Running(s.limit))])
    case Finish(t) => SetStage(s, t, Finishing)
    case Terminate(t) => SetStage(s, t, Finishing)
    case Extend(t) => SetStage(s, t, Running(s.limit))
    case Exit(t) => SetStage(s, t, Gone).(slots := s.slots[s.threads[t].made.index := None])
    case Tick => s.(threads := seq(|s.threads|, t requires 0 <= t < |s.threads| => TickThread(s.threads[t])))
    case BeginClose => s.(phase := Closing)
    case ClearHook => s.(hook := false, phase := Draining)
    case Poll => PollStep(s)
  }

  // ---- What every reachable state satisfies

  ghost predicate Live(s: State, t: nat) {
    t < |s.threads| && s.threads[t].stage != Gone
  }

  ghost predicate Holding(pc: SpawnPc) {
    pc.Locked? || pc.Launched? || pc.Assigned?
  }

  ghost predicate Owns(s: State, t: nat)
    requires t < |s.threads|
  {
    var made := s.threads[t].made;
    made.index < |s.slots| && s.slots[made.index] == Some(made)
  }

  /** The spawner of `t` has started it and has not yet filled its slot; it holds the mutex. */
  ghost predicate BeingHandedOver(s: State, t: nat)
    requires t < |s.threads|
  {
    s.lock.Some? && Exists(s, s.lock.value) && Pc(s, s.lock.value) == Launched(s.threads[t].made)
  }

  ghost predicate SlotsOk(s: State) {
    && |s.slots| >= 1 && s.slots[0] == None
    && (forall i :: 0 <= i < |s.slots| && s.slots[i].Some? ==>
          var o := s.slots[i].value;
          o.index == i && Live(s, o.owner) && s.threads[o.owner].made == o)
  }

  ghost predicate ThreadOk(s: State, t: nat)
    requires t < |s.threads|
  {
    var th := s.threads[t];
    && th.made.owner == t && 1 <= th.made.index < |s.slots| && th.made.instance < s.instances
    && (th.stage != Gone ==> Owns(s, t) || BeingHandedOver(s, t))
    && (th.stage == Starting ==> th.found == None)
    && (th.stage != Starting ==> th.found == Some(th.made))
    && (th.spawn != NotSpawning ==> th.stage.Running?)
    && (th.stage.Running? ==> th.stage.ticks <= s.limit)
  }

  ghost predicate ThreadsOk(s: State) {
    && (forall t :: 0 <= t < |s.threads| ==> ThreadOk(s, t))
    && (forall t, u :: 0 <= t < u < |s.threads| ==> s.threads[t].made.instance != s.threads[u].made.instance)
  }

  ghost predicate LockOk(s: State) {
    && (forall who :: Exists(s, who) && Holding(Pc(s, who)) ==> s.lock == Some(who))
    && (s.lock.Some? ==> Exists(s, s.lock.value) && Holding(Pc(s, s.lock.value)))
    && (s.lock.Some? && Pc(s, s.lock.value).Launched? ==>
          var made := Pc(s, s.lock.value).made;
          At(s, made.owner, Starting) && s.threads[made.owner].made == made
          && made.index < |s.slots| && s.slots[made.index] == None)
    && (s.lock.Some? && Pc(s, s.lock.value).Assigned? ==>
          var made := Pc(s, s.lock.value).made;
          made.owner < |s.threads| && s.threads[made.owner].made == made && Owns(s, made.owner))
  }

  ghost predicate PhaseOk(s: State) {
    && (s.phase != Open ==> forall h :: 0 <= h < |s.hosts| ==> s.hosts[h] == NotSpawning)
    && (s.phase == Draining || s.phase == Destroyed ==> !s.hook)
    && (s.phase == Destroyed ==> s.lock == None && forall t :: 0 <= t < |s.threads| ==> s.threads[t].stage == Gone)
  }

  ghost predicate Inv(s: State) {
    SlotsOk(s) && ThreadsOk(s) && LockOk(s) && PhaseOk(s)
  }

  lemma {:induction false} InitialInv(s: State)
    requires Initial(s)
    ensures Inv(s)
  {}

  /** Only a spawner between its lock and its return can hold the mutex, so nobody else moves meanwhile. */
  lemma {:induction false} StepInv(s: State, l: Label)
    requires Inv(s) && Enabled(s, l)
    ensures Inv(Apply(s, l))
  {
    var s' := Apply(s, l);
    match l
    case Launch(who) => LaunchInv(s, who);
    case Poll => PollInv(s);
    case Exit(t) => ExitInv(s, t);
    case Assign(who) => AssignInv(s, who);
    case ReadHook(_, _) => SpawnerInv(s, l);
    case Take(_) => SpawnerInv(s, l);
    case Fail(_) => SpawnerInv(s, l);
    case Return(_) => SpawnerInv(s, l);
    case Find(_) => ThreadInv(s, l);
    case Finish(_) => ThreadInv(s, l);
    case Terminate(_) => ThreadInv(s, l);
    case Extend(_) => ThreadInv(s, l);
    case Tick => ThreadInv(s, l);
    case _ => PhaseInv(s, l);
  }

  lemma {:induction false} PhaseInv(s: State, l: Label)
    requires Inv(s) && Enabled(s, l) && (l.Decline? || l.BeginClose? || l.ClearHook?)
    ensures Inv(Apply(s, l))
  {
    forall t | 0 <= t < |s.threads| ensures ThreadOk(Apply(s, l), t) {
      assert ThreadOk(s, t);
    }
  }

  lemma {:induction false} SpawnerInv(s: State, l: Label)
    requires Inv(s) && Enabled(s, l) && (l.ReadHook? || l.Take? || l.Fail? || l.Return?)
    ensures Inv(Apply(s, l))
  {
    var s' := Apply(s, l);
    if l.who.Guest? { assert ThreadOk(s, l.who.t); }
    PcThreads(s, l.who, Pc(s', l.who), s'.lock);
    PcLock(s, l.who, Pc(s', l.who), s'.lock);
  }

  /** `who` moves between positions where it owns no half-made thread. */
  ghost predicate PcMove(s: State, who: Who, pc: SpawnPc, lock: Option<Who>) {
    && Exists(s, who) && !Pc(s, who).Launched? && !pc.Launched? && !pc.Assigned?
    && (Holding(Pc(s, who)) <==> s.lock == Some(who)) && (Holding(pc) <==> lock == Some(who))
    && (s.lock in {None, Some(who)} || lock == s.lock) && (lock in {None, Some(who)} || lock == s.lock)
    && (who.Guest? ==> s.threads[who.t].stage.Running?)
  }

  lemma {:induction false} PcThreads(s: State, who: Who, pc: SpawnPc, lock: Option<Who>)
    requires Inv(s) && PcMove(s, who, pc, lock)
    ensures ThreadsOk(SetPc(s, who, pc).(lock := lock)) && SlotsOk(SetPc(s, who, pc).(lock := lock))
  {
    var s' := SetPc(s, who, pc).(lock := lock);
    forall t | 0 <= t < |s'.threads| ensures ThreadOk(s', t) {
      assert ThreadOk(s, t);
      assert BeingHandedOver(s, t) ==> BeingHandedOver(s', t);
    }
  }

  lemma {:induction false} PcLock(s: State, who: Who, pc: SpawnPc, lock: Option<Who>)
    requires Inv(s) && PcMove(s, who, pc, lock)
    ensures LockOk(SetPc(s, who, pc).(lock := lock))
  {
    var s' := SetPc(s, who, pc).(lock := lock);
    assert Exists(s', who);
    forall w | Exists(s', w) && w != who ensures Exists(s, w) && Pc(s', w) == Pc(s, w) {}
  }

  lemma {:induction false} ThreadInv(s: State, l: Label)
    requires Inv(s) && Enabled(s, l) && (l.Find? || l.Finish? || l.Terminate? || l.Extend? || l.Tick?)
    ensures Inv(Apply(s, l))
  {
    forall t | 0 <= t < |s.threads| ensures Advances(s, s.threads[t], Apply(s, l).threads[t]) {
      assert ThreadOk(s, t);
    }
    AdvanceInv(s, Apply(s, l));
  }

  /** One thread moving on inside `runThread` without touching a slot. */
  ghost predicate Advances(s: State, th: GuestThread, th': GuestThread) {
    && th'.made == th.made && th'.spawn == th.spawn
    && (th' == th || (th'.stage != Gone && th.stage != Gone && th'.stage != Starting && th'.found == Some(th.made)
                      && (th.spawn == NotSpawning || th'.stage.Running?)
                      && (th'.stage.Running? ==> th'.stage.ticks <= s.limit)
                      && (th.stage == Starting ==> s.lock == None)))
  }

  lemma {:induction false} AdvanceInv(s: State, s': State)
    requires Inv(s) && s' == s.(threads := s'.threads) && |s'.threads| == |s.threads|
    requires forall t :: 0 <= t < |s.threads| ==> Advances(s, s.threads[t], s'.threads[t])
    ensures Inv(s')
  {
    forall w | Exists(s', w) ensures Exists(s, w) && Pc(s', w) == Pc(s, w) {}
    forall t | 0 <= t < |s'.threads| ensures ThreadOk(s', t) {
      assert ThreadOk(s, t) && Advances(s, s.threads[t], s'.threads[t]);
    }
    forall t, u | 0 <= t < u < |s'.threads| ensures s'.threads[t].made.instance != s'.threads[u].made.instance {
      assert Advances(s, s.threads[t], s'.threads[t]) && Advances(s, s.threads[u], s'.threads[u]);
    }
    forall i | 0 <= i < |s'.slots| && s'.slots[i].Some?
      ensures Live(s', s'.slots[i].value.owner) && s'.threads[s'.slots[i].value.owner].made == s'.slots[i].value
    {
      var o := s.slots[i].value;
      assert Advances(s, s.threads[o.owner], s'.threads[o.owner]);
    }
    if s.lock.Some? && !Pc(s, s.lock.value).Locked? {
      var o := Pc(s, s.lock.value).made.owner;
      assert Advances(s, s.threads[o], s'.threads[o]);
    }
  }

  lemma {:induction false} AssignInv(s: State, who: Who)
    requires Inv(s) && Enabled(s, Assign(who))
    ensures Inv(Apply(s, Assign(who)))
  {
    var s' := Apply(s, Assign(who));
    var made := Pc(s, who).made;
    assert s.lock == Some(who);
    assert ThreadOk(s, made.owner);
    forall t | 0 <= t < |s'.threads| ensures ThreadOk(s', t) {
      assert ThreadOk(s, t);
    }
  }

  lemma {:induction false} ExitInv(s: State, t: nat)
    requires Inv(s) && Enabled(s, Exit(t))
    ensures Inv(Apply(s, Exit(t)))
  {
    var s' := Apply(s, Exit(t));
    assert Owns(s, t) by { assert ThreadOk(s, t); }
    forall u | 0 <= u < |s'.threads| ensures ThreadOk(s', u) {
      assert ThreadOk(s, u);
    }
  }

  lemma {:induction false} LaunchInv(s: State, who: Who)
    requires Inv(s) && Enabled(s, Launch(who))
    ensures Inv(Apply(s, Launch(who)))
  {
    LaunchThreads(s, who);
    LaunchLock(s, who);
    LaunchSlots(s, who);
    if who.Guest? { assert ThreadOk(s, who.t); }
  }

  lemma {:induction false} LaunchThreads(s: State, who: Who)
    requires Inv(s) && Enabled(s, Launch(who))
    ensures ThreadsOk(LaunchStep(s, who))
  {
    var s' := LaunchStep(s, who);
    assert s.lock == Some(who);
    forall t | 0 <= t < |s'.threads| ensures ThreadOk(s', t) {
      if t < |s.threads| {
        assert ThreadOk(s, t);
        assert !BeingHandedOver(s, t);
      }
    }
    forall t, u | 0 <= t < u < |s'.threads| ensures s'.threads[t].made.instance != s'.threads[u].made.instance {
      assert ThreadOk(s, t);
    }
  }

  lemma {:induction false} LaunchLock(s: State, who: Who)
    requires Inv(s) && Enabled(s, Launch(who))
    ensures LockOk(LaunchStep(s, who))
  {
    var s' := LaunchStep(s, who);
    assert s.lock == Some(who);
    assert Pc(s', who).Launched?;
    forall w | Exists(s', w) && w != who ensures !Holding(Pc(s', w)) {
      if Exists(s, w) { assert Pc(s', w) == Pc(s, w); }
    }
  }

  lemma {:induction false} LaunchSlots(s: State, who: Who)
    requires Inv(s) && Enabled(s, Launch(who))
    ensures SlotsOk(LaunchStep(s, who))
  {
    var s' := LaunchStep(s, who);
    forall i | 0 <= i < |s'.slots| && s'.slots[i].Some?
      ensures var o := s'.slots[i].value; o.index == i && Live(s', o.owner) && s'.threads[o.owner].made == o
    {
      assert s'.slots[i] == s.slots[i];
    }
  }

  lemma {:induction false} PollInv(s: State)
    requires Inv(s) && Enabled(s, Poll)
    ensures Inv(Apply(s, Poll))
  {
    var s' := Apply(s, Poll);
    forall t | 0 <= t < |s'.threads| ensures ThreadOk(s', t) {
      assert ThreadOk(s, t);
    }
    if s'.phase == Destroyed {
      forall t | 0 <= t < |s.threads| ensures s.threads[t].stage == Gone {
        assert ThreadOk(s, t);
      }
    }
  }

  // ---- Runs

  ghost predicate IsRun(states: seq<State>, labels: seq<Label>) {
    && |states| == |labels| + 1 && Initial(states[0])
    && forall i {:trigger labels[i]} :: 0 <= i < |labels| ==>
         Enabled(states[i], labels[i]) && states[i + 1] == Apply(states[i], labels[i])
  }

  lemma {:induction false} RunInv(states: seq<State>, labels: seq<Label>, i: nat)
    requires IsRun(states, labels) && i < |states|
    ensures Inv(states[i])
  {
    if i == 0 { InitialInv(states[0]); }
    else {
      RunInv(states, labels, i - 1);
      StepInv(states[i - 1], labels[i - 1]);
    }
  }

  /** In every interleaving: slot 0 is empty, and live threads hold distinct indices from 1 up. */
  lemma {:induction false} LiveThreadsHoldDistinctSlots(states: seq<State>, labels: seq<Label>, i: nat, t: nat, u: nat)
    requires IsRun(states, labels) && i < |states|
    requires Live(states[i], t) && Live(states[i], u) && t != u
    ensures |states[i].slots| >= 1 && states[i].slots[0] == None
    ensures 1 <= states[i].threads[t].made.index < |states[i].slots|
    ensures states[i].threads[t].made.index != states[i].threads[u].made.index
    ensures states[i].threads[t].made.instance != states[i].threads[u].made.instance
  {
    var s := states[i];
    RunInv(states, labels, i);
    assert ThreadOk(s, t) && ThreadOk(s, u);
    assert s.threads[if t < u then t else u].made.instance != s.threads[if t < u then u else t].made.instance;
  }

  /** The handoff: a thread that starts before its slot is filled still finds there the object made for it. */
  lemma {:induction false} RunThreadFindsItself(states: seq<State>, labels: seq<Label>, i: nat, t: nat)
    requires IsRun(states, labels) && i < |labels| && labels[i] == Find(t)
    ensures t < |states[i + 1].threads|
    ensures states[i + 1].threads[t].found == Some(states[i].threads[t].made)
    ensures states[i].threads[t].made.owner == t
  {
    RunInv(states, labels, i);
    assert ThreadOk(states[i], t);
  }

  /** What a spawner gets back is the index of the slot that holds the thread it asked for, with its argument. */
  lemma {:induction false} SpawnReturnsSlotIndex(states: seq<State>, labels: seq<Label>, i: nat, who: Who)
    requires IsRun(states, labels) && i < |labels| && labels[i] == Return(who)
    ensures var made := Pc(states[i], who).made;
            1 <= made.index < |states[i + 1].slots| && states[i + 1].slots[made.index] == Some(made)
            && made.owner < |states[i + 1].threads| && states[i + 1].threads[made.owner].made == made
  {
    RunInv(states, labels, i);
    var made := Pc(states[i], who).made;
    assert ThreadOk(states[i], made.owner);
  }

  /** The argument and the fresh instance travel unchanged from the hook to the thread's object. */
  lemma {:induction false} LaunchCarriesArgument(states: seq<State>, labels: seq<Label>, i: nat, who: Who)
    requires IsRun(states, labels) && i < |labels| && labels[i] == Launch(who)
    ensures var made := Pc(states[i + 1], who).made;
            made.arg == Pc(states[i], who).arg && made.owner == |states[i].threads|
            && forall t :: 0 <= t < |states[i].threads| ==> states[i].threads[t].made.instance != made.instance
  {
    RunInv(states, labels, i);
    forall t | 0 <= t < |states[i].threads|
      ensures states[i].threads[t].made.instance != Pc(states[i + 1], who).made.instance
    {
      assert ThreadOk(states[i], t);
    }
  }

  /** The caller a step belongs to, for the steps of a spawn. */
  ghost predicate SpawnStepOf(l: Label, who: Who) {
    match l
    case ReadHook(w, _) => w == who
    case Decline(w) => w == who
    case Take(w) => w == who
    case Fail(w) => w == who
    case Launch(w) => w == who
    case Assign(w) => w == who
    case Return(w) => w == who
    case _ => false
  }

  /** Nobody else's step touches where a caller is in its spawn. */
  lemma {:induction false} OthersKeepPc(s: State, l: Label, who: Who)
    requires Enabled(s, l) && Exists(s, who) && !SpawnStepOf(l, who)
    ensures Exists(Apply(s, l), who) && Pc(Apply(s, l), who) == Pc(s, who)
  {
    if l.Launch? { assert LaunchStep(s, l.who).hosts == SetPc(s, l.who, Pc(LaunchStep(s, l.who), l.who)).hosts; }
  }

  /** Between the hook and the launch a spawner, whatever the others do, carries the argument it read. */
  lemma {:induction false} ArgumentKept(states: seq<State>, labels: seq<Label>, i: nat, k: nat, who: Who, arg: nat)
    requires IsRun(states, labels) && i < k < |states| && labels[i] == ReadHook(who, arg)
    requires forall j :: i < j < k && SpawnStepOf(labels[j], who) ==> labels[j] == Take(who)
    ensures Exists(states[k], who) && Pc(states[k], who) in {SawHook(arg), Locked(arg)}
  {
    if k == i + 1 {
    } else {
      ArgumentKept(states, labels, i, k - 1, who, arg);
      if !SpawnStepOf(labels[k - 1], who) { OthersKeepPc(states[k - 1], labels[k - 1], who); }
    }
  }

  /** The object a thread was made with never changes. */
  lemma {:induction false} MadeStays(states: seq<State>, labels: seq<Label>, i: nat, k: nat, t: nat)
    requires IsRun(states, labels) && i <= k < |states| && t < |states[i].threads|
    ensures t < |states[k].threads| && states[k].threads[t].made == states[i].threads[t].made
  {
    if i == k {
    } else {
      MadeStays(states, labels, i, k - 1, t);
      StepKeepsMade(states[k - 1], labels[k - 1], t);
    }
  }

  lemma {:induction false} StepKeepsMade(s: State, l: Label, t: nat)
    requires Enabled(s, l) && t < |s.threads|
    ensures t < |Apply(s, l).threads| && Apply(s, l).threads[t].made == s.threads[t].made
  {}

  /** The argument that a guest passes to `thread-spawn` is, unchanged, the one in the object its new thread is made
      with, and the one the thread reads out of its slot. */
  lemma {:induction false} ArgumentArrives(states: seq<State>, labels: seq<Label>, i: nat, j: nat, k: nat, who: Who,
                                           arg: nat)
    requires IsRun(states, labels) && i < j < k < |labels|
    requires labels[i] == ReadHook(who, arg) && labels[j] == Launch(who)
    requires forall x :: i < x < j && SpawnStepOf(labels[x], who) ==> labels[x] == Take(who)
    requires labels[k] == Find(|states[j].threads|)
    ensures var t := |states[j].threads|;
            && t < |states[j + 1].threads| && states[j + 1].threads[t].made.arg == arg
            && t < |states[k + 1].threads|
            && states[k + 1].threads[t].found.Some? && states[k + 1].threads[t].found.value.arg == arg
  {
    var t := |states[j].threads|;
    LaunchedArgument(states, labels, i, j, who, arg);
    MadeStays(states, labels, j + 1, k, t);
    RunThreadFindsItself(states, labels, k, t);
  }

  lemma {:induction false} LaunchedArgument(states: seq<State>, labels: seq<Label>, i: nat, j: nat, who: Who, arg: nat)
    requires IsRun(states, labels) && i < j < |labels|
    requires labels[i] == ReadHook(who, arg) && labels[j] == Launch(who)
    requires forall x :: i < x < j && SpawnStepOf(labels[x], who) ==> labels[x] == Take(who)
    ensures var t := |states[j].threads|; t < |states[j + 1].threads| && states[j + 1].threads[t].made.arg == arg
  {
    ArgumentKept(states, labels, i, j, who, arg);
    assert states[j + 1] == LaunchStep(states[j], who);
  }

  /** A launch takes the lowest free slot from 1 on; the vector grows, by one, only when there is none. */
  lemma {:induction false} LaunchReusesFreeSlot(s: State, who: Who)
    requires Enabled(s, Launch(who))
    ensures var s' := Apply(s, Launch(who));
            var index := Pc(s', who).made.index;
            && 1 <= index <= |s.slots| && (forall i :: 1 <= i < index ==> s.slots[i] != None)
            && (index < |s.slots| ==> s.slots[index] == None && s'.slots == s.slots)
            && (index == |s.slots| ==> s'.slots == s.slots + [None])
            && s'.threads[|s.threads|].made.index == index
  {}

  /** Labels that read or write the module: everything but the passing of time. */
  ghost predicate TouchesModule(l: Label) { l != Tick }

  lemma {:induction false} DestroyedIsQuiet(s: State)
    requires Inv(s) && s.phase == Destroyed
    ensures s.lock == None && forall t :: !Live(s, t)
    ensures forall who :: Exists(s, who) ==> Pc(s, who) == NotSpawning
    ensures forall l :: Enabled(s, l) ==> !TouchesModule(l)
    ensures Apply(s, Tick).phase == Destroyed
  {
    forall t: nat | t < |s.threads| ensures s.threads[t].spawn == NotSpawning {
      assert ThreadOk(s, t);
    }
  }

  /** Teardown safety: once the base destructor has left its loop no guest thread is live, nobody is inside a spawn
      or holds the mutex, and no later step touches the module - whatever was in flight when the hook was cleared. */
  lemma {:induction false} TeardownIsSafe(states: seq<State>, labels: seq<Label>, i: nat, j: nat)
    requires IsRun(states, labels) && i <= j < |states| && states[i].phase == Destroyed
    ensures states[j].phase == Destroyed && states[j].lock == None
    ensures forall t :: !Live(states[j], t)
    ensures forall who :: Exists(states[j], who) ==> Pc(states[j], who) == NotSpawning
    ensures j < |labels| ==> !TouchesModule(labels[j])
  {
    RunInv(states, labels, j);
    if i == j {
    } else {
      TeardownIsSafe(states, labels, i, j - 1);
      RunInv(states, labels, j - 1);
      DestroyedIsQuiet(states[j - 1]);
      assert labels[j - 1] == Tick;
    }
    DestroyedIsQuiet(states[j]);
  }

  /** The case the two destructors are split for: a guest that read the hook before it was cleared still gets its
      thread, and from then on the destructor cannot leave its loop while that spawner or its thread is live. */
  lemma {:induction false} LateSpawnKeepsDestructorWaiting(states: seq<State>, labels: seq<Label>, i: nat, t: nat)
    requires IsRun(states, labels) && i < |states| && states[i].phase == Draining
    requires Live(states[i], t)
    ensures Enabled(states[i], Poll) ==> Apply(states[i], Poll).phase == Draining
  {
    RunInv(states, labels, i);
    assert ThreadOk(states[i], t);
  }
}
