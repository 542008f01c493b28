/** Callback routing over whole runs: a struct handed to the guest carries its plugin's list index, and the index leads
    back to that plugin for as long as it lives. */
module Routing {
  import opened Wrappers

  /** The event bracket of a process or flush call: the two structs in guest memory, and the host's output list. */
  datatype EventCall = EventCall(inEvents: nat, outEvents: nat, out: nat)

  /** The stream bracket of a save or load call. */
  datatype StreamCall = StreamCall(struct_: nat, stream: nat, reading: bool)

  datatype Plugin = Plugin(
    index: nat,                          // pluginListIndex
    hostPtr: nat,                        // its wclap_host in guest memory
    live: bool,
    events: Option<EventCall>,           // hostOutputEvents is set exactly while there is one
    stream: Option<StreamCall>)          // hostIstream or hostOstream

  /** Something a callback handed to a host object. */
  datatype Delivery = ToEvents(plugin: nat, out: nat, event: nat) | ToStream(plugin: nat, stream: nat, reading: bool)

  datatype State = State(
    lookup: seq<Option<nat>>,            // pluginList
    contexts: map<nat, nat>,             // the context words of structs in guest memory
    plugins: seq<Plugin>,                // every plugin ever created
    delivered: seq<Delivery>)

  datatype Label =
    | Create(hostPtr: nat)
    | Destroy(p: nat)
    | BeginEvents(p: nat, call: EventCall)
    | EndEvents(p: nat)
    | BeginStream(p: nat, streamCall: StreamCall)
    | EndStream(p: nat)
    | TryPush(struct_: nat, event: nat)
    | StreamAccess(struct_: nat, reading: bool)
    | GuestStore(address: nat, value: nat)

  ghost predicate Initial(s: State) { s == State([], map[], [], []) }

  // ---- Structs in force

  predicate InForce(p: Plugin, a: nat) {
    p.live && (a == p.hostPtr
               || (p.events.Some? && (a == p.events.value.inEvents || a == p.events.value.outEvents))
               || (p.stream.Some? && a == p.stream.value.struct_))
  }

  /** Memory the arenas may hand out next: no struct in force lies there. */
  ghost predicate Free(s: State, a: nat) {
    forall p :: 0 <= p < |s.plugins| ==> !InForce(s.plugins[p], a)
  }

  predicate LiveAt(s: State, p: nat) { p < |s.plugins| && s.plugins[p].live }

  // ---- Lookup

  /** `retain` reuses the first empty entry. */
  function FreeIndex(lookup: seq<Option<nat>>, from: nat): (i: nat)
    requires from <= |lookup|
    ensures from <= i <= |lookup| && (i < |lookup| ==> lookup[i] == None)
    decreases |lookup| - from
  {
    if from == |lookup| || lookup[from] == None then from else FreeIndex(lookup, from + 1)
  }

  function Retain(lookup: seq<Option<nat>>, p: nat): seq<Option<nat>> {
    var i := FreeIndex(lookup, 0);
    if i == |lookup| then lookup + [Some(p)] else lookup[i := Some(p)]
  }

  /** `getPlugin`: context word, then list entry. */
  function Target(s: State, struct_: nat): Option<nat> {
    if struct_ in s.contexts && s.contexts[struct_] < |s.lookup| then s.lookup[s.contexts[struct_]] else None
  }

  // ---- Steps

  ghost predicate Enabled(s: State, l: Label) {
    match l
    case Create(hostPtr) => Free(s, hostPtr)
    case Destroy(p) => LiveAt(s, p) && s.plugins[p].events == None && s.plugins[p].stream == None
                       && s.plugins[p].index < |s.lookup|
    case BeginEvents(p, call) => LiveAt(s, p) && s.plugins[p].events == None
                                 && Free(s, call.inEvents) && Free(s, call.outEvents) && call.inEvents != call.outEvents
    case EndEvents(p) => LiveAt(s, p) && s.plugins[p].events.Some?
    case BeginStream(p, call) => LiveAt(s, p) && s.plugins[p].stream == None && Free(s, call.struct_)
    case EndStream(p) => LiveAt(s, p) && s.plugins[p].stream.Some?
    case TryPush(_, _) => true
    case StreamAccess(_, _) => true
    case GuestStore(a, _) => Free(s, a)            // guests do not overwrite the contexts they were given
  }

  function SetPlugin(s: State, p: nat, plugin: Plugin): State
    requires p < |s.plugins|
  {
    s.(plugins := s.plugins[p := plugin])
  }

  /** `outputEventsTryPush` of the plugin the struct leads to. */
  function PushStep(s: State, struct_: nat, event: nat): State {
    var t := Target(s, struct_);
    if t.Some? && t.value < |s.plugins| && s.plugins[t.value].events.Some?
    then s.(delivered := s.delivered + [ToEvents(t.value, s.plugins[t.value].events.value.out, event)])
    else s
  }

  /** `istreamRead` / `ostreamWrite` of the plugin the struct leads to. */
  function StreamStep(s: State, struct_: nat, reading: bool): State {
    var t := Target(s, struct_);
    if t.Some? && t.value < |s.plugins|
       && s.plugins[t.value].stream.Some? && s.plugins[t.value].stream.value.reading == reading
    then s.(delivered := s.delivered + [ToStream(t.value, s.plugins[t.value].stream.value.stream, reading)])
    else s
  }

  function Apply(s: State, l: Label): State
    requires Enabled(s, l)
  {
    match l
    case Create(hostPtr) =>
      var index := FreeIndex(s.lookup, 0);
      s.(lookup := Retain(s.lookup, |s.plugins|),
         contexts := s.contexts[hostPtr := index],
         plugins := s.plugins + [Plugin(index, hostPtr, true, None, None)])
    case Destroy(p) =>
      SetPlugin(s, p, s.plugins[p].(live := false)).(lookup := s.lookup[s.plugins[p].index := None])
    case BeginEvents(p, call) =>
      SetPlugin(s, p, s.plugins[p].(events := Some(call)))
        .(contexts := s.contexts[call.inEvents := s.plugins[p].index][call.outEvents := s.plugins[p].index])
    case EndEvents(p) => SetPlugin(s, p, s.plugins[p].(events := None))
    case BeginStream(p, call) =>
      SetPlugin(s, p, s.plugins[p].(stream := Some(call)))
        .(contexts := s.contexts[call.struct_ := s.plugins[p].index])
    case EndStream(p) => SetPlugin(s, p, s.plugins[p].(stream := None))
    case TryPush(struct_, event) => PushStep(s, struct_, event)
    case StreamAccess(struct_, reading) => StreamStep(s, struct_, reading)
    case GuestStore(a, v) => s.(contexts := s.contexts[a := v])
  }

  // ---- The invariant

  ghost predicate PluginOk(s: State, p: nat)
    requires p < |s.plugins|
  {
    var plugin := s.plugins[p];
    && (plugin.live ==> plugin.index < |s.lookup| && s.lookup[plugin.index] == Some(p))
    && (!plugin.live ==> plugin.events == None && plugin.stream == None)
    && forall a :: InForce(plugin, a) ==> a in s.contexts && s.contexts[a] == plugin.index
  }

  ghost predicate Inv(s: State) {
    && (forall p :: 0 <= p < |s.plugins| ==> PluginOk(s, p))
    && (forall i :: 0 <= i < |s.lookup| && s.lookup[i].Some? ==>
          LiveAt(s, s.lookup[i].value) && s.plugins[s.lookup[i].value].index == i)
  }

  lemma {:induction false} StepInv(s: State, l: Label)
    requires Inv(s) && Enabled(s, l)
    ensures Inv(Apply(s, l))
  {
    var s' := Apply(s, l);
    if l.Destroy? { assert PluginOk(s, l.p); }
    forall p | 0 <= p < |s'.plugins| ensures PluginOk(s', p) {
      if p < |s.plugins| {
        assert PluginOk(s, p);
        assert s'.contexts.Keys >= s.contexts.Keys;
        forall a | InForce(s'.plugins[p], a) ensures a in s'.contexts && s'.contexts[a] == s'.plugins[p].index {}
      }
    }
  }

  // ---- Runs

  ghost predicate IsRun(states: seq<State>, labels: seq<Label>) {
    && |states| == |labels| + 1 && Initial(states[0])
    && forall i :: 0 <= i < |labels| ==> Enabled(states[i], labels[i]) && states[i + 1] == Apply(states[i], labels[i])
  }

  lemma {:induction false} RunInv(states: seq<State>, labels: seq<Label>, i: nat)
    requires IsRun(states, labels) && i < |states|
    ensures Inv(states[i])
  {
    if i == 0 {
    } else {
      RunInv(states, labels, i - 1);
      StepInv(states[i - 1], labels[i - 1]);
    }
  }

  /** Over any run, a callback through a struct in force for a live plugin reaches that plugin and no other. */
  lemma {:induction false} CallbackReachesItsPlugin(states: seq<State>, labels: seq<Label>, i: nat, p: nat,
                                                    struct_: nat)
    requires IsRun(states, labels) && i < |states| && LiveAt(states[i], p) && InForce(states[i].plugins[p], struct_)
    ensures Target(states[i], struct_) == Some(p)
    ensures forall q :: 0 <= q < |states[i].plugins| && q != p ==> !InForce(states[i].plugins[q], struct_)
  {
    RunInv(states, labels, i);
    assert PluginOk(states[i], p);
    forall q | 0 <= q < |states[i].plugins| && q != p ensures !InForce(states[i].plugins[q], struct_) {
      assert PluginOk(states[i], q);
    }
  }

  /** A plugin's list index is its own while it lives, however often indices are reused. */
  lemma {:induction false} LiveIndicesDiffer(states: seq<State>, labels: seq<Label>, i: nat, p: nat, q: nat)
    requires IsRun(states, labels) && i < |states| && LiveAt(states[i], p) && LiveAt(states[i], q) && p != q
    ensures states[i].plugins[p].index != states[i].plugins[q].index
  {
    RunInv(states, labels, i);
    assert PluginOk(states[i], p) && PluginOk(states[i], q);
  }

  /** A pushed event goes to the output list of the current call of the plugin whose struct was used, or nowhere. */
  lemma {:induction false} PushGoesToCurrentCall(states: seq<State>, labels: seq<Label>, i: nat, p: nat)
    requires IsRun(states, labels) && i < |labels| && labels[i].TryPush?
    requires LiveAt(states[i], p) && InForce(states[i].plugins[p], labels[i].struct_)
    ensures states[i + 1].delivered
         == states[i].delivered + (if states[i].plugins[p].events.Some?
                                   then [ToEvents(p, states[i].plugins[p].events.value.out, labels[i].event)] else [])
  {
    CallbackReachesItsPlugin(states, labels, i, p, labels[i].struct_);
  }

  /** A read or write through a stream struct goes to the stream of the plugin's current load or save, or nowhere. */
  lemma {:induction false} AccessGoesToCurrentStream(states: seq<State>, labels: seq<Label>, i: nat, p: nat)
    requires IsRun(states, labels) && i < |labels| && labels[i].StreamAccess?
    requires LiveAt(states[i], p) && InForce(states[i].plugins[p], labels[i].struct_)
    ensures var stream := states[i].plugins[p].stream;
            states[i + 1].delivered
            == states[i].delivered + (if stream.Some? && stream.value.reading == labels[i].reading
                                      then [ToStream(p, stream.value.stream, labels[i].reading)] else [])
  {
    CallbackReachesItsPlugin(states, labels, i, p, labels[i].struct_);
  }

  /** At step `i` the delivery was to an object of a call that plugin was in. */
  ghost predicate DeliveredDuringCall(s: State, d: Delivery) {
    LiveAt(s, d.plugin) &&
    match d
    case ToEvents(p, out, _) => s.plugins[p].events.Some? && s.plugins[p].events.value.out == out
    case ToStream(p, stream, reading) =>
      var call := s.plugins[p].stream;
      call.Some? && call.value.stream == stream && call.value.reading == reading
  }

  lemma {:induction false} DeliveryStep(s: State, l: Label)
    requires Inv(s) && Enabled(s, l)
    ensures var d, d' := s.delivered, Apply(s, l).delivered;
            d' == d || (|d'| == |d| + 1 && d'[..|d|] == d && (l.TryPush? || l.StreamAccess?)
                        && DeliveredDuringCall(s, d'[|d|]))
  {
    if (l.TryPush? || l.StreamAccess?) && Target(s, l.struct_).Some? { assert LiveAt(s, Target(s, l.struct_).value); }
  }

  /** Everything ever delivered was delivered inside the matching call of a live plugin, never outside one - also when
      the guest kept a struct after its call or its plugin was gone. */
  lemma {:induction false} NothingDeliveredOutsideCalls(states: seq<State>, labels: seq<Label>, j: nat, k: nat)
    returns (i: nat)
    requires IsRun(states, labels) && j < |states| && k < |states[j].delivered|
    ensures i < j && (labels[i].TryPush? || labels[i].StreamAccess?)
    ensures |states[i].delivered| == k && DeliveredDuringCall(states[i], states[j].delivered[k])
  {
    assert j > 0;
    var s, l := states[j - 1], labels[j - 1];
    RunInv(states, labels, j - 1);
    DeliveryStep(s, l);
    assert states[j - 1 + 1] == Apply(s, l);
    if k < |s.delivered| {
      i := NothingDeliveredOutsideCalls(states, labels, j - 1, k);
      assert states[j].delivered[..|s.delivered|][k] == s.delivered[k];
    } else {
      i := j - 1;
    }
  }
}
