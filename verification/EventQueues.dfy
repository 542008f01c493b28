/** The event half of a plugin: the list of guest pointers it offers during a call, and the host list it forwards to. */
module EventQueues {
  import opened Wrappers
  import opened Bytes
  import opened Memory
  import opened Events

  /** The host's `clap_output_events`: every event it is offered, in order; it may refuse any of them. */
  class HostOutput {
    ghost var offered: seq<Event>
    ghost var answers: seq<bool>

    constructor ()
      ensures offered == [] && answers == []
    {
      offered, answers := [], [];
    }

    method TryPush(e: Event) returns (ok: bool)
      modifies this
      ensures offered == old(offered) + [e] && answers == old(answers) + [ok]
    {
      ok := *;
      offered, answers := offered + [e], answers + [ok];
    }
  }

  ghost predicate Grew(blocks: seq<Block>, was: seq<Block>) {
    |was| <= |blocks| && blocks[..|was|] == was
  }

  /** All events well formed, and room for them in the arena. */
  ghost predicate Admissible(es: seq<Event>) {
    forall i :: 0 <= i < |es| ==> WellFormed(es[i])
  }

  class EventQueue {
    const P: nat
    var inputEvents: seq<nat>
    var hostOutputEvents: HostOutput?

    constructor (P: nat)
      ensures this.P == P && inputEvents == [] && hostOutputEvents == null
    {
      this.P, inputEvents, hostOutputEvents := P, [], null;
    }

    /** What the host of the current call has been offered so far. */
    ghost function Offered(): seq<Event>
      reads this, hostOutputEvents
    {
      if hostOutputEvents == null then [] else hostOutputEvents.offered
    }

    ghost function Answers(): seq<bool>
      reads this, hostOutputEvents
    {
      if hostOutputEvents == null then [] else hostOutputEvents.answers
    }

    function InputEventsSize(): (n: nat)
      reads this
      ensures n == |inputEvents|
    {
      |inputEvents|
    }

    /** Null past the end. */
    function InputEventsGet(index: nat): (p: nat)
      reads this
      ensures index < |inputEvents| ==> p == inputEvents[index]
      ensures index >= |inputEvents| ==> p == 0
    {
      if index < |inputEvents| then inputEvents[index] else 0
    }

    /** One host event: a recognised one lands in fresh regions and its pointer joins the list, any other is dropped. */
    method TryCopyInputEvent(scope: Scope, e: Event)
      requires IsPointerSize(P) && scope.Valid() && WellFormed(e) && scope.limit < Pow256(P)
      requires scope.top + EventCost(e, P) <= scope.limit
      modifies this`inputEvents, scope`top, scope`blocks, scope.memory.data
      ensures scope.Valid() && Grew(scope.blocks, old(scope.blocks))
      ensures scope.top <= old(scope.top) + EventCost(e, P)
      ensures !Recognised(e.header) ==> inputEvents == old(inputEvents) && scope.blocks == old(scope.blocks)
      ensures Recognised(e.header) ==>
                && |inputEvents| == |old(inputEvents)| + 1 && inputEvents[..|old(inputEvents)|] == old(inputEvents)
                && |scope.blocks| == |old(scope.blocks)| + BlockCount(e)
                && EventAt(scope.blocks, |old(scope.blocks)|, e, P, inputEvents[|old(inputEvents)|])
                && inputEvents[|old(inputEvents)|] % 8 == 0
    {
      if e.header.space != CORE_SPACE { return; }
      if CopiedWhole(e.header.typ) {
        var p := CopyPlain(scope, e);
        inputEvents := inputEvents + [p];
      } else if IsParam(e.header.typ) {
        assert AllFit(ParamCells(e, P));
        var p := scope.CopyAcross(ParamCells(e, P), 8);
        inputEvents := inputEvents + [p];
      } else if IsSysex(e.header.typ) {
        var p := CopySysex(scope, e);
        inputEvents := inputEvents + [p];
      }
    }

    method CopyPlain(scope: Scope, e: Event) returns (p: nat)
      requires IsPointerSize(P) && scope.Valid() && WellFormed(e) && e.Plain? && Recognised(e.header)
      requires scope.top + EventCost(e, P) <= scope.limit
      modifies scope`top, scope`blocks, scope.memory.data
      ensures scope.Valid() && scope.top <= old(scope.top) + EventCost(e, P)
      ensures scope.blocks == old(scope.blocks) + [Block(p, PlainCells(e))] && p % 8 == 0
    {
      PlainFits(e);
      p := ReserveAndFill(scope, e.header.size, PlainCells(e));
    }

    /** `reserve`, then `setArray`. */
    method ReserveAndFill(scope: Scope, size: nat, cells: seq<Cell>) returns (p: nat)
      requires scope.Valid() && AllFit(cells) && size == Size(cells) && scope.top + size + 7 <= scope.limit
      modifies scope`top, scope`blocks, scope.memory.data
      ensures scope.Valid() && scope.top <= old(scope.top) + size + 7
      ensures scope.blocks == old(scope.blocks) + [Block(p, cells)] && p % 8 == 0
    {
      SumWidths(cells);
      p := scope.Reserve(size, 8, Widths(cells));
      ghost var k := |scope.blocks| - 1;
      ReplaceAll(scope.blocks[k], cells);
      scope.Set(p, cells, k, 0);
    }

    method CopySysex(scope: Scope, e: Event) returns (p: nat)
      requires IsPointerSize(P) && scope.Valid() && WellFormed(e) && e.Sysex? && Recognised(e.header)
      requires scope.limit < Pow256(P) && scope.top + EventCost(e, P) <= scope.limit
      modifies scope`top, scope`blocks, scope.memory.data
      ensures scope.Valid() && scope.top <= old(scope.top) + EventCost(e, P)
      ensures Grew(scope.blocks, old(scope.blocks)) && |scope.blocks| == |old(scope.blocks)| + 2
      ensures EventAt(scope.blocks, |old(scope.blocks)|, e, P, p) && p % 8 == 0
    {
      UniformSize(Words(1, e.data), 1);
      var buffer := scope.CopyAcross(Words(1, e.data), 1);
      SameWidthsSize(SysexCells(e, P, buffer), SysexCells(e, P, 0));
      assert AllFit(SysexCells(e, P, buffer));
      p := scope.CopyAcross(SysexCells(e, P, buffer), 8);
    }

    /** One turn of the copy loop. */
    method CopyNext(scope: Scope, es: seq<Event>, i: nat, ghost was: seq<Block>)
      requires IsPointerSize(P) && scope.Valid() && Admissible(es) && scope.limit < Pow256(P) && i < |es|
      requires scope.top + EventsCost(es[i..], P) <= scope.limit && Copied(was, scope.blocks, es, i, P, inputEvents)
      modifies this`inputEvents, scope`top, scope`blocks, scope.memory.data
      ensures scope.Valid() && Copied(was, scope.blocks, es, i + 1, P, inputEvents)
      ensures scope.top + EventsCost(es[i + 1..], P) <= old(scope.top) + EventsCost(es[i..], P)
    {
      ghost var blocks, ps := scope.blocks, inputEvents;
      CostFrom(es, i, P);
      TryCopyInputEvent(scope, es[i]);
      CopyStep(was, blocks, scope.blocks, es, i, P, ps, inputEvents);
    }

    /** The copy loop shared by `pluginProcess` and `params_flush`. */
    method CopyInputEvents(scope: Scope, es: seq<Event>)
      requires IsPointerSize(P) && scope.Valid() && Admissible(es) && scope.limit < Pow256(P)
      requires scope.top + EventsCost(es, P) <= scope.limit
      modifies this`inputEvents, scope`top, scope`blocks, scope.memory.data
      ensures scope.Valid() && Grew(scope.blocks, old(scope.blocks))
      ensures scope.top <= old(scope.top) + EventsCost(es, P)
      ensures EventsAt(scope.blocks, |old(scope.blocks)|, Recognise(es), P, inputEvents)
      ensures |scope.blocks| == |old(scope.blocks)| + Blocks(Recognise(es)) && AllAligned(inputEvents)
    {
      inputEvents := [];
      ghost var was := scope.blocks;
      var i := 0;
      NothingCopied(was, es, P);
      while i < |es|
        invariant 0 <= i <= |es|
        invariant scope.Valid() && Copied(was, scope.blocks, es, i, P, inputEvents)
        invariant scope.top + EventsCost(es[i..], P) <= old(scope.top) + EventsCost(es, P)
      {
        CopyNext(scope, es, i, was);
        i := i + 1;
      }
      assert es[..|es|] == es;
    }

    /** `outputEventsTryPush`: nothing reaches any host list outside a call. */
    method OutputEventsTryPush(memory: LinearMemory, p: nat) returns (ok: bool)
      requires IsPointerSize(P) && memory.data.Length >= SYSEX_LIMIT
      modifies hostOutputEvents
      ensures hostOutputEvents == null ==> !ok
      ensures hostOutputEvents != null ==>
                var out := OutputEvent(memory.data[..], p, P);
                && (out == None ==> !ok)
                && hostOutputEvents.offered == old(Offered()) + (if out.Some? then [out.value] else [])
                && hostOutputEvents.answers == old(Answers()) + (if out.Some? then [ok] else [])
    {
      if hostOutputEvents == null { return false; }
      var out := ReadOutput(memory, p);
      if out == None { return false; }
      ok := hostOutputEvents.TryPush(out.value);
    }

    /** The branches of `outputEventsTryPush`: each copies its struct out of guest memory and rebuilds the native
        one. */
    method ReadOutput(memory: LinearMemory, p: nat) returns (out: Option<Event>)
      requires IsPointerSize(P) && memory.data.Length >= SYSEX_LIMIT
      ensures out == OutputEvent(memory.data[..], p, P)
    {
      var bytes := memory.GetArray(p, HEADER_BYTES);
      HeaderInSlice(memory.data[..], Clamp(p, HEADER_BYTES, memory.data.Length), HEADER_BYTES);
      var h := DecodeHeader(bytes, 0);
      if h.space != CORE_SPACE {
        out := None;
      } else if IsParam(h.typ) {
        var e := ReadParam(memory, p);
        out := Some(WithSize(e, NativeSize(h.typ)));
      } else if IsSysex(h.typ) {
        out := ReadSysex(memory, p, NativeSize(h.typ));
      } else if CopiedWhole(h.typ) {
        var e := ReadPlain(memory, p, NativeSize(h.typ));
        out := Some(WithSize(e, NativeSize(h.typ)));
      } else {
        out := None;
      }
    }

    method ReadParam(memory: LinearMemory, p: nat) returns (e: Event)
      requires IsPointerSize(P) && memory.data.Length >= SYSEX_LIMIT
      ensures e == DecodeParam(memory.data[..], Clamp(p, ParamSize(P), memory.data.Length), P)
    {
      ParamRecordSize(P);
      var r := ReadFields(memory, p, ParamSize(P), ParamWidths(P));
      e := Param(Header(r[0], r[1], r[2], r[3], r[4]), r[5], r[7], r[8], r[9], r[10], r[11], r[13]);
    }

    method ReadPlain(memory: LinearMemory, p: nat, n: nat) returns (e: Event)
      requires memory.data.Length >= SYSEX_LIMIT && HEADER_BYTES <= n <= SYSEX_LIMIT
      ensures e == DecodePlain(memory.data[..], Clamp(p, n, memory.data.Length), n)
    {
      var bytes := memory.GetArray(p, n);
      ghost var q := Clamp(p, n, memory.data.Length);
      HeaderInSlice(memory.data[..], q, n);
      ArrayInSlice(memory.data[..], q, n, HEADER_BYTES);
      e := DecodePlain(bytes, 0, n);
    }

    method ReadSysex(memory: LinearMemory, p: nat, size: nat) returns (out: Option<Event>)
      requires IsPointerSize(P) && memory.data.Length >= SYSEX_LIMIT
      ensures out == OutputSysex(memory.data[..], p, P, size)
    {
      SysexRecordSize(P);
      var r := ReadFields(memory, p, SysexSize(P), SysexWidths(P));
      if r[8] > SYSEX_LIMIT { return None; }
      var data := ReadBytes(memory, r[7], r[8]);
      out := Some(Sysex(Header(size, r[1], r[2], r[3], r[4]), r[5], data));
    }

    method ReadFields(memory: LinearMemory, p: nat, size: nat, widths: seq<nat>) returns (r: seq<nat>)
      requires size <= memory.data.Length && Sum(widths) <= size
      ensures r == LoadRecord(memory.data[..], Clamp(p, size, memory.data.Length), widths)
    {
      var bytes := memory.GetArray(p, size);
      RecordInSlice(memory.data[..], Clamp(p, size, memory.data.Length), size, widths);
      r := LoadRecord(bytes, 0, widths);
    }

    method ReadBytes(memory: LinearMemory, p: nat, n: nat) returns (vs: seq<nat>)
      requires n <= memory.data.Length
      ensures vs == LoadArray(memory.data[..], Clamp(p, n, memory.data.Length), 1, n)
    {
      var bytes := memory.GetArray(p, n);
      ArrayInSlice(memory.data[..], Clamp(p, n, memory.data.Length), n, 0);
      vs := LoadArray(bytes, 0, 1, n);
    }

    /** A guest at work inside a call: it changes memory and pushes events, in any order. */
    method RunActs(memory: LinearMemory, acts: seq<Act>)
      requires IsPointerSize(P) && memory.data.Length >= SYSEX_LIMIT && hostOutputEvents != null
      requires Grows(memory.data.Length, acts)
      modifies memory, memory.data, hostOutputEvents
      ensures memory.data[..] == Final(old(memory.data[..]), acts)
      ensures memory.data.Length >= old(memory.data.Length) && (memory.data == old(memory.data) || fresh(memory.data))
      ensures hostOutputEvents.offered == old(hostOutputEvents.offered) + Sent(old(memory.data[..]), acts, P)
    {
      ghost var m, offered := memory.data[..], hostOutputEvents.offered;
      NothingDone(m, offered, acts, P);
      for i := 0 to |acts|
        invariant Done(memory.data[..], hostOutputEvents.offered, m, offered, acts, i, P)
        invariant memory.data == old(memory.data) || fresh(memory.data)
      {
        ghost var m', offered' := memory.data[..], hostOutputEvents.offered;
        ActStep(m', offered', m, offered, acts, i, P);
        RunAct(memory, acts[i]);
      }
      AllDone(memory.data[..], hostOutputEvents.offered, m, offered, acts, P);
    }

    method RunAct(memory: LinearMemory, act: Act)
      requires IsPointerSize(P) && memory.data.Length >= SYSEX_LIMIT && hostOutputEvents != null
      requires act.Store? ==> |act.memory| >= memory.data.Length
      modifies memory, memory.data, hostOutputEvents
      ensures memory.data[..] == if act.Store? then act.memory else old(memory.data[..])
      ensures memory.data == old(memory.data) || fresh(memory.data)
      ensures hostOutputEvents.offered == old(hostOutputEvents.offered)
              + (if act.Push? then AsList(OutputEvent(old(memory.data[..]), act.event, P)) else [])
    {
      match act
      case Store(left) =>
        memory.Become(left);
      case Push(p) =>
        var _ := OutputEventsTryPush(memory, p);
    }
  }

  // ---- Guests inside a call

  /** What a guest can do between the start of a call and its return: leave memory as it likes, perhaps grown, or push
      an event.  A guest that reacts to what it reads or is answered does some sequence of these. */
  datatype Act = Store(memory: seq<byte>) | Push(event: nat)

  /** Memory never shrinks. */
  ghost predicate Grows(length: nat, acts: seq<Act>)
    decreases |acts|
  {
    acts != [] ==>
      var n := |acts| - 1;
      Grows(length, acts[..n]) && (acts[n].Store? ==> |acts[n].memory| >= FinalLength(length, acts[..n]))
  }

  ghost function FinalLength(length: nat, acts: seq<Act>): nat
    decreases |acts|
  {
    if acts == [] then length else
      var n := |acts| - 1;
      if acts[n].Store? then |acts[n].memory| else FinalLength(length, acts[..n])
  }

  /** Memory after the acts. */
  ghost function Final(m: seq<byte>, acts: seq<Act>): (left: seq<byte>)
    ensures |left| == FinalLength(|m|, acts)
    decreases |acts|
  {
    if acts == [] then m else
      var n := |acts| - 1;
      if acts[n].Store? then acts[n].memory else Final(m, acts[..n])
  }

  ghost function AsList(out: Option<Event>): seq<Event> { if out.Some? then [out.value] else [] }

  /** What the host is offered during the acts: each pushed event as it stands in memory at that moment. */
  ghost function Sent(m: seq<byte>, acts: seq<Act>, P: nat): seq<Event>
    requires IsPointerSize(P) && |m| >= SYSEX_LIMIT && Grows(|m|, acts)
    decreases |acts|
  {
    if acts == [] then [] else
      var n := |acts| - 1;
      GrowsMonotone(|m|, acts[..n]);
      Sent(m, acts[..n], P)
      + (if acts[n].Push? then AsList(OutputEvent(Final(m, acts[..n]), acts[n].event, P)) else [])
  }

  lemma {:induction false} GrowsMonotone(length: nat, acts: seq<Act>)
    requires Grows(length, acts)
    ensures FinalLength(length, acts) >= length
    decreases |acts|
  {
    if acts == [] {
    } else {
      GrowsMonotone(length, acts[..|acts| - 1]);
    }
  }

  lemma {:induction false} GrowsPrefix(length: nat, acts: seq<Act>, i: nat)
    requires Grows(length, acts) && i <= |acts|
    ensures Grows(length, acts[..i])
    decreases |acts|
  {
    if i == |acts| {
      assert acts[..i] == acts;
    } else {
      GrowsPrefix(length, acts[..|acts| - 1], i);
      assert acts[..|acts| - 1][..i] == acts[..i];
    }
  }

  /** After the first `i` acts memory is `now` and the host has been offered `offered'`. */
  ghost predicate Done(now: seq<byte>, offered': seq<Event>, m: seq<byte>, offered: seq<Event>, acts: seq<Act>, i: nat,
                       P: nat)
    requires IsPointerSize(P) && i <= |acts|
  {
    && |m| >= SYSEX_LIMIT && Grows(|m|, acts) && Grows(|m|, acts[..i])
    && now == Final(m, acts[..i]) && |now| >= |m| && offered' == offered + Sent(m, acts[..i], P)
  }

  lemma {:induction false} NothingDone(m: seq<byte>, offered: seq<Event>, acts: seq<Act>, P: nat)
    requires IsPointerSize(P) && |m| >= SYSEX_LIMIT && Grows(|m|, acts)
    ensures Done(m, offered, m, offered, acts, 0, P)
  {
    assert acts[..0] == [];
  }

  lemma {:induction false} AllDone(now: seq<byte>, offered': seq<Event>, m: seq<byte>, offered: seq<Event>,
                                   acts: seq<Act>,
                                   P: nat)
    requires IsPointerSize(P) && Done(now, offered', m, offered, acts, |acts|, P)
    ensures now == Final(m, acts) && |now| >= |m| && offered' == offered + Sent(m, acts, P)
  {
    assert acts[..|acts|] == acts;
  }

  lemma {:induction false} ActStep(now: seq<byte>, offered': seq<Event>, m: seq<byte>, offered: seq<Event>,
                                   acts: seq<Act>,
                                   i: nat, P: nat)
    requires IsPointerSize(P) && i < |acts| && Done(now, offered', m, offered, acts, i, P)
    ensures acts[i].Store? ==> |acts[i].memory| >= |now|
    ensures Done(if acts[i].Store? then acts[i].memory else now,
                 offered' + (if acts[i].Push? then AsList(OutputEvent(now, acts[i].event, P)) else []),
                 m, offered, acts, i + 1, P)
  {
    GrowsPrefix(|m|, acts, i + 1);
    assert acts[..i + 1][..i] == acts[..i];
  }

  // ---- The guest that echoes

  /** It pushes back every event it was given, in order. */
  function Pushes(ps: seq<nat>): (acts: seq<Act>)
    ensures |acts| == |ps|
  {
    seq(|ps|, i requires 0 <= i < |ps| => Push(ps[i]))
  }

  lemma {:induction false} PushesPrefix(ps: seq<nat>)
    requires ps != []
    ensures Pushes(ps)[..|ps| - 1] == Pushes(ps[..|ps| - 1])
  {}

  lemma {:induction false} PushesLeaveMemory(m: seq<byte>, ps: seq<nat>)
    ensures Final(m, Pushes(ps)) == m && Grows(|m|, Pushes(ps))
    decreases |ps|
  {
    if ps == [] {
    } else {
      PushesPrefix(ps);
      PushesLeaveMemory(m, ps[..|ps| - 1]);
    }
  }

  lemma {:induction false} PushOneMore(m: seq<byte>, ps: seq<nat>, P: nat)
    requires IsPointerSize(P) && |m| >= SYSEX_LIMIT && ps != [] && Grows(|m|, Pushes(ps))
    ensures var n := |ps| - 1;
            && Grows(|m|, Pushes(ps[..n]))
            && Sent(m, Pushes(ps), P) == Sent(m, Pushes(ps[..n]), P) + AsList(OutputEvent(m, ps[n], P))
  {
    PushesPrefix(ps);
    PushesLeaveMemory(m, ps[..|ps| - 1]);
  }

  lemma {:induction false} LastEcho(m: seq<byte>, blocks: seq<Block>, k: nat, es: seq<Event>, P: nat, ps: seq<nat>)
    requires IsPointerSize(P) && |m| >= SYSEX_LIMIT && AllHold(m, blocks) && Addressable(blocks, P)
    requires EventsAt(blocks, k, es, P, ps) && es != [] && Echoable(es[|es| - 1])
    ensures OutputEvent(m, ps[|es| - 1], P) == Echo(es[|es| - 1], P)
  {
    var n := |es| - 1;
    EventEchoes(m, blocks, k + Blocks(es[..n]), es[n], P, ps[n]);
  }

  /** The host's output list grows by the echo of each recognised event, in order. */
  lemma {:induction false} EchoesAreSent(m: seq<byte>, blocks: seq<Block>, k: nat, es: seq<Event>, P: nat, ps: seq<nat>)
    requires IsPointerSize(P) && |m| >= SYSEX_LIMIT && AllHold(m, blocks) && Addressable(blocks, P)
    requires EventsAt(blocks, k, es, P, ps) && forall i :: 0 <= i < |es| ==> Echoable(es[i])
    ensures Grows(|m|, Pushes(ps)) && Sent(m, Pushes(ps), P) == Echoes(es, P)
    decreases |es|
  {
    PushesLeaveMemory(m, ps);
    if es == [] {
    } else {
      var n := |es| - 1;
      EchoesAreSent(m, blocks, k, es[..n], P, ps[..n]);
      LastEcho(m, blocks, k, es, P, ps);
      PushOneMore(m, ps, P);
      assert Echoes(es, P) == Echoes(es[..n], P) + AsList(Echo(es[n], P));
    }
  }

  /** What `input_events` answers about a list laid out in memory: its size is the number of recognised events, index
      `i` leads to the i-th of them - every field, the cookie cut to the guest's width - and null marks the end. */
  lemma {:induction false} GetReachesEvents(queue: EventQueue, m: seq<byte>, blocks: seq<Block>, k: nat,
                                            es: seq<Event>, i: nat)
    requires IsPointerSize(queue.P) && Admissible(es) && AllHold(m, blocks) && Addressable(blocks, queue.P)
    requires EventsAt(blocks, k, Recognise(es), queue.P, queue.inputEvents)
    requires forall j :: 0 <= j < |blocks| ==> blocks[j].start > 0
    ensures queue.InputEventsSize() == |Recognise(es)|
    ensures queue.InputEventsGet(i) != 0 <==> i < |Recognise(es)|
    ensures i < |Recognise(es)| ==>
              DecodeEvent(m, queue.InputEventsGet(i), queue.P) == ToGuest(Recognise(es)[i], queue.P)
  {
    var rs := Recognise(es);
    if i < |rs| {
      RecogniseAdmissible(es);
      EventsAtIndex(blocks, k, rs, queue.P, queue.inputEvents, i);
      EventDecodes(m, blocks, k + Blocks(rs[..i]), rs[i], queue.P, queue.inputEvents[i]);
    }
  }

  // ---- Reading a copied stretch is reading memory

  lemma {:induction false} LoadInSlice(m: seq<byte>, q: nat, n: nat, a: nat, w: nat)
    requires q + n <= |m| && a + w <= n
    ensures Load(m[q..q + n], a, w) == Load(m, q + a, w)
  {
    SliceOfSlice(m, q, q + n, a, a + w);
  }

  lemma {:induction false} SumPrefix(ws: seq<nat>, i: nat)
    requires i < |ws|
    ensures Sum(ws[..i]) + ws[i] <= Sum(ws)
  {
    if i == |ws| - 1 {
    } else {
      SumPrefix(ws[..|ws| - 1], i);
      assert ws[..|ws| - 1][..i] == ws[..i];
    }
  }

  lemma {:induction false} RecordInSlice(m: seq<byte>, q: nat, n: nat, ws: seq<nat>)
    requires q + n <= |m| && Sum(ws) <= n
    ensures LoadRecord(m[q..q + n], 0, ws) == LoadRecord(m, q, ws)
  {
    forall i | 0 <= i < |ws| ensures LoadRecord(m[q..q + n], 0, ws)[i] == LoadRecord(m, q, ws)[i] {
      SumPrefix(ws, i);
      LoadInSlice(m, q, n, Sum(ws[..i]), ws[i]);
    }
  }

  lemma {:induction false} HeaderInSlice(m: seq<byte>, q: nat, n: nat)
    requires q + n <= |m| && HEADER_BYTES <= n
    ensures DecodeHeader(m[q..q + n], 0) == DecodeHeader(m, q)
  {
    SumFive(4, 4, 2, 2, 4);
    RecordInSlice(m, q, n, HEADER_WIDTHS);
  }

  lemma {:induction false} ArrayInSlice(m: seq<byte>, q: nat, n: nat, a: nat)
    requires q + n <= |m| && a <= n
    ensures LoadArray(m[q..q + n], a, 1, n - a) == LoadArray(m, q + a, 1, n - a)
  {
    forall i | 0 <= i < n - a ensures Load(m[q..q + n], a + i * 1, 1) == Load(m, q + a + i * 1, 1) {
      LoadInSlice(m, q, n, a + i, 1);
    }
  }

  lemma {:induction false} CostFrom(es: seq<Event>, i: nat, P: nat)
    requires IsPointerSize(P) && i < |es|
    ensures EventsCost(es[i..], P) == EventCost(es[i], P) + EventsCost(es[i + 1..], P)
  {
    assert es[i..][1..] == es[i + 1..];
  }

  lemma {:induction false} RecogniseOneMore(es: seq<Event>, i: nat)
    requires i < |es|
    ensures Recognise(es[..i + 1])
         == if Recognised(es[i].header) then Recognise(es[..i]) + [es[i]] else Recognise(es[..i])
  {
    assert es[..i + 1][..i] == es[..i];
  }

  lemma {:induction false} EventsAtNext(blocks: seq<Block>, blocks': seq<Block>, k: nat, done: seq<Event>, P: nat,
                                        ps: seq<nat>, ps': seq<nat>, e: Event)
    requires IsPointerSize(P) && Grew(blocks', blocks) && EventsAt(blocks, k, done, P, ps)
    requires |blocks| == k + Blocks(done)
    requires |ps'| == |ps| + 1 && ps'[..|ps|] == ps && EventAt(blocks', |blocks|, e, P, ps'[|ps|])
    ensures EventsAt(blocks', k, done + [e], P, ps') && Blocks(done + [e]) == Blocks(done) + BlockCount(e)
  {
    assert ps' == ps + [ps'[|ps|]];
    EventsAtGrow(blocks, blocks', k, done, P, ps);
    EventsAtAppend(blocks', k, done, P, ps, e, ps'[|ps|]);
  }

  predicate Aligned(p: nat) { p % 8 == 0 }

  ghost predicate AllAligned(ps: seq<nat>) { forall i :: 0 <= i < |ps| ==> Aligned(ps[i]) }

  lemma {:induction false} OneMoreAligned(ps: seq<nat>, ps': seq<nat>)
    requires AllAligned(ps) && |ps'| == |ps| + 1 && ps'[..|ps|] == ps && Aligned(ps'[|ps|])
    ensures AllAligned(ps')
  {
    forall i | 0 <= i < |ps'| ensures Aligned(ps'[i]) {
      if i < |ps| { assert ps'[i] == ps[i]; }
    }
  }

  /** The log and the pointer list after the first `i` turns of the copy loop. */
  ghost predicate Copied(was: seq<Block>, blocks: seq<Block>, es: seq<Event>, i: nat, P: nat, ps: seq<nat>)
    requires IsPointerSize(P) && i <= |es|
  {
    && Grew(blocks, was) && EventsAt(blocks, |was|, Recognise(es[..i]), P, ps)
    && |blocks| == |was| + Blocks(Recognise(es[..i])) && AllAligned(ps)
  }

  lemma {:induction false} NothingCopied(was: seq<Block>, es: seq<Event>, P: nat)
    requires IsPointerSize(P)
    ensures Copied(was, was, es, 0, P, []) && es[0..] == es
  {
    assert es[..0] == [];
  }

  /** One turn of the copy loop, on the log and the pointer list. */
  lemma {:induction false} CopyStep(was: seq<Block>, blocks: seq<Block>, blocks': seq<Block>, es: seq<Event>, i: nat,
                                    P: nat, ps: seq<nat>, ps': seq<nat>)
    requires IsPointerSize(P) && i < |es| && Copied(was, blocks, es, i, P, ps) && Grew(blocks', blocks)
    requires !Recognised(es[i].header) ==> ps' == ps && blocks' == blocks
    requires Recognised(es[i].header) ==>
               && |ps'| == |ps| + 1 && ps'[..|ps|] == ps && |blocks'| == |blocks| + BlockCount(es[i])
               && EventAt(blocks', |blocks|, es[i], P, ps'[|ps|]) && Aligned(ps'[|ps|])
    ensures Copied(was, blocks', es, i + 1, P, ps')
  {
    RecogniseOneMore(es, i);
    assert blocks'[..|was|] == blocks'[..|blocks|][..|was|];
    if Recognised(es[i].header) {
      OneMoreAligned(ps, ps');
      EventsAtNext(blocks, blocks', |was|, Recognise(es[..i]), P, ps, ps', es[i]);
    }
  }

  lemma {:induction false} PlainFits(e: Event)
    requires e.Plain? && WellFormed(e) && Recognised(e.header)
    ensures AllFit(PlainCells(e)) && Size(PlainCells(e)) == e.header.size
  {
    EncodeConcat(HeaderCells(e.header), Words(1, e.body));
    HeaderSize(e.header);
    UniformSize(Words(1, e.body), 1);
  }

  lemma {:induction false} RecogniseAdmissible(es: seq<Event>)
    requires Admissible(es)
    ensures Admissible(Recognise(es))
  {
    if es == [] {
    } else {
      RecogniseAdmissible(es[..|es| - 1]);
    }
  }

  ghost predicate Echoable(e: Event) { WellFormed(e) && Recognised(e.header) && Covers(e) }

  /** What reaches the host when every event of `es` is echoed: all of them in order, but oversized sysex. */
  ghost function Echoes(es: seq<Event>, P: nat): seq<Event>
    requires IsPointerSize(P)
  {
    if es == [] then [] else
      var e := es[|es| - 1];
      Echoes(es[..|es| - 1], P) + (if Echoable(e) then AsList(Echo(e, P)) else [])
  }

  /** A recognised event that an echoing guest gives back unchanged. */
  ghost predicate Returns(e: Event, P: nat)
    requires IsPointerSize(P)
  {
    Echoable(e) && ComesBack(e, P)
  }

  lemma {:induction false} EchoesAppend(es: seq<Event>, e: Event, P: nat)
    requires IsPointerSize(P) && Returns(e, P)
    ensures Echoes(es + [e], P) == Echoes(es, P) + [e]
  {
    EchoIsSelfIff(e, P);
    assert (es + [e])[..|es|] == es;
  }

  /** A host that sends native-size events, cookies the guest handed out and sysex of at most 1024 bytes
      gets back exactly the recognised events it sent. */
  lemma {:induction false} EchoesAreTheList(es: seq<Event>, P: nat)
    requires IsPointerSize(P) && forall i :: 0 <= i < |es| ==> Returns(es[i], P)
    ensures Echoes(es, P) == es
  {
    if es == [] {
    } else {
      var front, last := es[..|es| - 1], es[|es| - 1];
      assert es == front + [last];
      EchoesAreTheList(front, P);
      EchoesAppend(front, last, P);
    }
  }
}
