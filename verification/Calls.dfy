/** `pluginProcess` and `params_flush`: lay the record out, run the guest, copy the outputs back. */
module Calls {
  import opened Wrappers
  import opened Bytes
  import opened Memory
  import opened Events
  import opened EventQueues
  import opened Audio
  import opened Marshal
  import opened Process
  import opened Samples
  import opened CopyBack

  /** What a guest does in one call, and the result code it returns. */
  datatype Trace = Trace(acts: seq<Act>, status: nat)

  /** A guest, as a function of all it can reach when it is called: memory, the process pointer, and the events that
      `input_events` hands out.  Any trace at all is one such guest's, whatever it reacted to on the way. */
  type Guest = (seq<byte>, nat, seq<nat>) -> Trace

  /** The same for `flush`, which passes the two event structs. */
  type FlushGuest = (seq<byte>, nat, nat, seq<nat>) -> seq<Act>

  datatype HostCall = HostCall(
    steady: nat, frames: nat, transport: Option<seq<nat>>,
    inputs: seq<HostPort>, outputs: seq<HostPort>, events: seq<Event>, outEvents: HostOutput)

  function ReadPorts(ports: seq<HostPort>): (r: seq<AudioBuffer>)
    reads AllArrays(ports)
    ensures |r| == |ports| && forall j :: 0 <= j < |ports| ==> r[j] == Read(ports[j])
  {
    seq(|ports|, j requires 0 <= j < |ports| reads AllArrays(ports) => Read(ports[j]))
  }

  function ReadCall(call: HostCall): HostProcess
    reads AllArrays(call.inputs), AllArrays(call.outputs)
  {
    HostProcess(call.steady, call.frames, call.transport, ReadPorts(call.inputs), ReadPorts(call.outputs), call.events)
  }

  /** The channels `d` are the samples now in the host's buffers. */
  ghost predicate DataSeen(d: Option<seq<seq<nat>>>, data: Option<seq<array<nat>>>)
    reads Arrays(data)
  {
    && (d.Some? <==> data.Some?)
    && (data.Some? ==> |d.value| == |data.value|
                       && forall c :: 0 <= c < |data.value| ==> d.value[c] == data.value[c][..])
  }

  /** The ports `bs` are the host's: channel counts, latencies, constant masks and every sample. */
  ghost predicate PortsSeen(bs: seq<AudioBuffer>, ports: seq<HostPort>)
    reads AllArrays(ports)
  {
    && |bs| == |ports|
    && forall j :: 0 <= j < |ports| ==>
         && bs[j].channels == ports[j].channels && bs[j].latency == ports[j].latency && bs[j].mask == ports[j].mask
         && DataSeen(bs[j].data32, ports[j].data32) && DataSeen(bs[j].data64, ports[j].data64)
  }

  /** The pointers `ps` lead, in order, to the recognised ones of the host's events. */
  ghost predicate EventsSeen(m: seq<byte>, ps: seq<nat>, events: seq<Event>, P: nat)
    requires IsPointerSize(P)
  {
    && |ps| == |Recognise(events)|
    && forall i :: 0 <= i < |ps| ==> DecodeEvent(m, ps[i], P) == ToGuest(Recognise(events)[i], P)
  }

  /** Arena bytes a process call may take, alignment included. */
  ghost function ProcessCost(hp: HostProcess, P: nat): nat
    requires IsPointerSize(P)
  {
    5 * P + 14 + EventsCost(hp.events, P) + TRANSPORT_BYTES + 7
    + PortsCost(hp.inputs, hp.frames, P) + PortsCost(hp.outputs, hp.frames, P) + Sum(ProcessWidths(P)) + 7
  }

  /** The log holds a whole process call. */
  ghost predicate Prepared(blocks: seq<Block>, hp: HostProcess, index: nat, t: Templates, P: nat, events: seq<nat>,
                           processPtr: nat, outs: nat)
    requires IsPointerSize(P)
  {
    && ProcessAt(blocks, hp, index, t, P) && EventsAt(blocks, 2, Recognise(hp.events), P, events)
    && processPtr == blocks[LastRegion(hp)].start && outs == blocks[FirstOutput(hp)].start
  }

  lemma {:induction false} GrewTrans(a: seq<Block>, b: seq<Block>, c: seq<Block>)
    requires Grew(b, a) && Grew(c, b)
    ensures Grew(c, a)
  {
    assert c[..|a|] == c[..|b|][..|a|];
  }

  lemma {:induction false} GrewAll(b1: seq<Block>, b2: seq<Block>, b3: seq<Block>, b4: seq<Block>, b5: seq<Block>,
                                   b6: seq<Block>)
    requires Grew(b2, b1) && Grew(b3, b2) && Grew(b4, b3) && Grew(b5, b4) && Grew(b6, b5)
    ensures Grew(b6, b1) && Grew(b6, b2) && Grew(b6, b3) && Grew(b6, b4)
  {
    GrewTrans(b4, b5, b6);
    GrewTrans(b3, b4, b6);
    GrewTrans(b2, b3, b6);
    GrewTrans(b1, b2, b6);
  }

  lemma {:induction false} PortsGrow(a: seq<Block>, b: seq<Block>, h: nat, ports: seq<AudioBuffer>, P: nat)
    requires PortsAt(a, h, ports, P) && |a| == h + 1 + PortBlocks(ports) && Grew(b, a)
    ensures PortsAt(b, h, ports, P) && h < |b| && b[h] == a[h]
  {
    assert ports[..|ports|] == ports;
    GrewIsSame(a, b, 0, |a|);
    PortsElsewhere(a, b, h, ports, P, |ports|);
  }

  lemma {:induction false} TransportGrow(a: seq<Block>, b: seq<Block>, hp: HostProcess)
    requires TransportAt(a, hp) && Grew(b, a) && |a| == 2 + Blocks(Recognise(hp.events)) + TransportBlocks(hp)
    ensures TransportAt(b, hp) && TransportStart(b, hp) == TransportStart(a, hp)
  {
    GrewIsSame(a, b, 0, |a|);
  }

  lemma {:induction false} TransportStage(b2: seq<Block>, b3: seq<Block>, hp: HostProcess, transport: nat)
    requires |b2| == 2 + Blocks(Recognise(hp.events))
    requires hp.transport == None ==> transport == 0 && b3 == b2
    requires hp.transport.Some? ==> b3 == b2 + [Block(transport, Words(1, hp.transport.value))]
    ensures TransportStart(b3, hp) == transport && TransportAt(b3, hp) && |b3| == |b2| + TransportBlocks(hp)
  {}

  lemma {:induction false} StructsGrow(a: seq<Block>, b: seq<Block>)
    requires |a| == 2 && Grew(b, a)
    ensures b[0] == a[0] && b[1] == a[1]
  {
    GrewIsSame(a, b, 0, 2);
  }

  /** What each stage laid down survives the later ones. */
  lemma {:induction false} StagesCompose(b1: seq<Block>, b2: seq<Block>, b3: seq<Block>, b4: seq<Block>,
                                         b5: seq<Block>, b6: seq<Block>,
                                         hp: HostProcess, index: nat, t: Templates, P: nat, events: seq<nat>, last: nat)
    requires IsPointerSize(P)
    requires Grew(b2, b1) && Grew(b3, b2) && Grew(b4, b3) && Grew(b5, b4) && Grew(b6, b5)
    requires |b1| == 2 && b1[0].cells == InCells(index, t, P) && b1[1].cells == OutCells(index, t, P)
    requires EventsAt(b2, 2, Recognise(hp.events), P, events) && |b2| == 2 + Blocks(Recognise(hp.events))
    requires |b3| == |b2| + TransportBlocks(hp) && TransportAt(b3, hp)
    requires PortsAt(b4, |b3|, hp.inputs, P) && |b4| == |b3| + 1 + PortBlocks(hp.inputs)
    requires PortsAt(b5, |b4|, hp.outputs, P) && |b5| == |b4| + 1 + PortBlocks(hp.outputs)
    requires |b6| == |b5| + 1
    requires b6[|b5|] == Block(last, ProcessCells(hp, TransportStart(b3, hp), b4[|b3|].start, b5[|b4|].start,
                                                  b1[0].start, b1[1].start, P))
    ensures Prepared(b6, hp, index, t, P, events, last, b5[|b4|].start)
  {
    assert |b3| == FirstPort(hp) && |b4| == FirstOutput(hp) && |b5| == LastRegion(hp);
    GrewAll(b1, b2, b3, b4, b5, b6);
    StructsGrow(b1, b6);
    TransportGrow(b3, b6, hp);
    EventsAtGrow(b2, b6, 2, Recognise(hp.events), P, events);
    PortsGrow(b4, b6, |b3|, hp.inputs, P);
    PortsGrow(b5, b6, |b4|, hp.outputs, P);
  }

  lemma {:induction false} LogAddresses(blocks: seq<Block>, base: nat, top: nat, P: nat)
    requires Ordered(blocks, base, top) && base > 0 && top < Pow256(P)
    ensures Addressable(blocks, P) && NonNull(blocks)
  {
    forall i | 0 <= i < |blocks| ensures 0 < blocks[i].start < Pow256(P) {
      assert blocks[i].End() <= top;
    }
  }

  class Plugin {
    const P: nat
    const memory: LinearMemory
    const arenaBase: nat
    const arenaLimit: nat
    const queue: EventQueue
    const index: nat            // pluginListIndex
    const templates: Templates

    ghost predicate Valid()
      reads memory
    {
      && IsPointerSize(P) && queue.P == P && ContextFits(index, templates, P)
      && 0 < arenaBase <= arenaLimit < Pow256(P) && arenaLimit <= memory.data.Length
    }

    constructor (P: nat, memory: LinearMemory, arenaBase: nat, arenaLimit: nat, queue: EventQueue, index: nat,
                 t: Templates)
      requires IsPointerSize(P) && queue.P == P && ContextFits(index, t, P)
      requires 0 < arenaBase <= arenaLimit < Pow256(P) && arenaLimit <= memory.data.Length
      ensures Valid() && this.P == P && this.memory == memory && this.queue == queue
      ensures this.arenaBase == arenaBase && this.arenaLimit == arenaLimit && this.index == index && this.templates == t
    {
      this.P, this.memory, this.arenaBase, this.arenaLimit := P, memory, arenaBase, arenaLimit;
      this.queue, this.index, this.templates := queue, index, t;
    }

    /** The two event structs: the templates, then `setPlugin` on their context fields. */
    method CopyEventStructs(scope: Scope) returns (inEvents: nat, outEvents: nat)
      requires Valid() && scope.Valid() && scope.blocks == [] && scope.top + 5 * P + 14 <= scope.limit
      modifies scope`top, scope`blocks, scope.memory.data
      ensures scope.Valid() && scope.top <= old(scope.top) + 5 * P + 14
      ensures scope.blocks
           == [Block(inEvents, InCells(index, templates, P)), Block(outEvents, OutCells(index, templates, P))]
    {
      assert 0 < Pow256(P);
      var a := [Cell(P, 0), Cell(P, templates.size), Cell(P, templates.get)];
      var b := [Cell(P, 0), Cell(P, templates.tryPush)];
      UniformSize(a, P);
      UniformSize(b, P);
      inEvents := scope.CopyAcross(a, P);
      outEvents := scope.CopyAcross(b, P);
      SetPlugin(scope, inEvents, 0, a);
      SetPlugin(scope, outEvents, 1, b);
      assert [Cell(P, index)] + a[1..] == InCells(index, templates, P);
      assert [Cell(P, index)] + b[1..] == OutCells(index, templates, P);
    }

    /** `setPlugin`: the first field, the context, becomes the plugin's list index. */
    method SetPlugin(scope: Scope, p: nat, ghost k: nat, ghost cells: seq<Cell>)
      requires Valid() && scope.Valid() && k < |scope.blocks| && scope.blocks[k] == Block(p, cells)
      requires |cells| > 0 && cells[0].width == P
      modifies scope`blocks, scope.memory.data
      ensures scope.Valid() && scope.blocks == old(scope.blocks)[k := Block(p, [Cell(P, index)] + cells[1..])]
    {
      assert cells[..0] == [] && cells[0..0 + 1] == [cells[0]];
      scope.Set(p, [Cell(P, index)], k, 0);
      assert cells[..0] + [Cell(P, index)] + cells[1..] == [Cell(P, index)] + cells[1..];
    }

    method CopyTransport(scope: Scope, transport: Option<seq<nat>>) returns (p: nat)
      requires Valid() && scope.Valid() && scope.top + TRANSPORT_BYTES + 7 <= scope.limit
      requires transport.Some? ==> |transport.value| == TRANSPORT_BYTES && Bytewise(transport.value)
      modifies scope`top, scope`blocks, scope.memory.data
      ensures scope.Valid() && Grew(scope.blocks, old(scope.blocks))
              && scope.top <= old(scope.top) + TRANSPORT_BYTES + 7
      ensures transport == None ==> p == 0 && scope.blocks == old(scope.blocks)
      ensures transport.Some? ==> scope.blocks == old(scope.blocks) + [Block(p, Words(1, transport.value))]
    {
      p := 0;
      if transport.Some? {
        UniformSize(Words(1, transport.value), 1);
        p := scope.CopyAcross(Words(1, transport.value), 8);
      }
    }

    /** The stages before the audio ports; `b1` and `b2` are the log after the first and the second. */
    method CopyEventsAndTransport(scope: Scope, hp: HostProcess)
      returns (inEvents: nat, outEvents: nat, transport: nat, ghost b1: seq<Block>, ghost b2: seq<Block>)
      requires Valid() && scope.Valid() && scope.blocks == [] && HostFits(hp) && scope.limit < Pow256(P)
      requires scope.top + 5 * P + 14 + EventsCost(hp.events, P) + TRANSPORT_BYTES + 7 <= scope.limit
      modifies scope`top, scope`blocks, scope.memory.data, queue`inputEvents
      ensures scope.Valid() && Grew(b2, b1) && Grew(scope.blocks, b2)
      ensures scope.top <= old(scope.top) + 5 * P + 14 + EventsCost(hp.events, P) + TRANSPORT_BYTES + 7
      ensures b1 == [Block(inEvents, InCells(index, templates, P)), Block(outEvents, OutCells(index, templates, P))]
      ensures EventsAt(b2, 2, Recognise(hp.events), P, queue.inputEvents) && |b2| == 2 + Blocks(Recognise(hp.events))
      ensures TransportStart(scope.blocks, hp) == transport && TransportAt(scope.blocks, hp)
      ensures |scope.blocks| == |b2| + TransportBlocks(hp)
      ensures AllAligned(queue.inputEvents)
    {
      inEvents, outEvents := CopyEventStructs(scope);
      b1 := scope.blocks;
      queue.CopyInputEvents(scope, hp.events);
      b2 := scope.blocks;
      transport := CopyTransport(scope, hp.transport);
      TransportStage(b2, scope.blocks, hp, transport);
    }

    /** Everything up to the guest call. */
    method Prepare(scope: Scope, hp: HostProcess) returns (processPtr: nat, outs: nat)
      requires Valid() && scope.Valid() && scope.blocks == [] && HostFits(hp) && scope.limit < Pow256(P)
      requires scope.top + ProcessCost(hp, P) <= scope.limit
      modifies scope`top, scope`blocks, scope.memory.data, queue`inputEvents
      ensures scope.Valid()
      ensures Prepared(scope.blocks, hp, index, templates, P, queue.inputEvents, processPtr, outs)
      ensures processPtr % 8 == 0 && AllAligned(queue.inputEvents)
    {
      var inEvents, outEvents, transport;
      ghost var b1, b2;
      inEvents, outEvents, transport, b1, b2 := CopyEventsAndTransport(scope, hp);
      ghost var b3 := scope.blocks;
      var ins := TranslatePorts(scope, hp.inputs, hp.frames, P);
      ghost var b4 := scope.blocks;
      outs := TranslatePorts(scope, hp.outputs, hp.frames, P);
      ghost var b5 := scope.blocks;
      processPtr := CopyRecord(scope, hp, transport, ins, outs, inEvents, outEvents);
      StagesCompose(b1, b2, b3, b4, b5, scope.blocks, hp, index, templates, P, queue.inputEvents, processPtr);
    }

    method CopyRecord(scope: Scope, hp: HostProcess, transport: nat, ins: nat, outs: nat, inEvents: nat, outEvents: nat)
      returns (p: nat)
      requires Valid() && scope.Valid() && HostFits(hp) && scope.top + Sum(ProcessWidths(P)) + 7 <= scope.limit
      modifies scope`top, scope`blocks, scope.memory.data
      ensures scope.Valid()
      ensures scope.blocks
           == old(scope.blocks) + [Block(p, ProcessCells(hp, transport, ins, outs, inEvents, outEvents, P))]
      ensures p % 8 == 0
    {
      var cells := ProcessCells(hp, transport, ins, outs, inEvents, outEvents, P);
      assert Widths(cells) == ProcessWidths(P);
      SumWidths(cells);
      p := scope.CopyAcross(cells, 8);
    }

    /** `params_flush`: the same brackets and the same event copy, no audio.  `m` is guest memory just before the guest
        runs. */
    method ParamsFlush(events: seq<Event>, outEvents: HostOutput, guest: FlushGuest)
      returns (ghost m: seq<byte>, ghost log: seq<Block>)
      requires Valid() && Admissible(events) && memory.data.Length >= SYSEX_LIMIT
      requires arenaBase + 5 * P + 14 + EventsCost(events, P) <= arenaLimit
      requires forall s: seq<byte>, p, q, ps :: Grows(|s|, guest(s, p, q, ps))
      modifies memory, memory.data, queue, outEvents
      ensures |m| == old(memory.data.Length) && AllHold(m, log) && Ordered(log, arenaBase, arenaLimit) && |log| >= 2
      ensures log[0].cells == InCells(index, templates, P) && log[1].cells == OutCells(index, templates, P)
      ensures EventsAt(log, 2, Recognise(events), P, queue.inputEvents)
      ensures EventsSeen(m, queue.inputEvents, events, P)
      ensures LoadRecord(m, log[0].start, [P, P, P]) == [index, templates.size, templates.get]
      ensures LoadRecord(m, log[1].start, [P, P]) == [index, templates.tryPush]
      ensures var acts := guest(m, log[0].start, log[1].start, queue.inputEvents);
              && memory.data[..] == Final(m, acts)
              && outEvents.offered == old(outEvents.offered) + Sent(m, acts, P)
      ensures queue.hostOutputEvents == null
      ensures AllAligned(queue.inputEvents)
    {
      var i, o;
      i, o, log := FlushLayout(events);
      m := memory.data[..];
      GuestSeesFlush(m, log, arenaBase, arenaLimit, events, index, templates, P, queue.inputEvents);
      queue.hostOutputEvents := outEvents;
      queue.RunActs(memory, guest(memory.data[..], i, o, queue.inputEvents));
      queue.hostOutputEvents := null;
    }

    method FlushLayout(events: seq<Event>) returns (inEvents: nat, outEvents: nat, ghost log: seq<Block>)
      requires Valid() && Admissible(events) && arenaBase + 5 * P + 14 + EventsCost(events, P) <= arenaLimit
      modifies memory.data, queue`inputEvents
      ensures AllHold(memory.data[..], log) && Ordered(log, arenaBase, arenaLimit) && |log| >= 2
      ensures log[0] == Block(inEvents, InCells(index, templates, P))
      ensures log[1] == Block(outEvents, OutCells(index, templates, P))
      ensures EventsAt(log, 2, Recognise(events), P, queue.inputEvents)
      ensures AllAligned(queue.inputEvents)
    {
      var scope := new Scope(memory, arenaBase, arenaLimit);
      inEvents, outEvents := CopyEventStructs(scope);
      ghost var b1 := scope.blocks;
      queue.CopyInputEvents(scope, events);
      log := scope.blocks;
      GrewIsSame(b1, log, 0, 2);
      OrderedWiden(log, arenaBase, scope.top, arenaLimit);
    }

    /** A flush to a guest that pushes back every event it is given: from the host's list straight to its output
        list. */
    method FlushEcho(events: seq<Event>, outEvents: HostOutput)
      requires Valid() && Admissible(events) && memory.data.Length >= SYSEX_LIMIT
      requires forall i :: 0 <= i < |events| ==> Covers(events[i])
      requires arenaBase + 5 * P + 14 + EventsCost(events, P) <= arenaLimit
      modifies memory, memory.data, queue, outEvents
      ensures outEvents.offered == old(outEvents.offered) + Echoes(Recognise(events), P)
    {
      var guest: FlushGuest := (_, _, _, ps) => Pushes(ps);
      forall s: seq<byte>, p, q, ps ensures Grows(|s|, guest(s, p, q, ps)) {
        PushesLeaveMemory(s, ps);
      }
      ghost var m, log := ParamsFlush(events, outEvents, guest);
      FlushedEchoes(m, log, arenaBase, arenaLimit, events, P, queue.inputEvents);
    }

    /** The scope of one call: it opens on the empty arena, and nothing outside the arena is written. */
    method PrepareInArena(hp: HostProcess) returns (processPtr: nat, outs: nat, ghost log: seq<Block>)
      requires Valid() && HostFits(hp) && arenaBase + ProcessCost(hp, P) <= arenaLimit
      modifies memory.data, queue`inputEvents
      ensures memory.data[..arenaBase] == old(memory.data[..arenaBase])
      ensures memory.data[arenaLimit..] == old(memory.data[arenaLimit..])
      ensures AllHold(memory.data[..], log) && Ordered(log, arenaBase, arenaLimit)
      ensures Prepared(log, hp, index, templates, P, queue.inputEvents, processPtr, outs)
      ensures processPtr % 8 == 0 && AllAligned(queue.inputEvents)
    {
      var scope := new Scope(memory, arenaBase, arenaLimit);
      processPtr, outs := Prepare(scope, hp);
      log := scope.blocks;
      OrderedWiden(log, arenaBase, scope.top, arenaLimit);
    }

    /** The guest call, inside its event bracket. */
    method RunGuest(outEvents: HostOutput, guest: Guest, processPtr: nat) returns (status: nat)
      requires IsPointerSize(P) && queue.P == P && memory.data.Length >= SYSEX_LIMIT
      requires forall s: seq<byte>, p, ps :: Grows(|s|, guest(s, p, ps).acts)
      modifies memory, memory.data, queue`hostOutputEvents, outEvents
      ensures var trace := guest(old(memory.data[..]), processPtr, queue.inputEvents);
              && memory.data[..] == Final(old(memory.data[..]), trace.acts) && status == trace.status
              && outEvents.offered == old(outEvents.offered) + Sent(old(memory.data[..]), trace.acts, P)
      ensures memory.data.Length >= old(memory.data.Length) && (memory.data == old(memory.data) || fresh(memory.data))
      ensures queue.hostOutputEvents == null
    {
      queue.hostOutputEvents := outEvents;
      var trace := guest(memory.data[..], processPtr, queue.inputEvents);
      queue.RunActs(memory, trace.acts);
      queue.hostOutputEvents := null;
      status := trace.status;
    }

    /** The first half of `pluginProcess`: up to the guest's return. */
    method PrepareAndRun(hp: HostProcess, outEvents: HostOutput, guest: Guest)
      returns (status: nat, outs: nat, ghost m: seq<byte>, ghost processPtr: nat, ghost log: seq<Block>)
      requires Valid() && HostFits(hp) && arenaBase + ProcessCost(hp, P) <= arenaLimit
      requires memory.data.Length >= SYSEX_LIMIT
      requires forall s: seq<byte>, p, ps :: Grows(|s|, guest(s, p, ps).acts)
      modifies memory, memory.data, queue, outEvents
      ensures |m| == old(memory.data.Length) <= memory.data.Length
      ensures m[..arenaBase] == old(memory.data[..arenaBase]) && m[arenaLimit..] == old(memory.data[arenaLimit..])
      ensures AllHold(m, log) && Ordered(log, arenaBase, arenaLimit)
      ensures Prepared(log, hp, index, templates, P, queue.inputEvents, processPtr, outs)
      ensures DecodeProcess(m, processPtr, P) == View(hp, index, templates)
      ensures EventsSeen(m, queue.inputEvents, hp.events, P)
      ensures var trace := guest(m, processPtr, queue.inputEvents);
              && memory.data[..] == Final(m, trace.acts) && status == trace.status
              && outEvents.offered == old(outEvents.offered) + Sent(m, trace.acts, P)
      ensures queue.hostOutputEvents == null && (memory.data == old(memory.data) || fresh(memory.data))
      ensures processPtr % 8 == 0 && AllAligned(queue.inputEvents)
    {
      var p;
      p, outs, log := PrepareInArena(hp);
      processPtr, m := p, memory.data[..];
      GuestSeesHostRecord(m, log, arenaBase, arenaLimit, hp, index, templates, P, queue.inputEvents, p, outs);
      status := RunGuest(outEvents, guest, p);
    }

    /** `pluginProcess` up to the guest's return.  `m` is guest memory just before the guest runs: following the process
        pointer through it, the guest finds the host's own record. */
    method RunCall(call: HostCall, guest: Guest)
      returns (status: nat, outs: nat, ghost m: seq<byte>, ghost processPtr: nat, ghost log: seq<Block>)
      requires Valid() && HostFits(ReadCall(call))
      requires arenaBase + ProcessCost(ReadCall(call), P) <= arenaLimit && memory.data.Length >= SYSEX_LIMIT
      requires forall s: seq<byte>, p, ps :: Grows(|s|, guest(s, p, ps).acts)
      modifies memory, memory.data, queue, call.outEvents
      ensures |m| == old(memory.data.Length) <= memory.data.Length
      ensures m[..arenaBase] == old(memory.data[..arenaBase]) && m[arenaLimit..] == old(memory.data[arenaLimit..])
      ensures AllHold(m, log) && Ordered(log, arenaBase, arenaLimit)
      ensures Prepared(log, old(ReadCall(call)), index, templates, P, queue.inputEvents, processPtr, outs)
      ensures var v := DecodeProcess(m, processPtr, P);
              && v.steady == call.steady && v.frames == call.frames && v.transport == call.transport
              && v.inEvents == [index, templates.size, templates.get] && v.outEvents == [index, templates.tryPush]
      ensures old(PortsSeen(DecodeProcess(m, processPtr, P).inputs, call.inputs))
      ensures old(PortsSeen(DecodeProcess(m, processPtr, P).outputs, call.outputs))
      ensures EventsSeen(m, queue.inputEvents, call.events, P)
      ensures var trace := guest(m, processPtr, queue.inputEvents);
              && memory.data[..] == Final(m, trace.acts) && status == trace.status
              && call.outEvents.offered == old(call.outEvents.offered) + Sent(m, trace.acts, P)
      ensures queue.hostOutputEvents == null
      ensures memory.data == old(memory.data) || fresh(memory.data)
      ensures processPtr % 8 == 0 && AllAligned(queue.inputEvents)
    {
      var hp := ReadCall(call);
      ReadIsSeen(call);
      status, outs, m, processPtr, log := PrepareAndRun(hp, call.outEvents, guest);
    }

    /** `pluginProcess`: then the outputs come back through whatever memory the guest left. */
    method PluginProcess(call: HostCall, guest: Guest)
      returns (status: nat, ghost m: seq<byte>, ghost processPtr: nat, ghost outs: nat, ghost log: seq<Block>)
      requires Valid() && HostFits(ReadCall(call)) && PortsFitFrames(call.outputs, call.frames)
      requires arenaBase + ProcessCost(ReadCall(call), P) <= arenaLimit && memory.data.Length >= SYSEX_LIMIT
      requires AllSizesFit(memory.data.Length, call.outputs, call.frames, P)
      requires forall s: seq<byte>, p, ps :: Grows(|s|, guest(s, p, ps).acts)
      modifies memory, memory.data, queue, call.outEvents, AllArrays(call.outputs)
      ensures |m| == old(memory.data.Length) <= memory.data.Length
      ensures m[..arenaBase] == old(memory.data[..arenaBase]) && m[arenaLimit..] == old(memory.data[arenaLimit..])
      ensures AllHold(m, log) && Ordered(log, arenaBase, arenaLimit)
      ensures Prepared(log, old(ReadCall(call)), index, templates, P, queue.inputEvents, processPtr, outs)
      ensures var v := DecodeProcess(m, processPtr, P);
              && v.steady == call.steady && v.frames == call.frames && v.transport == call.transport
              && v.inEvents == [index, templates.size, templates.get] && v.outEvents == [index, templates.tryPush]
      ensures old(PortsSeen(DecodeProcess(m, processPtr, P).inputs, call.inputs))
      ensures old(PortsSeen(DecodeProcess(m, processPtr, P).outputs, call.outputs))
      ensures EventsSeen(m, queue.inputEvents, call.events, P)
      ensures var trace := guest(m, processPtr, queue.inputEvents);
              && memory.data[..] == Final(m, trace.acts) && status == trace.status
              && call.outEvents.offered == old(call.outEvents.offered) + Sent(m, trace.acts, P)
      ensures queue.hostOutputEvents == null
      ensures AllSizesFit(memory.data.Length, call.outputs, call.frames, P)
      ensures UpTo(Snapshot(AllArrays(call.outputs)), memory.data[..], outs, |call.outputs|, call.outputs,
                   call.frames, P)
      ensures processPtr % 8 == 0 && AllAligned(queue.inputEvents)
    {
      var o;
      status, o, m, processPtr, log := RunCall(call, guest);
      outs := o;
      ghost var left := memory.data[..];
      LargerFits(|m|, |left|, call.outputs, call.frames, P);
      CopyBackPorts(memory, o, call.outputs, call.frames, P);
      assert memory.data[..] == left;
    }
  }

  lemma {:induction false} ReadIsSeen(call: HostCall)
    ensures PortsSeen(ReadCall(call).inputs, call.inputs) && PortsSeen(ReadCall(call).outputs, call.outputs)
  {}

  lemma {:induction false} LargerFits(length: nat, length': nat, ports: seq<HostPort>, frames: nat, P: nat)
    requires AllSizesFit(length, ports, frames, P) && length <= length'
    ensures AllSizesFit(length', ports, frames, P)
  {
    forall j | 0 <= j < |ports| ensures SizesFit(length', ports[j], frames, P) {
      assert SizesFit(length, ports[j], frames, P);
    }
  }

  lemma {:induction false} FlushedEchoes(m: seq<byte>, log: seq<Block>, base: nat, limit: nat, events: seq<Event>,
                                         P: nat,
                                         ps: seq<nat>)
    requires IsPointerSize(P) && |m| >= SYSEX_LIMIT && 0 < base && limit < Pow256(P)
    requires AllHold(m, log) && Ordered(log, base, limit) && EventsAt(log, 2, Recognise(events), P, ps)
    requires Admissible(events) && forall i :: 0 <= i < |events| ==> Covers(events[i])
    ensures Grows(|m|, Pushes(ps)) && Sent(m, Pushes(ps), P) == Echoes(Recognise(events), P)
  {
    LogAddresses(log, base, limit, P);
    RecognisedEchoable(events);
    EchoesAreSent(m, log, 2, Recognise(events), P, ps);
  }

  lemma {:induction false} RecognisedEchoable(es: seq<Event>)
    requires Admissible(es) && forall i :: 0 <= i < |es| ==> Covers(es[i])
    ensures forall i :: 0 <= i < |Recognise(es)| ==> Echoable(Recognise(es)[i])
    decreases |es|
  {
    if es == [] {
    } else {
      RecognisedEchoable(es[..|es| - 1]);
    }
  }

  lemma {:induction false} OrderedWiden(blocks: seq<Block>, base: nat, top: nat, limit: nat)
    requires Ordered(blocks, base, top) && top <= limit
    ensures Ordered(blocks, base, limit)
  {
    forall i | 0 <= i < |blocks| ensures base <= blocks[i].start && blocks[i].End() <= limit {
      assert blocks[i].End() <= top;
    }
    forall i, j | 0 <= i < j < |blocks| ensures blocks[i].End() <= blocks[j].start {
      assert blocks[i].End() <= top && blocks[j].End() <= top;
    }
  }

  // ---- What a process call amounts to

  lemma {:induction false} GuestReadsEvents(m: seq<byte>, log: seq<Block>, k: nat, es: seq<Event>, P: nat, ps: seq<nat>)
    requires IsPointerSize(P) && AllHold(m, log) && Addressable(log, P) && EventsAt(log, k, es, P, ps)
    requires Admissible(es) && forall i :: 0 <= i < |es| ==> Recognised(es[i].header)
    ensures |ps| == |es| && forall i :: 0 <= i < |ps| ==> DecodeEvent(m, ps[i], P) == ToGuest(es[i], P)
  {
    forall i | 0 <= i < |ps| ensures DecodeEvent(m, ps[i], P) == ToGuest(es[i], P) {
      EventsAtIndex(log, k, es, P, ps, i);
      EventDecodes(m, log, k + Blocks(es[..i]), es[i], P, ps[i]);
    }
  }

  /** Just before the guest runs, following the process pointer through guest memory gives back the host's record
      exactly, and the pointers handed out one by one give its recognised events, cookies at guest width. */
  lemma {:induction false} GuestSeesHostRecord(m: seq<byte>, log: seq<Block>, base: nat, limit: nat, hp: HostProcess,
                                               index: nat, t: Templates, P: nat, events: seq<nat>, processPtr: nat,
                                               outs: nat)
    requires IsPointerSize(P) && HostFits(hp) && ContextFits(index, t, P) && 0 < base && limit < Pow256(P)
    requires AllHold(m, log) && Ordered(log, base, limit) && Prepared(log, hp, index, t, P, events, processPtr, outs)
    ensures DecodeProcess(m, processPtr, P) == View(hp, index, t)
    ensures EventsSeen(m, events, hp.events, P)
  {
    LogAddresses(log, base, limit, P);
    ProcessDecodes(m, log, hp, index, t, P);
    RecogniseAdmissible(hp.events);
    GuestReadsEvents(m, log, 2, Recognise(hp.events), P, events);
  }

  lemma {:induction false} GuestSeesFlush(m: seq<byte>, log: seq<Block>, base: nat, limit: nat, events: seq<Event>,
                                          index: nat, t: Templates, P: nat, ps: seq<nat>)
    requires IsPointerSize(P) && Admissible(events) && ContextFits(index, t, P) && 0 < base && limit < Pow256(P)
    requires AllHold(m, log) && Ordered(log, base, limit) && |log| >= 2
    requires log[0].cells == InCells(index, t, P) && log[1].cells == OutCells(index, t, P)
    requires EventsAt(log, 2, Recognise(events), P, ps)
    ensures EventsSeen(m, ps, events, P)
    ensures LoadRecord(m, log[0].start, [P, P, P]) == [index, t.size, t.get]
    ensures LoadRecord(m, log[1].start, [P, P]) == [index, t.tryPush]
  {
    LogAddresses(log, base, limit, P);
    RecogniseAdmissible(events);
    GuestReadsEvents(m, log, 2, Recognise(events), P, ps);
    EventStructsDecode(m, log[0], log[1], index, t, P);
  }

  /** Channel `c` of port `j` is the last one, in the order of the copy-back, to be given its buffer. */
  ghost predicate LastWriter(ports: seq<HostPort>, j: nat, is64: bool, c: nat) {
    j < |ports| && var data := HostData(ports[j], is64);
    && data.Some? && c < |data.value| && LastUse(data.value, c)
    && (!is64 ==> data.value[c] !in Arrays(ports[j].data64))
    && data.value[c] !in Between(ports, j + 1, |ports|)
  }

  /** After a guest that left the output pointers alone - it may have grown its memory - a host output buffer holds what
      the guest put into the region allocated for that very channel, each sample checked. */
  lemma {:induction false} OutputChannelReturned(m: seq<byte>, m': seq<byte>, log: seq<Block>, base: nat, limit: nat,
      hp: HostProcess, index: nat, t: Templates, P: nat, events: seq<nat>, processPtr: nat, outs: nat,
      ports: seq<HostPort>, now: map<array<nat>, seq<nat>>, j: nat, is64: bool, c: nat)
    requires IsPointerSize(P) && HostFits(hp) && 0 < base && limit < Pow256(P)
    requires AllHold(m, log) && Ordered(log, base, limit) && Prepared(log, hp, index, t, P, events, processPtr, outs)
    requires HasChannel(hp.outputs, j, is64, c) && AllSizesFit(|m'|, ports, hp.frames, P)
    requires PointersIntact(m, m', outs, hp.outputs, P)
    requires AllArrays(ports) <= now.Keys && UpTo(now, m', outs, |ports|, ports, hp.frames, P)
    requires LastWriter(ports, j, is64, c)
    ensures ChannelRegion(hp.outputs, FirstOutput(hp), j, is64, c) < |log|
    ensures |now[HostData(ports[j], is64).value[c]]| == hp.frames
    ensures forall i :: 0 <= i < hp.frames ==>
              var region := log[ChannelRegion(hp.outputs, FirstOutput(hp), j, is64, c)].start;
              var left := LoadArray(m', region, SampleWidth(is64), hp.frames)[i];
              now[HostData(ports[j], is64).value[c]][i]
              == if BitsBelow100(if is64 then Double else Single, left) then left else 0
  {
    LogAddresses(log, base, limit, P);
    ChannelRegionBounds(hp.outputs, FirstOutput(hp), j, is64, c);
    IntactChannel(m, m', log, FirstOutput(hp), hp.outputs, hp.frames, P, j, is64, c);
    assert PortReturned(now, m', outs, j, ports[j], hp.frames, P, Between(ports, j + 1, |ports|));
    CheckedEach(if is64 then Double else Single,
                LoadArray(m', log[ChannelRegion(hp.outputs, FirstOutput(hp), j, is64, c)].start, SampleWidth(is64),
                          hp.frames));
  }

  function HostData(port: HostPort, is64: bool): Option<seq<array<nat>>> { if is64 then port.data64 else port.data32 }
}
