/** The process call: the host's record laid out in guest memory, and what the guest finds when it follows it. */
module Process {
  import opened Wrappers
  import opened Bytes
  import opened Memory
  import opened Events
  import opened EventQueues
  import opened Audio

  const TRANSPORT_BYTES := 104

  /** What the host passes to `process`. */
  datatype HostProcess = HostProcess(
    steady: nat, frames: nat, transport: Option<seq<nat>>,
    inputs: seq<AudioBuffer>, outputs: seq<AudioBuffer>, events: seq<Event>)

  /** The function-table indices in `inputEventsTemplate` and `outputEventsTemplate`. */
  datatype Templates = Templates(size: nat, get: nat, tryPush: nat)

  ghost predicate HostFits(hp: HostProcess) {
    && hp.steady < Pow256(8) && hp.frames < Pow256(4)
    && (hp.transport.Some? ==> |hp.transport.value| == TRANSPORT_BYTES && Bytewise(hp.transport.value))
    && PortsFit(hp.inputs, hp.frames) && |hp.inputs| < Pow256(4)
    && PortsFit(hp.outputs, hp.frames) && |hp.outputs| < Pow256(4)
    && Admissible(hp.events)
  }

  ghost predicate ContextFits(index: nat, t: Templates, P: nat) {
    index < Pow256(4) && index < Pow256(P) && t.size < Pow256(P) && t.get < Pow256(P) && t.tryPush < Pow256(P)
  }

  /** Everything the guest can reach from the process pointer; events come one by one through `get`. */
  datatype GuestView = GuestView(
    steady: nat, frames: nat, transport: Option<seq<nat>>, inputs: seq<AudioBuffer>, outputs: seq<AudioBuffer>,
    inEvents: seq<nat>, outEvents: seq<nat>)

  function ProcessWidths(P: nat): seq<nat>
    requires IsPointerSize(P)
  {
    [8, 4, P - 4, P, P, P, 4, 4, P, P]
  }

  function DecodeProcess(m: seq<byte>, p: nat, P: nat): GuestView
    requires IsPointerSize(P)
  {
    var r := LoadRecord(m, p, ProcessWidths(P));
    GuestView(r[0], r[1], if r[3] == 0 then None else Some(LoadArray(m, r[3], 1, TRANSPORT_BYTES)),
              DecodePorts(m, r[4], r[6], r[1], P), DecodePorts(m, r[5], r[7], r[1], P),
              LoadRecord(m, r[8], [P, P, P]), LoadRecord(m, r[9], [P, P]))
  }

  /** What the guest should find: the host's record, with its own callbacks and its own plugin index. */
  function View(hp: HostProcess, index: nat, t: Templates): GuestView {
    GuestView(hp.steady, hp.frames, hp.transport, hp.inputs, hp.outputs, [index, t.size, t.get], [index, t.tryPush])
  }

  // ---- Layout

  function InCells(index: nat, t: Templates, P: nat): seq<Cell> { [Cell(P, index), Cell(P, t.size), Cell(P, t.get)] }

  function OutCells(index: nat, t: Templates, P: nat): seq<Cell> { [Cell(P, index), Cell(P, t.tryPush)] }

  function ProcessCells(hp: HostProcess, transport: nat, ins: nat, outs: nat, inEv: nat, outEv: nat, P: nat): seq<Cell>
    requires IsPointerSize(P)
  {
    [Cell(8, hp.steady), Cell(4, hp.frames), Cell(P - 4, 0), Field(P, transport), Field(P, ins), Field(P, outs),
     Cell(4, |hp.inputs|), Cell(4, |hp.outputs|), Field(P, inEv), Field(P, outEv)]
  }

  ghost function TransportBlocks(hp: HostProcess): nat { if hp.transport.Some? then 1 else 0 }

  /** The regions in the order they are handed out: event structs, events, transport, ports, the process record. */
  ghost function FirstPort(hp: HostProcess): nat { 2 + Blocks(Recognise(hp.events)) + TransportBlocks(hp) }
  ghost function FirstOutput(hp: HostProcess): nat { FirstPort(hp) + 1 + PortBlocks(hp.inputs) }
  ghost function LastRegion(hp: HostProcess): nat { FirstOutput(hp) + 1 + PortBlocks(hp.outputs) }

  ghost predicate TransportAt(blocks: seq<Block>, hp: HostProcess) {
    hp.transport.Some? ==>
      FirstPort(hp) - 1 < |blocks| && blocks[FirstPort(hp) - 1].cells == Words(1, hp.transport.value)
  }

  ghost function TransportStart(blocks: seq<Block>, hp: HostProcess): nat {
    if hp.transport.Some? && FirstPort(hp) - 1 < |blocks| then blocks[FirstPort(hp) - 1].start else 0
  }

  ghost predicate ProcessAt(blocks: seq<Block>, hp: HostProcess, index: nat, t: Templates, P: nat)
    requires IsPointerSize(P)
  {
    && LastRegion(hp) < |blocks|
    && blocks[0].cells == InCells(index, t, P) && blocks[1].cells == OutCells(index, t, P)
    && TransportAt(blocks, hp)
    && PortsAt(blocks, FirstPort(hp), hp.inputs, P) && PortsAt(blocks, FirstOutput(hp), hp.outputs, P)
    && blocks[LastRegion(hp)].cells ==
         ProcessCells(hp, TransportStart(blocks, hp), blocks[FirstPort(hp)].start, blocks[FirstOutput(hp)].start,
                      blocks[0].start, blocks[1].start, P)
  }

  // ---- Decoding

  lemma {:induction false} ProcessRecord(m: seq<byte>, b: Block, hp: HostProcess, P: nat, tr: nat, ins: nat,
                                         outs: nat, inEv: nat, outEv: nat)
    requires IsPointerSize(P) && HostFits(hp) && Holds(m, b)
             && b.cells == ProcessCells(hp, tr, ins, outs, inEv, outEv, P)
    requires tr < Pow256(P) && ins < Pow256(P) && outs < Pow256(P) && inEv < Pow256(P) && outEv < Pow256(P)
    ensures LoadRecord(m, b.start, ProcessWidths(P))
         == [hp.steady, hp.frames, 0, tr, ins, outs, |hp.inputs|, |hp.outputs|, inEv, outEv]
  {
    assert Widths(b.cells) == ProcessWidths(P);
    assert AllFit(b.cells);
    HoldsRecord(m, b, ProcessWidths(P));
    var v := Values(b.cells);
    assert v[0] == hp.steady && v[1] == hp.frames && v[2] == 0 && v[3] == tr && v[4] == ins;
    assert v[5] == outs && v[6] == |hp.inputs| && v[7] == |hp.outputs| && v[8] == inEv && v[9] == outEv;
  }

  lemma {:induction false} EventStructsDecode(m: seq<byte>, a: Block, b: Block, index: nat, t: Templates, P: nat)
    requires ContextFits(index, t, P) && Holds(m, a) && Holds(m, b)
    requires a.cells == InCells(index, t, P) && b.cells == OutCells(index, t, P)
    ensures LoadRecord(m, a.start, [P, P, P]) == [index, t.size, t.get]
    ensures LoadRecord(m, b.start, [P, P]) == [index, t.tryPush]
  {
    assert Widths(a.cells) == [P, P, P] && Widths(b.cells) == [P, P] && AllFit(a.cells) && AllFit(b.cells);
    HoldsRecord(m, a, [P, P, P]);
    HoldsRecord(m, b, [P, P]);
    assert Values(a.cells) == [index, t.size, t.get] && Values(b.cells) == [index, t.tryPush];
  }

  lemma {:induction false} TransportDecodes(m: seq<byte>, blocks: seq<Block>, hp: HostProcess)
    requires AllHold(m, blocks) && NonNull(blocks) && HostFits(hp) && TransportAt(blocks, hp)
    ensures var p := TransportStart(blocks, hp);
            hp.transport == if p == 0 then None else Some(LoadArray(m, p, 1, TRANSPORT_BYTES))
  {
    if hp.transport.Some? {
      var b := blocks[FirstPort(hp) - 1];
      assert Holds(m, b) && AllFit(b.cells);
      HoldsArray(m, b, 1, hp.transport.value);
    }
  }

  /** Following the process pointer gives the host's record back, field for field and sample for sample. */
  lemma {:induction false} ProcessDecodes(m: seq<byte>, blocks: seq<Block>, hp: HostProcess, index: nat, t: Templates,
                                          P: nat)
    requires IsPointerSize(P) && HostFits(hp) && ContextFits(index, t, P)
    requires AllHold(m, blocks) && Addressable(blocks, P) && NonNull(blocks) && ProcessAt(blocks, hp, index, t, P)
    ensures DecodeProcess(m, blocks[LastRegion(hp)].start, P) == View(hp, index, t)
  {
    var last := blocks[LastRegion(hp)];
    var tr := TransportStart(blocks, hp);
    assert Holds(m, last) && Holds(m, blocks[0]) && Holds(m, blocks[1]);
    assert 0 < Pow256(P);
    ProcessRecord(m, last, hp, P, tr, blocks[FirstPort(hp)].start, blocks[FirstOutput(hp)].start,
                  blocks[0].start, blocks[1].start);
    EventStructsDecode(m, blocks[0], blocks[1], index, t, P);
    TransportDecodes(m, blocks, hp);
    PortsDecode(m, blocks, FirstPort(hp), hp.inputs, hp.frames, P);
    PortsDecode(m, blocks, FirstOutput(hp), hp.outputs, hp.frames, P);
  }

  // ---- Regions of channels

  ghost predicate HasChannel(ports: seq<AudioBuffer>, j: nat, is64: bool, c: nat) {
    j < |ports| && var data := if is64 then ports[j].data64 else ports[j].data32; data.Some? && c < |data.value|
  }

  /** The region of channel `c` of port `j`, for a port array in region `h`. */
  ghost function ChannelRegion(ports: seq<AudioBuffer>, h: nat, j: nat, is64: bool, c: nat): nat
    requires HasChannel(ports, j, is64, c)
  {
    h + 1 + PortBlocks(ports[..j]) + (if is64 then ChannelBlocks(ports[j].data32) else 0) + 1 + c
  }

  lemma {:induction false} ChannelRegionBounds(ports: seq<AudioBuffer>, h: nat, j: nat, is64: bool, c: nat)
    requires HasChannel(ports, j, is64, c)
    ensures h + 1 + PortBlocks(ports[..j]) < ChannelRegion(ports, h, j, is64, c) < h + 1 + PortBlocks(ports[..j + 1])
    ensures ChannelRegion(ports, h, j, is64, c) < h + 1 + PortBlocks(ports)
  {
    PortBlocksMonotone(ports, j, j + 1);
    PortBlocksMonotone(ports, j + 1, |ports|);
    assert ports[..|ports|] == ports && ports[..j + 1][..j] == ports[..j];
  }

  /** No two channels of one port array share a byte of guest memory, whatever their ports and sample types. */
  lemma {:induction false} ChannelsDisjoint(blocks: seq<Block>, base: nat, top: nat, h: nat, ports: seq<AudioBuffer>,
                                            P: nat,
                                            j: nat, is64: bool, c: nat, j': nat, is64': bool, c': nat)
    requires Ordered(blocks, base, top) && PortsAt(blocks, h, ports, P)
    requires HasChannel(ports, j, is64, c) && HasChannel(ports, j', is64', c') && (j, is64, c) != (j', is64', c')
    ensures var x, y := ChannelRegion(ports, h, j, is64, c), ChannelRegion(ports, h, j', is64', c');
            x < |blocks| && y < |blocks| && (blocks[x].End() <= blocks[y].start || blocks[y].End() <= blocks[x].start)
  {
    var x, y := ChannelRegion(ports, h, j, is64, c), ChannelRegion(ports, h, j', is64', c');
    ChannelRegionBounds(ports, h, j, is64, c);
    ChannelRegionBounds(ports, h, j', is64', c');
    assert ports[..|ports|] == ports;
    if j < j' { PortBlocksMonotone(ports, j + 1, j'); }
    if j' < j { PortBlocksMonotone(ports, j' + 1, j); }
    assert x != y;
    assert blocks[x].End() <= top && blocks[y].End() <= top;
  }
}
