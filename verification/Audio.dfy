/** Audio ports in guest memory: an array of port records, each pointing at tables of channel pointers, each pointing
    at the samples.  Samples are bit patterns: 4 bytes for the 32-bit data, 8 for the 64-bit data. */
module Audio {
  import opened Wrappers
  import opened Bytes
  import opened Memory
  import opened Events

  datatype AudioBuffer = AudioBuffer(
    data32: Option<seq<seq<nat>>>, data64: Option<seq<seq<nat>>>, channels: nat, latency: nat, mask: nat)

  ghost predicate ChannelsFit(chans: seq<seq<nat>>, n: nat, frames: nat, w: nat) {
    |chans| == n && forall c :: 0 <= c < n ==> |chans[c]| == frames && AllFit(Words(w, chans[c]))
  }

  /** What the host hands over for one port: null or one pointer per channel, each to `frames` samples. */
  ghost predicate BufferFits(b: AudioBuffer, frames: nat) {
    && b.channels < Pow256(4) && b.latency < Pow256(4) && b.mask < Pow256(8)
    && (b.data32.Some? ==> ChannelsFit(b.data32.value, b.channels, frames, 4))
    && (b.data64.Some? ==> ChannelsFit(b.data64.value, b.channels, frames, 8))
  }

  // ---- What the guest reads

  function BufferWidths(P: nat): seq<nat> { [P, P, 4, 4, 8] }

  function BufferSize(P: nat): nat { 2 * P + 16 }

  function DecodeChannels(m: seq<byte>, table: nat, n: nat, w: nat, frames: nat, P: nat): (chans: seq<seq<nat>>)
    ensures |chans| == n
  {
    seq(n, c requires 0 <= c < n => LoadArray(m, Load(m, table + c * P, P), w, frames))
  }

  function DecodeBuffer(m: seq<byte>, a: nat, frames: nat, P: nat): AudioBuffer {
    var r := LoadRecord(m, a, BufferWidths(P));
    AudioBuffer(
      if r[0] == 0 then None else Some(DecodeChannels(m, r[0], r[2], 4, frames, P)),
      if r[1] == 0 then None else Some(DecodeChannels(m, r[1], r[2], 8, frames, P)),
      r[2], r[3], r[4])
  }

  function DecodePorts(m: seq<byte>, a: nat, n: nat, frames: nat, P: nat): (ports: seq<AudioBuffer>)
    ensures |ports| == n
  {
    seq(n, j requires 0 <= j < n => DecodeBuffer(m, a + j * BufferSize(P), frames, P))
  }

  // ---- Where it sits in the arena log

  /** Region `k` is the pointer table, the next ones are the channels; the first `upTo` channels are done. */
  ghost predicate ChannelsUpTo(blocks: seq<Block>, k: nat, chans: seq<seq<nat>>, w: nat, P: nat, upTo: nat) {
    && upTo <= |chans| && k + upTo < |blocks|
    && |blocks[k].cells| == |chans|
    && (forall c :: 0 <= c < |chans| ==> blocks[k].cells[c].width == P)
    && (forall c :: 0 <= c < upTo ==> blocks[k].cells[c] == Field(P, blocks[k + 1 + c].start))
    && (forall c :: 0 <= c < upTo ==> blocks[k + 1 + c].cells == Words(w, chans[c]))
  }

  ghost predicate ChannelsAt(blocks: seq<Block>, k: nat, chans: seq<seq<nat>>, w: nat, P: nat) {
    ChannelsUpTo(blocks, k, chans, w, P, |chans|)
  }

  ghost function ChannelBlocks(data: Option<seq<seq<nat>>>): nat {
    if data.Some? then 1 + |data.value| else 0
  }

  ghost function TableStart(blocks: seq<Block>, k: nat, data: Option<seq<seq<nat>>>): nat {
    if data.Some? && k < |blocks| then blocks[k].start else 0
  }

  ghost function BufferBlocks(b: AudioBuffer): nat { ChannelBlocks(b.data32) + ChannelBlocks(b.data64) }

  function BufferCells(b: AudioBuffer, p32: nat, p64: nat, P: nat): seq<Cell> {
    [Field(P, p32), Field(P, p64), Cell(4, b.channels), Cell(4, b.latency), Cell(8, b.mask)]
  }

  /** The tables and samples of `b` start at region `k`. */
  ghost predicate DataAt(blocks: seq<Block>, k: nat, b: AudioBuffer, P: nat) {
    && (b.data32.Some? ==> ChannelsAt(blocks, k, b.data32.value, 4, P))
    && (b.data64.Some? ==> ChannelsAt(blocks, k + ChannelBlocks(b.data32), b.data64.value, 8, P))
  }

  /** Record `j` of the port array in region `h` describes `b`, whose data starts at region `k`. */
  ghost predicate BufferAt(blocks: seq<Block>, h: nat, j: nat, k: nat, b: AudioBuffer, P: nat) {
    && h < k && k + BufferBlocks(b) <= |blocks| && 5 * j + 5 <= |blocks[h].cells|
    && DataAt(blocks, k, b, P)
    && blocks[h].cells[5 * j..5 * j + 5] ==
         BufferCells(b, TableStart(blocks, k, b.data32), TableStart(blocks, k + ChannelBlocks(b.data32), b.data64), P)
  }

  ghost function PortBlocks(ports: seq<AudioBuffer>): nat {
    if ports == [] then 0 else PortBlocks(ports[..|ports| - 1]) + BufferBlocks(ports[|ports| - 1])
  }

  /** The fields of `n` port records in a row. */
  function PortArrayWidths(n: nat, P: nat): (ws: seq<nat>)
    ensures |ws| == 5 * n
  {
    if n == 0 then [] else PortArrayWidths(n - 1, P) + BufferWidths(P)
  }

  ghost predicate PortWidths(cells: seq<Cell>, n: nat, P: nat) {
    Widths(cells) == PortArrayWidths(n, P)
  }

  ghost predicate PortAt(blocks: seq<Block>, h: nat, ports: seq<AudioBuffer>, P: nat, j: nat) {
    j < |ports| && BufferAt(blocks, h, j, h + 1 + PortBlocks(ports[..j]), ports[j], P)
  }

  ghost predicate PortsUpTo(blocks: seq<Block>, h: nat, ports: seq<AudioBuffer>, P: nat, upTo: nat) {
    && upTo <= |ports| && h + 1 + PortBlocks(ports[..upTo]) <= |blocks|
    && PortWidths(blocks[h].cells, |ports|, P)
    && forall j :: 0 <= j < upTo ==> PortAt(blocks, h, ports, P, j)
  }

  ghost predicate PortsAt(blocks: seq<Block>, h: nat, ports: seq<AudioBuffer>, P: nat) {
    PortsUpTo(blocks, h, ports, P, |ports|)
  }

  // ---- Changes elsewhere in the log

  /** The regions from `lo` up to `hi` are as they were. */
  ghost predicate SameRegions(a: seq<Block>, b: seq<Block>, lo: nat, hi: nat) {
    hi <= |a| && hi <= |b| && forall i :: lo <= i < hi ==> a[i] == b[i]
  }

  lemma {:induction false} ChannelsElsewhere(a: seq<Block>, b: seq<Block>, k: nat, chans: seq<seq<nat>>, w: nat, P: nat)
    requires ChannelsAt(a, k, chans, w, P) && SameRegions(a, b, k, k + 1 + |chans|)
    ensures ChannelsAt(b, k, chans, w, P)
  {}

  lemma {:induction false} DataElsewhere(a: seq<Block>, b: seq<Block>, k: nat, buf: AudioBuffer, P: nat)
    requires DataAt(a, k, buf, P) && SameRegions(a, b, k, k + BufferBlocks(buf))
    ensures DataAt(b, k, buf, P)
  {
    if buf.data32.Some? { ChannelsElsewhere(a, b, k, buf.data32.value, 4, P); }
    if buf.data64.Some? { ChannelsElsewhere(a, b, k + ChannelBlocks(buf.data32), buf.data64.value, 8, P); }
  }

  lemma {:induction false} BufferElsewhere(a: seq<Block>, b: seq<Block>, h: nat, j: nat, k: nat, buf: AudioBuffer,
                                           P: nat)
    requires BufferAt(a, h, j, k, buf, P) && SameRegions(a, b, k, k + BufferBlocks(buf))
    requires h < |b| && |b[h].cells| == |a[h].cells| && b[h].cells[5 * j..5 * j + 5] == a[h].cells[5 * j..5 * j + 5]
    ensures BufferAt(b, h, j, k, buf, P)
  {
    DataElsewhere(a, b, k, buf, P);
  }

  lemma {:induction false} PortBlocksMonotone(ports: seq<AudioBuffer>, i: nat, j: nat)
    requires i <= j <= |ports|
    ensures PortBlocks(ports[..i]) <= PortBlocks(ports[..j])
    ensures i < j ==> PortBlocks(ports[..i]) + BufferBlocks(ports[i]) <= PortBlocks(ports[..j])
  {
    if i == j {
    } else {
      assert ports[..j][..j - 1] == ports[..j - 1];
      PortBlocksMonotone(ports, i, j - 1);
    }
  }

  lemma {:induction false} PortsElsewhere(a: seq<Block>, b: seq<Block>, h: nat, ports: seq<AudioBuffer>, P: nat,
                                          upTo: nat)
    requires PortsUpTo(a, h, ports, P, upTo) && SameRegions(a, b, h, h + 1 + PortBlocks(ports[..upTo]))
    ensures PortsUpTo(b, h, ports, P, upTo)
  {
    forall j | 0 <= j < upTo ensures PortAt(b, h, ports, P, j) {
      assert PortAt(a, h, ports, P, j);
      PortBlocksMonotone(ports, j, upTo);
      BufferElsewhere(a, b, h, j, h + 1 + PortBlocks(ports[..j]), ports[j], P);
    }
  }

  // ---- Decoding what the log says

  lemma {:induction false} ChannelsDecode(m: seq<byte>, blocks: seq<Block>, k: nat, chans: seq<seq<nat>>, w: nat,
                                          frames: nat, P: nat)
    requires AllHold(m, blocks) && Addressable(blocks, P) && ChannelsAt(blocks, k, chans, w, P)
    requires forall c :: 0 <= c < |chans| ==> |chans[c]| == frames
    ensures DecodeChannels(m, blocks[k].start, |chans|, w, frames, P) == chans
  {
    forall c | 0 <= c < |chans| ensures DecodeChannels(m, blocks[k].start, |chans|, w, frames, P)[c] == chans[c] {
      ChannelPointer(m, blocks, k, c, P);
      HoldsArray(m, blocks[k + 1 + c], w, chans[c]);
    }
  }

  /** Entry `c` of a pointer table is the address of its channel. */
  lemma {:induction false} ChannelPointer(m: seq<byte>, blocks: seq<Block>, k: nat, c: nat, P: nat)
    requires AllHold(m, blocks) && Addressable(blocks, P) && k < |blocks| && c < |blocks[k].cells|
             && k + 1 + c < |blocks|
    requires forall i :: 0 <= i < |blocks[k].cells| ==> blocks[k].cells[i].width == P
    requires blocks[k].cells[c] == Field(P, blocks[k + 1 + c].start)
    ensures Load(m, blocks[k].start + c * P, P) == blocks[k + 1 + c].start
    ensures blocks[k].start + c * P + P <= blocks[k].End()
  {
    HoldsCell(m, blocks[k], c);
    UniformSize(blocks[k].cells[..c], P);
    HoldsPart(m, blocks[k], c, c + 1);
    assert blocks[k].cells[c..c + 1][..0] == [];
  }

  lemma {:induction false} SumFiveWidths(P: nat)
    ensures Sum(BufferWidths(P)) == BufferSize(P)
  {
    SumFive(P, P, 4, 4, 8);
  }

  lemma {:induction false} PortArraySum(n: nat, P: nat)
    ensures Sum(PortArrayWidths(n, P)) == n * BufferSize(P)
  {
    if n == 0 {
    } else {
      PortArraySum(n - 1, P);
      SumConcat(PortArrayWidths(n - 1, P), BufferWidths(P));
      SumFiveWidths(P);
      OneMore(n - 1, BufferSize(P));
    }
  }

  lemma {:induction false} PortArrayAt(n: nat, P: nat, j: nat)
    requires j <= n
    ensures PortArrayWidths(n, P)[..5 * j] == PortArrayWidths(j, P)
    ensures j < n ==> PortArrayWidths(n, P)[5 * j..5 * j + 5] == BufferWidths(P)
  {
    if j == n {
    } else {
      PortArrayAt(n - 1, P, j);
    }
  }

  /** Record `j` of a port array lies `j` records into it. */
  lemma {:induction false} PortOffset(cells: seq<Cell>, n: nat, P: nat, j: nat)
    requires PortWidths(cells, n, P) && j <= n
    ensures Size(cells[..5 * j]) == j * BufferSize(P)
  {
    PortArrayAt(n, P, j);
    WidthsSlice(cells, 0, 5 * j);
    assert cells[0..5 * j] == cells[..5 * j];
    SumWidths(cells[..5 * j]);
    PortArraySum(j, P);
  }

  lemma {:induction false} FiveCells(all: seq<Cell>, n: nat, j: nat, cells: seq<Cell>, P: nat)
    requires PortWidths(all, n, P) && j < n && all[5 * j..5 * j + 5] == cells
    ensures Widths(cells) == BufferWidths(P)
  {
    PortArrayAt(n, P, j);
    WidthsSlice(all, 5 * j, 5 * j + 5);
  }

  /** The five fields of record `j`, as the guest loads them. */
  lemma {:induction false} PortRecord(m: seq<byte>, b: Block, n: nat, j: nat, cells: seq<Cell>, P: nat, a: nat)
    requires Holds(m, b) && PortWidths(b.cells, n, P) && j < n && AllFit(cells)
    requires b.cells[5 * j..5 * j + 5] == cells && a == b.start + Size(b.cells[..5 * j])
    ensures LoadRecord(m, a, BufferWidths(P)) == Values(cells)
  {
    HoldsPart(m, b, 5 * j, 5 * j + 5);
    FiveCells(b.cells, n, j, cells, P);
    HoldsRecord(m, Block(a, cells), BufferWidths(P));
  }

  ghost predicate NonNull(blocks: seq<Block>) {
    forall i :: 0 <= i < |blocks| ==> blocks[i].start > 0
  }

  lemma {:induction false} BufferRecord(m: seq<byte>, blocks: seq<Block>, h: nat, n: nat, j: nat, k: nat,
                                        b: AudioBuffer, frames: nat, P: nat)
    requires AllHold(m, blocks) && Addressable(blocks, P) && BufferAt(blocks, h, j, k, b, P) && BufferFits(b, frames)
    requires PortWidths(blocks[h].cells, n, P) && j < n
    ensures LoadRecord(m, blocks[h].start + j * BufferSize(P), BufferWidths(P))
         == [TableStart(blocks, k, b.data32), TableStart(blocks, k + ChannelBlocks(b.data32), b.data64),
             b.channels, b.latency, b.mask]
  {
    var p32 := TableStart(blocks, k, b.data32);
    var p64 := TableStart(blocks, k + ChannelBlocks(b.data32), b.data64);
    assert 0 < Pow256(P);
    var cells := BufferCells(b, p32, p64, P);
    assert Values(cells) == [p32, p64, b.channels, b.latency, b.mask];
    PortOffset(blocks[h].cells, n, P, j);
    PortRecord(m, blocks[h], n, j, cells, P, blocks[h].start + Size(blocks[h].cells[..5 * j]));
  }

  lemma {:induction false} DataDecodes(m: seq<byte>, blocks: seq<Block>, k: nat, data: Option<seq<seq<nat>>>, n: nat,
                                       w: nat, frames: nat, P: nat)
    requires AllHold(m, blocks) && Addressable(blocks, P) && NonNull(blocks)
    requires data.Some? ==> ChannelsAt(blocks, k, data.value, w, P) && ChannelsFit(data.value, n, frames, w)
    ensures var p := TableStart(blocks, k, data);
            data == if p == 0 then None else Some(DecodeChannels(m, p, n, w, frames, P))
  {
    if data.Some? { ChannelsDecode(m, blocks, k, data.value, w, frames, P); }
  }

  lemma {:induction false} BufferDecodes(m: seq<byte>, blocks: seq<Block>, h: nat, n: nat, j: nat, k: nat,
                                         b: AudioBuffer, frames: nat, P: nat)
    requires AllHold(m, blocks) && Addressable(blocks, P) && BufferAt(blocks, h, j, k, b, P) && BufferFits(b, frames)
    requires PortWidths(blocks[h].cells, n, P) && j < n && NonNull(blocks)
    ensures DecodeBuffer(m, blocks[h].start + j * BufferSize(P), frames, P) == b
  {
    var k64 := k + ChannelBlocks(b.data32);
    BufferRecord(m, blocks, h, n, j, k, b, frames, P);
    DataDecodes(m, blocks, k, b.data32, b.channels, 4, frames, P);
    DataDecodes(m, blocks, k64, b.data64, b.channels, 8, frames, P);
    Assemble(m, blocks[h].start + j * BufferSize(P), b, frames, P,
             TableStart(blocks, k, b.data32), TableStart(blocks, k64, b.data64));
  }

  lemma {:induction false} Assemble(m: seq<byte>, a: nat, b: AudioBuffer, frames: nat, P: nat, p32: nat, p64: nat)
    requires LoadRecord(m, a, BufferWidths(P)) == [p32, p64, b.channels, b.latency, b.mask]
    requires b.data32 == if p32 == 0 then None else Some(DecodeChannels(m, p32, b.channels, 4, frames, P))
    requires b.data64 == if p64 == 0 then None else Some(DecodeChannels(m, p64, b.channels, 8, frames, P))
    ensures DecodeBuffer(m, a, frames, P) == b
  {}

  ghost predicate PortsFit(ports: seq<AudioBuffer>, frames: nat) {
    forall j :: 0 <= j < |ports| ==> BufferFits(ports[j], frames)
  }

  lemma {:induction false} PortDecodes(m: seq<byte>, blocks: seq<Block>, h: nat, ports: seq<AudioBuffer>, frames: nat,
                                       P: nat, j: nat)
    requires AllHold(m, blocks) && Addressable(blocks, P) && PortsAt(blocks, h, ports, P)
    requires NonNull(blocks) && j < |ports| && BufferFits(ports[j], frames)
    ensures DecodeBuffer(m, blocks[h].start + j * BufferSize(P), frames, P) == ports[j]
  {
    assert PortAt(blocks, h, ports, P, j);
    BufferDecodes(m, blocks, h, |ports|, j, h + 1 + PortBlocks(ports[..j]), ports[j], frames, P);
  }

  /** Following the pointers of a port array gives the host's ports back. */
  lemma {:induction false} PortsDecode(m: seq<byte>, blocks: seq<Block>, h: nat, ports: seq<AudioBuffer>, frames: nat,
                                       P: nat)
    requires AllHold(m, blocks) && Addressable(blocks, P) && PortsAt(blocks, h, ports, P) && PortsFit(ports, frames)
    requires NonNull(blocks)
    ensures DecodePorts(m, blocks[h].start, |ports|, frames, P) == ports
  {
    var decoded := DecodePorts(m, blocks[h].start, |ports|, frames, P);
    forall j: nat | j < |ports| ensures decoded[j] == ports[j] {
      PortDecodes(m, blocks, h, ports, frames, P, j);
    }
  }
}
