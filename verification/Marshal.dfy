/** The copy loops of `pluginProcess`: samples into channels, channels into tables, tables into port records. */
module Marshal {
  import opened Wrappers
  import opened Bytes
  import opened Memory
  import opened Events
  import opened EventQueues
  import opened Audio

  // ---- Arena bytes a call may take, alignment included

  ghost function Repeat(n: nat, unit: nat): nat { if n == 0 then 0 else unit + Repeat(n - 1, unit) }

  ghost function ChannelsCost(n: nat, bytes: nat, P: nat): nat { n * P + 7 + Repeat(n, bytes + 7) }

  ghost function DataCost(data: Option<seq<seq<nat>>>, bytes: nat, P: nat): nat {
    if data.Some? then ChannelsCost(|data.value|, bytes, P) else 0
  }

  ghost function BufferCost(b: AudioBuffer, frames: nat, P: nat): nat {
    DataCost(b.data32, frames * 4, P) + DataCost(b.data64, frames * 8, P)
  }

  ghost function PortsDataCost(ports: seq<AudioBuffer>, frames: nat, P: nat): nat {
    if ports == [] then 0 else BufferCost(ports[0], frames, P) + PortsDataCost(ports[1..], frames, P)
  }

  lemma {:induction false} DataCostFrom(ports: seq<AudioBuffer>, j: nat, frames: nat, P: nat)
    requires j < |ports|
    ensures PortsDataCost(ports[j..], frames, P)
         == BufferCost(ports[j], frames, P) + PortsDataCost(ports[j + 1..], frames, P)
  {
    assert ports[j..][1..] == ports[j + 1..];
  }

  ghost function PortsCost(ports: seq<AudioBuffer>, frames: nat, P: nat): nat {
    |ports| * BufferSize(P) + 7 + PortsDataCost(ports, frames, P)
  }

  // ---- Regions of equal cells

  function Uniform(n: nat, width: nat): (ws: seq<nat>)
    ensures |ws| == n && forall i :: 0 <= i < n ==> ws[i] == width
  {
    seq(n, _ => width)
  }

  lemma {:induction false} UniformSum(n: nat, width: nat)
    ensures Sum(Uniform(n, width)) == n * width
  {
    if n == 0 {
    } else {
      UniformSum(n - 1, width);
      assert Uniform(n, width)[..n - 1] == Uniform(n - 1, width);
      OneMore(n - 1, width);
    }
  }

  // ---- Channels

  /** One turn of the channel loop, on the log: a fresh channel region, then its address into the table. */
  lemma {:induction false} ChannelStep(a: seq<Block>, b: seq<Block>, c: seq<Block>, k: nat, chans: seq<seq<nat>>,
                                       w: nat, P: nat, i: nat, p: nat)
    requires ChannelsUpTo(a, k, chans, w, P, i) && i < |chans| && |a| == k + 1 + i
    requires b == a + [Block(p, Words(w, chans[i]))]
    requires c == b[k := Replace(b[k], i, [Field(P, p)])]
    ensures ChannelsUpTo(c, k, chans, w, P, i + 1) && |c| == k + 1 + (i + 1)
    ensures c[k].start == a[k].start
    ensures forall j :: 0 <= j < k ==> c[j] == a[j]
  {}

  method ReserveTable(scope: Scope, n: nat, P: nat) returns (table: nat)
    requires scope.Valid() && IsPointerSize(P) && scope.top + n * P + 7 <= scope.limit
    modifies scope`top, scope`blocks
    ensures scope.Valid() && scope.top <= old(scope.top) + n * P + 7
    ensures |scope.blocks| == |old(scope.blocks)| + 1
    ensures forall j :: 0 <= j < |old(scope.blocks)| ==> scope.blocks[j] == old(scope.blocks)[j]
    ensures var b := scope.blocks[|old(scope.blocks)|];
            b.start == table && |b.cells| == n && forall c :: 0 <= c < n ==> b.cells[c].width == P
  {
    ghost var k, was := |scope.blocks|, scope.blocks;
    UniformSum(n, P);
    table := scope.Reserve(n * P, P, Uniform(n, P));
    forall c | 0 <= c < n ensures scope.blocks[k].cells[c].width == P {
      assert Widths(scope.blocks[k].cells)[c] == Uniform(n, P)[c];
    }
    GrewIsSame(was, scope.blocks, 0, k);
  }

  /** One channel: its samples into a fresh region, its address into entry `i` of the table in region `k`. */
  method CopyChannel(scope: Scope, chans: seq<seq<nat>>, w: nat, P: nat, table: nat, ghost k: nat, i: nat)
    requires scope.Valid() && IsPointerSize(P) && (w == 4 || w == 8)
    requires i < |chans| && AllFit(Words(w, chans[i])) && scope.top + |chans[i]| * w + 7 <= scope.limit
    requires ChannelsUpTo(scope.blocks, k, chans, w, P, i) && |scope.blocks| == k + 1 + i
    requires table == scope.blocks[k].start
    modifies scope`top, scope`blocks, scope.memory.data
    ensures scope.Valid() && scope.top <= old(scope.top) + |chans[i]| * w + 7
    ensures ChannelsUpTo(scope.blocks, k, chans, w, P, i + 1) && |scope.blocks| == k + 1 + (i + 1)
    ensures table == scope.blocks[k].start
    ensures forall j :: 0 <= j < k ==> scope.blocks[j] == old(scope.blocks)[j]
  {
    ghost var a := scope.blocks;
    UniformSize(Words(w, chans[i]), w);
    var p := scope.CopyAcross(Words(w, chans[i]), w);
    ghost var b := scope.blocks;
    UniformSize(b[k].cells[..i], P);
    scope.Set(table + i * P, [Field(P, p)], k, i);
    ChannelStep(a, b, scope.blocks, k, chans, w, P, i, p);
  }

  method CopyChannels(scope: Scope, chans: seq<seq<nat>>, w: nat, frames: nat, P: nat) returns (table: nat)
    requires scope.Valid() && IsPointerSize(P) && (w == 4 || w == 8) && ChannelsFit(chans, |chans|, frames, w)
    requires scope.top + ChannelsCost(|chans|, frames * w, P) <= scope.limit
    modifies scope`top, scope`blocks, scope.memory.data
    ensures scope.Valid() && Grew(scope.blocks, old(scope.blocks))
    ensures scope.top <= old(scope.top) + ChannelsCost(|chans|, frames * w, P)
    ensures |scope.blocks| == |old(scope.blocks)| + 1 + |chans|
    ensures ChannelsAt(scope.blocks, |old(scope.blocks)|, chans, w, P)
    ensures table == scope.blocks[|old(scope.blocks)|].start
  {
    ghost var k := |scope.blocks|;
    ghost var was := scope.blocks;
    ghost var bytes := frames * w;
    table := ReserveTable(scope, |chans|, P);
    var i := 0;
    while i < |chans|
      invariant 0 <= i <= |chans|
      invariant scope.Valid() && |scope.blocks| == k + 1 + i
      invariant ChannelsUpTo(scope.blocks, k, chans, w, P, i) && table == scope.blocks[k].start
      invariant forall j :: 0 <= j < k ==> scope.blocks[j] == was[j]
      invariant scope.top + Repeat(|chans| - i, bytes + 7) <= old(scope.top) + ChannelsCost(|chans|, bytes, P)
    {
      CopyChannel(scope, chans, w, P, table, k, i);
      i := i + 1;
    }
  }

  /** `data32` or `data64` of one port: null stays null. */
  method CopyData(scope: Scope, data: Option<seq<seq<nat>>>, w: nat, frames: nat, P: nat) returns (table: nat)
    requires scope.Valid() && IsPointerSize(P) && (w == 4 || w == 8)
    requires data.Some? ==> ChannelsFit(data.value, |data.value|, frames, w)
    requires scope.top + DataCost(data, frames * w, P) <= scope.limit
    modifies scope`top, scope`blocks, scope.memory.data
    ensures scope.Valid() && Grew(scope.blocks, old(scope.blocks))
    ensures scope.top <= old(scope.top) + DataCost(data, frames * w, P)
    ensures |scope.blocks| == |old(scope.blocks)| + ChannelBlocks(data)
    ensures data.Some? ==> ChannelsAt(scope.blocks, |old(scope.blocks)|, data.value, w, P)
    ensures table == TableStart(scope.blocks, |old(scope.blocks)|, data)
  {
    table := 0;
    if data.Some? {
      table := CopyChannels(scope, data.value, w, frames, P);
    }
  }

  // ---- Ports

  lemma {:induction false} GrewIsSame(a: seq<Block>, b: seq<Block>, lo: nat, hi: nat)
    requires Grew(b, a) && lo <= hi <= |a|
    ensures SameRegions(a, b, lo, hi)
  {
    assert forall i :: 0 <= i < |a| ==> b[..|a|][i] == b[i];
  }

  /** `translateBuffer`: the tables and samples of a port, then its record, which lies in region `h`. */
  method TranslateBuffer(scope: Scope, b: AudioBuffer, frames: nat, P: nat, record: nat, ghost h: nat, ghost n: nat,
                         ghost j: nat)
    requires scope.Valid() && IsPointerSize(P) && BufferFits(b, frames)
    requires scope.top + BufferCost(b, frames, P) <= scope.limit
    requires h < |scope.blocks| && PortWidths(scope.blocks[h].cells, n, P) && j < n
    requires record == scope.blocks[h].start + j * BufferSize(P)
    modifies scope`top, scope`blocks, scope.memory.data
    ensures scope.Valid() && scope.top <= old(scope.top) + BufferCost(b, frames, P)
    ensures |scope.blocks| == |old(scope.blocks)| + BufferBlocks(b)
    ensures BufferAt(scope.blocks, h, j, |old(scope.blocks)|, b, P)
    ensures forall i :: 0 <= i < |old(scope.blocks)| && i != h ==> scope.blocks[i] == old(scope.blocks)[i]
    ensures scope.blocks[h].start == old(scope.blocks[h].start) && PortWidths(scope.blocks[h].cells, n, P)
    ensures forall i :: 0 <= i < 5 * n && !(5 * j <= i < 5 * j + 5) ==>
              scope.blocks[h].cells[i] == old(scope.blocks[h].cells[i])
  {
    ghost var was := scope.blocks;
    var p32 := CopyData(scope, b.data32, 4, frames, P);
    ghost var mid := scope.blocks;
    var p64 := CopyData(scope, b.data64, 8, frames, P);
    ghost var now := scope.blocks;
    DataStep(was, mid, now, b, P);
    assert now[h] == was[h];
    PortOffset(now[h].cells, n, P, j);
    BufferCellsOk(b, frames, p32, p64, P);
    RecordWidths(now[h].cells, n, j, BufferCells(b, p32, p64, P), P);
    scope.Set(record, BufferCells(b, p32, p64, P), h, 5 * j);
    RecordStep(now, scope.blocks, h, n, j, |was|, b, p32, p64, P);
  }

  lemma {:induction false} DataStep(was: seq<Block>, mid: seq<Block>, now: seq<Block>, b: AudioBuffer, P: nat)
    requires Grew(mid, was) && Grew(now, mid)
    requires |mid| == |was| + ChannelBlocks(b.data32) && |now| == |mid| + ChannelBlocks(b.data64)
    requires b.data32.Some? ==> ChannelsAt(mid, |was|, b.data32.value, 4, P)
    requires b.data64.Some? ==> ChannelsAt(now, |mid|, b.data64.value, 8, P)
    ensures DataAt(now, |was|, b, P)
    ensures TableStart(now, |was|, b.data32) == TableStart(mid, |was|, b.data32)
    ensures forall i :: 0 <= i < |was| ==> now[i] == was[i]
  {
    GrewIsSame(mid, now, 0, |mid|);
    GrewIsSame(was, mid, 0, |was|);
    if b.data32.Some? { ChannelsElsewhere(mid, now, |was|, b.data32.value, 4, P); }
  }

  lemma {:induction false} BufferCellsOk(b: AudioBuffer, frames: nat, p32: nat, p64: nat, P: nat)
    requires BufferFits(b, frames)
    ensures Widths(BufferCells(b, p32, p64, P)) == BufferWidths(P) && AllFit(BufferCells(b, p32, p64, P))
  {
    var cells := BufferCells(b, p32, p64, P);
    assert Widths(cells) == BufferWidths(P);
  }

  lemma {:induction false} RecordWidths(all: seq<Cell>, n: nat, j: nat, cells: seq<Cell>, P: nat)
    requires PortWidths(all, n, P) && j < n && Widths(cells) == BufferWidths(P)
    ensures SameWidths(cells, all[5 * j..5 * j + 5])
  {
    FiveCells(all, n, j, all[5 * j..5 * j + 5], P);
    WidthsAgree(cells, all[5 * j..5 * j + 5]);
  }

  lemma {:induction false} RecordStep(a: seq<Block>, b: seq<Block>, h: nat, n: nat, j: nat, k: nat, buf: AudioBuffer,
                                      p32: nat, p64: nat, P: nat)
    requires h < k && k + BufferBlocks(buf) <= |a| && PortWidths(a[h].cells, n, P) && j < n && DataAt(a, k, buf, P)
    requires p32 == TableStart(a, k, buf.data32) && p64 == TableStart(a, k + ChannelBlocks(buf.data32), buf.data64)
    requires b == a[h := Replace(a[h], 5 * j, BufferCells(buf, p32, p64, P))]
    ensures BufferAt(b, h, j, k, buf, P) && b[h].start == a[h].start && PortWidths(b[h].cells, n, P)
    ensures forall i :: 0 <= i < 5 * n && !(5 * j <= i < 5 * j + 5) ==> b[h].cells[i] == a[h].cells[i]
  {
    DataElsewhere(a, b, k, buf, P);
    var cells := BufferCells(buf, p32, p64, P);
    assert b[h].cells[5 * j..5 * j + 5] == cells;
    assert Widths(cells) == BufferWidths(P);
    RecordWidths(a[h].cells, n, j, cells, P);
    ReplaceWidths(a[h], 5 * j, cells);
  }

  /** One turn of a port loop, on the log. */
  lemma {:induction false} PortStep(a: seq<Block>, b: seq<Block>, h: nat, ports: seq<AudioBuffer>, P: nat, j: nat)
    requires PortsUpTo(a, h, ports, P, j) && j < |ports| && |a| == h + 1 + PortBlocks(ports[..j])
    requires |b| == |a| + BufferBlocks(ports[j]) && BufferAt(b, h, j, |a|, ports[j], P)
    requires forall i :: 0 <= i < |a| && i != h ==> b[i] == a[i]
    requires PortWidths(b[h].cells, |ports|, P)
    requires forall i :: 0 <= i < 5 * |ports| && !(5 * j <= i < 5 * j + 5) ==> b[h].cells[i] == a[h].cells[i]
    ensures PortsUpTo(b, h, ports, P, j + 1) && |b| == h + 1 + PortBlocks(ports[..j + 1])
  {
    assert ports[..j + 1][..j] == ports[..j];
    forall x | 0 <= x < j + 1 ensures PortAt(b, h, ports, P, x) {
      if x < j {
        assert PortAt(a, h, ports, P, x);
        PortBlocksMonotone(ports, x, j);
        assert b[h].cells[5 * x..5 * x + 5] == a[h].cells[5 * x..5 * x + 5];
        BufferElsewhere(a, b, h, x, h + 1 + PortBlocks(ports[..x]), ports[x], P);
      }
    }
  }

  /** One turn of a port loop. */
  method TranslateNext(scope: Scope, ports: seq<AudioBuffer>, frames: nat, P: nat, array_: nat, ghost h: nat, j: nat)
    requires scope.Valid() && IsPointerSize(P) && PortsFit(ports, frames) && j < |ports|
    requires scope.top + PortsDataCost(ports[j..], frames, P) <= scope.limit
    requires |scope.blocks| == h + 1 + PortBlocks(ports[..j]) && PortsUpTo(scope.blocks, h, ports, P, j)
    requires array_ == scope.blocks[h].start
    modifies scope`top, scope`blocks, scope.memory.data
    ensures scope.Valid()
    ensures scope.top + PortsDataCost(ports[j + 1..], frames, P)
            <= old(scope.top) + PortsDataCost(ports[j..], frames, P)
    ensures |scope.blocks| == h + 1 + PortBlocks(ports[..j + 1]) && PortsUpTo(scope.blocks, h, ports, P, j + 1)
    ensures array_ == scope.blocks[h].start
    ensures forall i :: 0 <= i < h ==> scope.blocks[i] == old(scope.blocks)[i]
  {
    ghost var a := scope.blocks;
    DataCostFrom(ports, j, frames, P);
    TranslateBuffer(scope, ports[j], frames, P, array_ + j * BufferSize(P), h, |ports|, j);
    PortStep(a, scope.blocks, h, ports, P, j);
  }

  /** A port loop: the array of records first, then every port in order. */
  method TranslatePorts(scope: Scope, ports: seq<AudioBuffer>, frames: nat, P: nat) returns (array_: nat)
    requires scope.Valid() && IsPointerSize(P) && PortsFit(ports, frames)
    requires scope.top + PortsCost(ports, frames, P) <= scope.limit
    modifies scope`top, scope`blocks, scope.memory.data
    ensures scope.Valid() && Grew(scope.blocks, old(scope.blocks))
    ensures scope.top <= old(scope.top) + PortsCost(ports, frames, P)
    ensures |scope.blocks| == |old(scope.blocks)| + 1 + PortBlocks(ports)
    ensures PortsAt(scope.blocks, |old(scope.blocks)|, ports, P)
    ensures array_ == scope.blocks[|old(scope.blocks)|].start
  {
    ghost var h := |scope.blocks|;
    ghost var was := scope.blocks;
    array_ := ReservePorts(scope, |ports|, P);
    assert ports[..0] == [] && ports[0..] == ports;
    var j := 0;
    while j < |ports|
      invariant 0 <= j <= |ports|
      invariant scope.Valid() && |scope.blocks| == h + 1 + PortBlocks(ports[..j])
      invariant PortsUpTo(scope.blocks, h, ports, P, j) && array_ == scope.blocks[h].start
      invariant forall i :: 0 <= i < h ==> scope.blocks[i] == was[i]
      invariant scope.top + PortsDataCost(ports[j..], frames, P) <= old(scope.top) + PortsCost(ports, frames, P)
    {
      TranslateNext(scope, ports, frames, P, array_, h, j);
      j := j + 1;
    }
    assert ports[..|ports|] == ports;
  }

  method ReservePorts(scope: Scope, n: nat, P: nat) returns (array_: nat)
    requires scope.Valid() && IsPointerSize(P) && scope.top + n * BufferSize(P) + 7 <= scope.limit
    modifies scope`top, scope`blocks
    ensures scope.Valid() && scope.top <= old(scope.top) + n * BufferSize(P) + 7
    ensures |scope.blocks| == |old(scope.blocks)| + 1
    ensures forall j :: 0 <= j < |old(scope.blocks)| ==> scope.blocks[j] == old(scope.blocks)[j]
    ensures scope.blocks[|old(scope.blocks)|].start == array_
    ensures PortWidths(scope.blocks[|old(scope.blocks)|].cells, n, P)
  {
    ghost var h, was := |scope.blocks|, scope.blocks;
    PortArraySum(n, P);
    array_ := scope.Reserve(n * BufferSize(P), 8, PortArrayWidths(n, P));
    GrewIsSame(was, scope.blocks, 0, h);
  }
}
