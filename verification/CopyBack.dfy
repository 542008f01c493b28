/** Output samples on their way back: through the pointers found in guest memory, into the host's buffers, checked. */
module CopyBack {
  import opened Wrappers
  import opened Bytes
  import opened Memory
  import opened Events
  import opened EventQueues
  import opened Audio
  import opened Process
  import opened Samples

  /** One audio port as the host owns it: channels are host buffers of sample bit patterns. */
  datatype HostPort = HostPort(
    data32: Option<seq<array<nat>>>, data64: Option<seq<array<nat>>>, channels: nat, latency: nat, mask: nat)

  function Arrays(data: Option<seq<array<nat>>>): set<array<nat>> {
    if data.Some? then set c | 0 <= c < |data.value| :: data.value[c] else {}
  }

  function PortArrays(port: HostPort): set<array<nat>> { Arrays(port.data32) + Arrays(port.data64) }

  function AllArrays(ports: seq<HostPort>): (all: set<array<nat>>)
    ensures forall j :: 0 <= j < |ports| ==> PortArrays(ports[j]) <= all
  {
    if ports == [] then {} else AllArrays(ports[..|ports| - 1]) + PortArrays(ports[|ports| - 1])
  }

  function ReadData(data: Option<seq<array<nat>>>): (r: Option<seq<seq<nat>>>)
    reads Arrays(data)
  {
    if data.None? then None
    else Some(seq(|data.value|, c requires 0 <= c < |data.value| reads Arrays(data) => data.value[c][..]))
  }

  /** The record the bridge copies from: what is in the host's buffers now. */
  function Read(port: HostPort): AudioBuffer
    reads PortArrays(port)
  {
    AudioBuffer(ReadData(port.data32), ReadData(port.data64), port.channels, port.latency, port.mask)
  }

  /** Every channel buffer has the length of the block; buffers may be shared. */
  ghost predicate DataFits(data: Option<seq<array<nat>>>, frames: nat) {
    data.Some? ==> forall c :: 0 <= c < |data.value| ==> data.value[c].Length == frames
  }

  ghost predicate PortsFitFrames(ports: seq<HostPort>, frames: nat) {
    forall j :: 0 <= j < |ports| ==> DataFits(ports[j].data32, frames) && DataFits(ports[j].data64, frames)
  }

  // ---- What the copy-back reads, for any guest memory

  function PortRecordAt(m: seq<byte>, outs: nat, j: nat, P: nat): (r: seq<nat>)
    requires BufferSize(P) <= |m|
    ensures |r| == 5
  {
    LoadRecord(m, Clamp(outs + j * BufferSize(P), BufferSize(P), |m|), BufferWidths(P))
  }

  /** The address of entry `c` of a pointer table. */
  function Entry(table: nat, c: nat, P: nat): nat { table + c * P }

  function PointerAt(m: seq<byte>, p: nat, P: nat): nat
    requires P <= |m|
  {
    Load(m, Clamp(p, P, |m|), P)
  }

  function SamplesAt(m: seq<byte>, p: nat, w: nat, frames: nat): (vs: seq<nat>)
    requires frames * w <= |m|
    ensures |vs| == frames
  {
    LoadArray(m, Clamp(p, frames * w, |m|), w, frames)
  }

  function Returned(m: seq<byte>, table: nat, c: nat, w: nat, frames: nat, P: nat): (vs: seq<nat>)
    requires P <= |m| && frames * w <= |m|
    ensures |vs| == frames
  {
    SamplesAt(m, PointerAt(m, Entry(table, c, P), P), w, frames)
  }

  /** No later channel of the same data has the buffer of channel `c`. */
  ghost predicate LastUse(channels: seq<array<nat>>, c: nat)
    requires c < |channels|
  {
    forall d :: c < d < |channels| ==> channels[d] != channels[c]
  }

  /** What is in the given buffers now. */
  function Snapshot(buffers: set<array<nat>>): (now: map<array<nat>, seq<nat>>)
    reads buffers
    ensures now.Keys == buffers && forall a :: a in buffers ==> now[a] == a[..]
  {
    map a | a in buffers :: a[..]
  }

  /** Each channel whose buffer is not written again - by a later channel, or as one of `later` - holds what the table
      leads to, checked. */
  ghost predicate DataReturned(now: map<array<nat>, seq<nat>>, m: seq<byte>, table: nat, data: Option<seq<array<nat>>>,
                               f: Format, frames: nat, P: nat, later: set<array<nat>>)
    requires P <= |m| && (data.Some? ==> frames * f.Width() <= |m|) && Arrays(data) <= now.Keys
  {
    data.Some? ==> forall c :: 0 <= c < |data.value| && LastUse(data.value, c) && data.value[c] !in later ==>
                     now[data.value[c]] == CheckedAll(f, Returned(m, table, c, f.Width(), frames, P))
  }

  ghost predicate SizesFit(length: nat, port: HostPort, frames: nat, P: nat) {
    && P <= BufferSize(P) <= length
    && (port.data32.Some? ==> frames * 4 <= length) && (port.data64.Some? ==> frames * 8 <= length)
  }

  ghost predicate AllSizesFit(length: nat, ports: seq<HostPort>, frames: nat, P: nat) {
    forall j :: 0 <= j < |ports| ==> SizesFit(length, ports[j], frames, P)
  }

  ghost predicate PortReturned(now: map<array<nat>, seq<nat>>, m: seq<byte>, outs: nat, j: nat, port: HostPort,
                               frames: nat, P: nat, later: set<array<nat>>)
    requires SizesFit(|m|, port, frames, P) && PortArrays(port) <= now.Keys
  {
    var r := PortRecordAt(m, outs, j, P);
    && DataReturned(now, m, r[0], port.data32, Single, frames, P, later + Arrays(port.data64))
    && DataReturned(now, m, r[1], port.data64, Double, frames, P, later)
  }

  /** What was returned stays, but for the buffers written since. */
  lemma {:induction false} StillReturned(was: map<array<nat>, seq<nat>>, now: map<array<nat>, seq<nat>>, m: seq<byte>,
                                         outs: nat, j: nat, port: HostPort, frames: nat, P: nat,
                                         later: set<array<nat>>, written: set<array<nat>>, later': set<array<nat>>)
    requires SizesFit(|m|, port, frames, P) && PortArrays(port) <= was.Keys && PortArrays(port) <= now.Keys
    requires PortReturned(was, m, outs, j, port, frames, P, later)
    requires forall a :: a in PortArrays(port) && a !in written ==> now[a] == was[a]
    requires later' == later + written
    ensures PortReturned(now, m, outs, j, port, frames, P, later')
  {}

  // ---- The loops

  /** `getArray` into a host buffer. */
  method GetSamples(memory: LinearMemory, p: nat, w: nat, buffer: array<nat>)
    requires buffer.Length * w <= memory.data.Length
    modifies buffer
    ensures buffer[..] == SamplesAt(memory.data[..], p, w, buffer.Length)
  {
    var n := buffer.Length * w;
    var bytes := memory.GetArray(p, n);
    ghost var m, q := memory.data[..], Clamp(p, n, memory.data.Length);
    ghost var samples := LoadArray(m, q, w, buffer.Length);
    for i := 0 to buffer.Length
      invariant forall k :: 0 <= k < i ==> buffer[k] == samples[k]
    {
      LoadElement(m, q, i, buffer.Length, w);
      buffer[i] := Load(bytes, i * w, w);
    }
  }

  lemma {:induction false} ElementFits(i: nat, n: nat, w: nat)
    requires i < n
    ensures i * w + w <= n * w
  {
    assert (i + 1) * w <= n * w;
  }

  lemma {:induction false} LoadElement(m: seq<byte>, q: nat, i: nat, n: nat, w: nat)
    requires i < n && q + n * w <= |m|
    ensures Load(m[q..q + n * w], i * w, w) == LoadArray(m, q, w, n)[i]
  {
    ElementFits(i, n, w);
    LoadInSlice(m, q, n * w, i * w, w);
  }

  method ReadPointer(memory: LinearMemory, p: nat, P: nat) returns (pointer: nat)
    requires P <= memory.data.Length
    ensures pointer == PointerAt(memory.data[..], p, P)
  {
    var bytes := memory.GetArray(p, P);
    LoadInSlice(memory.data[..], Clamp(p, P, memory.data.Length), P, 0, P);
    pointer := Load(bytes, 0, P);
  }

  /** One channel: its pointer, its samples, the check. */
  method CopyBackChannel(memory: LinearMemory, table: nat, c: nat, f: Format, P: nat, buffer: array<nat>)
    requires P <= memory.data.Length && buffer.Length * f.Width() <= memory.data.Length
    modifies buffer
    ensures buffer[..] == CheckedAll(f, Returned(memory.data[..], table, c, f.Width(), buffer.Length, P))
  {
    ghost var m := memory.data[..];
    var pointer := ReadPointer(memory, Entry(table, c, P), P);
    GetSamples(memory, pointer, f.Width(), buffer);
    assert buffer[..] == Returned(m, table, c, f.Width(), buffer.Length, P);
    CheckBuffers(f, buffer);
    assert memory.data[..] == m;
  }

  method CopyBackData(memory: LinearMemory, table: nat, data: Option<seq<array<nat>>>, f: Format, frames: nat, P: nat)
    requires P <= memory.data.Length && (data.Some? ==> frames * f.Width() <= memory.data.Length)
    requires DataFits(data, frames)
    modifies Arrays(data)
    ensures DataReturned(Snapshot(Arrays(data)), memory.data[..], table, data, f, frames, P, {})
  {
    ghost var m := memory.data[..];
    if data.Some? {
      for c := 0 to |data.value|
        invariant memory.data[..] == m
        invariant ChannelsDone(Snapshot(Arrays(data)), data.value, Expected(m, table, |data.value|, f, frames, P), c)
      {
        ghost var was := Snapshot(Arrays(data));
        CopyBackChannel(memory, table, c, f, P, data.value[c]);
        OneMoreChannel(was, Snapshot(Arrays(data)), data.value, Expected(m, table, |data.value|, f, frames, P), c);
      }
    }
  }

  /** What the copy-back is going to put into channel after channel. */
  ghost function Expected(m: seq<byte>, table: nat, n: nat, f: Format, frames: nat, P: nat): (all: seq<seq<nat>>)
    requires P <= |m| && frames * f.Width() <= |m|
    ensures |all| == n
    ensures forall c :: 0 <= c < n ==> all[c] == CheckedAll(f, Returned(m, table, c, f.Width(), frames, P))
  {
    seq(n, c requires 0 <= c < n => CheckedAll(f, Returned(m, table, c, f.Width(), frames, P)))
  }

  /** The first `n` channels are done. */
  ghost predicate ChannelsDone(now: map<array<nat>, seq<nat>>, channels: seq<array<nat>>, expected: seq<seq<nat>>,
                               n: nat)
    requires n <= |channels| == |expected| && forall c :: 0 <= c < |channels| ==> channels[c] in now
  {
    forall c :: 0 <= c < n && (forall d :: c < d < n ==> channels[d] != channels[c]) ==> now[channels[c]] == expected[c]
  }

  lemma {:induction false} OneMoreChannel(was: map<array<nat>, seq<nat>>, now: map<array<nat>, seq<nat>>,
                                          channels: seq<array<nat>>, expected: seq<seq<nat>>, n: nat)
    requires n < |channels| == |expected|
    requires forall c :: 0 <= c < |channels| ==> channels[c] in was && channels[c] in now
    requires ChannelsDone(was, channels, expected, n) && now[channels[n]] == expected[n]
    requires forall c :: 0 <= c < |channels| && channels[c] != channels[n] ==> now[channels[c]] == was[channels[c]]
    ensures ChannelsDone(now, channels, expected, n + 1)
  {
    forall c | 0 <= c < n + 1 && (forall d :: c < d < n + 1 ==> channels[d] != channels[c])
      ensures now[channels[c]] == expected[c]
    {
      if c < n { assert channels[n] != channels[c]; }
    }
  }

  /** One output port: the record is read again from guest memory, then both kinds of data follow its pointers. */
  method CopyBackPort(memory: LinearMemory, outs: nat, j: nat, port: HostPort, frames: nat, P: nat)
    requires SizesFit(memory.data.Length, port, frames, P)
    requires DataFits(port.data32, frames) && DataFits(port.data64, frames)
    modifies PortArrays(port)
    ensures PortReturned(Snapshot(PortArrays(port)), memory.data[..], outs, j, port, frames, P, {})
  {
    var r := ReadRecord(memory, outs, j, P);
    CopyBackData(memory, r[0], port.data32, Single, frames, P);
    ghost var was := Snapshot(PortArrays(port));
    CopyBackData(memory, r[1], port.data64, Double, frames, P);
    ghost var now := Snapshot(PortArrays(port));
    assert forall a :: a in Arrays(port.data32) && a !in Arrays(port.data64) ==> now[a] == was[a];
  }

  method ReadRecord(memory: LinearMemory, outs: nat, j: nat, P: nat) returns (r: seq<nat>)
    requires BufferSize(P) <= memory.data.Length
    ensures r == PortRecordAt(memory.data[..], outs, j, P)
  {
    var size := BufferSize(P);
    var bytes := memory.GetArray(outs + j * size, size);
    SumFiveWidths(P);
    RecordInSlice(memory.data[..], Clamp(outs + j * size, size, memory.data.Length), size, BufferWidths(P));
    r := LoadRecord(bytes, 0, BufferWidths(P));
  }

  /** The buffers of ports `i` up to `j`. */
  function Between(ports: seq<HostPort>, i: nat, j: nat): set<array<nat>>
    requires j <= |ports|
  {
    if i <= j then AllArrays(ports[i..j]) else {}
  }

  lemma {:induction false} BetweenMore(ports: seq<HostPort>, i: nat, j: nat)
    requires i <= j < |ports|
    ensures Between(ports, i, j + 1) == Between(ports, i, j) + PortArrays(ports[j])
  {
    AllArraysMore(ports[i..j], ports[j]);
    assert ports[i..j + 1] == ports[i..j] + [ports[j]];
  }

  lemma {:induction false} AllArraysMore(ports: seq<HostPort>, port: HostPort)
    ensures AllArrays(ports + [port]) == AllArrays(ports) + PortArrays(port)
  {
    assert (ports + [port])[..|ports|] == ports;
  }

  /** One turn of the port loop: of the ports already done, only buffers of this one change. */
  method CopyBackNext(memory: LinearMemory, outs: nat, j: nat, ports: seq<HostPort>, frames: nat, P: nat)
    requires j < |ports| && AllSizesFit(memory.data.Length, ports, frames, P)
    requires DataFits(ports[j].data32, frames) && DataFits(ports[j].data64, frames)
    requires UpTo(Snapshot(AllArrays(ports)), memory.data[..], outs, j, ports, frames, P)
    modifies PortArrays(ports[j])
    ensures UpTo(Snapshot(AllArrays(ports)), memory.data[..], outs, j + 1, ports, frames, P)
  {
    ghost var was := Snapshot(AllArrays(ports));
    CopyBackPort(memory, outs, j, ports[j], frames, P);
    ghost var now := Snapshot(AllArrays(ports));
    OneMorePort(was, now, Snapshot(PortArrays(ports[j])), memory.data[..], outs, j, ports, frames, P);
  }

  /** The first `n` ports are done: each of their channels holds its samples unless a later one of them has its
      buffer. */
  ghost predicate UpTo(now: map<array<nat>, seq<nat>>, m: seq<byte>, outs: nat, n: nat, ports: seq<HostPort>,
                       frames: nat, P: nat)
    requires n <= |ports| && AllSizesFit(|m|, ports, frames, P)
    requires AllArrays(ports) <= now.Keys
  {
    forall i :: 0 <= i < n ==> PortReturned(now, m, outs, i, ports[i], frames, P, Between(ports, i + 1, n))
  }

  lemma {:induction false} EarlierPort(was: map<array<nat>, seq<nat>>, now: map<array<nat>, seq<nat>>, m: seq<byte>,
                                       outs: nat, i: nat, n: nat, ports: seq<HostPort>, frames: nat, P: nat)
    requires i < n < |ports| && SizesFit(|m|, ports[i], frames, P)
    requires PortArrays(ports[i]) <= was.Keys && PortArrays(ports[i]) <= now.Keys
    requires PortReturned(was, m, outs, i, ports[i], frames, P, Between(ports, i + 1, n))
    requires forall a :: a in PortArrays(ports[i]) && a !in PortArrays(ports[n]) ==> now[a] == was[a]
    ensures PortReturned(now, m, outs, i, ports[i], frames, P, Between(ports, i + 1, n + 1))
  {
    BetweenMore(ports, i + 1, n);
    StillReturned(was, now, m, outs, i, ports[i], frames, P, Between(ports, i + 1, n), PortArrays(ports[n]),
                  Between(ports, i + 1, n + 1));
  }

  lemma {:induction false} NewPort(now: map<array<nat>, seq<nat>>, mine: map<array<nat>, seq<nat>>, m: seq<byte>,
                                   outs: nat, n: nat, port: HostPort, frames: nat, P: nat)
    requires SizesFit(|m|, port, frames, P) && mine.Keys == PortArrays(port) <= now.Keys
    requires PortReturned(mine, m, outs, n, port, frames, P, {})
    requires forall a :: a in PortArrays(port) ==> now[a] == mine[a]
    ensures PortReturned(now, m, outs, n, port, frames, P, {})
  {
    var none: set<array<nat>> := {};
    StillReturned(mine, now, m, outs, n, port, frames, P, none, none, none);
  }

  lemma {:induction false} OneMorePort(was: map<array<nat>, seq<nat>>, now: map<array<nat>, seq<nat>>,
                                       mine: map<array<nat>, seq<nat>>, m: seq<byte>, outs: nat, n: nat,
                                       ports: seq<HostPort>, frames: nat, P: nat)
    requires n < |ports| && AllSizesFit(|m|, ports, frames, P)
    requires AllArrays(ports) <= was.Keys && AllArrays(ports) <= now.Keys && mine.Keys == PortArrays(ports[n])
    requires UpTo(was, m, outs, n, ports, frames, P)
    requires PortReturned(mine, m, outs, n, ports[n], frames, P, {})
    requires forall a :: a in AllArrays(ports) && a !in PortArrays(ports[n]) ==> now[a] == was[a]
    requires forall a :: a in PortArrays(ports[n]) ==> now[a] == mine[a]
    ensures UpTo(now, m, outs, n + 1, ports, frames, P)
  {
    NewPort(now, mine, m, outs, n, ports[n], frames, P);
    forall i | 0 <= i < n
      ensures PortReturned(now, m, outs, i, ports[i], frames, P, Between(ports, i + 1, n + 1))
    {
      EarlierPort(was, now, m, outs, i, n, ports, frames, P);
    }
  }

  /** The loop over output ports, for whatever memory the guest left. */
  method CopyBackPorts(memory: LinearMemory, outs: nat, ports: seq<HostPort>, frames: nat, P: nat)
    requires AllSizesFit(memory.data.Length, ports, frames, P)
    requires PortsFitFrames(ports, frames)
    modifies AllArrays(ports)
    ensures memory.data[..] == old(memory.data[..])
    ensures UpTo(Snapshot(AllArrays(ports)), memory.data[..], outs, |ports|, ports, frames, P)
  {
    ghost var m := memory.data[..];
    for j := 0 to |ports|
      invariant memory.data[..] == m
      invariant UpTo(Snapshot(AllArrays(ports)), m, outs, j, ports, frames, P)
    {
      CopyBackNext(memory, outs, j, ports, frames, P);
    }
  }

  // ---- A guest that leaves the output pointers alone

  function TableOf(r: seq<nat>, is64: bool): nat
    requires |r| == 5
  {
    if is64 then r[1] else r[0]
  }

  /** The pointers of every output record and every entry of its tables are as the bridge wrote them; samples, latency
      and constant mask may be anything. */
  ghost predicate PointersIntact(m: seq<byte>, m': seq<byte>, outs: nat, ports: seq<AudioBuffer>, P: nat) {
    BufferSize(P) <= |m| <= |m'| &&
    forall j, is64, c :: HasChannel(ports, j, is64, c) ==> PointerIntact(m, m', outs, j, is64, c, P)
  }

  ghost predicate PointerIntact(m: seq<byte>, m': seq<byte>, outs: nat, j: nat, is64: bool, c: nat, P: nat)
    requires BufferSize(P) <= |m| <= |m'|
  {
    var table := TableOf(PortRecordAt(m, outs, j, P), is64);
    && TableOf(PortRecordAt(m', outs, j, P), is64) == table
    && Load(m', Entry(table, c, P), P) == Load(m, Entry(table, c, P), P)
  }

  /** Record `j`, read with the clamp, is the record the bridge wrote. */
  lemma {:induction false} RecordInBounds(m: seq<byte>, blocks: seq<Block>, h: nat, ports: seq<AudioBuffer>,
                                          frames: nat, P: nat, j: nat)
    requires AllHold(m, blocks) && Addressable(blocks, P) && PortsAt(blocks, h, ports, P) && j < |ports|
    requires BufferFits(ports[j], frames) && BufferSize(P) <= |m|
    ensures var k := h + 1 + PortBlocks(ports[..j]);
            PortRecordAt(m, blocks[h].start, j, P)
            == [TableStart(blocks, k, ports[j].data32),
                TableStart(blocks, k + ChannelBlocks(ports[j].data32), ports[j].data64),
                ports[j].channels, ports[j].latency, ports[j].mask]
  {
    assert PortAt(blocks, h, ports, P, j);
    var k := h + 1 + PortBlocks(ports[..j]);
    assert Holds(m, blocks[h]);
    RecordEnd(blocks[h], |ports|, j, P);
    BufferRecord(m, blocks, h, |ports|, j, k, ports[j], frames, P);
  }

  lemma {:induction false} RecordEnd(b: Block, n: nat, j: nat, P: nat)
    requires PortWidths(b.cells, n, P) && j < n
    ensures b.start + j * BufferSize(P) + BufferSize(P) <= b.End()
  {
    PortOffset(b.cells, n, P, j + 1);
    EncodeConcat(b.cells[..5 * (j + 1)], b.cells[5 * (j + 1)..]);
    assert b.cells[..5 * (j + 1)] + b.cells[5 * (j + 1)..] == b.cells;
    OneMore(j, BufferSize(P));
  }

  function Data(b: AudioBuffer, is64: bool): Option<seq<seq<nat>>> { if is64 then b.data64 else b.data32 }

  function SampleWidth(is64: bool): nat { if is64 then 8 else 4 }

  ghost predicate ChannelAt(m: seq<byte>, outs: nat, j: nat, is64: bool, c: nat, P: nat, start: nat)
    requires BufferSize(P) <= |m|
  {
    var entry := Entry(TableOf(PortRecordAt(m, outs, j, P), is64), c, P);
    entry + P <= |m| && Load(m, entry, P) == start
  }

  /** Following record `j` and table entry `c` leads to the channel's own region, without leaving memory. */
  lemma {:induction false} ChannelAddress(m: seq<byte>, blocks: seq<Block>, h: nat, ports: seq<AudioBuffer>,
                                          frames: nat, P: nat, j: nat, is64: bool, c: nat)
    requires AllHold(m, blocks) && Addressable(blocks, P) && PortsAt(blocks, h, ports, P) && PortsFit(ports, frames)
    requires BufferSize(P) <= |m| && HasChannel(ports, j, is64, c) && ChannelRegion(ports, h, j, is64, c) < |blocks|
    requires h < |blocks|
    ensures ChannelAt(m, blocks[h].start, j, is64, c, P, blocks[ChannelRegion(ports, h, j, is64, c)].start)
    ensures blocks[ChannelRegion(ports, h, j, is64, c)].start + frames * SampleWidth(is64) <= |m|
  {
    var k := h + 1 + PortBlocks(ports[..j]) + if is64 then ChannelBlocks(ports[j].data32) else 0;
    RecordInBounds(m, blocks, h, ports, frames, P, j);
    assert PortAt(blocks, h, ports, P, j);
    ChannelEntry(m, blocks, k, Data(ports[j], is64).value, SampleWidth(is64), ports[j].channels, frames, P, c);
  }

  lemma {:induction false} ChannelEntry(m: seq<byte>, blocks: seq<Block>, k: nat, chans: seq<seq<nat>>, w: nat, n: nat,
                                        frames: nat, P: nat, c: nat)
    requires AllHold(m, blocks) && Addressable(blocks, P) && ChannelsAt(blocks, k, chans, w, P)
    requires ChannelsFit(chans, n, frames, w) && c < |chans|
    ensures Load(m, blocks[k].start + c * P, P) == blocks[k + 1 + c].start
    ensures blocks[k].start + c * P + P <= |m| && blocks[k + 1 + c].start + frames * w <= |m|
  {
    ChannelPointer(m, blocks, k, c, P);
    assert Holds(m, blocks[k]) && Holds(m, blocks[k + 1 + c]);
    assert blocks[k + 1 + c].cells == Words(w, chans[c]);
    UniformSize(Words(w, chans[c]), w);
  }

  /** When the pointers are intact, what is copied back for a channel is what the guest left in the very region the
      bridge allocated for it. */
  lemma {:induction false} IntactChannel(m: seq<byte>, m': seq<byte>, blocks: seq<Block>, h: nat,
                                         ports: seq<AudioBuffer>,
                                         frames: nat, P: nat, j: nat, is64: bool, c: nat)
    requires AllHold(m, blocks) && Addressable(blocks, P) && PortsAt(blocks, h, ports, P) && PortsFit(ports, frames)
    requires BufferSize(P) <= |m| <= |m'| && HasChannel(ports, j, is64, c)
    requires PointersIntact(m, m', blocks[h].start, ports, P)
    requires ChannelRegion(ports, h, j, is64, c) < |blocks|
    ensures frames * SampleWidth(is64) <= |m|
    ensures Returned(m', TableOf(PortRecordAt(m', blocks[h].start, j, P), is64), c, SampleWidth(is64), frames, P)
         == LoadArray(m', blocks[ChannelRegion(ports, h, j, is64, c)].start, SampleWidth(is64), frames)
  {
    ChannelAddress(m, blocks, h, ports, frames, P, j, is64, c);
    assert PointerIntact(m, m', blocks[h].start, j, is64, c, P);
  }
}
