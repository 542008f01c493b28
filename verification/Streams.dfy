/** State streams: guest reads and writes through a 1024-byte buffer, over host streams that may transfer any part of
    what they are offered. */
module Streams {
  import opened Bytes
  import opened Memory

  const BUFFER: nat := 1024

  function Min(a: nat, b: nat): (m: nat)
    ensures m <= a && m <= b && (m == a || m == b)
  {
    if a < b then a else b
  }

  // ---- Well-behaved host streams

  /** A request to a host stream and its answer: the bytes offered, or how many were asked for. */
  datatype WriteCall = WriteCall(offered: seq<byte>, answer: int)
  datatype ReadCall = ReadCall(asked: nat, answer: int)

  class HostOstream {
    ghost var written: seq<byte>
    ghost var calls: seq<WriteCall>

    constructor ()
      ensures written == [] && calls == []
    {
      written, calls := [], [];
    }

    /** Takes any prefix of what is offered, or fails. */
    method Write(data: seq<byte>) returns (r: int)
      modifies this
      ensures -1 <= r <= |data| && calls == old(calls) + [WriteCall(data, r)]
      ensures written == old(written) + (if r > 0 then data[..r] else [])
    {
      r := *;
      if r < -1 || r > |data| { r := -1; }
      written := written + (if r > 0 then data[..r] else []);
      calls := calls + [WriteCall(data, r)];
    }
  }

  class HostIstream {
    var rest: seq<byte>
    ghost var calls: seq<ReadCall>

    constructor (content: seq<byte>)
      ensures rest == content && calls == []
    {
      rest, calls := content, [];
    }

    /** Gives any number of the next bytes up to `n`; 0 only at the end (or when 0 were asked for), -1 on failure. */
    method Read(n: nat) returns (r: int, data: seq<byte>)
      modifies this
      ensures -1 <= r <= n && r <= |old(rest)| && calls == old(calls) + [ReadCall(n, r)]
      ensures r == 0 ==> n == 0 || old(rest) == []
      ensures data == if r > 0 then old(rest)[..r] else []
      ensures rest == if r > 0 then old(rest)[r..] else old(rest)
    {
      r := *;
      if r < -1 || r > n || r > |rest| || (r == 0 && n > 0 && rest != []) { r := -1; }
      data := if r > 0 then rest[..r] else [];
      rest := if r > 0 then rest[r..] else rest;
      calls := calls + [ReadCall(n, r)];
    }
  }

  /** The host took something of everything it was offered. */
  ghost predicate AllTaken(calls: seq<WriteCall>) { forall i :: 0 <= i < |calls| ==> calls[i].answer > 0 }

  /** The host never failed a read. */
  ghost predicate NoneFailed(calls: seq<ReadCall>) { forall i :: 0 <= i < |calls| ==> calls[i].answer >= 0 }

  lemma {:induction false} OneMoreWrite(calls: seq<WriteCall>, before: seq<WriteCall>, now: seq<WriteCall>)
    requires calls <= before <= now && |now| == |before| + 1 && AllTaken(before[|calls|..])
    ensures AllTaken(now[|calls|..]) <==> now[|before|].answer > 0
  {
    assert now[|calls|..] == before[|calls|..] + [now[|before|]];
  }

  lemma {:induction false} OneMoreRead(calls: seq<ReadCall>, before: seq<ReadCall>, now: seq<ReadCall>)
    requires calls <= before <= now && |now| == |before| + 1 && NoneFailed(before[|calls|..])
    ensures NoneFailed(now[|calls|..]) <==> now[|before|].answer >= 0
  {
    assert now[|calls|..] == before[|calls|..] + [now[|before|]];
  }

  // ---- The bridge

  class StreamBridge {
    const memory: LinearMemory
    var hostIstream: HostIstream?
    var hostOstream: HostOstream?

    constructor (memory: LinearMemory)
      ensures this.memory == memory && hostIstream == null && hostOstream == null
    {
      this.memory, hostIstream, hostOstream := memory, null, null;
    }

    /** `istreamRead`: at most 1024 bytes of the host's stream, in place at the guest's buffer; nothing else moves. */
    method IstreamRead(buffer: nat, size: nat) returns (result: int)
      requires memory.data.Length >= BUFFER
      modifies memory.data, hostIstream
      ensures hostIstream == null ==> result == -1 && memory.data[..] == old(memory.data[..])
      ensures hostIstream != null ==>
                hostIstream.calls == old(if hostIstream == null then [] else hostIstream.calls)
                                     + [ReadCall(if size > 1024 then 1024 else size, result)]
      ensures hostIstream != null ==>
                var was := old(if hostIstream == null then [] else hostIstream.rest);
                && -1 <= result <= Min(size, BUFFER) && result <= |was|
                && (result == 0 ==> size == 0 || was == [])
                && hostIstream.rest == (if result > 0 then was[result..] else was)
                && memory.data[..] == (if result > 0
                     then Splice(old(memory.data[..]), Clamp(buffer, result, memory.data.Length), was[..result])
                     else old(memory.data[..]))
    {
      if hostIstream == null { return -1; }
      var n := if size > BUFFER then BUFFER else size;
      var data;
      result, data := hostIstream.Read(n);
      if 0 < result <= BUFFER {
        memory.SetArray(buffer, data);
      }
    }

    /** `ostreamWrite`: at most 1024 bytes of guest memory, of which the host takes a prefix. */
    method OstreamWrite(buffer: nat, size: nat) returns (result: int)
      requires memory.data.Length >= BUFFER
      modifies hostOstream
      ensures hostOstream == null ==> result == -1
      ensures hostOstream != null ==>
                var n := Min(size, BUFFER);
                var a := Clamp(buffer, n, memory.data.Length);
                && -1 <= result <= n
                && n == (if size > 1024 then 1024 else size)
                && hostOstream.calls == old(if hostOstream == null then [] else hostOstream.calls)
                                        + [WriteCall(memory.data[..][a..a + n], result)]
                && hostOstream.written == old(if hostOstream == null then [] else hostOstream.written)
                                          + (if result > 0 then memory.data[..][a..a + result] else [])
    {
      if hostOstream == null { return -1; }
      var n := if size > BUFFER then BUFFER else size;
      var localBuffer := memory.GetArray(buffer, n);
      result := hostOstream.Write(localBuffer);
      if result > 0 {
        ghost var a := Clamp(buffer, n, memory.data.Length);
        SliceOfSlice(memory.data[..], a, a + n, 0, result);
      }
    }

    // ---- Guests that save and load, asking for any sizes

    /** A guest writes its state `[at, at + len)` until all of it is accepted or the stream fails. */
    method GuestSave(at: nat, len: nat) returns (ok: bool, ghost sent: nat)
      requires hostOstream != null && memory.data.Length >= BUFFER && at + len <= memory.data.Length
      modifies hostOstream
      ensures sent <= len && (ok ==> sent == len)
      ensures old(hostOstream.calls) <= hostOstream.calls
      ensures ok <==> AllTaken(hostOstream.calls[|old(hostOstream.calls)|..])
      ensures hostOstream.written == old(hostOstream.written) + memory.data[..][at..at + sent]
    {
      var pos := 0;
      ghost var m, calls, written := memory.data[..], hostOstream.calls, hostOstream.written;
      while pos < len
        invariant 0 <= pos <= len && memory.data[..] == m
        invariant calls <= hostOstream.calls && AllTaken(hostOstream.calls[|calls|..])
        invariant hostOstream.written == written + m[at..at + pos]
      {
        ghost var before, before' := hostOstream.calls, hostOstream.written;
        var r := SaveTurn(at + pos, len - pos);
        OneMoreWrite(calls, before, hostOstream.calls);
        assert memory.data[..] == m;
        if r <= 0 { return false, pos; }
        SentMore(written, before', hostOstream.written, m, at, pos, r);
        pos := pos + r;
      }
      return true, len;
    }

    /** One write of any size. */
    method SaveTurn(from: nat, left: nat) returns (r: int)
      requires hostOstream != null && memory.data.Length >= BUFFER && from + left <= memory.data.Length && left > 0
      modifies hostOstream
      ensures r <= left
      ensures |hostOstream.calls| == |old(hostOstream.calls)| + 1 && old(hostOstream.calls) <= hostOstream.calls
      ensures hostOstream.calls[|old(hostOstream.calls)|].answer == r
      ensures hostOstream.written
           == old(hostOstream.written) + (if r > 0 then memory.data[..][from..from + r] else [])
    {
      var ask: nat := *;
      if ask == 0 || ask > left { ask := left; }
      r := OstreamWrite(from, ask);
    }

    /** One read of any size. */
    method LoadTurn(from: nat, left: nat) returns (r: int)
      requires hostIstream != null && memory.data.Length >= BUFFER && from + left <= memory.data.Length && left > 0
      modifies memory.data, hostIstream
      ensures r <= left && r <= |old(hostIstream.rest)| && (r == 0 ==> old(hostIstream.rest) == [])
      ensures |hostIstream.calls| == |old(hostIstream.calls)| + 1 && old(hostIstream.calls) <= hostIstream.calls
      ensures hostIstream.calls[|old(hostIstream.calls)|].answer == r
      ensures r > 0 ==> hostIstream.rest == old(hostIstream.rest)[r..]
                        && memory.data[..] == Splice(old(memory.data[..]), from, old(hostIstream.rest)[..r])
      ensures r <= 0 ==> hostIstream.rest == old(hostIstream.rest) && memory.data[..] == old(memory.data[..])
    {
      var ask: nat := *;
      if ask == 0 || ask > left { ask := left; }
      r := IstreamRead(from, ask);
    }

    /** A guest reads into `[at, at + capacity)` until that is full, the stream ends (`ended`) or the stream fails. */
    method GuestLoad(at: nat, capacity: nat) returns (ended: bool, n: nat)
      requires hostIstream != null && memory.data.Length >= BUFFER && at + capacity <= memory.data.Length
      modifies memory.data, hostIstream
      ensures n <= |old(hostIstream.rest)| && hostIstream.rest == old(hostIstream.rest)[n..]
      ensures Loaded(old(memory.data[..]), memory.data[..], at, capacity, old(hostIstream.rest), n)
      ensures ended ==> hostIstream.rest == []
      ensures old(hostIstream.calls) <= hostIstream.calls
      ensures NoneFailed(hostIstream.calls[|old(hostIstream.calls)|..]) <==> ended || n == capacity
    {
      n := 0;
      ghost var m0, all, calls := memory.data[..], hostIstream.rest, hostIstream.calls;
      while n < capacity
        invariant calls <= hostIstream.calls && NoneFailed(hostIstream.calls[|calls|..])
        invariant n <= |all| && hostIstream.rest == all[n..]
        invariant Loaded(m0, memory.data[..], at, capacity, all, n)
        decreases |hostIstream.rest|
      {
        ghost var m, before := memory.data[..], hostIstream.calls;
        var r := LoadTurn(at + n, capacity - n);
        OneMoreRead(calls, before, hostIstream.calls);
        if r <= 0 { return r == 0, n; }
        LoadedMore(m0, m, memory.data[..], at, capacity, all, n, r);
        n := n + r;
      }
      return false, n;
    }

    /** `state_save`: the stream is reachable during the call only. */
    method StateSave(stream: HostOstream, at: nat, len: nat) returns (ok: bool)
      requires memory.data.Length >= BUFFER && at + len <= memory.data.Length
      modifies this, stream
      ensures hostOstream == null && hostIstream == old(hostIstream)
      ensures old(stream.calls) <= stream.calls && (ok <==> AllTaken(stream.calls[|old(stream.calls)|..]))
      ensures ok ==> stream.written == old(stream.written) + memory.data[..][at..at + len]
      ensures old(stream.written) <= stream.written <= old(stream.written) + memory.data[..][at..at + len]
    {
      hostOstream := stream;
      ghost var sent;
      ok, sent := GuestSave(at, len);
      hostOstream := null;
      SliceOfSlice(memory.data[..], at, at + len, 0, sent);
    }

    /** `state_load`. */
    method StateLoad(stream: HostIstream, at: nat, capacity: nat) returns (ended: bool, n: nat)
      requires memory.data.Length >= BUFFER && at + capacity <= memory.data.Length
      modifies this, stream, memory.data
      ensures hostIstream == null && hostOstream == old(hostOstream)
      ensures n <= capacity && memory.data[..][at..at + n] + stream.rest == old(stream.rest)
      ensures ended ==> stream.rest == []
      ensures old(stream.calls) <= stream.calls
      ensures NoneFailed(stream.calls[|old(stream.calls)|..]) <==> ended || n == capacity
    {
      hostIstream := stream;
      ended, n := GuestLoad(at, capacity);
      hostIstream := null;
      assert old(stream.rest)[..n] + old(stream.rest)[n..] == old(stream.rest);
    }

    /** Saving and loading again restores the state, however either side cuts it up: `loaded` says that the guest saw
        the end of the stream, or has as many bytes as it saved.  With room for the state both succeed exactly when no
        answer of the host's is a failure. */
    method SaveThenLoad(at: nat, len: nat, to: nat, capacity: nat)
      returns (saved: bool, loaded: bool, ghost writes: seq<WriteCall>, ghost asks: seq<ReadCall>)
      requires memory.data.Length >= BUFFER && at + len <= memory.data.Length && to + capacity <= memory.data.Length
      modifies this, memory.data
      ensures saved <==> AllTaken(writes)
      ensures saved && len <= capacity && NoneFailed(asks) ==> loaded
      ensures saved && loaded ==>
                len <= capacity && memory.data[..][to..to + len] == old(memory.data[..])[at..at + len]
    {
      var o := new HostOstream();
      saved := StateSave(o, at, len);
      loaded, writes, asks := false, o.calls, [];
      if saved {
        ghost var state := memory.data[..][at..at + len];
        var i := new HostIstream(memory.data[at..at + len]);
        assert i.rest == o.written == state;
        var ended, n := StateLoad(i, to, capacity);
        loaded, asks := ended || n == len, i.calls;
        assert |memory.data[..][to..to + n]| + |i.rest| == len;
      }
    }
  }

  /** The first `n` bytes of `all` have arrived at `at`; nothing outside `[at, at + capacity)` has changed. */
  ghost predicate Loaded(m0: seq<byte>, m: seq<byte>, at: nat, capacity: nat, all: seq<byte>, n: nat) {
    && n <= capacity && n <= |all| && at + capacity <= |m| == |m0|
    && m[at..at + n] == all[..n] && m[..at] == m0[..at] && m[at + capacity..] == m0[at + capacity..]
  }

  lemma {:induction false} LoadedMore(m0: seq<byte>, m: seq<byte>, m': seq<byte>, at: nat, capacity: nat,
                                      all: seq<byte>, n: nat, r: nat)
    requires Loaded(m0, m, at, capacity, all, n) && n + r <= |all| && n + r <= capacity
    requires m' == Splice(m, at + n, all[n..][..r])
    ensures Loaded(m0, m', at, capacity, all, n + r) && all[n..][r..] == all[n + r..]
  {
    forall k | 0 <= k < n + r ensures m'[at..at + n + r][k] == all[k] {
      if k < n { assert m'[at + k] == m[at + k] == m[at..at + n][k]; }
    }
    assert m'[..at] == m[..at] && m'[at + capacity..] == m[at + capacity..];
  }

  lemma {:induction false} SentMore(w0: seq<byte>, w1: seq<byte>, w2: seq<byte>, m: seq<byte>, at: nat, pos: nat,
                                    r: nat)
    requires at + pos + r <= |m| && w1 == w0 + m[at..at + pos] && w2 == w1 + m[at + pos..at + pos + r]
    ensures w2 == w0 + m[at..at + pos + r]
  {
    assert m[at..at + pos] + m[at + pos..at + pos + r] == m[at..at + pos + r];
  }

  /** The resource loop: offer what is left until the host has taken all of it. */
  method WriteAll(ostream: HostOstream, buffer: seq<byte>) returns (ok: bool)
    modifies ostream
    ensures old(ostream.calls) <= ostream.calls
    ensures ok <==> AllTaken(ostream.calls[|old(ostream.calls)|..])
    ensures ok ==> ostream.written == old(ostream.written) + buffer
    ensures old(ostream.written) <= ostream.written <= old(ostream.written) + buffer
  {
    var index := 0;
    ghost var calls := ostream.calls;
    while index < |buffer|
      invariant 0 <= index <= |buffer| && ostream.written == old(ostream.written) + buffer[..index]
      invariant calls <= ostream.calls && AllTaken(ostream.calls[|calls|..])
    {
      ghost var before := ostream.calls;
      var result := ostream.Write(buffer[index..]);
      OneMoreWrite(calls, before, ostream.calls);
      if result <= 0 { return false; }
      assert buffer[..index] + buffer[index..][..result] == buffer[..index + result];
      index := index + result;
    }
    assert buffer[..index] == buffer;
    return true;
  }

  // ---- The same as a law about traces of any chunking

  /** One exchange: what was asked for, and what the other side took of the part the buffer let through. */
  datatype Turn = Turn(asked: nat, taken: nat)

  ghost predicate Fair(turns: seq<Turn>, available: nat)
    decreases |turns|
  {
    turns == [] || (turns[0].taken <= Min(Min(turns[0].asked, BUFFER), available)
                    && Fair(turns[1..], available - turns[0].taken))
  }

  function Total(turns: seq<Turn>): nat
    decreases |turns|
  {
    if turns == [] then 0 else turns[0].taken + Total(turns[1..])
  }

  /** What arrives when every turn moves the next `taken` bytes. */
  function Arrived(data: seq<byte>, turns: seq<Turn>): seq<byte>
    requires Fair(turns, |data|)
    decreases |turns|
  {
    if turns == [] then [] else data[..turns[0].taken] + Arrived(data[turns[0].taken..], turns[1..])
  }

  /** Nothing is lost, repeated or reordered: what arrived is the prefix of that length. */
  lemma {:induction false} ArrivedIsPrefix(data: seq<byte>, turns: seq<Turn>)
    requires Fair(turns, |data|)
    ensures Total(turns) <= |data| && Arrived(data, turns) == data[..Total(turns)]
    decreases |turns|
  {
    if turns == [] {
    } else {
      var k := turns[0].taken;
      ArrivedIsPrefix(data[k..], turns[1..]);
      assert data[..k] + data[k..][..Total(turns[1..])] == data[..Total(turns)];
    }
  }

  /** A finished save followed by a finished load is the identity under every pair of chunkings. */
  lemma {:induction false} SaveLoadIdentity(state: seq<byte>, saves: seq<Turn>, loads: seq<Turn>)
    requires Fair(saves, |state|) && Total(saves) == |state|
    requires Fair(loads, |Arrived(state, saves)|) && Total(loads) == |Arrived(state, saves)|
    ensures Arrived(Arrived(state, saves), loads) == state
  {
    ArrivedIsPrefix(state, saves);
    ArrivedIsPrefix(Arrived(state, saves), loads);
    assert state[..|state|] == state;
  }
}
