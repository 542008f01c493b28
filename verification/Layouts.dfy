/** The structs behind the event, port and process records, field by field: the offsets at which the guest and the host
    find each one, and what becomes of every field of an event a guest pushes. */
module Layouts {
  import opened Wrappers
  import opened Bytes
  import opened Memory
  import opened Events
  import opened Audio
  import opened Process

  // ---- Records as lists of widths

  /** Where piece `i` of a record starts. */
  ghost function Start(ws: seq<nat>, i: nat): nat
    requires i <= |ws|
  {
    Sum(ws[..i])
  }

  lemma {:induction false} Starts(ws: seq<nat>)
    ensures Start(ws, 0) == 0 && Start(ws, |ws|) == Sum(ws)
    ensures forall i {:trigger ws[i]} :: 0 <= i < |ws| ==> Start(ws, i + 1) == Start(ws, i) + ws[i]
  {
    assert ws[..|ws|] == ws;
    forall i {:trigger ws[i]} | 0 <= i < |ws| ensures Start(ws, i + 1) == Start(ws, i) + ws[i] {
      assert ws[..i + 1][..i] == ws[..i];
    }
  }

  lemma {:induction false} PieceInside(ws: seq<nat>, i: nat)
    requires i < |ws|
    ensures Start(ws, i) + ws[i] <= Sum(ws)
    decreases |ws|
  {
    var n := |ws| - 1;
    if i == n {
    } else {
      PieceInside(ws[..n], i);
      assert ws[..n][..i] == ws[..i];
    }
  }

  lemma {:induction false} StartsGrow(ws: seq<nat>, i: nat, j: nat)
    requires i <= j <= |ws|
    ensures Start(ws, i) <= Start(ws, j)
  {
    if i == j {
    } else {
      StartsGrow(ws, i, j - 1);
      assert ws[..j][..j - 1] == ws[..j - 1];
    }
  }

  // ---- The native structs of a 64-bit host: the header, then the fields in order; padding is a piece of its own

  /** note_id, port_index, channel, key, padding, velocity */
  const NOTE: seq<nat> := [4, 2, 2, 2, 6, 8]
  /** expression_id, note_id, port_index, channel, key, padding, value */
  const EXPRESSION: seq<nat> := [4, 4, 2, 2, 2, 2, 8]
  /** param_id, padding, cookie, note_id, port_index, channel, key, padding, value or amount */
  const PARAM: seq<nat> := [4, 4, 8, 4, 2, 2, 2, 6, 8]
  /** param_id */
  const GESTURE: seq<nat> := [4]
  /** flags, padding; song position in beats and in seconds, tempo and its increment */
  const POSITION: seq<nat> := [4, 4, 8, 8, 8, 8]
  /** the loop's start and end in beats and in seconds, the bar's start; bar_number, tsig_num, tsig_denom */
  const LOOP: seq<nat> := [8, 8, 8, 8, 8, 4, 2, 2]
  /** port_index, data[3], padding */
  const MIDI: seq<nat> := [2, 1, 1, 1, 3]
  /** port_index, padding, buffer, size, padding */
  const SYSEX: seq<nat> := [2, 6, 8, 4, 4]
  /** port_index, padding, data[4] */
  const MIDI2: seq<nat> := [2, 2, 4, 4, 4, 4]

  ghost function Rest(typ: nat): seq<nat> {
    if typ < 4 then NOTE else if typ == 4 then EXPRESSION else if typ == 5 || typ == 6 then PARAM
    else if typ == 7 || typ == 8 then GESTURE else if typ == 9 then POSITION + LOOP else if typ == 10 then MIDI
    else if typ == 11 then SYSEX else MIDI2
  }

  ghost function NativePieces(typ: nat): seq<nat> { HEADER_WIDTHS + Rest(typ) }

  lemma {:induction false} NoteSize()
    ensures Sum(NOTE) == 24 && Start(NOTE, 5) == 16
  {
    Starts(NOTE);
    assert NOTE[0] == 4 && NOTE[1] == 2 && NOTE[2] == 2 && NOTE[3] == 2 && NOTE[4] == 6 && NOTE[5] == 8;
  }

  lemma {:induction false} ExpressionSize()
    ensures Sum(EXPRESSION) == 24
  {
    Starts(EXPRESSION);
    assert EXPRESSION[0] == 4 && EXPRESSION[1] == 4 && EXPRESSION[2] == 2 && EXPRESSION[3] == 2;
    assert EXPRESSION[4] == 2 && EXPRESSION[5] == 2 && EXPRESSION[6] == 8;
  }

  lemma {:induction false} ParamSizes()
    ensures Sum(PARAM) == 40 && Sum(GESTURE) == 4
  {
    Starts(PARAM);
    assert PARAM[0] == 4 && PARAM[1] == 4 && PARAM[2] == 8 && PARAM[3] == 4 && PARAM[4] == 2;
    assert PARAM[5] == 2 && PARAM[6] == 2 && PARAM[7] == 6 && PARAM[8] == 8;
    Starts(GESTURE);
    assert GESTURE[0] == 4;
  }

  lemma {:induction false} TransportSize()
    ensures Sum(POSITION + LOOP) == 88
  {
    SumConcat(POSITION, LOOP);
    Starts(POSITION);
    assert POSITION[0] == 4 && POSITION[1] == 4 && POSITION[2] == 8 && POSITION[3] == 8;
    assert POSITION[4] == 8 && POSITION[5] == 8;
    Starts(LOOP);
    assert LOOP[0] == 8 && LOOP[1] == 8 && LOOP[2] == 8 && LOOP[3] == 8;
    assert LOOP[4] == 8 && LOOP[5] == 4 && LOOP[6] == 2 && LOOP[7] == 2;
  }

  lemma {:induction false} MidiSizes()
    ensures Sum(MIDI) == 8 && Sum(SYSEX) == 24 && Sum(MIDI2) == 20
  {
    SumFive(2, 1, 1, 1, 3);
    SumFive(2, 6, 8, 4, 4);
    Starts(MIDI2);
    assert MIDI2[0] == 2 && MIDI2[1] == 2 && MIDI2[2] == 4 && MIDI2[3] == 4 && MIDI2[4] == 4 && MIDI2[5] == 4;
  }

  lemma {:induction false} RestSize(typ: nat)
    requires typ <= 12
    ensures NativeSize(typ) == 16 + Sum(Rest(typ))
  {
    NoteSize();
    ExpressionSize();
    ParamSizes();
    TransportSize();
    MidiSizes();
  }

  lemma {:induction false} AfterHeader(rest: seq<nat>, i: nat)
    requires i <= |rest|
    ensures Start(HEADER_WIDTHS + rest, 5 + i) == 16 + Start(rest, i) && Sum(HEADER_WIDTHS + rest) == 16 + Sum(rest)
  {
    SumFive(4, 4, 2, 2, 4);
    SumConcat(HEADER_WIDTHS, rest);
    SumConcat(HEADER_WIDTHS, rest[..i]);
    assert (HEADER_WIDTHS + rest)[..5 + i] == HEADER_WIDTHS + rest[..i];
  }

  /** The size the bridge puts into an outgoing header is that of the whole native struct, whose fields begin right
      after the header. */
  lemma {:induction false} NativeSizeIsStructSize(typ: nat)
    requires typ <= 12
    ensures NativeSize(typ) == Sum(NativePieces(typ)) && |NativePieces(typ)| > 5 && Start(NativePieces(typ), 5) == 16
  {
    RestSize(typ);
    AfterHeader(Rest(typ), 0);
    assert Rest(typ)[..0] == [];
  }

  // ---- Where the guest's fields are read, at pointer width `P`

  lemma {:induction false} RecordAt(m: seq<byte>, p: nat, ws: seq<nat>, i: nat, start: nat)
    requires i < |ws| && Start(ws, i) == start
    ensures LoadRecord(m, p, ws)[i] == Load(m, p + start, ws[i])
  {}

  lemma {:induction false} HeaderReads(m: seq<byte>, p: nat)
    ensures DecodeHeader(m, p)
         == Header(Load(m, p, 4), Load(m, p + 4, 4), Load(m, p + 8, 2), Load(m, p + 10, 2), Load(m, p + 12, 4))
  {
    var ws := HEADER_WIDTHS;
    Starts(ws);
    assert ws[0] == 4 && ws[1] == 4 && ws[2] == 2 && ws[3] == 2 && ws[4] == 4;
    RecordAt(m, p, ws, 0, 0); RecordAt(m, p, ws, 1, 4); RecordAt(m, p, ws, 2, 8); RecordAt(m, p, ws, 3, 10);
    RecordAt(m, p, ws, 4, 12);
  }

  lemma {:induction false} HeaderField(m: seq<byte>, p: nat, rest: seq<nat>, i: nat)
    requires i < 5
    ensures LoadRecord(m, p, HEADER_WIDTHS + rest)[i] == LoadRecord(m, p, HEADER_WIDTHS)[i]
  {
    assert (HEADER_WIDTHS + rest)[..i] == HEADER_WIDTHS[..i];
  }

  lemma {:induction false} FieldAfter(m: seq<byte>, p: nat, rest: seq<nat>, i: nat)
    requires i < |rest|
    ensures LoadRecord(m, p, HEADER_WIDTHS + rest)[5 + i] == Load(m, p + 16 + Start(rest, i), rest[i])
  {
    AfterHeader(rest, i);
  }

  /** A record that begins with the header. */
  lemma {:induction false} HeaderFirst(m: seq<byte>, p: nat, rest: seq<nat>)
    ensures var r := LoadRecord(m, p, HEADER_WIDTHS + rest);
            Header(r[0], r[1], r[2], r[3], r[4]) == DecodeHeader(m, p)
    ensures forall i :: 0 <= i < |rest| ==>
              LoadRecord(m, p, HEADER_WIDTHS + rest)[5 + i] == Load(m, p + 16 + Start(rest, i), rest[i])
  {
    HeaderField(m, p, rest, 0);
    HeaderField(m, p, rest, 1);
    HeaderField(m, p, rest, 2);
    HeaderField(m, p, rest, 3);
    HeaderField(m, p, rest, 4);
    forall i | 0 <= i < |rest|
      ensures LoadRecord(m, p, HEADER_WIDTHS + rest)[5 + i] == Load(m, p + 16 + Start(rest, i), rest[i])
    {
      FieldAfter(m, p, rest, i);
    }
  }

  ghost function ParamRest(P: nat): seq<nat>
    requires IsPointerSize(P)
  {
    [4, P - 4, P, 4, 2, 2, 2, 6, 8]
  }

  lemma {:induction false} ParamStarts(P: nat)
    requires IsPointerSize(P)
    ensures var ws := ParamRest(P);
            && Start(ws, 0) == 0 && Start(ws, 2) == P && Start(ws, 3) == 2 * P && Start(ws, 4) == 4 + 2 * P
            && Start(ws, 5) == 6 + 2 * P && Start(ws, 6) == 8 + 2 * P && Start(ws, 8) == 16 + 2 * P
  {
    var ws := ParamRest(P);
    Starts(ws);
    assert ws[0] == 4 && ws[1] == P - 4 && ws[2] == P && ws[3] == 4 && ws[4] == 2;
    assert ws[5] == 2 && ws[6] == 2 && ws[7] == 6;
  }

  /** param_id, cookie, note_id, port_index, channel, key and value, at the offsets of the guest's struct. */
  lemma {:induction false} ParamReads(m: seq<byte>, p: nat, P: nat)
    requires IsPointerSize(P)
    ensures DecodeParam(m, p, P)
         == Param(DecodeHeader(m, p), Load(m, p + 16, 4), Load(m, p + 16 + P, P), Load(m, p + 16 + 2 * P, 4),
                  Load(m, p + 20 + 2 * P, 2), Load(m, p + 22 + 2 * P, 2), Load(m, p + 24 + 2 * P, 2),
                  Load(m, p + 32 + 2 * P, 8))
  {
    var rest := ParamRest(P);
    assert ParamWidths(P) == HEADER_WIDTHS + rest;
    HeaderFirst(m, p, rest);
    ParamStarts(P);
    var r := LoadRecord(m, p, HEADER_WIDTHS + rest);
    assert r[5 + 0] == Load(m, p + 16, 4) && r[5 + 2] == Load(m, p + 16 + P, P);
    assert r[5 + 3] == Load(m, p + 16 + 2 * P, 4) && r[5 + 4] == Load(m, p + 20 + 2 * P, 2);
    assert r[5 + 5] == Load(m, p + 22 + 2 * P, 2) && r[5 + 6] == Load(m, p + 24 + 2 * P, 2);
    assert r[5 + 8] == Load(m, p + 32 + 2 * P, 8);
  }

  /** port_index, buffer and size. */
  lemma {:induction false} SysexReads(m: seq<byte>, p: nat, P: nat)
    requires IsPointerSize(P)
    ensures var r := LoadRecord(m, p, SysexWidths(P));
            && Header(r[0], r[1], r[2], r[3], r[4]) == DecodeHeader(m, p)
            && r[5] == Load(m, p + 16, 2) && r[7] == Load(m, p + 16 + P, P) && r[8] == Load(m, p + 16 + 2 * P, 4)
  {
    var rest := [2, P - 2, P, 4, P - 4];
    assert SysexWidths(P) == HEADER_WIDTHS + rest;
    HeaderFirst(m, p, rest);
    Starts(rest);
    assert rest[0] == 2 && rest[1] == P - 2 && rest[2] == P && rest[3] == 4;
    var r := LoadRecord(m, p, HEADER_WIDTHS + rest);
    assert r[5 + 0] == Load(m, p + 16, 2) && r[5 + 2] == Load(m, p + 16 + P, P);
    assert r[5 + 3] == Load(m, p + 16 + 2 * P, 4);
  }

  lemma {:induction false} BufferStarts(P: nat)
    ensures var ws := BufferWidths(P);
            && Start(ws, 0) == 0 && Start(ws, 1) == P && Start(ws, 2) == 2 * P && Start(ws, 3) == 2 * P + 4
            && Start(ws, 4) == 2 * P + 8
  {
    var ws := BufferWidths(P);
    Starts(ws);
    assert ws[0] == P && ws[1] == P && ws[2] == 4 && ws[3] == 4 && ws[4] == 8;
  }

  lemma {:induction false} BufferFields(m: seq<byte>, a: nat, P: nat)
    ensures var r := LoadRecord(m, a, BufferWidths(P));
            && r[0] == Load(m, a, P) && r[1] == Load(m, a + P, P) && r[2] == Load(m, a + 2 * P, 4)
            && r[3] == Load(m, a + 2 * P + 4, 4) && r[4] == Load(m, a + 2 * P + 8, 8)
  {
    var ws := BufferWidths(P);
    BufferStarts(P);
    assert |ws| == 5 && ws[0] == P && ws[1] == P && ws[2] == 4 && ws[3] == 4 && ws[4] == 8;
    RecordAt(m, a, ws, 0, 0); RecordAt(m, a, ws, 1, P); RecordAt(m, a, ws, 2, 2 * P);
    RecordAt(m, a, ws, 3, 2 * P + 4); RecordAt(m, a, ws, 4, 2 * P + 8);
  }

  /** data32, data64, channel_count, latency and constant_mask of a port. */
  lemma {:induction false} BufferReads(m: seq<byte>, a: nat, frames: nat, P: nat)
    ensures var b := DecodeBuffer(m, a, frames, P);
            var p32, p64, n := Load(m, a, P), Load(m, a + P, P), Load(m, a + 2 * P, 4);
            && b.channels == n && b.latency == Load(m, a + 2 * P + 4, 4) && b.mask == Load(m, a + 2 * P + 8, 8)
            && b.data32 == (if p32 == 0 then None else Some(DecodeChannels(m, p32, n, 4, frames, P)))
            && b.data64 == (if p64 == 0 then None else Some(DecodeChannels(m, p64, n, 8, frames, P)))
  {
    BufferFields(m, a, P);
  }

  lemma {:induction false} ProcessHead(m: seq<byte>, p: nat, P: nat)
    requires IsPointerSize(P)
    ensures var r := LoadRecord(m, p, ProcessWidths(P));
            && r[0] == Load(m, p, 8) && r[1] == Load(m, p + 8, 4) && r[3] == Load(m, p + 8 + P, P)
            && r[4] == Load(m, p + 8 + 2 * P, P) && r[5] == Load(m, p + 8 + 3 * P, P)
            && r[6] == Load(m, p + 8 + 4 * P, 4) && r[7] == Load(m, p + 12 + 4 * P, 4)
            && r[8] == Load(m, p + 16 + 4 * P, P) && r[9] == Load(m, p + 16 + 5 * P, P)
  {
    var ws := ProcessWidths(P);
    Starts(ws);
    assert ws[0] == 8 && ws[1] == 4 && ws[2] == P - 4 && ws[3] == P && ws[4] == P;
    assert ws[5] == P && ws[6] == 4 && ws[7] == 4 && ws[8] == P && ws[9] == P;
    RecordAt(m, p, ws, 0, 0); RecordAt(m, p, ws, 1, 8); RecordAt(m, p, ws, 3, 8 + P);
    RecordAt(m, p, ws, 4, 8 + 2 * P); RecordAt(m, p, ws, 5, 8 + 3 * P); RecordAt(m, p, ws, 6, 8 + 4 * P);
    RecordAt(m, p, ws, 7, 12 + 4 * P); RecordAt(m, p, ws, 8, 16 + 4 * P); RecordAt(m, p, ws, 9, 16 + 5 * P);
  }

  /** steady_time, frames_count, transport, the two port arrays with their counts, in_events and out_events. */
  lemma {:induction false} ProcessReads(m: seq<byte>, p: nat, P: nat)
    requires IsPointerSize(P)
    ensures var v, frames, t := DecodeProcess(m, p, P), Load(m, p + 8, 4), Load(m, p + 8 + P, P);
            && v.steady == Load(m, p, 8) && v.frames == frames
            && v.transport == (if t == 0 then None else Some(LoadArray(m, t, 1, 104)))
            && v.inputs == DecodePorts(m, Load(m, p + 8 + 2 * P, P), Load(m, p + 8 + 4 * P, 4), frames, P)
            && v.outputs == DecodePorts(m, Load(m, p + 8 + 3 * P, P), Load(m, p + 12 + 4 * P, 4), frames, P)
            && v.inEvents == LoadRecord(m, Load(m, p + 16 + 4 * P, P), [P, P, P])
            && v.outEvents == LoadRecord(m, Load(m, p + 16 + 5 * P, P), [P, P])
  {
    ProcessHead(m, p, P);
  }

  /** The cookie is the third field of the guest's parameter info, after id and flags. */
  lemma {:induction false} InfoCookieReads(m: seq<byte>, info: nat, P: nat)
    requires IsPointerSize(P)
    ensures InfoCookie(m, info, P) == LoadRecord(m, info, [4, 4, P])[2]
  {
    var ws := [4, 4, P];
    Starts(ws);
    assert ws[0] == 4 && ws[1] == 4;
    RecordAt(m, info, ws, 2, 8);
  }

  // ---- Every field of a pushed event reaches the host

  /** The little-endian value of bytes. */
  ghost function LE(bytes: seq<nat>): nat { if bytes == [] then 0 else bytes[0] + 256 * LE(bytes[1..]) }

  lemma {:induction false} ArrayBytes(m: seq<byte>, a: nat, n: nat)
    requires a + n <= |m|
    ensures forall k :: 0 <= k < n ==> LoadArray(m, a, 1, n)[k] == m[a + k]
  {
    forall k | 0 <= k < n ensures LoadArray(m, a, 1, n)[k] == m[a + k] {
      assert m[a + k * 1..a + k * 1 + 1] == [m[a + k]];
      assert FromLE([m[a + k]]) == m[a + k] + 256 * FromLE([m[a + k]][1..]);
      assert [m[a + k]][1..] == [];
    }
  }

  lemma {:induction false} LESame(bytes: seq<nat>, s: seq<byte>)
    requires |bytes| == |s| && forall k :: 0 <= k < |s| ==> bytes[k] == s[k]
    ensures LE(bytes) == FromLE(s)
    decreases |s|
  {
    if s == [] {
    } else {
      LESame(bytes[1..], s[1..]);
    }
  }

  lemma {:induction false} LEOfArray(m: seq<byte>, a: nat, n: nat, o: nat, w: nat)
    requires a + n <= |m| && o + w <= n
    ensures LE(LoadArray(m, a, 1, n)[o..o + w]) == Load(m, a + o, w)
  {
    ArrayBytes(m, a, n);
    LESame(LoadArray(m, a, 1, n)[o..o + w], m[a + o..a + o + w]);
  }

  /** The `w` bytes at `start` of a native event struct, past the header. */
  ghost function PieceOf(e: Event, start: nat, w: nat): nat
    requires e.Plain? && 16 <= start && start + w <= 16 + |e.body|
  {
    LE(e.body[start - 16..start - 16 + w])
  }

  lemma {:induction false} PieceRead(m: seq<byte>, p: nat, n: nat, e: Event, start: nat, w: nat)
    requires p + n <= |m| && e == WithSize(DecodePlain(m, p, n), n) && 16 <= start && start + w <= n
    ensures 16 + |e.body| == n && PieceOf(e, start, w) == Load(m, p + start, w)
  {
    LEOfArray(m, p + 16, n - 16, start - 16, w);
  }

  lemma {:induction false} PlainIsOffered(m: seq<byte>, p: nat, P: nat, typ: nat)
    requires IsPointerSize(P) && |m| >= 1024 && typ <= 12 && typ != 5 && typ != 6 && typ != 11
    requires Load(m, p + 8, 2) == 0 && Load(m, p + 10, 2) == typ && p + NativeSize(typ) <= |m|
    ensures var n := NativeSize(typ);
            && n >= 16 && OutputEvent(m, p, P) == Some(WithSize(DecodePlain(m, p, n), n))
            && OutputEvent(m, p, P).value.header == Header(n, Load(m, p + 4, 4), 0, typ, Load(m, p + 12, 4))
  {
    HeaderReads(m, p);
  }

  /** Piece `i` of the native struct is in `e` as it stands in memory at `p`. */
  ghost predicate PieceArrives(m: seq<byte>, p: nat, ws: seq<nat>, e: Event, i: nat)
    requires i < |ws| && e.Plain?
  {
    && 16 <= Start(ws, i) && Start(ws, i) + ws[i] <= 16 + |e.body|
    && PieceOf(e, Start(ws, i), ws[i]) == Load(m, p + Start(ws, i), ws[i])
  }

  lemma {:induction false} EveryPiece(m: seq<byte>, p: nat, ws: seq<nat>, e: Event, i: nat)
    requires 5 <= i < |ws| && Start(ws, 5) == 16 && p + Sum(ws) <= |m|
    requires e == WithSize(DecodePlain(m, p, Sum(ws)), Sum(ws))
    ensures PieceArrives(m, p, ws, e, i)
  {
    StartsGrow(ws, 5, i);
    PieceInside(ws, i);
    PieceRead(m, p, Sum(ws), e, Start(ws, i), ws[i]);
  }

  /** A pushed event of a kind without pointers: the host is offered its header, with the native struct's size, and
      every field of the struct as the guest wrote it. */
  lemma {:induction false} OfferedPlain(m: seq<byte>, p: nat, P: nat, typ: nat)
    requires IsPointerSize(P) && |m| >= 1024 && typ <= 12 && typ != 5 && typ != 6 && typ != 11
    requires Load(m, p + 8, 2) == 0 && Load(m, p + 10, 2) == typ && p + Sum(NativePieces(typ)) <= |m|
    ensures var ws, out := NativePieces(typ), OutputEvent(m, p, P);
            && out.Some? && out.value.Plain? && 16 + |out.value.body| == Sum(ws)
            && out.value.header == Header(Sum(ws), Load(m, p + 4, 4), 0, typ, Load(m, p + 12, 4))
            && forall i :: 5 <= i < |ws| ==> PieceArrives(m, p, ws, out.value, i)
  {
    NativeSizeIsStructSize(typ);
    PlainIsOffered(m, p, P, typ);
    var e := OutputEvent(m, p, P).value;
    forall i | 5 <= i < |NativePieces(typ)| ensures PieceArrives(m, p, NativePieces(typ), e, i) {
      EveryPiece(m, p, NativePieces(typ), e, i);
    }
  }

  /** A note's velocity, the last 8 of its 40 bytes. */
  lemma {:induction false} VelocityReachesHost(m: seq<byte>, p: nat, P: nat, typ: nat)
    requires IsPointerSize(P) && |m| >= 1024 && typ < 4 && p + 40 <= |m|
    requires Load(m, p + 8, 2) == 0 && Load(m, p + 10, 2) == typ
    ensures var out := OutputEvent(m, p, P);
            && out.Some? && out.value.Plain? && out.value.header.size == 40 && |out.value.body| == 24
            && PieceOf(out.value, 32, 8) == Load(m, p + 32, 8)
  {
    NoteSize();
    AfterHeader(NOTE, 5);
    OfferedPlain(m, p, P, typ);
    assert NativePieces(typ)[10] == NOTE[5] == 8;
    assert PieceArrives(m, p, NativePieces(typ), OutputEvent(m, p, P).value, 10);
  }

  /** A pushed parameter event: all fields, at 56 bytes. */
  lemma {:induction false} OfferedParam(m: seq<byte>, p: nat, P: nat, typ: nat)
    requires IsPointerSize(P) && |m| >= 1024 && (typ == 5 || typ == 6) && p + 40 + 2 * P <= |m|
    requires Load(m, p + 8, 2) == 0 && Load(m, p + 10, 2) == typ
    ensures OutputEvent(m, p, P)
         == Some(Param(Header(Sum(NativePieces(5)), Load(m, p + 4, 4), 0, typ, Load(m, p + 12, 4)), Load(m, p + 16, 4),
                       Load(m, p + 16 + P, P), Load(m, p + 16 + 2 * P, 4), Load(m, p + 20 + 2 * P, 2),
                       Load(m, p + 22 + 2 * P, 2), Load(m, p + 24 + 2 * P, 2), Load(m, p + 32 + 2 * P, 8)))
  {
    NativeSizeIsStructSize(typ);
    HeaderReads(m, p);
    ParamReads(m, p, P);
  }

  /** A pushed sysex event: its port and the bytes its buffer pointer leads to, at 40 bytes; refused over 1024. */
  lemma {:induction false} OfferedSysex(m: seq<byte>, p: nat, P: nat)
    requires IsPointerSize(P) && |m| >= 1024 && p + 16 + 3 * P <= |m|
    requires Load(m, p + 8, 2) == 0 && Load(m, p + 10, 2) == 11
    ensures var n, buffer := Load(m, p + 16 + 2 * P, 4), Load(m, p + 16 + P, P);
            OutputEvent(m, p, P) ==
            if n > 1024 then None
            else Some(Sysex(Header(Sum(NativePieces(11)), Load(m, p + 4, 4), 0, 11, Load(m, p + 12, 4)),
                            Load(m, p + 16, 2), LoadArray(m, Clamp(buffer, n, |m|), 1, n)))
  {
    NativeSizeIsStructSize(11);
    HeaderReads(m, p);
    SysexReads(m, p, P);
  }

  /** Anything else is refused. */
  lemma {:induction false} OthersRefused(m: seq<byte>, p: nat, P: nat)
    requires IsPointerSize(P) && |m| >= 1024 && p + 16 <= |m|
    requires Load(m, p + 8, 2) != 0 || Load(m, p + 10, 2) > 12
    ensures OutputEvent(m, p, P) == None
  {
    HeaderReads(m, p);
  }
}
