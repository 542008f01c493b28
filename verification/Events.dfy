/** Event translation between a 64-bit host and a guest with 4- or 8-byte pointers: input events are laid out in the
    audio arena, output events are read back out of guest memory. */
module Events {
  import opened Wrappers
  import opened Bytes
  import opened Memory

  predicate IsPointerSize(P: nat) { P == 4 || P == 8 }

  // ---- Events as values; all fields are unsigned bit patterns

  datatype Header = Header(size: nat, time: nat, space: nat, typ: nat, flags: nat)

  datatype Event =
    | Plain(header: Header, body: seq<nat>)                   // every kind without pointers: the bytes after the header
    | Param(header: Header, paramId: nat, cookie: nat, noteId: nat, port: nat, channel: nat, key: nat, val: nat)
    | Sysex(header: Header, port: nat, data: seq<nat>)

  const CORE_SPACE := 0
  const HEADER_BYTES := 16
  const SYSEX_LIMIT := 1024

  /** The branches of `tryCopyInputEvent`. */
  predicate CopiedWhole(typ: nat) { typ <= 4 || 7 <= typ <= 10 || typ == 12 }
  predicate IsParam(typ: nat) { typ == 5 || typ == 6 }
  predicate IsSysex(typ: nat) { typ == 11 }

  predicate Recognised(h: Header) {
    h.space == CORE_SPACE && (CopiedWhole(h.typ) || IsParam(h.typ) || IsSysex(h.typ))
  }

  /** Of the core events exactly the types up to 12 are passed on; 5 and 6 carry a cookie, 11 a pointer to data, and the
      others are copied whole. */
  lemma {:induction false} RecognisedIff(h: Header)
    ensures Recognised(h) <==> h.space == 0 && h.typ <= 12
    ensures IsParam(h.typ) <==> h.typ == 5 || h.typ == 6
    ensures IsSysex(h.typ) <==> h.typ == 11
    ensures Recognised(h) ==> (CopiedWhole(h.typ) <==> h.typ != 5 && h.typ != 6 && h.typ != 11)
  {}

  /** `sizeof` of the host's struct for an event type. */
  function NativeSize(typ: nat): nat {
    if typ <= 4 then 40 else if typ == 5 || typ == 6 then 56 else if typ == 7 || typ == 8 then 20
    else if typ == 9 then 104 else if typ == 10 then 24 else if typ == 11 then 40 else 36
  }

  predicate Bytewise(s: seq<nat>) { forall i :: 0 <= i < |s| ==> s[i] < Pow256(1) }

  predicate HeaderFits(h: Header) {
    h.size < Pow256(4) && h.time < Pow256(4) && h.space < Pow256(2) && h.typ < Pow256(2) && h.flags < Pow256(4)
  }

  /** What the host promises: fields of the declared widths, the layout its type says, and `size` bytes behind a
      recognised plain event. */
  predicate WellFormed(e: Event) {
    && HeaderFits(e.header)
    && (Recognised(e.header) ==> (e.Param? <==> IsParam(e.header.typ)) && (e.Sysex? <==> IsSysex(e.header.typ)))
    && match e
       case Plain(h, body) =>
         Bytewise(body) && (Recognised(h) ==> h.size == HEADER_BYTES + |body|)
       case Param(_, id, cookie, note, port, channel, key, val) =>
         id < Pow256(4) && cookie < Pow256(8) && note < Pow256(4) && port < Pow256(2) && channel < Pow256(2)
         && key < Pow256(2) && val < Pow256(8)
       case Sysex(_, port, data) => port < Pow256(2) && Bytewise(data) && |data| < Pow256(4)
  }

  /** A plain event as long as the native struct of its type; it may well be longer. */
  predicate Covers(e: Event) { e.Plain? && Recognised(e.header) ==> e.header.size >= NativeSize(e.header.typ) }

  // ---- Guest layouts

  function HeaderCells(h: Header): seq<Cell> {
    [Cell(4, h.size), Cell(4, h.time), Cell(2, h.space), Cell(2, h.typ), Cell(4, h.flags)]
  }

  function PlainCells(e: Event): seq<Cell>
    requires e.Plain?
  {
    HeaderCells(e.header) + Words(1, e.body)
  }

  function ParamCells(e: Event, P: nat): seq<Cell>
    requires e.Param? && IsPointerSize(P)
  {
    HeaderCells(e.header) + [
      Cell(4, e.paramId), Cell(P - 4, 0), Field(P, e.cookie), Cell(4, e.noteId), Cell(2, e.port), Cell(2, e.channel),
      Cell(2, e.key), Cell(6, 0), Cell(8, e.val)]
  }

  function SysexCells(e: Event, P: nat, buffer: nat): seq<Cell>
    requires e.Sysex? && IsPointerSize(P)
  {
    HeaderCells(e.header) + [
      Cell(2, e.port), Cell(P - 2, 0), Field(P, buffer), Cell(4, |e.data|), Cell(P - 4, 0)]
  }

  const HEADER_WIDTHS: seq<nat> := [4, 4, 2, 2, 4]

  function ParamWidths(P: nat): seq<nat>
    requires IsPointerSize(P)
  {
    [4, 4, 2, 2, 4, 4, P - 4, P, 4, 2, 2, 2, 6, 8]
  }

  function SysexWidths(P: nat): seq<nat>
    requires IsPointerSize(P)
  {
    [4, 4, 2, 2, 4, 2, P - 2, P, 4, P - 4]
  }

  // ---- What the guest reads through an event pointer

  function DecodeHeader(m: seq<byte>, p: nat): Header {
    var r := LoadRecord(m, p, HEADER_WIDTHS);
    Header(r[0], r[1], r[2], r[3], r[4])
  }

  function DecodeParam(m: seq<byte>, p: nat, P: nat): Event
    requires IsPointerSize(P)
  {
    var r := LoadRecord(m, p, ParamWidths(P));
    Param(Header(r[0], r[1], r[2], r[3], r[4]), r[5], r[7], r[8], r[9], r[10], r[11], r[13])
  }

  function DecodeSysex(m: seq<byte>, p: nat, P: nat): Event
    requires IsPointerSize(P)
  {
    var r := LoadRecord(m, p, SysexWidths(P));
    Sysex(Header(r[0], r[1], r[2], r[3], r[4]), r[5], LoadArray(m, r[7], 1, r[8]))
  }

  function DecodePlain(m: seq<byte>, p: nat, size: nat): Event {
    Plain(DecodeHeader(m, p), LoadArray(m, p + HEADER_BYTES, 1, if size < HEADER_BYTES then 0 else size - HEADER_BYTES))
  }

  function DecodeEvent(m: seq<byte>, p: nat, P: nat): Event
    requires IsPointerSize(P)
  {
    var h := DecodeHeader(m, p);
    if IsParam(h.typ) then DecodeParam(m, p, P)
    else if IsSysex(h.typ) then DecodeSysex(m, p, P)
    else DecodePlain(m, p, h.size)
  }

  /** What the guest should see of a host event: everything, with the cookie cut to the guest's pointer width. */
  function ToGuest(e: Event, P: nat): Event {
    if e.Param? then e.(cookie := Field(P, e.cookie).value) else e
  }

  /** The cookie keeps its low `P` bytes; every other field, and every event without a cookie, is seen as it is. */
  lemma {:induction false} OnlyCookieIsCut(e: Event, P: nat)
    requires IsPointerSize(P)
    ensures e.Param? ==> ToGuest(e, P) == Param(e.header, e.paramId, e.cookie % Pow256(P), e.noteId, e.port, e.channel,
                                                e.key, e.val)
    ensures !e.Param? ==> ToGuest(e, P) == e
  {}

  // ---- Where an event sits in the arena

  ghost function BlockCount(e: Event): nat { if e.Sysex? then 2 else 1 }

  ghost predicate EventAt(blocks: seq<Block>, k: nat, e: Event, P: nat, p: nat)
    requires IsPointerSize(P)
  {
    k + BlockCount(e) <= |blocks| &&
    match e
    case Plain(_, _) => blocks[k] == Block(p, PlainCells(e))
    case Param(_, _, _, _, _, _, _, _) => blocks[k] == Block(p, ParamCells(e, P))
    case Sysex(_, _, data) =>
      blocks[k].cells == Words(1, data) && blocks[k + 1] == Block(p, SysexCells(e, P, blocks[k].start))
  }

  lemma {:induction false} HeaderSize(h: Header)
    ensures Size(HeaderCells(h)) == HEADER_BYTES && Widths(HeaderCells(h)) == HEADER_WIDTHS
  {
    var c := HeaderCells(h);
    assert c[..5] == c && c[..5][..4] == c[..4] && c[..4][..3] == c[..3];
    assert c[..3][..2] == c[..2] && c[..2][..1] == c[..1];
    assert c[..1][..0] == [];
    assert Size(c[..1]) == 4 && Size(c[..2]) == 8 && Size(c[..3]) == 10 && Size(c[..4]) == 12;
  }

  lemma {:induction false} HeaderDecodes(m: seq<byte>, b: Block, h: Header)
    requires Holds(m, b) && HeaderFits(h) && |b.cells| >= 5 && b.cells[..5] == HeaderCells(h)
    ensures DecodeHeader(m, b.start) == h
  {
    HoldsPart(m, b, 0, 5);
    assert b.cells[..0] == [] && b.cells[0..5] == HeaderCells(h);
    HeaderSize(h);
    HoldsRecord(m, Block(b.start, HeaderCells(h)), HEADER_WIDTHS);
  }

  lemma {:induction false} PlainDecodes(m: seq<byte>, b: Block, e: Event)
    requires e.Plain? && WellFormed(e) && Recognised(e.header) && Holds(m, b) && b.cells == PlainCells(e)
    ensures DecodePlain(m, b.start, e.header.size) == e
  {
    assert b.cells[..5] == HeaderCells(e.header);
    HeaderDecodes(m, b, e.header);
    HoldsPart(m, b, 5, |b.cells|);
    HeaderSize(e.header);
    assert b.cells[5..|b.cells|] == Words(1, e.body);
    HoldsArray(m, Block(b.start + HEADER_BYTES, Words(1, e.body)), 1, e.body);
  }

  lemma {:induction false} ParamDecodes(m: seq<byte>, b: Block, e: Event, P: nat)
    requires e.Param? && WellFormed(e) && IsPointerSize(P) && Holds(m, b) && b.cells == ParamCells(e, P)
    ensures DecodeParam(m, b.start, P) == ToGuest(e, P)
  {
    assert Widths(b.cells) == ParamWidths(P);
    assert AllFit(b.cells);
    HoldsRecord(m, b, ParamWidths(P));
  }

  lemma {:induction false} SysexDecodes(m: seq<byte>, blocks: seq<Block>, k: nat, e: Event, P: nat, p: nat)
    requires e.Sysex? && WellFormed(e) && IsPointerSize(P) && AllHold(m, blocks) && EventAt(blocks, k, e, P, p)
    requires blocks[k].start < Pow256(P)
    ensures DecodeSysex(m, p, P) == e
  {
    var b := blocks[k + 1];
    assert Widths(b.cells) == SysexWidths(P);
    assert AllFit(b.cells);
    HoldsRecord(m, b, SysexWidths(P));
    HoldsArray(m, blocks[k], 1, e.data);
  }

  ghost predicate Addressable(blocks: seq<Block>, P: nat) {
    forall i :: 0 <= i < |blocks| ==> blocks[i].start < Pow256(P)
  }

  /** Decoding through the pointer gives the host's event back, with the cookie at guest width. */
  lemma {:induction false} EventDecodes(m: seq<byte>, blocks: seq<Block>, k: nat, e: Event, P: nat, p: nat)
    requires IsPointerSize(P) && WellFormed(e) && Recognised(e.header)
    requires AllHold(m, blocks) && Addressable(blocks, P) && EventAt(blocks, k, e, P, p)
    ensures DecodeEvent(m, p, P) == ToGuest(e, P)
  {
    var b := if e.Sysex? then blocks[k + 1] else blocks[k];
    assert b.cells[..5] == HeaderCells(e.header);
    HeaderDecodes(m, b, e.header);
    match e
    case Plain(_, _) => PlainDecodes(m, b, e);
    case Param(_, _, _, _, _, _, _, _) => ParamDecodes(m, b, e, P);
    case Sysex(_, _, _) => SysexDecodes(m, blocks, k, e, P, p);
  }

  // ---- Lists of events

  /** The subsequence the bridge passes on. */
  function Recognise(es: seq<Event>): (r: seq<Event>)
    ensures |r| <= |es|
    ensures forall i :: 0 <= i < |r| ==> Recognised(r[i].header)
  {
    if es == [] then [] else
      var rest := Recognise(es[..|es| - 1]);
      if Recognised(es[|es| - 1].header) then rest + [es[|es| - 1]] else rest
  }

  ghost function Blocks(es: seq<Event>): nat {
    if es == [] then 0 else Blocks(es[..|es| - 1]) + BlockCount(es[|es| - 1])
  }

  /** The events `es` sit in the log from region `k` on, and `ps` points at them in order. */
  ghost predicate EventsAt(blocks: seq<Block>, k: nat, es: seq<Event>, P: nat, ps: seq<nat>)
    requires IsPointerSize(P)
    decreases |es|
  {
    && |ps| == |es|
    && (es != [] ==>
          var n := |es| - 1;
          EventsAt(blocks, k, es[..n], P, ps[..n]) && EventAt(blocks, k + Blocks(es[..n]), es[n], P, ps[n]))
  }

  lemma {:induction false} EventsAtIndex(blocks: seq<Block>, k: nat, es: seq<Event>, P: nat, ps: seq<nat>, i: nat)
    requires IsPointerSize(P) && EventsAt(blocks, k, es, P, ps) && i < |es|
    ensures EventAt(blocks, k + Blocks(es[..i]), es[i], P, ps[i])
    decreases |es|
  {
    var n := |es| - 1;
    if i == n {
    } else {
      EventsAtIndex(blocks, k, es[..n], P, ps[..n], i);
      assert es[..n][..i] == es[..i];
    }
  }

  lemma {:induction false} EventsAtAppend(blocks: seq<Block>, k: nat, es: seq<Event>, P: nat, ps: seq<nat>, e: Event,
                                          p: nat)
    requires IsPointerSize(P) && EventsAt(blocks, k, es, P, ps) && EventAt(blocks, k + Blocks(es), e, P, p)
    ensures EventsAt(blocks, k, es + [e], P, ps + [p])
    ensures Blocks(es + [e]) == Blocks(es) + BlockCount(e)
  {
    assert (es + [e])[..|es|] == es && (ps + [p])[..|es|] == ps;
  }

  lemma {:induction false} EventAtGrow(blocks: seq<Block>, blocks': seq<Block>, k: nat, e: Event, P: nat, p: nat)
    requires IsPointerSize(P) && EventAt(blocks, k, e, P, p) && |blocks| <= |blocks'| && blocks'[..|blocks|] == blocks
    ensures EventAt(blocks', k, e, P, p)
  {
    assert blocks'[k] == blocks'[..|blocks|][k];
    if e.Sysex? { assert blocks'[k + 1] == blocks'[..|blocks|][k + 1]; }
  }

  /** Later regions leave earlier events alone. */
  lemma {:induction false} EventsAtGrow(blocks: seq<Block>, blocks': seq<Block>, k: nat, es: seq<Event>, P: nat,
                                        ps: seq<nat>)
    requires IsPointerSize(P) && EventsAt(blocks, k, es, P, ps) && |blocks| <= |blocks'|
             && blocks'[..|blocks|] == blocks
    ensures EventsAt(blocks', k, es, P, ps)
    decreases |es|
  {
    if es == [] {
    } else {
      var n := |es| - 1;
      EventsAtGrow(blocks, blocks', k, es[..n], P, ps[..n]);
      EventAtGrow(blocks, blocks', k + Blocks(es[..n]), es[n], P, ps[n]);
    }
  }

  /** Arena bytes an event may take, alignment included. */
  ghost function EventCost(e: Event, P: nat): nat
    requires IsPointerSize(P)
  {
    if !Recognised(e.header) then 0 else
      match e
      case Plain(_, _) => Size(PlainCells(e)) + 7
      case Param(_, _, _, _, _, _, _, _) => Size(ParamCells(e, P)) + 7
      case Sysex(_, _, data) => |data| + Size(SysexCells(e, P, 0)) + 7
  }

  ghost function EventsCost(es: seq<Event>, P: nat): nat
    requires IsPointerSize(P)
  {
    if es == [] then 0 else EventCost(es[0], P) + EventsCost(es[1..], P)
  }

  // ---- What the host receives

  function WithSize(e: Event, size: nat): Event {
    match e
    case Plain(h, body) => Plain(h.(size := size), body)
    case Param(h, id, cookie, note, port, channel, key, val) =>
      Param(h.(size := size), id, cookie, note, port, channel, key, val)
    case Sysex(h, port, data) => Sysex(h.(size := size), port, data)
  }

  /** The sysex branch: data over 1024 bytes is refused. */
  function OutputSysex(m: seq<byte>, p: nat, P: nat, size: nat): Option<Event>
    requires IsPointerSize(P) && |m| >= SYSEX_LIMIT
  {
    var r := LoadRecord(m, Clamp(p, SysexSize(P), |m|), SysexWidths(P));
    if r[8] > SYSEX_LIMIT then None
    else Some(Sysex(Header(size, r[1], r[2], r[3], r[4]), r[5], LoadArray(m, Clamp(r[7], r[8], |m|), 1, r[8])))
  }

  /** `outputEventsTryPush`: the native event built from guest memory, or none when it is refused. */
  function OutputEvent(m: seq<byte>, p: nat, P: nat): Option<Event>
    requires IsPointerSize(P) && |m| >= SYSEX_LIMIT
  {
    var h := DecodeHeader(m, Clamp(p, HEADER_BYTES, |m|));
    if h.space != CORE_SPACE then None
    else if IsParam(h.typ) then
      Some(WithSize(DecodeParam(m, Clamp(p, ParamSize(P), |m|), P), NativeSize(h.typ)))
    else if IsSysex(h.typ) then OutputSysex(m, p, P, NativeSize(h.typ))
    else if CopiedWhole(h.typ) then
      var n := NativeSize(h.typ);
      Some(WithSize(DecodePlain(m, Clamp(p, n, |m|), n), n))
    else None
  }

  /** `sizeof` of the guest's param and sysex structs. */
  function ParamSize(P: nat): nat { 40 + 2 * P }
  function SysexSize(P: nat): nat { 16 + 3 * P }

  lemma {:induction false} SumConcat(a: seq<nat>, b: seq<nat>)
    ensures Sum(a + b) == Sum(a) + Sum(b)
  {
    if b == [] {
      assert a + b == a;
    } else {
      assert (a + b)[..|a + b| - 1] == a + b[..|b| - 1];
      SumConcat(a, b[..|b| - 1]);
    }
  }

  lemma {:induction false} SumFive(a: nat, b: nat, c: nat, d: nat, e: nat)
    ensures Sum([a, b, c, d, e]) == a + b + c + d + e
  {
    var w := [a, b, c, d, e];
    assert w[..4] == [a, b, c, d] && w[..4][..3] == [a, b, c] && [a, b, c][..2] == [a, b] && [a, b][..1] == [a];
    assert Sum([a]) == a && Sum([a, b]) == a + b && Sum([a, b, c]) == a + b + c && Sum([a, b, c, d]) == a + b + c + d;
  }

  lemma {:induction false} ParamRecordSize(P: nat)
    requires IsPointerSize(P)
    ensures Sum(ParamWidths(P)) == ParamSize(P)
  {
    assert ParamWidths(P) == [4, 4, 2, 2, 4] + [4, P - 4, P, 4, 2] + [2, 2, 6, 8, 0][..4];
    assert [2, 2, 6, 8, 0][..4] + [0] == [2, 2, 6, 8, 0];
    SumConcat([2, 2, 6, 8, 0][..4], [0]);
    SumConcat([4, 4, 2, 2, 4], [4, P - 4, P, 4, 2]);
    SumConcat([4, 4, 2, 2, 4] + [4, P - 4, P, 4, 2], [2, 2, 6, 8, 0][..4]);
    SumFive(4, 4, 2, 2, 4); SumFive(4, P - 4, P, 4, 2); SumFive(2, 2, 6, 8, 0);
  }

  lemma {:induction false} SysexRecordSize(P: nat)
    requires IsPointerSize(P)
    ensures Sum(SysexWidths(P)) == SysexSize(P)
  {
    assert SysexWidths(P) == [4, 4, 2, 2, 4] + [2, P - 2, P, 4, P - 4];
    SumConcat([4, 4, 2, 2, 4], [2, P - 2, P, 4, P - 4]);
    SumFive(4, 4, 2, 2, 4); SumFive(2, P - 2, P, 4, P - 4);
  }

  // ---- Echo: the guest pushes back what it was given

  /** What the host gets when the guest pushes back the event it read. */
  function Echo(e: Event, P: nat): Option<Event>
    requires IsPointerSize(P) && WellFormed(e) && Recognised(e.header) && Covers(e)
  {
    var n := NativeSize(e.header.typ);
    match e
    case Plain(h, body) => Some(Plain(h.(size := n), body[..n - HEADER_BYTES]))
    case Param(_, _, _, _, _, _, _, _) => Some(WithSize(ToGuest(e, P), n))
    case Sysex(_, _, data) => if |data| > SYSEX_LIMIT then None else Some(WithSize(e, n))
  }

  lemma {:induction false} PlainInBounds(m: seq<byte>, b: Block, e: Event)
    requires e.Plain? && WellFormed(e) && Recognised(e.header) && Holds(m, b) && b.cells == PlainCells(e)
    ensures b.End() == b.start + e.header.size <= |m| && DecodeHeader(m, b.start) == e.header
  {
    assert b.cells[..5] == HeaderCells(e.header);
    HeaderDecodes(m, b, e.header);
    EncodeConcat(HeaderCells(e.header), Words(1, e.body));
    HeaderSize(e.header);
    UniformSize(Words(1, e.body), 1);
  }

  lemma {:induction false} PlainEcho(m: seq<byte>, b: Block, e: Event, P: nat)
    requires IsPointerSize(P) && e.Plain? && WellFormed(e) && Recognised(e.header) && Covers(e) && |m| >= SYSEX_LIMIT
    requires Holds(m, b) && b.cells == PlainCells(e)
    ensures OutputEvent(m, b.start, P) == Echo(e, P)
  {
    PlainInBounds(m, b, e);
    PlainDecodes(m, b, e);
    BodyPrefix(m, b.start, NativeSize(e.header.typ), e.header.size);
  }

  lemma {:induction false} BodyPrefix(m: seq<byte>, p: nat, n: nat, size: nat)
    requires HEADER_BYTES <= n <= size
    ensures DecodePlain(m, p, n).body == DecodePlain(m, p, size).body[..n - HEADER_BYTES]
  {}

  lemma {:induction false} ParamInBounds(m: seq<byte>, b: Block, e: Event, P: nat)
    requires IsPointerSize(P) && e.Param? && WellFormed(e) && Holds(m, b) && b.cells == ParamCells(e, P)
    ensures b.start + ParamSize(P) <= |m| && DecodeHeader(m, b.start) == e.header
  {
    assert b.cells[..5] == HeaderCells(e.header);
    HeaderDecodes(m, b, e.header);
    ParamRecordSize(P);
    SumWidths(b.cells);
    assert Widths(b.cells) == ParamWidths(P);
  }

  lemma {:induction false} ParamEcho(m: seq<byte>, b: Block, e: Event, P: nat)
    requires IsPointerSize(P) && e.Param? && WellFormed(e) && Recognised(e.header) && |m| >= SYSEX_LIMIT
    requires Holds(m, b) && b.cells == ParamCells(e, P)
    ensures OutputEvent(m, b.start, P) == Echo(e, P)
  {
    ParamInBounds(m, b, e, P);
    ParamDecodes(m, b, e, P);
  }

  lemma {:induction false} SysexFields(m: seq<byte>, b: Block, e: Event, P: nat, buffer: nat)
    requires IsPointerSize(P) && e.Sysex? && WellFormed(e) && Holds(m, b) && b.cells == SysexCells(e, P, buffer)
    requires buffer < Pow256(P) && |m| >= SYSEX_LIMIT
    ensures Clamp(b.start, SysexSize(P), |m|) == b.start
    ensures var h := e.header;
            LoadRecord(m, b.start, SysexWidths(P))
            == [h.size, h.time, h.space, h.typ, h.flags, e.port, 0, buffer, |e.data|, 0]
  {
    SysexRecordSize(P);
    SumWidths(b.cells);
    assert Widths(b.cells) == SysexWidths(P) && AllFit(b.cells);
    HoldsRecord(m, b, SysexWidths(P));
  }

  lemma {:induction false} SysexEcho(m: seq<byte>, blocks: seq<Block>, k: nat, e: Event, P: nat, p: nat)
    requires IsPointerSize(P) && e.Sysex? && WellFormed(e) && Recognised(e.header) && |m| >= SYSEX_LIMIT
    requires AllHold(m, blocks) && EventAt(blocks, k, e, P, p) && blocks[k].start < Pow256(P)
    ensures OutputEvent(m, p, P) == Echo(e, P)
  {
    var a, b := blocks[k], blocks[k + 1];
    assert Holds(m, a) && AllFit(a.cells) && Holds(m, b);
    assert b.cells[..5] == HeaderCells(e.header);
    HeaderDecodes(m, b, e.header);
    SysexFields(m, b, e, P, a.start);
    HoldsArray(m, a, 1, e.data);
    UniformSize(a.cells, 1);
  }

  lemma {:induction false} EventEchoes(m: seq<byte>, blocks: seq<Block>, k: nat, e: Event, P: nat, p: nat)
    requires IsPointerSize(P) && WellFormed(e) && Recognised(e.header) && Covers(e) && |m| >= SYSEX_LIMIT
    requires AllHold(m, blocks) && Addressable(blocks, P) && EventAt(blocks, k, e, P, p)
    ensures OutputEvent(m, p, P) == Echo(e, P)
  {
    match e
    case Plain(_, _) => PlainEcho(m, blocks[k], e, P);
    case Param(_, _, _, _, _, _, _, _) => ParamEcho(m, blocks[k], e, P);
    case Sysex(_, _, _) => SysexEcho(m, blocks, k, e, P, p);
  }

  /** An event shorter than its native struct comes back at native size, with whatever bytes follow it in memory. */
  lemma {:induction false} ShortEcho(m: seq<byte>, b: Block, e: Event, P: nat)
    requires IsPointerSize(P) && WellFormed(e) && Recognised(e.header) && !Covers(e) && |m| >= SYSEX_LIMIT
    requires Holds(m, b) && b.cells == PlainCells(e)
    ensures var out := OutputEvent(m, b.start, P);
            out.Some? && out.value.header.size == NativeSize(e.header.typ) > e.header.size
  {
    PlainInBounds(m, b, e);
  }

  ghost predicate ComesBack(e: Event, P: nat) {
    && e.header.size == NativeSize(e.header.typ)
    && (e.Param? ==> e.cookie < Pow256(P))
    && (e.Sysex? ==> |e.data| <= SYSEX_LIMIT)
  }

  lemma {:induction false} EchoIsSelfIff(e: Event, P: nat)
    requires IsPointerSize(P) && WellFormed(e) && Recognised(e.header) && Covers(e)
    ensures Echo(e, P) == Some(e) <==> ComesBack(e, P)
  {
    match e
    case Plain(h, body) => if h.size == NativeSize(h.typ) { assert body[..|body|] == body; }
    case _ =>
  }

  /** What comes back from a push of an event just read is the host's own event exactly when its size is the native one,
      its cookie fits the guest's pointer and its sysex data fits the 1024-byte buffer; nothing else is ever lost. */
  lemma {:induction false} EchoIsIdentityIff(m: seq<byte>, blocks: seq<Block>, k: nat, e: Event, P: nat, p: nat)
    requires IsPointerSize(P) && WellFormed(e) && Recognised(e.header) && |m| >= SYSEX_LIMIT
    requires AllHold(m, blocks) && Addressable(blocks, P) && EventAt(blocks, k, e, P, p)
    ensures OutputEvent(m, p, P) == Some(e) <==> ComesBack(e, P)
  {
    if Covers(e) {
      EventEchoes(m, blocks, k, e, P, p);
      EchoIsSelfIff(e, P);
    } else {
      ShortEcho(m, blocks[k], e, P);
    }
  }

  // ---- Parameter cookies

  /** `params_get_info`: the guest's cookie, widened into a host pointer. */
  function InfoCookie(m: seq<byte>, info: nat, P: nat): (cookie: nat)
    requires IsPointerSize(P)
    ensures cookie < Pow256(P)
  {
    Load(m, info + 8, P)
  }

  /** The cookie after `trips` passes through an input and an output param event. */
  function AfterTrips(cookie: nat, P: nat, trips: nat): nat
    requires IsPointerSize(P)
  {
    if trips == 0 then cookie else Field(P, AfterTrips(cookie, P, trips - 1)).value
  }

  /** A cookie the bridge handed out survives any number of trips; and only such cookies do. */
  lemma {:induction false} CookieSurvivesIff(cookie: nat, P: nat, trips: nat)
    requires IsPointerSize(P) && trips > 0
    ensures AfterTrips(cookie, P, trips) == cookie <==> cookie < Pow256(P)
  {
    TripsCut(cookie, P, trips);
  }

  lemma {:induction false} TripsCut(cookie: nat, P: nat, trips: nat)
    requires IsPointerSize(P) && trips > 0
    ensures AfterTrips(cookie, P, trips) == Field(P, cookie).value
  {
    if trips > 1 { TripsCut(cookie, P, trips - 1); }
  }

  lemma {:induction false} HandedOutCookieSurvives(m: seq<byte>, info: nat, P: nat, e: Event, trips: nat)
    requires IsPointerSize(P) && WellFormed(e) && e.Param? && Recognised(e.header) && trips > 0
    requires e.cookie == AfterTrips(InfoCookie(m, info, P), P, trips)
    ensures ToGuest(e, P).cookie == InfoCookie(m, info, P)
    ensures Echo(e, P).Some? && Echo(e, P).value.cookie == InfoCookie(m, info, P)
  {
    CookieSurvivesIff(InfoCookie(m, info, P), P, trips);
  }
}
