/** Arguments and results across the boundary: typed values in untyped 8-byte slots, for both call directions. */
module Values {
  import opened Wrappers

  /** The C++ types the bridge passes.  Values are integers; a float is its bit pattern. */
  datatype Ty = Bool | I8 | U8 | I16 | U16 | I32 | U32 | I64 | U64 | F32 | F64 | Ptr32 | Ptr64

  datatype Code = CodeI32 | CodeI64 | CodeF32 | CodeF64

  const B8: nat := 0x100
  const B16: nat := 0x1_0000
  const B32: nat := 0x1_0000_0000
  const B64: nat := 0x1_0000_0000_0000_0000

  predicate InRange(ty: Ty, v: int) {
    match ty
    case Bool => 0 <= v <= 1
    case I8 => -0x80 <= v < 0x80
    case U8 => 0 <= v < B8
    case I16 => -0x8000 <= v < 0x8000
    case U16 => 0 <= v < B16
    case I32 => -0x8000_0000 <= v < 0x8000_0000
    case U32 => 0 <= v < B32
    case I64 => -0x8000_0000_0000_0000 <= v < 0x8000_0000_0000_0000
    case U64 => 0 <= v < B64
    case F32 => 0 <= v < B32
    case F64 => 0 <= v < B64
    case Ptr32 => 0 <= v < B32
    case Ptr64 => 0 <= v < B64
  }

  /** `wasmValTypeCode`. */
  function TypeCode(ty: Ty): Code {
    match ty
    case I64 => CodeI64
    case U64 => CodeI64
    case Ptr64 => CodeI64
    case F32 => CodeF32
    case F64 => CodeF64
    case _ => CodeI32
  }

  /** `sizeof` of the C++ type. */
  function Bytes(ty: Ty): nat {
    match ty
    case Bool => 1
    case I8 => 1
    case U8 => 1
    case I16 => 2
    case U16 => 2
    case I32 => 4
    case U32 => 4
    case F32 => 4
    case Ptr32 => 4
    case _ => 8
  }

  /** Types of 8 bytes get an 8-byte code and smaller ones a 4-byte code; float types, and only they, a float code. */
  lemma {:induction false} CodeFitsType(ty: Ty)
    ensures TypeCode(ty) in {CodeI64, CodeF64} <==> Bytes(ty) == 8
    ensures TypeCode(ty) in {CodeF32, CodeF64} <==> ty == F32 || ty == F64
  {}

  // ---- Integer conversions

  /** Conversion to a signed type of `b` patterns. */
  function Signed(v: int, b: nat): int
    requires b in {B8, B16, B32, B64}
  {
    var u := v % b;
    if u >= b / 2 then u - b else u
  }

  function Unsigned(v: int, b: nat): nat
    requires b in {B8, B16, B32, B64}
  {
    v % b
  }

  // ---- Slots: the low 8 bytes of `wasmtime_val_raw`

  predicate IsSlot(s: nat) { s < B64 }

  function LaneI32(s: nat): int { Signed(s, B32) }
  function LaneI64(s: nat): int { Signed(s, B64) }
  function LaneF32(s: nat): nat { s % B32 }
  function LaneF64(s: nat): nat { s % B64 }

  /** What a reader of the declared type code finds in the slot. */
  function Lane(code: Code, s: nat): int {
    match code
    case CodeI32 => LaneI32(s)
    case CodeI64 => LaneI64(s)
    case CodeF32 => LaneF32(s)
    case CodeF64 => LaneF64(s)
  }

  /** `argToWasmVal`: narrow types go through `int32_t`, 64-bit ones through `int64_t`; the rest of the slot is 0. */
  function Pack(ty: Ty, v: int): (s: nat) {
    match ty
    case I64 => Unsigned(v, B64)
    case U64 => Unsigned(Signed(v, B64), B64)
    case Ptr64 => Unsigned(Signed(v, B64), B64)
    case F32 => Unsigned(v, B32)
    case F64 => Unsigned(v, B64)
    case _ => Unsigned(Signed(v, B32), B32)
  }

  /** `wasmValToArg`. */
  function Unpack(ty: Ty, s: nat): int {
    match ty
    case Bool => if LaneI32(s) != 0 then 1 else 0
    case I8 => Signed(LaneI32(s), B8)
    case U8 => Unsigned(LaneI32(s), B8)
    case I16 => Signed(LaneI32(s), B16)
    case U16 => Unsigned(LaneI32(s), B16)
    case I32 => LaneI32(s)
    case U32 => Unsigned(LaneI32(s), B32)
    case I64 => LaneI64(s)
    case U64 => Unsigned(LaneI64(s), B64)
    case F32 => LaneF32(s)
    case F64 => LaneF64(s)
    case Ptr32 => Unsigned(LaneI32(s), B32)
    case Ptr64 => Unsigned(LaneI64(s), B64)
  }

  function Patterns(ty: Ty): (b: nat)
    ensures b in {B8, B16, B32, B64}
  {
    match Bytes(ty)
    case 1 => B8
    case 2 => B16
    case 4 => B32
    case _ => B64
  }

  lemma {:induction false} SignedLow(v: int, b: nat)
    requires b in {B8, B16, B32, B64}
    ensures Signed(v, b) % b == v % b && -(b / 2) <= Signed(v, b) < b / 2
  {
    var u := v % b;
    if u >= b / 2 {
      match b
      case 0x100 => assert (u - 0x100) % 0x100 == u;
      case 0x1_0000 => assert (u - 0x1_0000) % 0x1_0000 == u;
      case 0x1_0000_0000 => assert (u - 0x1_0000_0000) % 0x1_0000_0000 == u;
      case _ => assert (u - 0x1_0000_0000_0000_0000) % 0x1_0000_0000_0000_0000 == u;
    }
  }

  lemma {:induction false} Drop16(n: int, r: int)
    ensures (n * 0x1_0000 + r) % 0x1_0000 == r % 0x1_0000
  {}

  lemma {:induction false} Drop8(n: int, r: int)
    ensures (n * 0x100 + r) % 0x100 == r % 0x100
  {}

  /** Numbers with the same low 4 bytes have the same low 2 and the same low 1. */
  lemma {:induction false} SameLow(x: int, y: int)
    requires x % B32 == y % B32
    ensures x % B16 == y % B16 && x % B8 == y % B8
  {
    var k := x / B32 - y / B32;
    assert x == k * B32 + y;
    Drop16(k * 0x1_0000, y);
    Drop8(k * 0x100_0000, y);
  }

  lemma {:induction false} LowOfLane(s: nat)
    ensures LaneI32(s) % B32 == s % B32 && LaneI32(s) % B16 == s % B16 && LaneI32(s) % B8 == s % B8
  {
    SignedLow(s, B32);
    SameLow(LaneI32(s), s);
  }

  /** Whatever a slot holds, reading it at a type gives the value of the type that has its low bytes; a bool is true
      exactly when any of the low 4 bytes is set. */
  lemma {:induction false} UnpackIs(ty: Ty, s: nat)
    ensures InRange(ty, Unpack(ty, s))
    ensures ty != Bool ==> Unpack(ty, s) % Patterns(ty) == s % Patterns(ty)
    ensures ty == Bool ==> (Unpack(ty, s) == 1 <==> s % B32 != 0)
  {
    LowOfLane(s);
    SignedLow(s, B32);
    SignedLow(s, B64);
    SignedLow(LaneI32(s), Patterns(ty));
  }

  /** Storing a signed value in a lane of its width and reading it back. */
  lemma {:induction false} LaneOfSigned(v: int, b: nat)
    requires b in {B32, B64}
    ensures Unsigned(Signed(v, b), b) < b && Signed(Unsigned(Signed(v, b), b), b) == Signed(v, b)
    ensures Unsigned(Signed(v, b), b) == Unsigned(v, b)
  {
    if b == B32 { assert Signed(v, B32) % B32 == v % B32; } else { assert Signed(v, B64) % B64 == v % B64; }
  }

  /** Unpacking gives any in-range value back, whatever its type and sign. */
  lemma {:induction false} RoundTrip(ty: Ty, v: int)
    requires InRange(ty, v)
    ensures IsSlot(Pack(ty, v)) && Unpack(ty, Pack(ty, v)) == v
  {
    if TypeCode(ty).CodeI32? { NarrowRoundTrip(ty, v); }
    else if TypeCode(ty).CodeI64? { WideRoundTrip(ty, v); }
  }

  lemma {:induction false} NarrowRoundTrip(ty: Ty, v: int)
    requires InRange(ty, v) && TypeCode(ty).CodeI32?
    ensures IsSlot(Pack(ty, v)) && Unpack(ty, Pack(ty, v)) == v
  {
    LaneOfSigned(v, B32);
    assert LaneI32(Pack(ty, v)) == Signed(v, B32);
    if !ty.U32? && !ty.Ptr32? { assert Signed(v, B32) == v; }
  }

  lemma {:induction false} WideRoundTrip(ty: Ty, v: int)
    requires InRange(ty, v) && TypeCode(ty).CodeI64?
    ensures IsSlot(Pack(ty, v)) && Unpack(ty, Pack(ty, v)) == v
  {
    LaneOfSigned(v, B64);
    assert LaneI64(Pack(ty, v)) == Signed(v, B64);
  }

  /** Only the lane the type code declares matters: two slots that agree there unpack alike. */
  lemma {:induction false} OnlyTheDeclaredLane(ty: Ty, s: nat, s': nat)
    requires Lane(TypeCode(ty), s) == Lane(TypeCode(ty), s')
    ensures Unpack(ty, s) == Unpack(ty, s')
  {}

  /** A packed value is alone in its lane: a reader of the declared code sees it, modulo the lane's own signedness. */
  lemma {:induction false} PackedInItsLane(ty: Ty, v: int)
    requires InRange(ty, v)
    ensures match TypeCode(ty)
            case CodeI32 => Lane(CodeI32, Pack(ty, v)) == Signed(v, B32) && Pack(ty, v) < B32
            case CodeI64 => Lane(CodeI64, Pack(ty, v)) == Signed(v, B64)
            case CodeF32 => Lane(CodeF32, Pack(ty, v)) == v && Pack(ty, v) < B32
            case CodeF64 => Lane(CodeF64, Pack(ty, v)) == v
  {
    if TypeCode(ty).CodeI64? { LaneOfSigned(v, B64); }
    else if TypeCode(ty).CodeI32? { LaneOfSigned(v, B32); }
  }

  /** A slot zeroed through its 64-bit lane reads as 0 at every type. */
  lemma {:induction false} ZeroIsZero(ty: Ty)
    ensures Unpack(ty, 0) == 0
  {}

  // ---- Argument lists

  ghost predicate AllInRange(tys: seq<Ty>, vs: seq<int>) {
    |tys| == |vs| && forall i :: 0 <= i < |tys| ==> InRange(tys[i], vs[i])
  }

  function PackAll(tys: seq<Ty>, vs: seq<int>): (s: seq<nat>)
    requires |tys| == |vs|
    ensures |s| == |tys|
  {
    seq(|tys|, i requires 0 <= i < |tys| => Pack(tys[i], vs[i]))
  }

  /** `argsAsTuple`. */
  function UnpackAll(tys: seq<Ty>, s: seq<nat>): (vs: seq<int>)
    requires |tys| <= |s|
    ensures |vs| == |tys|
  {
    seq(|tys|, i requires 0 <= i < |tys| => Unpack(tys[i], s[i]))
  }

  lemma {:induction false} ListRoundTrip(tys: seq<Ty>, vs: seq<int>, rest: seq<nat>)
    requires AllInRange(tys, vs)
    ensures UnpackAll(tys, PackAll(tys, vs) + rest) == vs
  {
    forall i | 0 <= i < |tys| ensures UnpackAll(tys, PackAll(tys, vs) + rest)[i] == vs[i] {
      RoundTrip(tys[i], vs[i]);
    }
  }

  // ---- The guest calls the host

  type Native = seq<int> -> int

  /** `WrappedFn::unchecked`: all arguments are read before the result goes into slot 0. */
  method Unchecked(slots: array<nat>, tys: seq<Ty>, ret: Option<Ty>, native: Native)
    requires |tys| <= slots.Length && (ret.Some? ==> slots.Length > 0)
    modifies slots
    ensures var result := native(UnpackAll(tys, old(slots[..])));
            slots[..] == if ret.Some? then old(slots[..])[0 := Pack(ret.value, result)] else old(slots[..])
  {
    var args: seq<int> := [];
    for i := 0 to |tys|
      invariant args == UnpackAll(tys, slots[..])[..i]
    {
      args := args + [Unpack(tys[i], slots[i])];
    }
    assert args == UnpackAll(tys, slots[..]);
    var result := native(args);
    if ret.Some? { slots[0] := Pack(ret.value, result); }
  }

  /** A guest that packs its arguments as the type codes say reaches the native function with exactly those values, and
      reads back exactly what it returned. */
  method GuestCallsHost(tys: seq<Ty>, vs: seq<int>, ret: Ty, native: Native) returns (result: int)
    requires AllInRange(tys, vs) && InRange(ret, native(vs))
    ensures result == native(vs)
  {
    var packed := PackAll(tys, vs);
    var slots := new nat[if |tys| == 0 then 1 else |tys|](i => if 0 <= i < |packed| then packed[i] else 0);
    assert slots[..] == packed + slots[..][|tys|..];
    ListRoundTrip(tys, vs, slots[..][|tys|..]);
    Unchecked(slots, tys, Some(ret), native);
    RoundTrip(ret, native(vs));
    result := Unpack(ret, slots[0]);
  }

  // ---- The host calls the guest

  /** What a foreign call does: it fails, traps, or returns, leaving its result, if it has one, in slot 0.  `raised`:
      a host function it called, or another thread, set the group's error meanwhile. */
  datatype GuestResult = Failed | Trapped | Done(result: Option<nat>, raised: bool)

  type Guest = seq<nat> -> GuestResult

  class Group {
    var hasError: bool

    constructor ()
      ensures !hasError
    {
      hasError := false;
    }
  }

  /** The slots after a call: cleared through slot 0 unless the guest returned, and then with its result there. */
  function SlotsAfter(slots: seq<nat>, argN: nat, returned: Option<GuestResult>): seq<nat>
    requires argN > 0 ==> slots != []
  {
    if returned.Some? && returned.value.Done? then
      if returned.value.result.Some? && slots != [] then slots[0 := returned.value.result.value] else slots
    else if argN > 0 then slots[0 := 0] else slots
  }

  /** `wtCall`, with the function already looked up: none means the index did not resolve.  `returned` is what guest
      code did, if any ran. */
  method WtCall(group: Group, fn: Option<Guest>, slots: array<nat>, argN: nat)
    returns (ghost returned: Option<GuestResult>)
    requires argN > 0 ==> slots.Length > 0
    modifies group, slots
    ensures returned.Some? <==> !old(group.hasError) && fn.Some?
    ensures returned.Some? ==> returned.value == fn.value(old(slots[..]))
    ensures group.hasError <==> returned.None? || !returned.value.Done? || returned.value.raised
    ensures slots[..] == SlotsAfter(old(slots[..]), argN, returned)
  {
    returned := None;
    if group.hasError {
      if argN > 0 { slots[0] := 0; }
      return;
    }
    if fn == None {
      group.hasError := true;
      if argN > 0 { slots[0] := 0; }
      return;
    }
    var r := fn.value(slots[..]);
    returned := Some(r);
    match r
    case Done(result, raised) =>
      if result.Some? && slots.Length > 0 { slots[0] := result.value; }
      group.hasError := raised;
    case _ =>
      group.hasError := true;
      if argN > 0 { slots[0] := 0; }
  }

  /** What the guest is handed unpacks to the arguments. */
  ghost predicate Hands(slots: seq<nat>, tys: seq<Ty>, vs: seq<int>) {
    |slots| >= |tys| && UnpackAll(tys, slots) == vs
  }

  /** `call` with a result: a group in error runs no guest code and reads 0 at every result type; otherwise the guest
      is handed the packed arguments and its result is read at the declared type. */
  method Call(group: Group, fn: Option<Guest>, tys: seq<Ty>, vs: seq<int>, ret: Ty)
    returns (result: int, ghost given: seq<nat>, ghost returned: Option<GuestResult>)
    requires AllInRange(tys, vs)
    modifies group
    ensures Hands(given, tys, vs)
    ensures returned.Some? <==> !old(group.hasError) && fn.Some?
    ensures returned.Some? ==> returned.value == fn.value(given)
    ensures group.hasError <==> returned.None? || !returned.value.Done? || returned.value.raised
    ensures returned.None? || !returned.value.Done? ==> result == 0
    ensures returned.Some? && returned.value.Done? && returned.value.result.Some? ==>
              result == Unpack(ret, returned.value.result.value)
  {
    var packed := PackAll(tys, vs);
    var slots := new nat[if |tys| == 0 then 1 else |tys|](i => if 0 <= i < |packed| then packed[i] else 0);
    given := slots[..];
    assert given == packed + given[|tys|..];
    ListRoundTrip(tys, vs, given[|tys|..]);
    returned := WtCall(group, fn, slots, slots.Length);
    ZeroIsZero(ret);
    assert slots[0] == slots[..][0];
    result := Unpack(ret, slots[0]);
  }

  /** `call` without a result: as many slots as arguments, also none at all. */
  method CallVoid(group: Group, fn: Option<Guest>, tys: seq<Ty>, vs: seq<int>)
    returns (ghost given: seq<nat>, ghost returned: Option<GuestResult>)
    requires AllInRange(tys, vs)
    modifies group
    ensures Hands(given, tys, vs) && |given| == |tys|
    ensures returned.Some? <==> !old(group.hasError) && fn.Some?
    ensures returned.Some? ==> returned.value == fn.value(given)
    ensures group.hasError <==> returned.None? || !returned.value.Done? || returned.value.raised
  {
    var packed := PackAll(tys, vs);
    var slots := new nat[|tys|](i => if 0 <= i < |packed| then packed[i] else 0);
    given := slots[..];
    assert given == packed + [];
    ListRoundTrip(tys, vs, []);
    returned := WtCall(group, fn, slots, |tys|);
  }
}
