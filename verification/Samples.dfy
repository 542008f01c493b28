/** Audio samples as IEEE 754 bit patterns, and the check every output sample passes on its way to the host. */
module Samples {

  function Pow2(n: nat): (p: nat)
    ensures p > 0
  {
    if n == 0 then 1 else 2 * Pow2(n - 1)
  }

  lemma {:induction false} Pow2Add(a: nat, b: nat)
    ensures Pow2(a + b) == Pow2(a) * Pow2(b)
  {
    if a == 0 {
    } else {
      Pow2Add(a - 1, b);
    }
  }

  lemma {:induction false} Pow2Monotone(a: nat, b: nat)
    requires a <= b
    ensures Pow2(a) <= Pow2(b)
  {
    if a == b {
    } else {
      Pow2Monotone(a, b - 1);
    }
  }

  /** The two binary interchange formats the bridge copies: `float` and `double`. */
  datatype Format = Single | Double {
    function Width(): nat { if Single? then 4 else 8 }
    function FractionBits(): nat { if Single? then 23 else 52 }
    function ExponentBits(): nat { if Single? then 8 else 11 }
    /** Finite magnitudes are whole multiples of the smallest one, 2^-149 or 2^-1074. */
    function Scale(): nat { if Single? then 149 else 1074 }
  }

  datatype Magnitude = NaN | Infinite | Finite(units: nat)

  function Unsigned(f: Format, bits: nat): nat { bits % Pow2(f.FractionBits() + f.ExponentBits()) }

  function Quotient(a: nat, p: nat): (q: nat)
    requires p > 0
    ensures q * p <= a < (q + 1) * p && a % p == a - q * p
  {
    assert a == (a / p) * p + a % p;
    a / p
  }

  function Exponent(f: Format, mag: nat): nat { Quotient(mag, Pow2(f.FractionBits())) }
  function Fraction(f: Format, mag: nat): nat { mag % Pow2(f.FractionBits()) }

  /** The finite value of sign-free bits, in units of the smallest subnormal. */
  function Units(f: Format, mag: nat): nat {
    if Exponent(f, mag) == 0 then Fraction(f, mag)
    else (Pow2(f.FractionBits()) + Fraction(f, mag)) * Pow2(Exponent(f, mag) - 1)
  }

  /** `std::abs` of a sample. */
  function Abs(f: Format, bits: nat): Magnitude {
    var mag := Unsigned(f, bits);
    if Exponent(f, mag) < Pow2(f.ExponentBits()) - 1 then Finite(Units(f, mag))
    else if Fraction(f, mag) == 0 then Infinite else NaN
  }

  /** The quiet `<` of IEEE 754-2008 section 5.11: false when either side is a NaN. */
  predicate Less(a: Magnitude, b: Magnitude) {
    !a.NaN? && !b.NaN? && !a.Infinite? && (b.Infinite? || a.units < b.units)
  }

  const LIMIT := 100

  function Limit(f: Format): Magnitude { Finite(LIMIT * Pow2(f.Scale())) }

  predicate Kept(f: Format, bits: nat) { Less(Abs(f, bits), Limit(f)) }

  /** What the check leaves of a sample. */
  function Checked(f: Format, bits: nat): nat { if Kept(f, bits) then bits else 0 }

  function CheckedAll(f: Format, vs: seq<nat>): (r: seq<nat>)
    ensures |r| == |vs|
  {
    seq(|vs|, i requires 0 <= i < |vs| => Checked(f, vs[i]))
  }

  // ---- The same check on the bits: a single unsigned comparison

  /** The bits of 100. */
  function LimitBits(f: Format): nat { if f.Single? then 0x42C80000 else 0x4059000000000000 }

  lemma {:induction false} SameExponent(f: Format, a: nat, b: nat)
    requires a < b && Exponent(f, a) == Exponent(f, b)
    ensures Units(f, a) < Units(f, b)
  {
    var p, e := Pow2(f.FractionBits()), Exponent(f, a);
    assert Fraction(f, a) < Fraction(f, b);
    if e > 0 { Times(p + Fraction(f, a), p + Fraction(f, b), Pow2(e - 1)); }
  }

  lemma {:induction false} UnitsAtLeast(f: Format, mag: nat)
    requires Exponent(f, mag) > 0
    ensures Pow2(f.FractionBits()) * Pow2(Exponent(f, mag) - 1) <= Units(f, mag)
  {
    var p := Pow2(f.FractionBits());
    Times(p, p + Fraction(f, mag), Pow2(Exponent(f, mag) - 1));
  }

  lemma {:induction false} LargerExponent(f: Format, a: nat, b: nat)
    requires Exponent(f, a) < Exponent(f, b)
    ensures Units(f, a) < Units(f, b)
  {
    var p, ea, eb := Pow2(f.FractionBits()), Exponent(f, a), Exponent(f, b);
    UnitsBelow(f, a);
    UnitsAtLeast(f, b);
    Pow2Monotone(ea, eb - 1);
    TimesLeft(p, Pow2(ea), Pow2(eb - 1));
  }

  lemma {:induction false} TimesLeft(k: nat, x: nat, y: nat)
    requires x <= y
    ensures k * x <= k * y
  {}

  /** More bits, more magnitude. */
  lemma {:induction false} UnitsIncrease(f: Format, a: nat, b: nat)
    requires a < b
    ensures Units(f, a) < Units(f, b) && Exponent(f, a) <= Exponent(f, b)
  {
    ExponentOrder(a, b, Pow2(f.FractionBits()), Exponent(f, a), Exponent(f, b));
    if Exponent(f, a) == Exponent(f, b) { SameExponent(f, a, b); } else { LargerExponent(f, a, b); }
  }

  /** Everything with exponent `e` lies below the first value of exponent `e + 1`. */
  lemma {:induction false} UnitsBelow(f: Format, mag: nat)
    ensures Units(f, mag) < Pow2(f.FractionBits()) * Pow2(Exponent(f, mag))
  {
    var p, e := Pow2(f.FractionBits()), Exponent(f, mag);
    if e > 0 {
      Times(p + Fraction(f, mag), 2 * p, Pow2(e - 1));
      Doubled(p, Pow2(e - 1));
    }
  }

  lemma {:induction false} Doubled(p: nat, q: nat)
    ensures 2 * p * q == p * (2 * q)
  {}

  lemma {:induction false} Times(x: nat, y: nat, k: nat)
    requires x <= y && k > 0
    ensures x * k <= y * k && (x < y ==> x * k < y * k)
  {}

  lemma {:induction false} ExponentOrder(a: nat, b: nat, p: nat, ea: nat, eb: nat)
    requires a < b && p > 0 && ea * p <= a && b < (eb + 1) * p
    ensures ea <= eb
  {
    if ea > eb {
      Times(eb + 1, ea, p);
      assert false;
    }
  }

  lemma {:induction false} SignlessPatterns()
    ensures Pow2(31) == 0x8000_0000 && Pow2(63) == 0x8000_0000_0000_0000
  {
    LargePowers();
    Pow2Add(23, 8);
    Pow2Add(52, 11);
  }

  lemma {:induction false} LargePowers()
    ensures Pow2(8) == 256 && Pow2(11) == 2048 && Pow2(17) == 0x20000 && Pow2(23) == 0x800000
    ensures Pow2(46) == 0x400000000000 && Pow2(52) == 0x10000000000000
  {
    assert Pow2(8) == 256 && Pow2(9) == 512 && Pow2(11) == 2048 && Pow2(12) == 4096 && Pow2(13) == 8192;
    Pow2Add(9, 8); Pow2Add(12, 11); Pow2Add(23, 23); Pow2Add(13, 13); Pow2Add(26, 26);
  }

  /** 100 is written as `n` units of a power of two; `n` fits the significand. */
  lemma {:induction false} HundredAt(n: nat, k: nat, e: nat)
    requires n == LIMIT * Pow2(k)
    ensures n * Pow2(e) == LIMIT * Pow2(k + e)
  {
    Pow2Add(k, e);
  }

  lemma {:induction false} LimitParts(f: Format)
    ensures Exponent(f, LimitBits(f)) == if f.Single? then 133 else 1029
    ensures Pow2(f.FractionBits()) + Fraction(f, LimitBits(f)) == LIMIT * (if f.Single? then Pow2(17) else Pow2(46))
  {
    LargePowers();
  }

  lemma {:induction false} LimitUnits(f: Format)
    ensures Units(f, LimitBits(f)) == LIMIT * Pow2(f.Scale())
    ensures Exponent(f, LimitBits(f)) < Pow2(f.ExponentBits()) - 1
  {
    LargePowers();
    LimitParts(f);
    var n := Pow2(f.FractionBits()) + Fraction(f, LimitBits(f));
    if f.Single? { HundredAt(n, 17, 132); } else { HundredAt(n, 46, 1028); }
  }

  /** A sample is kept exactly when its bits without the sign are below those of 100: every NaN and infinity is above,
      every smaller magnitude of either sign is below. */
  lemma {:induction false} KeptIffBitsBelow(f: Format, bits: nat)
    ensures Kept(f, bits) <==> Unsigned(f, bits) < LimitBits(f)
  {
    var mag := Unsigned(f, bits);
    LimitUnits(f);
    if mag < LimitBits(f) {
      UnitsIncrease(f, mag, LimitBits(f));
    } else if mag > LimitBits(f) {
      UnitsIncrease(f, LimitBits(f), mag);
    }
  }

  // ---- The loop

  /** The bits without the sign are below those of 100, as written in the two formats. */
  predicate BitsBelow100(f: Format, bits: nat) {
    if f.Single? then bits % 0x8000_0000 < 0x42C8_0000 else bits % 0x8000_0000_0000_0000 < 0x4059_0000_0000_0000
  }

  lemma {:induction false} KeptIffBelow100(f: Format, bits: nat)
    ensures Kept(f, bits) <==> BitsBelow100(f, bits)
  {
    KeptIffBitsBelow(f, bits);
    SignlessPatterns();
  }

  /** `checkBuffers`, in place. */
  method CheckBuffers(f: Format, buffer: array<nat>)
    modifies buffer
    ensures forall k :: 0 <= k < buffer.Length ==>
              buffer[k] == if BitsBelow100(f, old(buffer[k])) then old(buffer[k]) else 0
    ensures buffer[..] == CheckedAll(f, old(buffer[..]))
  {
    for i := 0 to buffer.Length
      invariant forall k :: 0 <= k < i ==> buffer[k] == Checked(f, old(buffer[k]))
      invariant forall k :: i <= k < buffer.Length ==> buffer[k] == old(buffer[k])
    {
      var a := Abs(f, buffer[i]);
      if !Less(a, Limit(f)) { buffer[i] := 0; }
    }
    forall k | 0 <= k < buffer.Length
      ensures buffer[k] == if BitsBelow100(f, old(buffer[k])) then old(buffer[k]) else 0
    {
      CheckedIs(f, old(buffer[k]));
    }
  }

  lemma {:induction false} CheckedEach(f: Format, vs: seq<nat>)
    ensures forall i :: 0 <= i < |vs| ==> CheckedAll(f, vs)[i] == if BitsBelow100(f, vs[i]) then vs[i] else 0
  {
    forall i | 0 <= i < |vs| ensures CheckedAll(f, vs)[i] == if BitsBelow100(f, vs[i]) then vs[i] else 0 {
      CheckedIs(f, vs[i]);
    }
  }

  /** What the check leaves of one sample: its bits, or 0. */
  lemma {:induction false} CheckedIs(f: Format, bits: nat)
    ensures Checked(f, bits) == if BitsBelow100(f, bits) then bits else 0
  {
    KeptIffBelow100(f, bits);
  }

  /** Checking twice changes nothing more. */
  lemma {:induction false} CheckedIsKept(f: Format, bits: nat)
    ensures Kept(f, Checked(f, bits)) && Checked(f, Checked(f, bits)) == Checked(f, bits)
  {
    KeptIffBitsBelow(f, 0);
    assert Unsigned(f, 0) == 0;
  }
}
