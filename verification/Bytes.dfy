/** Little-endian words, and records as sequences of cells (a width in bytes and a value). */
module Bytes {

  type byte = b: int | 0 <= b < 256

  function Pow256(w: nat): (p: nat)
    ensures p > 0
  {
    if w == 0 then 1 else 256 * Pow256(w - 1)
  }

  function ToLE(v: nat, w: nat): (s: seq<byte>)
    ensures |s| == w
  {
    if w == 0 then [] else [v % 256] + ToLE(v / 256, w - 1)
  }

  function FromLE(s: seq<byte>): (v: nat)
    ensures v < Pow256(|s|)
  {
    if s == [] then 0 else s[0] + 256 * FromLE(s[1..])
  }

  lemma {:induction false} LERoundTrip(v: nat, w: nat)
    requires v < Pow256(w)
    ensures FromLE(ToLE(v, w)) == v
  {
    if w == 0 {
    } else {
      LERoundTrip(v / 256, w - 1);
      assert ToLE(v, w)[1..] == ToLE(v / 256, w - 1);
    }
  }

  /** Byte `k` of a word is its k-th digit to the base 256, the lowest first. */
  lemma {:induction false} LEDigit(v: nat, w: nat, k: nat)
    requires k < w
    ensures ToLE(v, w)[k] == (v / Pow256(k)) % 256
  {
    if k == 0 {
      assert v / 1 == v;
    } else {
      LEDigit(v / 256, w - 1, k - 1);
      DivideTwice(v, Pow256(k - 1));
    }
  }

  lemma {:induction false} DivideTwice(v: nat, b: nat)
    requires b > 0
    ensures v / 256 / b == v / (256 * b)
  {
    var q, r := v / 256, v % 256;
    DivisionOf(q, b);
    Regroup(256, b, q / b, q % b, r);
    RemainderBound(256, b, q % b, r);
    QuotientIs(v, 256 * b, q / b, 256 * (q % b) + r);
  }

  lemma {:induction false} DivisionOf(q: nat, b: nat)
    requires b > 0
    ensures q == b * (q / b) + q % b && q % b < b
  {}

  lemma {:induction false} Regroup(a: nat, b: nat, q: nat, r': nat, r: nat)
    ensures a * (b * q + r') + r == (a * b) * q + (a * r' + r)
  {}

  lemma {:induction false} RemainderBound(a: nat, b: nat, r': nat, r: nat)
    requires r' < b && r < a
    ensures a * r' + r < a * b
  {
    Scaled(a, r', b - 1);
  }

  lemma {:induction false} Scaled(a: nat, x: nat, y: nat)
    requires x <= y
    ensures a * x <= a * y && a * (y + 1) == a * y + a
  {}

  lemma {:induction false} QuotientIs(v: nat, d: nat, q: nat, r: nat)
    requires d > 0 && v == d * q + r && r < d
    ensures v / d == q
  {
    var q' := v / d;
    assert v == d * q' + v % d;
    if q' < q { Scaled(d, q' + 1, q); } else if q < q' { Scaled(d, q + 1, q'); }
  }

  // ---- Cells

  /** One field, array element or piece of padding. */
  datatype Cell = Cell(width: nat, value: nat)

  predicate Fits(c: Cell) { c.value < Pow256(c.width) }

  predicate AllFit(cells: seq<Cell>) { forall i :: 0 <= i < |cells| ==> Fits(cells[i]) }

  /** A value cut to what `p` possible patterns can hold. */
  function Cut(value: nat, p: nat): (r: nat)
    requires p > 0
    ensures r < p && (value < p ==> r == value)
  {
    value % p
  }

  /** The cell a C++ assignment to a field of that width leaves: the value cut to the width. */
  function Field(width: nat, value: nat): (c: Cell)
    ensures Fits(c) && c.width == width
    ensures value < Pow256(width) ==> c.value == value
  {
    Cell(width, Cut(value, Pow256(width)))
  }

  function Size(cells: seq<Cell>): nat {
    if cells == [] then 0 else Size(cells[..|cells| - 1]) + cells[|cells| - 1].width
  }

  function Encode(cells: seq<Cell>): (s: seq<byte>)
    ensures |s| == Size(cells)
  {
    if cells == [] then [] else Encode(cells[..|cells| - 1]) + ToLE(cells[|cells| - 1].value, cells[|cells| - 1].width)
  }

  lemma {:induction false} EncodeConcat(a: seq<Cell>, b: seq<Cell>)
    ensures Size(a + b) == Size(a) + Size(b)
    ensures Encode(a + b) == Encode(a) + Encode(b)
  {
    if b == [] {
      assert a + b == a;
    } else {
      assert (a + b)[..|a + b| - 1] == a + b[..|b| - 1];
      EncodeConcat(a, b[..|b| - 1]);
    }
  }

  ghost predicate SameWidths(a: seq<Cell>, b: seq<Cell>) {
    |a| == |b| && forall i :: 0 <= i < |a| ==> a[i].width == b[i].width
  }

  lemma {:induction false} SameWidthsSize(a: seq<Cell>, b: seq<Cell>)
    requires SameWidths(a, b)
    ensures Size(a) == Size(b)
  {
    if a == [] {
    } else {
      SameWidthsSize(a[..|a| - 1], b[..|b| - 1]);
    }
  }

  /** An array of `vs` with elements of `width` bytes. */
  function Words(width: nat, vs: seq<nat>): (cells: seq<Cell>)
    ensures |cells| == |vs|
    ensures forall i :: 0 <= i < |vs| ==> cells[i] == Cell(width, vs[i])
  {
    seq(|vs|, i requires 0 <= i < |vs| => Cell(width, vs[i]))
  }

  lemma {:induction false} OneMore(n: nat, x: nat)
    ensures (n + 1) * x == n * x + x
  {}

  lemma {:induction false} UniformSize(cells: seq<Cell>, width: nat)
    requires forall i :: 0 <= i < |cells| ==> cells[i].width == width
    ensures Size(cells) == |cells| * width
  {
    if cells == [] {
    } else {
      UniformSize(cells[..|cells| - 1], width);
      OneMore(|cells| - 1, width);
    }
  }

  function Widths(cells: seq<Cell>): (ws: seq<nat>)
    ensures |ws| == |cells|
  {
    seq(|cells|, i requires 0 <= i < |cells| => cells[i].width)
  }

  function Values(cells: seq<Cell>): (vs: seq<nat>)
    ensures |vs| == |cells|
  {
    seq(|cells|, i requires 0 <= i < |cells| => cells[i].value)
  }

  lemma {:induction false} WidthsSlice(cells: seq<Cell>, i: nat, j: nat)
    requires i <= j <= |cells|
    ensures Widths(cells[i..j]) == Widths(cells)[i..j]
  {}

  lemma {:induction false} WidthsAgree(a: seq<Cell>, b: seq<Cell>)
    requires Widths(a) == Widths(b)
    ensures SameWidths(a, b)
  {
    forall i | 0 <= i < |a| ensures a[i].width == b[i].width {
      assert Widths(a)[i] == Widths(b)[i];
    }
  }

  // ---- Reading flat memory, as the guest does

  function Load(m: seq<byte>, a: nat, w: nat): nat {
    if a + w <= |m| then FromLE(m[a..a + w]) else 0
  }

  function LoadArray(m: seq<byte>, a: nat, w: nat, n: nat): (vs: seq<nat>)
    ensures |vs| == n
  {
    seq(n, i requires 0 <= i < n => Load(m, a + i * w, w))
  }

  function Sum(ws: seq<nat>): nat {
    if ws == [] then 0 else Sum(ws[..|ws| - 1]) + ws[|ws| - 1]
  }

  /** A record whose fields have the given widths. */
  function LoadRecord(m: seq<byte>, a: nat, ws: seq<nat>): (vs: seq<nat>)
    ensures |vs| == |ws|
  {
    seq(|ws|, i requires 0 <= i < |ws| => Load(m, a + Sum(ws[..i]), ws[i]))
  }

  lemma {:induction false} SumWidths(cells: seq<Cell>)
    ensures Sum(Widths(cells)) == Size(cells)
  {
    if cells == [] {
    } else {
      assert Widths(cells)[..|cells| - 1] == Widths(cells[..|cells| - 1]);
      SumWidths(cells[..|cells| - 1]);
    }
  }

  // ---- Blocks: where a run of cells sits in memory

  datatype Block = Block(start: nat, cells: seq<Cell>) {
    function End(): nat { start + Size(cells) }
  }

  ghost predicate Holds(m: seq<byte>, b: Block) {
    b.End() <= |m| && m[b.start..b.End()] == Encode(b.cells)
  }

  lemma {:induction false} EncodeThree(cells: seq<Cell>, i: nat, j: nat)
    requires i <= j <= |cells|
    ensures Encode(cells) == Encode(cells[..i]) + Encode(cells[i..j]) + Encode(cells[j..])
    ensures Size(cells) == Size(cells[..i]) + Size(cells[i..j]) + Size(cells[j..])
  {
    assert cells[..i] + cells[i..j] == cells[..j] && cells[..j] + cells[j..] == cells;
    EncodeConcat(cells[..i], cells[i..j]);
    EncodeConcat(cells[..j], cells[j..]);
  }

  lemma {:induction false} SliceOfSlice(m: seq<byte>, s: nat, e: nat, a: nat, b: nat)
    requires s <= e <= |m| && a <= b <= e - s
    ensures m[s..e][a..b] == m[s + a..s + b]
  {
    forall k | 0 <= k < b - a ensures m[s..e][a..b][k] == m[s + a..s + b][k] {
      assert m[s..e][a..b][k] == m[s..e][a + k] == m[s + a + k];
    }
  }

  lemma {:induction false} MiddleSlice(m: seq<byte>, s: nat, x: seq<byte>, y: seq<byte>, z: seq<byte>)
    requires s + |x| + |y| + |z| <= |m|
    requires m[s..s + |x| + |y| + |z|] == x + y + z
    ensures m[s..s + |x|] == x
    ensures m[s + |x|..s + |x| + |y|] == y
    ensures m[s + |x| + |y|..s + |x| + |y| + |z|] == z
  {
    var w := m[s..s + |x| + |y| + |z|];
    assert m[s..s + |x|] == w[..|x|] == x;
    SliceOfSlice(m, s, s + |x| + |y| + |z|, |x|, |x| + |y|);
    assert w[|x|..|x| + |y|] == y;
    assert m[s + |x| + |y|..s + |x| + |y| + |z|] == w[|x| + |y|..] == z;
  }

  /** A contiguous part of a block is held at its own address. */
  lemma {:induction false} HoldsPart(m: seq<byte>, b: Block, i: nat, j: nat)
    requires Holds(m, b) && i <= j <= |b.cells|
    ensures Holds(m, Block(b.start + Size(b.cells[..i]), b.cells[i..j]))
    ensures Size(b.cells[..i]) + Size(b.cells[i..j]) <= Size(b.cells)
  {
    EncodeThree(b.cells, i, j);
    MiddleSlice(m, b.start, Encode(b.cells[..i]), Encode(b.cells[i..j]), Encode(b.cells[j..]));
  }

  lemma {:induction false} HoldsCell(m: seq<byte>, b: Block, i: nat)
    requires Holds(m, b) && i < |b.cells| && Fits(b.cells[i])
    ensures Load(m, b.start + Size(b.cells[..i]), b.cells[i].width) == b.cells[i].value
  {
    HoldsPart(m, b, i, i + 1);
    assert b.cells[i..i + 1] == [b.cells[i]];
    LoadCell(m, b.start + Size(b.cells[..i]), b.cells[i]);
  }

  lemma {:induction false} LoadCell(m: seq<byte>, a: nat, c: Cell)
    requires Holds(m, Block(a, [c])) && Fits(c)
    ensures Load(m, a, c.width) == c.value
  {
    assert [c][..0] == [];
    assert Size([c]) == c.width && Encode([c]) == ToLE(c.value, c.width);
    LERoundTrip(c.value, c.width);
  }

  /** Reading a record back gives the values written. */
  lemma {:induction false} HoldsRecord(m: seq<byte>, b: Block, ws: seq<nat>)
    requires Holds(m, b) && AllFit(b.cells) && ws == Widths(b.cells)
    ensures LoadRecord(m, b.start, ws) == Values(b.cells)
  {
    forall i | 0 <= i < |ws| ensures LoadRecord(m, b.start, ws)[i] == b.cells[i].value {
      HoldsCell(m, b, i);
      assert ws[..i] == Widths(b.cells[..i]);
      SumWidths(b.cells[..i]);
    }
  }

  /** Reading an array back gives the elements written. */
  lemma {:induction false} HoldsArray(m: seq<byte>, b: Block, w: nat, vs: seq<nat>)
    requires Holds(m, b) && b.cells == Words(w, vs) && AllFit(b.cells)
    ensures LoadArray(m, b.start, w, |vs|) == vs
  {
    forall i | 0 <= i < |vs| ensures LoadArray(m, b.start, w, |vs|)[i] == vs[i] {
      HoldsCell(m, b, i);
      UniformSize(b.cells[..i], w);
    }
  }

  // ---- Overwriting a stretch of memory

  function Splice(m: seq<byte>, a: nat, d: seq<byte>): (r: seq<byte>)
    requires a + |d| <= |m|
    ensures |r| == |m|
  {
    m[..a] + d + m[a + |d|..]
  }

  lemma {:induction false} SpliceElsewhere(m: seq<byte>, a: nat, d: seq<byte>, b: Block)
    requires a + |d| <= |m| && Holds(m, b)
    requires b.End() <= a || a + |d| <= b.start
    ensures Holds(Splice(m, a, d), b)
  {
    assert Splice(m, a, d)[b.start..b.End()] == m[b.start..b.End()];
  }

  /** `b` with the cells from `i` on replaced by `cells`. */
  function Replace(b: Block, i: nat, cells: seq<Cell>): Block
    requires i + |cells| <= |b.cells|
  {
    Block(b.start, b.cells[..i] + cells + b.cells[i + |cells|..])
  }

  lemma {:induction false} ReplaceWidths(b: Block, i: nat, cells: seq<Cell>)
    requires i + |cells| <= |b.cells| && SameWidths(cells, b.cells[i..i + |cells|])
    ensures Widths(Replace(b, i, cells).cells) == Widths(b.cells)
  {}

  lemma {:induction false} ReplaceAll(b: Block, cells: seq<Cell>)
    requires Widths(cells) == Widths(b.cells)
    ensures |cells| == |b.cells| && SameWidths(cells, b.cells[0..0 + |cells|]) && Size(b.cells[..0]) == 0
    ensures Replace(b, 0, cells) == Block(b.start, cells)
  {
    assert |Widths(cells)| == |Widths(b.cells)|;
    WidthsAgree(cells, b.cells);
    assert b.cells[0..|cells|] == b.cells;
  }

  lemma {:induction false} SpliceMiddle(m: seq<byte>, s: nat, x: seq<byte>, y: seq<byte>, z: seq<byte>, d: seq<byte>)
    requires s + |x| + |y| + |z| <= |m| && |d| == |y|
    requires m[s..s + |x| + |y| + |z|] == x + y + z
    ensures Splice(m, s + |x|, d)[s..s + |x| + |y| + |z|] == x + d + z
  {
    MiddleSlice(m, s, x, y, z);
    var r := Splice(m, s + |x|, d);
    assert r[s..s + |x|] == m[s..s + |x|];
    assert r[s + |x|..s + |x| + |y|] == d;
    assert r[s + |x| + |y|..s + |x| + |y| + |z|] == m[s + |x| + |y|..s + |x| + |y| + |z|];
  }

  lemma {:induction false} EncodeJoin(x: seq<Cell>, y: seq<Cell>, z: seq<Cell>)
    ensures Encode(x + y + z) == Encode(x) + Encode(y) + Encode(z)
    ensures Size(x + y + z) == Size(x) + Size(y) + Size(z)
  {
    EncodeConcat(x, y);
    EncodeConcat(x + y, z);
  }

  /** `c` encodes like `b` but for the middle part. */
  lemma {:induction false} SpliceBlock(m: seq<byte>, b: Block, c: Block, x: seq<byte>, y: seq<byte>, z: seq<byte>,
                                       d: seq<byte>)
    requires Holds(m, b) && c.start == b.start && Encode(b.cells) == x + y + z && Encode(c.cells) == x + d + z
    requires |d| == |y|
    ensures c.End() == b.End() && b.start + |x| + |d| <= b.End()
    ensures Holds(Splice(m, b.start + |x|, d), c)
  {
    SpliceMiddle(m, b.start, x, y, z, d);
  }

  lemma {:induction false} SpliceSized(m: seq<byte>, b: Block, i: nat, j: nat, cells: seq<Cell>)
    requires Holds(m, b) && i <= j <= |b.cells| && Size(cells) == Size(b.cells[i..j])
    ensures var c := Block(b.start, b.cells[..i] + cells + b.cells[j..]);
            && c.End() == b.End() && b.start + Size(b.cells[..i]) + Size(cells) <= b.End()
            && Holds(Splice(m, b.start + Size(b.cells[..i]), Encode(cells)), c)
  {
    EncodeThree(b.cells, i, j);
    EncodeJoin(b.cells[..i], cells, b.cells[j..]);
    SpliceBlock(m, b, Block(b.start, b.cells[..i] + cells + b.cells[j..]),
                Encode(b.cells[..i]), Encode(b.cells[i..j]), Encode(b.cells[j..]), Encode(cells));
  }

  lemma {:induction false} SpliceInside(m: seq<byte>, b: Block, i: nat, cells: seq<Cell>)
    requires Holds(m, b) && i + |cells| <= |b.cells| && SameWidths(cells, b.cells[i..i + |cells|])
    ensures b.start + Size(b.cells[..i]) + Size(cells) <= b.End()
    ensures Holds(Splice(m, b.start + Size(b.cells[..i]), Encode(cells)), Replace(b, i, cells))
    ensures Replace(b, i, cells).End() == b.End()
  {
    SameWidthsSize(cells, b.cells[i..i + |cells|]);
    SpliceSized(m, b, i, i + |cells|, cells);
  }
}
