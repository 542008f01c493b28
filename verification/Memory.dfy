/** An instance's linear memory, and the scoped arena that hands out regions of it. */
module Memory {
  import opened Bytes

  /** `wasmMemory`: an address is pulled back so that `size` bytes fit below the end of memory. */
  function Clamp(p: nat, size: nat, total: nat): (a: nat)
    requires size <= total
    ensures a <= p && a + size <= total
    ensures p + size <= total ==> a == p
  {
    if p < total - size then p else total - size
  }

  /** The clamped address is the highest one, up to the address asked for, at which the access fits. */
  lemma {:induction false} ClampIsNearest(p: nat, size: nat, total: nat, b: nat)
    requires size <= total && b <= p && b + size <= total
    ensures b <= Clamp(p, size, total) <= p
  {}

  /** Memory never shrinks; growing may move it. */
  class LinearMemory {
    var data: array<byte>

    constructor (size: nat)
      ensures fresh(data) && data.Length == size
    {
      data := new byte[size](_ => 0);
    }

    method SetArray(p: nat, bytes: seq<byte>)
      requires |bytes| <= data.Length
      modifies data
      ensures data[..] == Splice(old(data[..]), Clamp(p, |bytes|, data.Length), bytes)
    {
      var a := Clamp(p, |bytes|, data.Length);
      for i := 0 to |bytes|
        invariant forall k :: 0 <= k < data.Length ==>
                    data[k] == if a <= k < a + i then bytes[k - a] else old(data[k])
      {
        data[a + i] := bytes[i];
      }
    }

    method GetArray(p: nat, n: nat) returns (bytes: seq<byte>)
      requires n <= data.Length
      ensures bytes == data[..][Clamp(p, n, data.Length)..Clamp(p, n, data.Length) + n]
    {
      var a := Clamp(p, n, data.Length);
      bytes := data[a..a + n];
    }

    /** Guest code ran: memory is whatever it left, and may have grown. */
    method Become(m: seq<byte>)
      requires |m| >= data.Length
      modifies this, data
      ensures data[..] == m && (data == old(data) || fresh(data))
    {
      if |m| > data.Length { data := new byte[|m|](_ => 0); }
      forall i | 0 <= i < data.Length { data[i] := m[i]; }
    }
  }

  // ---- Reading a fresh region as cells

  function Parse(s: seq<byte>, ws: seq<nat>): (cells: seq<Cell>)
    requires Sum(ws) == |s|
    ensures |cells| == |ws|
    decreases |ws|
  {
    if ws == [] then [] else
      var n := |ws| - 1;
      Parse(s[..Sum(ws[..n])], ws[..n]) + [Cell(ws[n], FromLE(s[Sum(ws[..n])..]))]
  }

  lemma {:induction false} ToFromLE(s: seq<byte>)
    ensures ToLE(FromLE(s), |s|) == s
  {
    if s == [] {
    } else {
      ToFromLE(s[1..]);
      LowByte(s[0], FromLE(s[1..]));
      assert s == [s[0]] + s[1..];
    }
  }

  lemma {:induction false} LowByte(b: byte, rest: nat)
    ensures (b + 256 * rest) % 256 == b && (b + 256 * rest) / 256 == rest
  {}

  lemma {:induction false} EncodeAppend(cells: seq<Cell>, s: seq<byte>)
    ensures Encode(cells + [Cell(|s|, FromLE(s))]) == Encode(cells) + s
  {
    assert (cells + [Cell(|s|, FromLE(s))])[..|cells|] == cells;
    ToFromLE(s);
  }

  lemma {:induction false} ParseEncodes(s: seq<byte>, ws: seq<nat>)
    requires Sum(ws) == |s|
    ensures Encode(Parse(s, ws)) == s
    decreases |ws|
  {
    if ws == [] {
    } else {
      var front, w := ws[..|ws| - 1], ws[|ws| - 1];
      var a, b := s[..Sum(front)], s[Sum(front)..];
      ParseEncodes(a, front);
      EncodeAppend(Parse(a, front), b);
      assert s == a + b;
    }
  }

  lemma {:induction false} ParseCells(s: seq<byte>, ws: seq<nat>)
    requires Sum(ws) == |s|
    ensures Widths(Parse(s, ws)) == ws && AllFit(Parse(s, ws))
    decreases |ws|
  {
    if ws == [] {
    } else {
      var n := |ws| - 1;
      var k := Sum(ws[..n]);
      var p0 := Parse(s[..k], ws[..n]);
      ParseCells(s[..k], ws[..n]);
      forall i | 0 <= i < |ws| ensures Parse(s, ws)[i].width == ws[i] && Fits(Parse(s, ws)[i]) {
        if i < n {
          assert Parse(s, ws)[i] == p0[i];
          assert Widths(p0)[i] == ws[..n][i];
        }
      }
    }
  }

  /** What happens to be in memory, read as cells of the given widths. */
  lemma {:induction false} FreshBlock(m: seq<byte>, p: nat, widths: seq<nat>) returns (b: Block)
    requires p + Sum(widths) <= |m|
    ensures b.start == p && Widths(b.cells) == widths && AllFit(b.cells)
    ensures Holds(m, b) && b.End() == p + Sum(widths)
  {
    var s := m[p..p + Sum(widths)];
    ParseEncodes(s, widths);
    ParseCells(s, widths);
    b := Block(p, Parse(s, widths));
  }

  // ---- The arena

  ghost predicate Ordered(blocks: seq<Block>, base: nat, top: nat) {
    && base <= top
    && (forall i {:trigger blocks[i].End()} :: 0 <= i < |blocks| ==> base <= blocks[i].start && blocks[i].End() <= top)
    && (forall i, j {:trigger blocks[i].End(), blocks[j].End()} ::
          0 <= i < j < |blocks| ==> blocks[i].End() <= blocks[j].start)
  }

  ghost predicate AllHold(m: seq<byte>, blocks: seq<Block>) {
    && (forall i {:trigger Holds(m, blocks[i])} :: 0 <= i < |blocks| ==> Holds(m, blocks[i]))
    && (forall i {:trigger AllFit(blocks[i].cells)} :: 0 <= i < |blocks| ==> AllFit(blocks[i].cells))
  }

  lemma {:induction false} LogAppend(m: seq<byte>, blocks: seq<Block>, base: nat, top: nat, b: Block)
    requires Ordered(blocks, base, top) && AllHold(m, blocks)
    requires top <= b.start && Holds(m, b) && AllFit(b.cells)
    ensures Ordered(blocks + [b], base, b.End()) && AllHold(m, blocks + [b])
  {
    var all := blocks + [b];
    forall i | 0 <= i < |all|
      ensures base <= all[i].start && all[i].End() <= b.End() && Holds(m, all[i]) && AllFit(all[i].cells)
    {
      if i < |blocks| {
        assert all[i] == blocks[i] && blocks[i].End() <= top && Holds(m, blocks[i]) && AllFit(blocks[i].cells);
      }
    }
    forall i, j | 0 <= i < j < |all| ensures all[i].End() <= all[j].start {
      assert all[i] == blocks[i] && blocks[i].End() <= top;
      if j < |blocks| { assert all[j] == blocks[j] && blocks[j].End() <= top; }
    }
  }

  /** Writing inside one region leaves every other region as it was. */
  lemma {:induction false} LogReplace(m: seq<byte>, blocks: seq<Block>, base: nat, top: nat, k: nat, i: nat,
                                      cells: seq<Cell>)
    requires Ordered(blocks, base, top) && AllHold(m, blocks) && k < |blocks|
    requires i + |cells| <= |blocks[k].cells| && AllFit(cells) && SameWidths(cells, blocks[k].cells[i..i + |cells|])
    ensures var p := blocks[k].start + Size(blocks[k].cells[..i]);
            && base <= p && p + Size(cells) <= top && p + Size(cells) <= |m|
            && AllHold(Splice(m, p, Encode(cells)), blocks[k := Replace(blocks[k], i, cells)])
    ensures Ordered(blocks[k := Replace(blocks[k], i, cells)], base, top)
  {
    var b := blocks[k];
    var p := b.start + Size(b.cells[..i]);
    assert Holds(m, b) && AllFit(b.cells) && base <= b.start && b.End() <= top;
    SpliceInside(m, b, i, cells);
    var m', now := Splice(m, p, Encode(cells)), blocks[k := Replace(b, i, cells)];
    forall j | 0 <= j < |now|
      ensures Holds(m', now[j]) && AllFit(now[j].cells)
      ensures now[j].start == blocks[j].start && now[j].End() == blocks[j].End()
    {
      if j != k { OtherBlock(m, blocks, base, top, k, j, p, Encode(cells)); }
    }
    SamePlaces(blocks, now, base, top);
  }

  lemma {:induction false} OtherBlock(m: seq<byte>, blocks: seq<Block>, base: nat, top: nat, k: nat, j: nat, p: nat,
                                      d: seq<byte>)
    requires Ordered(blocks, base, top) && AllHold(m, blocks) && k < |blocks| && j < |blocks| && j != k
    requires blocks[k].start <= p && p + |d| <= blocks[k].End() <= |m|
    ensures Holds(Splice(m, p, d), blocks[j]) && AllFit(blocks[j].cells)
  {
    assert Holds(m, blocks[j]) && AllFit(blocks[j].cells);
    assert blocks[j].End() <= blocks[k].start || blocks[k].End() <= blocks[j].start;
    SpliceElsewhere(m, p, d, blocks[j]);
  }

  lemma {:induction false} SamePlaces(blocks: seq<Block>, now: seq<Block>, base: nat, top: nat)
    requires Ordered(blocks, base, top) && |now| == |blocks|
    requires forall j :: 0 <= j < |now| ==> now[j].start == blocks[j].start && now[j].End() == blocks[j].End()
    ensures Ordered(now, base, top)
  {
    forall j | 0 <= j < |now| ensures base <= now[j].start && now[j].End() <= top {
      assert blocks[j].End() <= top;
    }
    forall x, y | 0 <= x < y < |now| ensures now[x].End() <= now[y].start {
      assert blocks[x].End() <= top && blocks[y].End() <= top;
    }
  }

  lemma {:induction false} SpliceOutside(m: seq<byte>, p: nat, d: seq<byte>, lo: nat, hi: nat)
    requires lo <= p && p + |d| <= hi <= |m|
    ensures Splice(m, p, d)[..lo] == m[..lo] && Splice(m, p, d)[hi..] == m[hi..]
  {}

  predicate IsAlign(align: nat) { align == 1 || align == 2 || align == 4 || align == 8 }

  /** The first multiple of `align` from `a` on. */
  function AlignUp(a: nat, align: nat): (r: nat)
    requires IsAlign(align)
    ensures a <= r < a + align && r % align == 0
  {
    if align == 1 then a else if align == 2 then UpTo2(a) else if align == 4 then UpTo4(a) else UpTo8(a)
  }

  function UpTo2(a: nat): (r: nat)
    ensures a <= r < a + 2 && r % 2 == 0
  {
    a + a % 2
  }

  function UpTo4(a: nat): (r: nat)
    ensures a <= r < a + 4 && r % 4 == 0
  {
    (a + 3) / 4 * 4
  }

  function UpTo8(a: nat): (r: nat)
    ensures a <= r < a + 8 && r % 8 == 0
  {
    (a + 7) / 8 * 8
  }

  ghost predicate ScopeHolds(m: seq<byte>, blocks: seq<Block>, base: nat, top: nat, limit: nat, original: seq<byte>) {
    && base <= limit <= |m| == |original|
    && Ordered(blocks, base, top) && AllHold(m, blocks)
    && m[..base] == original[..base] && m[limit..] == original[limit..]
  }

  lemma {:induction false} ScopeReplace(m: seq<byte>, blocks: seq<Block>, base: nat, top: nat, limit: nat,
                                        original: seq<byte>, k: nat, i: nat, cells: seq<Cell>)
    requires ScopeHolds(m, blocks, base, top, limit, original) && top <= limit && k < |blocks|
    requires i + |cells| <= |blocks[k].cells| && AllFit(cells) && SameWidths(cells, blocks[k].cells[i..i + |cells|])
    ensures var p := blocks[k].start + Size(blocks[k].cells[..i]);
            p + Size(cells) <= |m|
            && ScopeHolds(Splice(m, p, Encode(cells)), blocks[k := Replace(blocks[k], i, cells)], base, top, limit,
                          original)
  {
    LogReplace(m, blocks, base, top, k, i, cells);
    SpliceOutside(m, blocks[k].start + Size(blocks[k].cells[..i]), Encode(cells), base, limit);
  }

  /** `arena->scoped()`: a bump allocator over [base, limit).  `blocks` logs every region handed out and what it should
      hold; `original` is the memory when the scope was opened. */
  class Scope {
    const memory: LinearMemory
    const base: nat
    const limit: nat
    var top: nat
    ghost var blocks: seq<Block>
    ghost const original: seq<byte>

    /** The log is what memory holds, regions are disjoint and in order, and nothing outside the arena has changed. */
    ghost predicate Valid()
      reads this, memory, memory.data
    {
      top <= limit && ScopeHolds(memory.data[..], blocks, base, top, limit, original)
    }

    constructor (memory: LinearMemory, base: nat, limit: nat)
      requires base <= limit <= memory.data.Length
      ensures Valid() && fresh(this) && this.memory == memory && this.base == base && this.limit == limit
      ensures top == base && blocks == [] && original == memory.data[..]
    {
      this.memory, this.base, this.limit, this.top := memory, base, limit, base;
      this.blocks, this.original := [], memory.data[..];
    }

    /** A fresh aligned region; `widths` says how it is going to be read. */
    method Reserve(size: nat, align: nat, ghost widths: seq<nat>) returns (p: nat)
      requires Valid() && IsAlign(align) && size == Sum(widths) && top + size + align <= limit + 1
      modifies this`top, this`blocks
      ensures Valid()
      ensures old(top) <= p && p % align == 0 && top == p + size && top + 1 <= old(top) + size + align
      ensures |blocks| == |old(blocks)| + 1 && blocks[..|old(blocks)|] == old(blocks)
      ensures blocks[|old(blocks)|].start == p && Widths(blocks[|old(blocks)|].cells) == widths
    {
      p := AlignUp(top, align);
      top := p + size;
      ghost var b := FreshBlock(memory.data[..], p, widths);
      LogAppend(memory.data[..], blocks, base, old(top), b);
      blocks := blocks + [b];
    }

    /** `set` / `setArray` through a pointer `p` to cell `i` of region `k`. */
    method Set(p: nat, cells: seq<Cell>, ghost k: nat, ghost i: nat)
      requires Valid() && k < |blocks| && i + |cells| <= |blocks[k].cells| && AllFit(cells)
      requires SameWidths(cells, blocks[k].cells[i..i + |cells|])
      requires p == blocks[k].start + Size(blocks[k].cells[..i])
      modifies memory.data, this`blocks
      ensures Valid()
      ensures blocks == old(blocks)[k := Replace(old(blocks[k]), i, cells)]
    {
      ghost var m := memory.data[..];
      ScopeReplace(m, blocks, base, top, limit, original, k, i, cells);
      memory.SetArray(p, Encode(cells));
      assert memory.data[..] == Splice(m, p, Encode(cells));
      blocks := blocks[k := Replace(blocks[k], i, cells)];
    }

    /** `copyAcross`: a fresh region holding a record. */
    method CopyAcross(cells: seq<Cell>, align: nat) returns (p: nat)
      requires Valid() && IsAlign(align) && AllFit(cells) && top + Size(cells) + align <= limit + 1
      modifies this`top, this`blocks, memory.data
      ensures Valid()
      ensures old(top) <= p && p % align == 0 && top + 1 <= old(top) + Size(cells) + align
      ensures blocks == old(blocks) + [Block(p, cells)]
    {
      SumWidths(cells);
      p := Reserve(Size(cells), align, Widths(cells));
      ghost var k := |blocks| - 1;
      forall i | 0 <= i < |cells| ensures blocks[k].cells[i].width == cells[i].width {
        assert Widths(blocks[k].cells)[i] == Widths(cells)[i];
      }
      assert blocks[k].cells[0..|cells|] == blocks[k].cells && blocks[k].cells[..0] == [];
      Set(p, cells, k, 0);
      assert blocks[k] == Block(p, cells);
    }
  }
}
