/** Version precedence, item 11 of Semantic Versioning 2.0.0.  Build metadata does not take part and is not kept. */
module SemVer {
  import opened Wrappers

  /** A dot-separated pre-release identifier. */
  datatype Identifier = Numeric(n: nat) | Alphanumeric(s: string)

  datatype Version = Version(major: nat, minor: nat, patch: nat, preRelease: seq<Identifier>)

  /** Negative, zero or positive as `a` comes before, with or after `b`. */
  function CompareInt(a: int, b: int): int {
    a - b
  }

  function CompareChar(a: char, b: char): int {
    CompareInt(a as int, b as int)
  }

  /** Item by item; when one runs out first, the longer is later. */
  function Lexicographic<T>(compare: (T, T) -> int, a: seq<T>, b: seq<T>): int {
    if a == [] || b == [] then CompareInt(|a|, |b|)
    else if compare(a[0], b[0]) != 0 then compare(a[0], b[0])
    else Lexicographic(compare, a[1..], b[1..])
  }

  function CompareIdentifier(a: Identifier, b: Identifier): int {
    match (a, b)
    case (Numeric(m), Numeric(n)) => CompareInt(m, n)
    case (Numeric(_), Alphanumeric(_)) => -1
    case (Alphanumeric(_), Numeric(_)) => 1
    case (Alphanumeric(s), Alphanumeric(t)) => Lexicographic(CompareChar, s, t)
  }

  /** A version with a pre-release comes before the same one without. */
  function ComparePreRelease(a: seq<Identifier>, b: seq<Identifier>): int {
    if a == [] || b == [] then CompareInt(|b|, |a|)
    else Lexicographic(CompareIdentifier, a, b)
  }

  function Compare(a: Version, b: Version): int {
    if a.major != b.major then CompareInt(a.major, b.major)
    else if a.minor != b.minor then CompareInt(a.minor, b.minor)
    else if a.patch != b.patch then CompareInt(a.patch, b.patch)
    else ComparePreRelease(a.preRelease, b.preRelease)
  }

  /** `compare` is a total order. */
  ghost predicate IsOrder<T(!new)>(compare: (T, T) -> int) {
    && (forall a, b :: compare(a, b) == 0 <==> a == b)
    && (forall a, b :: compare(a, b) < 0 <==> compare(b, a) > 0)
    && (forall a, b, c :: compare(a, b) < 0 && compare(b, c) < 0 ==> compare(a, c) < 0)
  }

  lemma {:induction false} LexicographicPair<T(!new)>(compare: (T, T) -> int, a: seq<T>, b: seq<T>)
    requires IsOrder(compare)
    ensures Lexicographic(compare, a, b) == 0 <==> a == b
    ensures Lexicographic(compare, a, b) < 0 <==> Lexicographic(compare, b, a) > 0
    decreases |a|
  {
    if a != [] && b != [] {
      assert a == [a[0]] + a[1..] && b == [b[0]] + b[1..];
      LexicographicPair(compare, a[1..], b[1..]);
    }
  }

  lemma {:induction false} LexicographicTriple<T(!new)>(compare: (T, T) -> int, a: seq<T>, b: seq<T>, c: seq<T>)
    requires IsOrder(compare)
    requires Lexicographic(compare, a, b) < 0 && Lexicographic(compare, b, c) < 0
    ensures Lexicographic(compare, a, c) < 0
    decreases |a|
  {
    if a != [] && b != [] && c != [] && a[0] == b[0] && b[0] == c[0] {
      LexicographicTriple(compare, a[1..], b[1..], c[1..]);
    }
  }

  lemma {:induction false} CharOrder()
    ensures IsOrder(CompareChar)
  {
  }

  lemma {:induction false} IdentifierOrder()
    ensures IsOrder(CompareIdentifier)
  {
    CharOrder();
    forall a, b ensures CompareIdentifier(a, b) == 0 <==> a == b {
      if a.Alphanumeric? && b.Alphanumeric? { LexicographicPair(CompareChar, a.s, b.s); }
    }
    forall a, b ensures CompareIdentifier(a, b) < 0 <==> CompareIdentifier(b, a) > 0 {
      if a.Alphanumeric? && b.Alphanumeric? { LexicographicPair(CompareChar, a.s, b.s); }
    }
    forall a, b, c | CompareIdentifier(a, b) < 0 && CompareIdentifier(b, c) < 0 ensures CompareIdentifier(a, c) < 0 {
      if a.Alphanumeric? && b.Alphanumeric? && c.Alphanumeric? { LexicographicTriple(CompareChar, a.s, b.s, c.s); }
    }
  }

  /** Precedence is a total order on versions. */
  lemma {:induction false} PrecedenceIsTotalOrder()
    ensures IsOrder(Compare)
  {
    IdentifierOrder();
    forall a, b ensures Compare(a, b) == 0 <==> a == b {
      LexicographicPair(CompareIdentifier, a.preRelease, b.preRelease);
    }
    forall a, b ensures Compare(a, b) < 0 <==> Compare(b, a) > 0 {
      LexicographicPair(CompareIdentifier, a.preRelease, b.preRelease);
    }
    forall a, b, c | Compare(a, b) < 0 && Compare(b, c) < 0 ensures Compare(a, c) < 0 {
      if a.preRelease != [] && b.preRelease != [] && c.preRelease != []
         && Lexicographic(CompareIdentifier, a.preRelease, b.preRelease) < 0
         && Lexicographic(CompareIdentifier, b.preRelease, c.preRelease) < 0 {
        LexicographicTriple(CompareIdentifier, a.preRelease, b.preRelease, c.preRelease);
      }
    }
  }

  // ---- The same order, read off item 11 without a comparison function

  /** The lists agree up to `i`; there `a` ends first, or has the earlier item. */
  ghost predicate DifferAt<T(!new)>(before: (T, T) -> bool, a: seq<T>, b: seq<T>, i: nat) {
    i <= |a| && i < |b| && a[..i] == b[..i] && (i < |a| ==> before(a[i], b[i]))
  }

  ghost predicate ListBefore<T(!new)>(before: (T, T) -> bool, a: seq<T>, b: seq<T>) {
    exists i: nat :: DifferAt(before, a, b, i)
  }

  predicate CharBefore(c: char, d: char) { c < d }

  /** Numeric identifiers compare as numbers and come before others, which compare in ASCII order. */
  ghost predicate IdentifierBefore(a: Identifier, b: Identifier) {
    match (a, b)
    case (Numeric(m), Numeric(n)) => m < n
    case (Numeric(_), Alphanumeric(_)) => true
    case (Alphanumeric(_), Numeric(_)) => false
    case (Alphanumeric(s), Alphanumeric(t)) => ListBefore(CharBefore, s, t)
  }

  /** The first of major, minor and patch that differs decides; then a pre-release comes before the release, and two
      pre-releases compare identifier by identifier. */
  ghost predicate Precedes(a: Version, b: Version) {
    || a.major < b.major
    || (a.major == b.major && a.minor < b.minor)
    || (a.major == b.major && a.minor == b.minor && a.patch < b.patch)
    || (a.major == b.major && a.minor == b.minor && a.patch == b.patch && a.preRelease != []
        && (b.preRelease == [] || ListBefore(IdentifierBefore, a.preRelease, b.preRelease)))
  }

  lemma {:induction false} LexicographicIff<T(!new)>(compare: (T, T) -> int, before: (T, T) -> bool, a: seq<T>,
                                                     b: seq<T>)
    requires IsOrder(compare) && forall x, y :: compare(x, y) < 0 <==> before(x, y)
    ensures Lexicographic(compare, a, b) < 0 <==> ListBefore(before, a, b)
    decreases |a|
  {
    if a == [] || b == [] || a[0] != b[0] {
      assert Lexicographic(compare, a, b) < 0 ==> DifferAt(before, a, b, 0);
    } else {
      LexicographicIff(compare, before, a[1..], b[1..]);
      if i: nat :| DifferAt(before, a, b, i) {
        assert compare(a[0], b[0]) == 0;
        assert a[..i][1..] == a[1..][..i - 1] && b[..i][1..] == b[1..][..i - 1];
        assert DifferAt(before, a[1..], b[1..], i - 1);
      }
      if i: nat :| DifferAt(before, a[1..], b[1..], i) {
        assert a[..i + 1] == [a[0]] + a[1..][..i] && b[..i + 1] == [b[0]] + b[1..][..i];
        assert DifferAt(before, a, b, i + 1);
      }
    }
  }

  lemma {:induction false} IdentifierIff(a: Identifier, b: Identifier)
    ensures CompareIdentifier(a, b) < 0 <==> IdentifierBefore(a, b)
  {
    CharOrder();
    if a.Alphanumeric? && b.Alphanumeric? { LexicographicIff(CompareChar, CharBefore, a.s, b.s); }
  }

  /** The comparison is the precedence of item 11. */
  lemma {:induction false} PrecedenceIff(a: Version, b: Version)
    ensures Compare(a, b) < 0 <==> Precedes(a, b)
  {
    IdentifierOrder();
    forall x, y ensures CompareIdentifier(x, y) < 0 <==> IdentifierBefore(x, y) {
      IdentifierIff(x, y);
    }
    LexicographicIff(CompareIdentifier, IdentifierBefore, a.preRelease, b.preRelease);
  }

  /** A missing version comes before every version. */
  predicate Below(a: Option<Version>, b: Option<Version>) {
    b.Some? && (a.None? || Compare(a.value, b.value) < 0)
  }

  /** Said with the precedence of item 11 itself. */
  lemma {:induction false} BelowIff(a: Option<Version>, b: Option<Version>)
    ensures Below(a, b) <==> b.Some? && (a.None? || Precedes(a.value, b.value))
  {
    if a.Some? && b.Some? { PrecedenceIff(a.value, b.value); }
  }

  lemma {:induction false} BelowIsTransitive(a: Option<Version>, b: Option<Version>, c: Option<Version>)
    requires !Below(b, a) && !Below(c, b)
    ensures !Below(c, a)
  {
    PrecedenceIsTotalOrder();
  }
}
