/** Three-way comparisons and the lexicographic extension of a comparison to
    sequences, shared by SemVer precedence and by the ordering of commit types. */
module Orderings {

  datatype Ordering = Less | Equal | Greater {
    /** The result of the same comparison with its arguments swapped. */
    function Flip(): Ordering {
      match this
      case Less => Greater
      case Equal => Equal
      case Greater => Less
    }
  }

  /** Swapping the arguments flips the answer. */
  ghost predicate Antisymmetric<T(!new)>(cmp: (T, T) -> Ordering) {
    forall x, y :: cmp(x, y) == cmp(y, x).Flip()
  }

  /** `Equal` is answered exactly for identical values. */
  ghost predicate EqualMeansIdentical<T(!new)>(cmp: (T, T) -> Ordering) {
    forall x, y :: cmp(x, y) == Equal <==> x == y
  }

  ghost predicate LessTransitive<T(!new)>(cmp: (T, T) -> Ordering) {
    forall x, y, z :: cmp(x, y) == Less && cmp(y, z) == Less ==> cmp(x, z) == Less
  }

  /** A comparison that is a strict total order with identity as its equality. */
  ghost predicate TotalOrder<T(!new)>(cmp: (T, T) -> Ordering) {
    Antisymmetric(cmp) && EqualMeansIdentical(cmp) && LessTransitive(cmp)
  }

  function CompareNats(a: nat, b: nat): (r: Ordering)
    ensures r == Less <==> a < b
    ensures r == Equal <==> a == b
    ensures r == Greater <==> a > b
  {
    if a < b then Less else if a == b then Equal else Greater
  }

  /** Characters compare by code point, which is also the order of their UTF-8
      encodings, so this is the byte order Rust uses for `str`. */
  function CompareChars(a: char, b: char): Ordering {
    CompareNats(a as int, b as int)
  }

  /** Lexicographic comparison: the first differing position decides, and a
      proper prefix comes first. */
  function LexCompare<T>(a: seq<T>, b: seq<T>, cmp: (T, T) -> Ordering): Ordering
    decreases |a|
  {
    if |a| == 0 then (if |b| == 0 then Equal else Less)
    else if |b| == 0 then Greater
    else
      match cmp(a[0], b[0])
      case Equal => LexCompare(a[1..], b[1..], cmp)
      case Less => Less
      case Greater => Greater
  }

  function CompareStrings(a: string, b: string): Ordering {
    LexCompare(a, b, CompareChars)
  }

  lemma {:induction false} LexAntisymmetric<T(!new)>(a: seq<T>, b: seq<T>, cmp: (T, T) -> Ordering)
    requires Antisymmetric(cmp)
    ensures LexCompare(a, b, cmp) == LexCompare(b, a, cmp).Flip()
    decreases |a|
  {
    if |a| > 0 && |b| > 0 {
      assert cmp(a[0], b[0]) == cmp(b[0], a[0]).Flip();
      if cmp(a[0], b[0]) == Equal {
        LexAntisymmetric(a[1..], b[1..], cmp);
      }
    }
  }

  lemma {:induction false} LexEqualMeansIdentical<T(!new)>(a: seq<T>, b: seq<T>, cmp: (T, T) -> Ordering)
    requires EqualMeansIdentical(cmp)
    ensures LexCompare(a, b, cmp) == Equal <==> a == b
    decreases |a|
  {
    if |a| > 0 && |b| > 0 {
      LexEqualMeansIdentical(a[1..], b[1..], cmp);
      if a == b {
        assert a[1..] == b[1..];
      } else if cmp(a[0], b[0]) == Equal {
        assert a[0] == b[0];
        assert a == [a[0]] + a[1..] && b == [b[0]] + b[1..];
      }
    }
  }

  lemma {:induction false} LexLessTransitive<T(!new)>(a: seq<T>, b: seq<T>, c: seq<T>, cmp: (T, T) -> Ordering)
    requires EqualMeansIdentical(cmp) && LessTransitive(cmp)
    requires LexCompare(a, b, cmp) == Less && LexCompare(b, c, cmp) == Less
    ensures LexCompare(a, c, cmp) == Less
    decreases |a|
  {
    if |a| > 0 && |c| > 0 {
      assert |b| > 0;
      var x, y := cmp(a[0], b[0]), cmp(b[0], c[0]);
      if x == Equal && y == Equal {
        LexLessTransitive(a[1..], b[1..], c[1..], cmp);
      } else if x == Equal {
        assert a[0] == b[0];
      } else if y == Equal {
        assert b[0] == c[0];
      }
    }
  }

  /** Strings (Rust's `String` ordering) are totally ordered. */
  lemma StringsTotalOrder()
    ensures TotalOrder(CompareStrings)
  {
    assert TotalOrder(CompareChars);
    forall a: string, b: string ensures CompareStrings(a, b) == CompareStrings(b, a).Flip() {
      LexAntisymmetric(a, b, CompareChars);
    }
    forall a: string, b: string ensures CompareStrings(a, b) == Equal <==> a == b {
      LexEqualMeansIdentical(a, b, CompareChars);
    }
    forall a: string, b: string, c: string | CompareStrings(a, b) == Less && CompareStrings(b, c) == Less
      ensures CompareStrings(a, c) == Less
    {
      LexLessTransitive(a, b, c, CompareChars);
    }
  }
}
