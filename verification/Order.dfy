/** The ordering of the source's ordered maps and sets.
    A key is ranked by the sequence of its fields, compared lexicographically as std::tie does. */
module Order {

  predicate Less(a: seq<int>, b: seq<int>)
    decreases |a|
  {
    && b != []
    && (a == [] || a[0] < b[0] || (a[0] == b[0] && Less(a[1..], b[1..])))
  }

  lemma {:induction false} LessIrreflexive(a: seq<int>)
    ensures !Less(a, a)
    decreases |a|
  {
    if a != [] {
      LessIrreflexive(a[1..]);
    }
  }

  lemma {:induction false} LessTransitive(a: seq<int>, b: seq<int>, c: seq<int>)
    requires Less(a, b) && Less(b, c)
    ensures Less(a, c)
    decreases |a|
  {
    if a != [] && a[0] == b[0] == c[0] {
      LessTransitive(a[1..], b[1..], c[1..]);
    }
  }

  lemma {:induction false} LessTotal(a: seq<int>, b: seq<int>)
    ensures a == b || Less(a, b) || Less(b, a)
    decreases |a|
  {
    if a != [] && b != [] && a[0] == b[0] {
      LessTotal(a[1..], b[1..]);
      if a[1..] == b[1..] {
        assert a == [a[0]] + a[1..] && b == [b[0]] + b[1..];
      }
    }
  }

  /** `x` is what begin() yields on the ordered container holding `s`. */
  predicate IsFirst<T(==)>(x: T, s: set<T>, rank: T -> seq<int>) {
    && x in s
    && forall y | y in s :: y == x || Less(rank(x), rank(y))
  }

  ghost predicate Distinguishes<T>(s: set<T>, rank: T -> seq<int>) {
    forall x, y | x in s && y in s && rank(x) == rank(y) :: x == y
  }

  /** A nonempty container has a first element. */
  lemma {:induction false} FirstExists<T>(s: set<T>, rank: T -> seq<int>) returns (first: T)
    requires s != {}
    requires Distinguishes(s, rank)
    ensures IsFirst(first, s, rank)
    decreases |s|
  {
    var x :| x in s;
    var rest := s - {x};
    first := x;
    assert forall z | z in s :: z == x || z in rest;
    if rest != {} {
      var y := FirstExists(rest, rank);
      LessTotal(rank(x), rank(y));
      if Less(rank(y), rank(x)) {
        first := y;
      } else {
        forall z | z in s
          ensures z == x || Less(rank(x), rank(z))
        {
          if z != x && z != y {
            LessTransitive(rank(x), rank(y), rank(z));
          }
        }
      }
    }
  }

  /** There is only one first element. */
  lemma FirstUnique<T>(x: T, y: T, s: set<T>, rank: T -> seq<int>)
    requires IsFirst(x, s, rank) && IsFirst(y, s, rank)
    ensures x == y
  {
    if x != y {
      LessTransitive(rank(x), rank(y), rank(x));
      LessIrreflexive(rank(x));
    }
  }
}
