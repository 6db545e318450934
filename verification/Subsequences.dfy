/** Joining, distinctness and order-preserving containment of sequences. */
module Subsequences {

  lemma Peel<T>(a: seq<T>, b: seq<T>)
    requires a != []
    ensures a + b != [] && (a + b)[0] == a[0] && (a + b)[1..] == a[1..] + b
  {
  }

  lemma Assoc<T>(x: seq<T>, y: seq<T>, z: seq<T>)
    ensures x + (y + z) == (x + y) + z
  {
  }

  lemma EqualHalves<T>(a: seq<T>, b: seq<T>, r: seq<T>, s: seq<T>)
    requires |a| == |b| && a + r == b + s
    ensures a == b && r == s
  {
    assert a == (a + r)[..|a|] && b == (b + s)[..|b|];
    assert r == (a + r)[|a|..] && s == (b + s)[|b|..];
  }

  ghost predicate Distinct<T>(s: seq<T>) {
    forall i, j :: 0 <= i < j < |s| ==> s[i] != s[j]
  }

  lemma DistinctAsSet<T>(s: seq<T>)
    ensures Distinct(s) <==> |s| == |set x | x in s|
  {
    if s != [] {
      var front := s[..|s| - 1];
      DistinctAsSet(front);
      var seen := set x | x in front;
      assert (set x | x in s) == seen + {s[|s| - 1]};
      DistinctSize(front);
    }
  }

  lemma DistinctSize<T>(s: seq<T>)
    ensures |set x | x in s| <= |s|
  {
    if s != [] {
      DistinctSize(s[..|s| - 1]);
      var last := s[|s| - 1];
      var front := s[..|s| - 1];
      assert s == front + [last];
      assert (set x | x in s) == (set x | x in front) + {last};
    }
  }

  /** `a` occurs in `b` without interruption. */
  predicate Inside<T(==)>(a: seq<T>, b: seq<T>) {
    a <= b || (b != [] && Inside(a, b[1..]))
  }

  lemma {:induction false} InsideLeft<T>(a: seq<T>, b: seq<T>, c: seq<T>)
    requires Inside(a, b)
    ensures Inside(a, b + c)
    decreases |b|
  {
    if a <= b {
      assert a <= b + c;
    } else {
      InsideLeft(a, b[1..], c);
      assert (b + c)[1..] == b[1..] + c;
    }
  }

  lemma {:induction false} InsideRight<T>(a: seq<T>, b: seq<T>, c: seq<T>)
    requires Inside(a, c)
    ensures Inside(a, b + c)
    decreases |b|
  {
    if b == [] {
      assert b + c == c;
    } else {
      InsideRight(a, b[1..], c);
      assert (b + c)[1..] == b[1..] + c;
    }
  }

  lemma {:induction false} InsideTransitive<T>(a: seq<T>, b: seq<T>, c: seq<T>)
    requires Inside(a, b) && Inside(b, c)
    ensures Inside(a, c)
    decreases |c|
  {
    if b <= c {
      assert c == b + c[|b|..];
      InsideLeft(a, b, c[|b|..]);
    } else {
      InsideTransitive(a, b, c[1..]);
    }
  }

  lemma {:induction false} InsideHas<T>(a: seq<T>, b: seq<T>, x: T)
    requires Inside(a, b) && x in a
    ensures x in b
    decreases |b|
  {
    if !(a <= b) {
      InsideHas(a, b[1..], x);
    }
  }

  /** The entries of `a` occur in `b` in the same order. */
  ghost predicate Within<T>(a: seq<T>, b: seq<T>) {
    if b == [] then a == []
    else Within(a, b[1..]) || (a != [] && a[0] == b[0] && Within(a[1..], b[1..]))
  }

  lemma {:induction false} WithinSelf<T>(a: seq<T>)
    ensures Within(a, a)
  {
    if a != [] {
      WithinSelf(a[1..]);
    }
  }

  lemma {:induction false} NothingWithin<T>(b: seq<T>)
    ensures Within([], b)
  {
    if b != [] {
      NothingWithin(b[1..]);
    }
  }

  lemma {:induction false} WithinJoin<T>(a: seq<T>, b: seq<T>, c: seq<T>, d: seq<T>)
    requires Within(a, b) && Within(c, d)
    ensures Within(a + c, b + d)
    decreases |b|
  {
    if b == [] {
      assert a + c == c && b + d == d;
    } else {
      assert (b + d)[1..] == b[1..] + d;
      if Within(a, b[1..]) {
        WithinJoin(a, b[1..], c, d);
      } else {
        WithinJoin(a[1..], b[1..], c, d);
        assert (a + c)[1..] == a[1..] + c;
      }
    }
  }

  lemma {:induction false} WithinTransitive<T>(a: seq<T>, b: seq<T>, c: seq<T>)
    requires Within(a, b) && Within(b, c)
    ensures Within(a, c)
    decreases |c|
  {
    if c != [] {
      if Within(b, c[1..]) {
        WithinTransitive(a, b, c[1..]);
      } else if Within(a, b[1..]) {
        WithinTransitive(a, b[1..], c[1..]);
      } else {
        WithinTransitive(a[1..], b[1..], c[1..]);
      }
    }
  }

  /** Extra entries on either side do no harm. */
  lemma WithinPadded<T>(a: seq<T>, before: seq<T>, b: seq<T>, after: seq<T>)
    requires Within(a, b)
    ensures Within(a, before + b + after)
  {
    NothingWithin(before);
    NothingWithin(after);
    WithinJoin([], before, a, b);
    WithinJoin([] + a, before + b, [], after);
    assert [] + a + [] == a;
  }

  /** Nothing is lost: every entry occurs at least as often. */
  lemma {:induction false} WithinKeepsCounts<T>(a: seq<T>, b: seq<T>)
    requires Within(a, b)
    ensures multiset(a) <= multiset(b)
  {
    if b != [] {
      assert b == [b[0]] + b[1..];
      if Within(a, b[1..]) {
        WithinKeepsCounts(a, b[1..]);
      } else {
        assert a == [a[0]] + a[1..];
        WithinKeepsCounts(a[1..], b[1..]);
      }
    }
  }
}
