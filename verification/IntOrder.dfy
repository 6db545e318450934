/** Sorted sequences of integers. */
module IntOrder {

  /** Each entry below every later one. */
  ghost predicate Increasing(s: seq<int>) {
    forall i, j :: 0 <= i < j < |s| ==> s[i] < s[j]
  }

  /** A set has one increasing listing. */
  lemma {:induction false} ListingIsUnique(s: seq<int>, listing: seq<int>)
    requires Increasing(s) && Increasing(listing)
    requires forall n :: n in s <==> n in listing
    ensures listing == s
  {
    assert listing != [] ==> listing[0] in listing;
    if s != [] {
      assert s[0] in s;
      assert s[0] == listing[0];
      forall n
        ensures n in s[1..] <==> n in listing[1..]
      {
        HeadIsSmallest(s, n);
        HeadIsSmallest(listing, n);
      }
      ListingIsUnique(s[1..], listing[1..]);
    }
  }

  lemma HeadIsSmallest(s: seq<int>, n: int)
    requires Increasing(s) && s != []
    ensures n in s[1..] <==> n in s && n != s[0]
  {
    if n in s[1..] {
      var i :| 0 <= i < |s[1..]| && s[1..][i] == n;
      assert s[i + 1] == n;
    }
  }

  ghost predicate IsSmallest(n: int, numbers: set<int>) {
    n in numbers && forall m :: m in numbers ==> n <= m
  }

  lemma SomeMember<T>(numbers: set<T>) returns (k: T)
    requires numbers != {}
    ensures k in numbers
  {
    k :| k in numbers;
  }

  lemma Smallest(numbers: set<int>) returns (n: int)
    requires numbers != {}
    ensures IsSmallest(n, numbers)
    decreases |numbers|
  {
    var k := SomeMember(numbers);
    var rest := numbers - {k};
    if rest == {} {
      n := k;
      assert forall m :: m in numbers ==> m == k || m in rest;
    } else {
      var least := Smallest(rest);
      n := if k < least then k else least;
      assert forall m :: m in numbers ==> m == k || m in rest;
    }
  }

  lemma Snoc(s: seq<int>, n: int)
    requires Increasing(s) && forall m :: m in s ==> m < n
    ensures Increasing(s + [n])
  {
    forall i, j | 0 <= i < j < |s + [n]|
      ensures (s + [n])[i] < (s + [n])[j]
    {
      assert s[i] in s;
    }
  }

  /** `sorted` of a set. */
  method SortInts(numbers: set<int>) returns (s: seq<int>)
    ensures Increasing(s)
    ensures forall n :: n in s <==> n in numbers
  {
    s := [];
    var rest := numbers;
    while rest != {}
      invariant rest <= numbers
      invariant Increasing(s)
      invariant forall n :: n in s <==> n in numbers - rest
      invariant forall n, r :: n in s && r in rest ==> n < r
      decreases |rest|
    {
      ghost var smallest := Smallest(rest);
      var n :| n in rest && forall m :: m in rest ==> n <= m;
      Snoc(s, n);
      s := s + [n];
      rest := rest - {n};
    }
  }
}
