/** The order `sort.Strings` and `sorted` put strings in. */
module TextOrder {

  /** Strictly before, comparing characters from the left; a proper prefix is before. */
  predicate Before(a: string, b: string) {
    if b == "" then false
    else if a == "" then true
    else a[0] < b[0] || (a[0] == b[0] && Before(a[1..], b[1..]))
  }

  lemma {:induction false} BeforeIsTotal(a: string, b: string)
    ensures a == b || Before(a, b) || Before(b, a)
  {
    if a != "" && b != "" && a[0] == b[0] {
      BeforeIsTotal(a[1..], b[1..]);
      if a[1..] == b[1..] {
        assert a == [a[0]] + a[1..] && b == [b[0]] + b[1..];
      }
    }
  }

  lemma {:induction false} BeforeIsStrict(a: string, b: string)
    requires Before(a, b)
    ensures a != b && !Before(b, a)
  {
    if a != "" && a[0] == b[0] {
      BeforeIsStrict(a[1..], b[1..]);
    }
  }

  lemma {:induction false} BeforeIsTransitive(a: string, b: string, c: string)
    requires Before(a, b) && Before(b, c)
    ensures Before(a, c)
  {
    if a != "" && a[0] == b[0] == c[0] {
      BeforeIsTransitive(a[1..], b[1..], c[1..]);
    }
  }

  /** A common beginning does not matter. */
  lemma {:induction false} BeforeSkips(p: string, a: string, b: string)
    ensures Before(p + a, p + b) <==> Before(a, b)
  {
    if p == "" {
      assert p + a == a && p + b == b;
    } else {
      BeforeSkips(p[1..], a, b);
      assert (p + a)[1..] == p[1..] + a && (p + b)[1..] == p[1..] + b;
    }
  }

  ghost predicate IsFirst(s: string, keys: set<string>) {
    s in keys && forall k :: k in keys && k != s ==> Before(s, k)
  }

  lemma FirstExists(keys: set<string>)
    requires keys != {}
    ensures exists s :: IsFirst(s, keys)
    decreases |keys|
  {
    var k :| k in keys;
    var rest := keys - {k};
    if rest == {} {
      assert keys == {k};
      assert IsFirst(k, keys);
    } else {
      FirstExists(rest);
      var s :| IsFirst(s, rest);
      BeforeIsTotal(k, s);
      if Before(k, s) {
        forall x | x in keys && x != k
          ensures Before(k, x)
        {
          if x != s {
            BeforeIsTransitive(k, s, x);
          }
        }
        assert IsFirst(k, keys);
      } else {
        assert IsFirst(s, keys);
      }
    }
  }

  /** Each entry strictly before every later one. */
  ghost predicate IsSorted(s: seq<string>) {
    forall i, j :: 0 <= i < j < |s| ==> Before(s[i], s[j])
  }

  /** The sorted sequence of a set of strings. */
  ghost function Sorted(keys: set<string>): (s: seq<string>)
    ensures IsSorted(s)
    ensures forall k :: k in s <==> k in keys
    decreases |keys|
  {
    if keys == {} then []
    else
      FirstExists(keys);
      var first :| IsFirst(first, keys);
      var rest := Sorted(keys - {first});
      assert forall k :: k in rest ==> Before(first, k);
      [first] + rest
  }

  /** There is only one. */
  lemma {:induction false} SortedIsUnique(a: seq<string>, b: seq<string>)
    requires IsSorted(a) && IsSorted(b) && forall k :: k in a <==> k in b
    ensures a == b
  {
    assert a != [] ==> a[0] in b;
    assert b != [] ==> b[0] in a;
    if a != [] {
      var i :| 0 <= i < |b| && b[i] == a[0];
      var j :| 0 <= j < |a| && a[j] == b[0];
      if i > 0 && j > 0 {
        BeforeIsStrict(a[0], a[j]);
      }
      assert a[0] == b[0];
      forall k
        ensures k in a[1..] <==> k in b[1..]
      {
        HeadOccursOnce(a, k);
        HeadOccursOnce(b, k);
      }
      SortedIsUnique(a[1..], b[1..]);
    }
  }

  lemma HeadOccursOnce(s: seq<string>, k: string)
    requires IsSorted(s) && s != []
    ensures k in s[1..] <==> k in s && k != s[0]
  {
    if i :| 0 <= i < |s[1..]| && s[1..][i] == k {
      BeforeIsStrict(s[0], s[i + 1]);
    }
  }

  /** Selection of the first remaining key until none is left. */
  method SortKeys(keys: set<string>) returns (s: seq<string>)
    ensures s == Sorted(keys)
  {
    s := [];
    var rest := keys;
    while rest != {}
      invariant rest <= keys
      invariant IsSorted(s)
      invariant forall k :: k in s <==> k in keys - rest
      invariant forall k, r :: k in s && r in rest ==> Before(k, r)
      decreases |rest|
    {
      ghost var w := Least(rest);
      var k :| k in rest && forall x :: x in rest && x != k ==> Before(k, x);
      s := s + [k];
      rest := rest - {k};
    }
    SortedIsUnique(s, Sorted(keys));
  }

  lemma Least(keys: set<string>) returns (s: string)
    requires keys != {}
    ensures IsFirst(s, keys)
  {
    FirstExists(keys);
    s :| IsFirst(s, keys);
  }
}
