/** `representative_events`: the bounded sample of a period's events. */
module EvidenceSampler {
  import opened IntOrder
  import opened Wrappers

  /** A commit: whether its kind is a product kind, its area, and when it happened. */
  datatype Event = Event(sha: string, time: int, product: bool, area: string)

  datatype SampleError = ZeroDivision

  // ------------------------------------------------------------------ even indexes --

  /** Python's `round` of the quotient: to the nearest integer, ties to the even one. */
  function RoundHalfEven(n: nat, d: nat): nat
    requires d > 0
  {
    var q, r := n / d, n % d;
    if 2 * r < d || (2 * r == d && q % 2 == 0) then q else q + 1
  }

  /** Rounding moves a quotient by at most one half. */
  lemma RoundingError(n: nat, d: nat)
    requires d > 0
    ensures 2 * n - d <= 2 * d * RoundHalfEven(n, d) <= 2 * n + d
  {
    var q, r := n / d, n % d;
    assert n == d * q + r;
    assert 2 * d * q == 2 * n - 2 * r;
    assert 2 * d * (q + 1) == 2 * n - 2 * r + 2 * d;
  }

  lemma Scaled(d: nat, x: int, y: int)
    ensures x >= y ==> d * x >= d * y
  {
    if x >= y {
      assert d * x == d * y + d * (x - y);
    }
  }

  lemma Pinned(q: nat, d: nat, r: nat)
    requires d > 0
    requires 2 * (q * d) - d <= 2 * d * r <= 2 * (q * d) + d
    ensures r == q
  {
    assert 2 * d * r == 2 * (q * d) + 2 * (d * (r - q));
    Scaled(d, r - q, 1);
    Scaled(d, -1, r - q);
  }

  lemma RoundingExact(q: nat, d: nat)
    requires d > 0
    ensures RoundHalfEven(q * d, d) == q
  {
    RoundingError(q * d, d);
    Pinned(q, d, RoundHalfEven(q * d, d));
  }

  lemma StepIsWide(i: nat, j: nat, step: nat)
    requires i < j
    ensures j * step >= i * step + step
  {
    assert j * step == i * step + step + (j - i - 1) * step;
  }

  /** Quotients more than one apart have different roundings. */
  lemma RoundingSeparates(m: nat, n: nat, d: nat)
    requires d > 0 && m + d < n
    ensures RoundHalfEven(m, d) < RoundHalfEven(n, d)
  {
    RoundingError(m, d);
    RoundingError(n, d);
    Scaled(2 * d, RoundHalfEven(m, d), RoundHalfEven(n, d));
  }

  /** The rounded position of pick `i` out of `count` over `length` candidates. */
  function EvenIndex(length: nat, count: nat, i: nat): nat
    requires 2 <= count < length
  {
    RoundHalfEven(i * (length - 1), count - 1)
  }

  /** Positions are more than one apart before rounding, so rounding never makes two
      of them meet. */
  lemma EvenIndexIncreases(length: nat, count: nat, i: nat, j: nat)
    requires 2 <= count < length && i < j
    ensures EvenIndex(length, count, i) < EvenIndex(length, count, j)
  {
    StepIsWide(i, j, length - 1);
    RoundingSeparates(i * (length - 1), j * (length - 1), count - 1);
  }

  /** The positions picked, in order. */
  function EvenIndexes(length: nat, count: nat): (s: seq<nat>)
    requires 2 <= count < length
    ensures |s| == count
  {
    seq(count, i requires 0 <= i < count => EvenIndex(length, count, i))
  }

  /** The rounded positions never collide, stay in range, and take both ends. */
  lemma IndexesNeverCollide(length: nat, count: nat)
    requires 2 <= count < length
    ensures var s := EvenIndexes(length, count);
            && Increasing(s)
            && s[0] == 0 && s[count - 1] == length - 1
            && forall i :: 0 <= i < count ==> s[i] < length
  {
    var s := EvenIndexes(length, count);
    forall i, j | 0 <= i < j < count
      ensures s[i] < s[j]
    {
      EvenIndexIncreases(length, count, i, j);
    }
    RoundingExact(0, count - 1);
    RoundingExact(length - 1, count - 1);
    assert (count - 1) * (length - 1) == (length - 1) * (count - 1);
    forall i | 0 <= i < count
      ensures s[i] < length
    {
      assert i < count - 1 ==> s[i] < s[count - 1];
    }
  }

  /** Every position is the integer nearest to its share of the way, and of two that are
      as near the even one. */
  lemma IndexesAreNearest(length: nat, count: nat, i: nat)
    requires 2 <= count < length && i < count
    ensures var p, d := EvenIndexes(length, count)[i], count - 1;
            && 2 * (i * (length - 1)) - d <= 2 * d * p <= 2 * (i * (length - 1)) + d
            && (2 * ((i * (length - 1)) % d) == d ==> p % 2 == 0)
  {
    RoundingError(i * (length - 1), count - 1);
  }

  /** So sorting the set of rounded positions gives the positions themselves. */
  lemma SortedIndexesAreIndexes(length: nat, count: nat, listing: seq<int>)
    requires 2 <= count < length && Increasing(listing)
    requires forall n :: n in listing <==> exists i :: 0 <= i < count && n == EvenIndex(length, count, i)
    ensures listing == EvenIndexes(length, count)
  {
    var s := EvenIndexes(length, count);
    IndexesNeverCollide(length, count);
    forall n
      ensures n in s <==> n in listing
    {
      if n in s {
        var i :| 0 <= i < |s| && s[i] == n;
        assert n == EvenIndex(length, count, i);
      }
      if n in listing {
        var i :| 0 <= i < count && n == EvenIndex(length, count, i);
        assert s[i] == n;
      }
    }
    ListingIsUnique(s, listing);
  }

  // -------------------------------------------------------------------- stable sort --

  function Insert<T>(x: T, sorted: seq<T>, key: T -> int): seq<T> {
    if sorted == [] || key(x) <= key(sorted[0]) then [x] + sorted
    else [sorted[0]] + Insert(x, sorted[1..], key)
  }

  /** Python's stable `sorted(s, key=key)`. */
  function SortBy<T>(s: seq<T>, key: T -> int): seq<T> {
    if s == [] then [] else Insert(s[0], SortBy(s[1..], key), key)
  }

  ghost predicate SortedBy<T>(s: seq<T>, key: T -> int) {
    forall i, j :: 0 <= i < j < |s| ==> key(s[i]) <= key(s[j])
  }

  function OfKey<T>(s: seq<T>, key: T -> int, k: int): seq<T> {
    if s == [] then [] else (if key(s[0]) == k then [s[0]] else []) + OfKey(s[1..], key, k)
  }

  lemma {:induction false} InsertPermutes<T>(x: T, sorted: seq<T>, key: T -> int)
    ensures multiset(Insert(x, sorted, key)) == multiset([x]) + multiset(sorted)
    decreases sorted
  {
    if sorted != [] && key(x) > key(sorted[0]) {
      assert sorted == [sorted[0]] + sorted[1..];
      InsertPermutes(x, sorted[1..], key);
    }
  }

  lemma {:induction false} InsertSorts<T>(x: T, sorted: seq<T>, key: T -> int)
    requires SortedBy(sorted, key)
    ensures SortedBy(Insert(x, sorted, key), key)
    decreases sorted
  {
    if sorted != [] && key(x) > key(sorted[0]) {
      var tail := Insert(x, sorted[1..], key);
      InsertSorts(x, sorted[1..], key);
      InsertPermutes(x, sorted[1..], key);
      forall y | y in tail
        ensures key(sorted[0]) <= key(y)
      {
        assert y in multiset(tail);
      }
    }
  }

  lemma OfKeyCons<T>(x: T, s: seq<T>, key: T -> int, k: int)
    ensures OfKey([x] + s, key, k) == (if key(x) == k then [x] else []) + OfKey(s, key, k)
  {
    assert ([x] + s)[1..] == s;
  }

  lemma {:induction false} InsertKeepsTies<T>(x: T, sorted: seq<T>, key: T -> int, k: int)
    ensures OfKey(Insert(x, sorted, key), key, k) == (if key(x) == k then [x] else []) + OfKey(sorted, key, k)
    decreases sorted
  {
    if sorted == [] || key(x) <= key(sorted[0]) {
      OfKeyCons(x, sorted, key, k);
    } else {
      InsertKeepsTies(x, sorted[1..], key, k);
      OfKeyCons(sorted[0], Insert(x, sorted[1..], key), key, k);
    }
  }

  /** Sorting orders by the key, keeps every entry, and keeps ties in order. */
  lemma {:induction false} SortByFacts<T>(s: seq<T>, key: T -> int)
    ensures SortedBy(SortBy(s, key), key)
    ensures multiset(SortBy(s, key)) == multiset(s)
    ensures forall k :: OfKey(SortBy(s, key), key, k) == OfKey(s, key, k)
  {
    if s != [] {
      var rest := SortBy(s[1..], key);
      SortByFacts(s[1..], key);
      InsertSorts(s[0], rest, key);
      InsertPermutes(s[0], rest, key);
      assert s == [s[0]] + s[1..];
      forall k
        ensures OfKey(SortBy(s, key), key, k) == OfKey(s, key, k)
      {
        InsertKeepsTies(s[0], rest, key, k);
      }
    }
  }

  lemma SortByMembers<T>(s: seq<T>, key: T -> int)
    ensures |SortBy(s, key)| == |s|
    ensures forall x :: x in SortBy(s, key) <==> x in s
  {
    SortByFacts(s, key);
    var sorted := SortBy(s, key);
    assert |sorted| == |multiset(sorted)| == |multiset(s)| == |s|;
    forall x
      ensures x in sorted <==> x in s
    {
      assert x in sorted <==> x in multiset(sorted);
      assert x in s <==> x in multiset(s);
    }
  }

  // --------------------------------------------------------------------- the sample --

  function TimeOf(e: Event): int {
    e.time
  }

  /** `chosen[event.sha] = event` on an insertion-ordered dictionary. */
  function Put(chosen: seq<Event>, e: Event): seq<Event> {
    if chosen == [] then [e]
    else if chosen[0].sha == e.sha then [e] + chosen[1..]
    else [chosen[0]] + Put(chosen[1..], e)
  }

  function PutAll(chosen: seq<Event>, picks: seq<Event>): seq<Event>
    decreases picks
  {
    if picks == [] then chosen else PutAll(Put(chosen, picks[0]), picks[1..])
  }

  /** What `add_evenly` picks; one pick out of several candidates divides by zero. */
  function Picked(candidates: seq<Event>, count: int): Result<seq<Event>, SampleError> {
    if candidates == [] || count < 1 then Ok([])
    else if |candidates| <= count then Ok(candidates)
    else if count == 1 then Err(ZeroDivision)
    else
      IndexesNeverCollide(|candidates|, count);
      var indexes := EvenIndexes(|candidates|, count);
      Ok(seq(count, i requires 0 <= i < count => candidates[indexes[i]]))
  }

  function Products(selected: seq<Event>): seq<Event> {
    if selected == [] then []
    else (if selected[0].product then [selected[0]] else []) + Products(selected[1..])
  }

  function CountOf(selected: seq<Event>, area: string): nat {
    if selected == [] then 0
    else (if selected[0].area == area then 1 else 0) + CountOf(selected[1..], area)
  }

  /** The areas with their counts, in the order they first appear. */
  function AreaCounts(selected: seq<Event>, all: seq<Event>, seen: set<string>): seq<(string, int)> {
    if selected == [] then []
    else if selected[0].area in seen then AreaCounts(selected[1..], all, seen)
    else [(selected[0].area, CountOf(all, selected[0].area))]
         + AreaCounts(selected[1..], all, seen + {selected[0].area})
  }

  function Rarity(entry: (string, int)): int {
    -entry.1
  }

  /** `Counter(...).most_common(8)`. */
  function CommonAreas(selected: seq<Event>): (areas: seq<(string, int)>)
    ensures |areas| <= 8
  {
    var ranked := SortBy(AreaCounts(selected, selected, {}), Rarity);
    if |ranked| <= 8 then ranked else ranked[..8]
  }

  /** The latest event of an area, if it has one. */
  function LatestOf(selected: seq<Event>, area: string): seq<Event> {
    if selected == [] then []
    else
      var last := selected[|selected| - 1];
      if last.area == area then [last] else LatestOf(selected[..|selected| - 1], area)
  }

  function LatestOfEach(selected: seq<Event>, areas: seq<(string, int)>): seq<Event> {
    if areas == [] then [] else LatestOf(selected, areas[0].0) + LatestOfEach(selected, areas[1..])
  }

  function Reversed(s: seq<Event>): seq<Event> {
    if s == [] then [] else Reversed(s[1..]) + [s[0]]
  }

  function Newest(selected: seq<Event>): seq<Event> {
    if |selected| <= 8 then selected else selected[|selected| - 8..]
  }

  /** Everything put into `chosen`, in order. */
  function Picks(selected: seq<Event>): seq<Event> {
    Picked(Products(selected), 14).value + Picked(selected, 12).value
    + LatestOfEach(selected, CommonAreas(selected)) + Reversed(Newest(selected))
  }

  function Gathered(selected: seq<Event>): seq<Event> {
    PutAll([], Picks(selected))
  }

  function Thin(addable: seq<Event>, limit: int): Result<seq<Event>, SampleError> {
    var picked :- Picked(addable, limit);
    Ok(PutAll([], picked))
  }

  function Thinned(selected: seq<Event>, limit: int): Result<seq<Event>, SampleError> {
    Thin(SortBy(Gathered(selected), TimeOf), limit)
  }

  function Representative(selected: seq<Event>, limit: int): Result<seq<Event>, SampleError> {
    if |selected| <= limit then Ok(selected)
    else if |Gathered(selected)| > limit then
      var chosen :- Thinned(selected, limit);
      Ok(SortBy(chosen, TimeOf))
    else Ok(SortBy(Gathered(selected), TimeOf))
  }

  // -------------------------------------------------------------------- the program --

  /** The sorted set of rounded positions. */
  method RoundedIndexes(length: nat, count: nat) returns (indexes: seq<int>)
    requires 2 <= count < length
    ensures indexes == EvenIndexes(length, count)
  {
    var rounded: set<int> := set i | 0 <= i < count :: EvenIndex(length, count, i);
    indexes := SortInts(rounded);
    forall n
      ensures n in indexes <==> exists i :: 0 <= i < count && n == EvenIndex(length, count, i)
    {
      assert n in indexes <==> n in rounded;
    }
    SortedIndexesAreIndexes(length, count, indexes);
  }

  /** The inner `add_evenly`. */
  method AddEvenly(chosen: seq<Event>, candidates: seq<Event>, count: int) returns (r: Result<seq<Event>, SampleError>)
    ensures Picked(candidates, count).Err? ==> r == Err(ZeroDivision)
    ensures Picked(candidates, count).Ok? ==> r == Ok(PutAll(chosen, Picked(candidates, count).value))
  {
    if candidates == [] || count < 1 {
      return Ok(chosen);
    }
    var picks := candidates;
    if |candidates| > count {
      if count == 1 {
        return Err(ZeroDivision);
      }
      IndexesNeverCollide(|candidates|, count);
      var indexes := RoundedIndexes(|candidates|, count);
      picks := seq(|indexes|, i requires 0 <= i < |indexes| => candidates[indexes[i]]);
      assert picks == Picked(candidates, count).value;
    }
    var now := PutEach(chosen, picks);
    return Ok(now);
  }

  method PutEach(chosen: seq<Event>, picks: seq<Event>) returns (now: seq<Event>)
    ensures now == PutAll(chosen, picks)
  {
    now := chosen;
    for i := 0 to |picks|
      invariant PutAll(now, picks[i..]) == PutAll(chosen, picks)
    {
      assert picks[i..][0] == picks[i] && picks[i..][1..] == picks[i + 1..];
      now := Put(now, picks[i]);
    }
  }

  lemma {:induction false} PutAllJoin(chosen: seq<Event>, a: seq<Event>, b: seq<Event>)
    ensures PutAll(chosen, a + b) == PutAll(PutAll(chosen, a), b)
    decreases a
  {
    if a == [] {
      assert a + b == b;
    } else {
      assert (a + b)[1..] == a[1..] + b;
      PutAllJoin(Put(chosen, a[0]), a[1..], b);
    }
  }

  method RepresentativeEvents(selected: seq<Event>, limit: int) returns (r: Result<seq<Event>, SampleError>)
    ensures r == Representative(selected, limit)
  {
    if |selected| <= limit {
      return Ok(selected);
    }
    var chosen := [];
    var step := AddEvenly(chosen, Products(selected), 14);
    step := AddEvenly(step.value, selected, 12);
    chosen := step.value;
    var areas := CommonAreas(selected);
    ghost var even := chosen;
    for i := 0 to |areas|
      invariant PutAll(chosen, LatestOfEach(selected, areas[i..])) == PutAll(even, LatestOfEach(selected, areas))
    {
      assert areas[i..][0] == areas[i] && areas[i..][1..] == areas[i + 1..];
      var latest := LatestOf(selected, areas[i].0);
      PutAllJoin(chosen, latest, LatestOfEach(selected, areas[i + 1..]));
      chosen := PutEach(chosen, latest);
    }
    chosen := PutEach(chosen, Reversed(Newest(selected)));
    GatheredInSteps(selected);
    if |chosen| > limit {
      var addable := SortBy(chosen, TimeOf);
      var thinned :- AddEvenly([], addable, limit);
      return Ok(SortBy(thinned, TimeOf));
    }
    return Ok(SortBy(chosen, TimeOf));
  }

  lemma GatheredInSteps(selected: seq<Event>)
    ensures Gathered(selected) ==
            PutAll(PutAll(PutAll(PutAll([], Picked(Products(selected), 14).value), Picked(selected, 12).value),
                          LatestOfEach(selected, CommonAreas(selected))), Reversed(Newest(selected)))
  {
    var a, b := Picked(Products(selected), 14).value, Picked(selected, 12).value;
    var c, d := LatestOfEach(selected, CommonAreas(selected)), Reversed(Newest(selected));
    PutAllJoin([], a, b);
    PutAllJoin([], a + b, c);
    PutAllJoin([], a + b + c, d);
  }

  // ------------------------------------------------------------------- the dictionary --

  ghost predicate DistinctShas(s: seq<Event>) {
    forall i, j :: 0 <= i < j < |s| ==> s[i].sha != s[j].sha
  }

  ghost predicate DrawnFrom(s: seq<Event>, universe: seq<Event>) {
    forall x :: x in s ==> x in universe
  }

  function Shas(s: seq<Event>): set<string> {
    set x | x in s :: x.sha
  }

  lemma {:induction false} PutFacts(chosen: seq<Event>, e: Event)
    ensures Shas(Put(chosen, e)) == Shas(chosen) + {e.sha}
    ensures e in Put(chosen, e)
    ensures forall x :: x in Put(chosen, e) ==> x == e || x in chosen
    ensures |Put(chosen, e)| <= |chosen| + 1
    ensures e.sha !in Shas(chosen) ==> Put(chosen, e) == chosen + [e]
  {
    if chosen != [] {
      assert chosen == [chosen[0]] + chosen[1..];
      assert Shas(chosen) == {chosen[0].sha} + Shas(chosen[1..]);
      if chosen[0].sha != e.sha {
        PutFacts(chosen[1..], e);
        var tail := Put(chosen[1..], e);
        assert Shas([chosen[0]] + tail) == {chosen[0].sha} + Shas(tail);
      } else {
        assert Shas([e] + chosen[1..]) == {e.sha} + Shas(chosen[1..]);
      }
    }
  }

  lemma {:induction false} PutKeepsDistinct(chosen: seq<Event>, e: Event)
    requires DistinctShas(chosen)
    ensures DistinctShas(Put(chosen, e))
  {
    if chosen != [] && chosen[0].sha != e.sha {
      PutKeepsDistinct(chosen[1..], e);
      PutFacts(chosen[1..], e);
      var tail := Put(chosen[1..], e);
      forall j | 0 <= j < |tail|
        ensures tail[j].sha != chosen[0].sha
      {
        assert tail[j] in tail;
        if tail[j] in chosen[1..] {
          var k :| 0 <= k < |chosen[1..]| && chosen[1..][k] == tail[j];
          assert chosen[k + 1] == tail[j];
        }
      }
    }
  }

  /** `chosen` never holds one commit twice, holds only what was picked, and has room
      for at most one entry a pick. */
  lemma {:induction false} PutAllFacts(chosen: seq<Event>, picks: seq<Event>)
    requires DistinctShas(chosen)
    ensures DistinctShas(PutAll(chosen, picks))
    ensures Shas(PutAll(chosen, picks)) == Shas(chosen) + Shas(picks)
    ensures forall x :: x in PutAll(chosen, picks) ==> x in chosen || x in picks
    ensures |PutAll(chosen, picks)| <= |chosen| + |picks|
    decreases picks
  {
    if picks != [] {
      PutFacts(chosen, picks[0]);
      PutKeepsDistinct(chosen, picks[0]);
      PutAllFacts(Put(chosen, picks[0]), picks[1..]);
      assert Shas(picks) == {picks[0].sha} + Shas(picks[1..]);
    }
  }

  /** Picks of distinct commits are all kept, as they are. */
  lemma {:induction false} PutAllFresh(chosen: seq<Event>, picks: seq<Event>)
    requires DistinctShas(chosen + picks)
    ensures PutAll(chosen, picks) == chosen + picks
    decreases picks
  {
    if picks != [] {
      var e := picks[0];
      forall x | x in chosen
        ensures x.sha != e.sha
      {
        var i :| 0 <= i < |chosen| && chosen[i] == x;
        assert (chosen + picks)[i] == x && (chosen + picks)[|chosen|] == e;
      }
      PutFacts(chosen, e);
      assert (chosen + [e]) + picks[1..] == chosen + picks;
      PutAllFresh(chosen + [e], picks[1..]);
    }
  }

  lemma SameShaSameEvent(universe: seq<Event>, x: Event, y: Event)
    requires DistinctShas(universe) && x in universe && y in universe && x.sha == y.sha
    ensures x == y
  {
    var i :| 0 <= i < |universe| && universe[i] == x;
    var j :| 0 <= j < |universe| && universe[j] == y;
  }

  /** When a commit id names one event, everything picked is kept. */
  lemma PutAllKeeps(universe: seq<Event>, picks: seq<Event>, x: Event)
    requires DistinctShas(universe) && DrawnFrom(picks, universe) && x in picks
    ensures x in PutAll([], picks)
  {
    PutAllFacts([], picks);
    assert x.sha in Shas(PutAll([], picks));
    var y :| y in PutAll([], picks) && y.sha == x.sha;
    SameShaSameEvent(universe, x, y);
  }

  // ---------------------------------------------------------------------- the picks --

  lemma PickedFacts(candidates: seq<Event>, count: int)
    ensures Picked(candidates, count).Err? <==> count == 1 && |candidates| > 1
    ensures Picked(candidates, count).Ok? ==>
              var picked := Picked(candidates, count).value;
              && DrawnFrom(picked, candidates)
              && |picked| == (if count < 1 then 0 else if |candidates| <= count then |candidates| else count)
              && (count >= 1 && candidates != [] ==>
                    picked[0] == candidates[0] && picked[|picked| - 1] == candidates[|candidates| - 1])
  {
    if candidates != [] && 2 <= count < |candidates| {
      IndexesNeverCollide(|candidates|, count);
    }
  }

  lemma PickedKeepsDistinct(candidates: seq<Event>, count: int)
    requires DistinctShas(candidates) && Picked(candidates, count).Ok?
    ensures DistinctShas(Picked(candidates, count).value)
  {
    if candidates != [] && 2 <= count < |candidates| {
      IndexesNeverCollide(|candidates|, count);
      var indexes := EvenIndexes(|candidates|, count);
      var picked := Picked(candidates, count).value;
      forall i, j | 0 <= i < j < |picked|
        ensures picked[i].sha != picked[j].sha
      {
        assert indexes[i] < indexes[j];
      }
    }
  }

  lemma {:induction false} ProductsDrawn(selected: seq<Event>)
    ensures forall x :: x in Products(selected) <==> x in selected && x.product
  {
    if selected != [] {
      ProductsDrawn(selected[1..]);
      assert selected == [selected[0]] + selected[1..];
    }
  }

  lemma {:induction false} LatestDrawn(selected: seq<Event>, area: string)
    ensures DrawnFrom(LatestOf(selected, area), selected)
    ensures |LatestOf(selected, area)| <= 1
    ensures (exists x :: x in selected && x.area == area) ==> |LatestOf(selected, area)| == 1
    ensures forall x :: x in LatestOf(selected, area) ==> x.area == area
  {
    if selected != [] {
      var front := selected[..|selected| - 1];
      LatestDrawn(front, area);
      assert selected == front + [selected[|selected| - 1]];
    }
  }

  lemma {:induction false} LatestEachDrawn(selected: seq<Event>, areas: seq<(string, int)>)
    ensures DrawnFrom(LatestOfEach(selected, areas), selected)
    ensures |LatestOfEach(selected, areas)| <= |areas|
    ensures forall i, x :: 0 <= i < |areas| && x in LatestOf(selected, areas[i].0) ==> x in LatestOfEach(selected, areas)
    decreases areas
  {
    if areas != [] {
      LatestDrawn(selected, areas[0].0);
      LatestEachDrawn(selected, areas[1..]);
      forall i, x | 0 <= i < |areas| && x in LatestOf(selected, areas[i].0)
        ensures x in LatestOfEach(selected, areas)
      {
        if i > 0 {
          assert areas[1..][i - 1] == areas[i];
        }
      }
    }
  }

  lemma {:induction false} ReversedMembers(s: seq<Event>)
    ensures |Reversed(s)| == |s|
    ensures forall x :: x in Reversed(s) <==> x in s
  {
    if s != [] {
      ReversedMembers(s[1..]);
      assert s == [s[0]] + s[1..];
    }
  }

  lemma NewestDrawn(selected: seq<Event>)
    ensures DrawnFrom(Newest(selected), selected)
  {
    if |selected| > 8 {
      assert selected == selected[..|selected| - 8] + Newest(selected);
    }
  }

  /** Every pick is one of the period's events, there are at most 42, and both ends of
      the period are among them. */
  lemma PicksFacts(selected: seq<Event>)
    ensures DrawnFrom(Picks(selected), selected)
    ensures |Picks(selected)| <= 42
    ensures selected != [] ==> selected[0] in Picks(selected) && selected[|selected| - 1] in Picks(selected)
  {
    var a, b := Picked(Products(selected), 14).value, Picked(selected, 12).value;
    var c, d := LatestOfEach(selected, CommonAreas(selected)), Reversed(Newest(selected));
    PickedFacts(Products(selected), 14);
    PickedFacts(selected, 12);
    ProductsDrawn(selected);
    LatestEachDrawn(selected, CommonAreas(selected));
    ReversedMembers(Newest(selected));
    NewestDrawn(selected);
    if selected != [] {
      assert b[0] in b && b[|b| - 1] in b;
      assert forall x :: x in b ==> x in a + b + c + d;
    }
  }

  /** What was gathered: no commit twice, only the period's events, at most 42. */
  lemma GatheredFacts(selected: seq<Event>)
    ensures DistinctShas(Gathered(selected))
    ensures DrawnFrom(Gathered(selected), selected)
    ensures |Gathered(selected)| <= 42
  {
    PicksFacts(selected);
    PutAllFacts([], Picks(selected));
  }

  // ------------------------------------------------------------------- the guarantees --

  lemma {:induction false} InsertKeepsDistinct(x: Event, sorted: seq<Event>)
    requires DistinctShas(sorted) && forall y :: y in sorted ==> y.sha != x.sha
    ensures DistinctShas(Insert(x, sorted, TimeOf))
    decreases sorted
  {
    if sorted != [] && TimeOf(x) > TimeOf(sorted[0]) {
      InsertKeepsDistinct(x, sorted[1..]);
      InsertPermutes(x, sorted[1..], TimeOf);
      var tail := Insert(x, sorted[1..], TimeOf);
      forall j | 0 <= j < |tail|
        ensures tail[j].sha != sorted[0].sha
      {
        assert tail[j] in multiset(tail);
        if tail[j] in sorted[1..] {
          var k :| 0 <= k < |sorted[1..]| && sorted[1..][k] == tail[j];
          assert sorted[k + 1] == tail[j];
        }
      }
    }
  }

  lemma {:induction false} SortKeepsDistinct(s: seq<Event>)
    requires DistinctShas(s)
    ensures DistinctShas(SortBy(s, TimeOf))
  {
    if s != [] {
      SortKeepsDistinct(s[1..]);
      SortByMembers(s[1..], TimeOf);
      forall y | y in SortBy(s[1..], TimeOf)
        ensures y.sha != s[0].sha
      {
        var j :| 0 <= j < |s[1..]| && s[1..][j] == y;
        assert s[j + 1] == y;
      }
      InsertKeepsDistinct(s[0], SortBy(s[1..], TimeOf));
    }
  }

  /** Thinning keeps exactly `limit` of the events offered, both ends among them. */
  lemma ThinFacts(addable: seq<Event>, limit: int)
    requires DistinctShas(addable) && |addable| > limit
    ensures Thin(addable, limit).Err? <==> limit == 1 && |addable| > 1
    ensures limit != 1 ==>
              var thin := Thin(addable, limit).value;
              && DistinctShas(thin) && DrawnFrom(thin, addable)
              && |thin| == (if limit < 0 then 0 else limit)
              && (limit >= 2 ==> thin[0] == addable[0] && thin[|thin| - 1] == addable[|addable| - 1])
  {
    PickedFacts(addable, limit);
    if limit != 1 {
      var picked := Picked(addable, limit).value;
      PickedKeepsDistinct(addable, limit);
      assert [] + picked == picked;
      PutAllFresh([], picked);
    }
  }

  lemma ThinnedFacts(selected: seq<Event>, limit: int)
    requires |Gathered(selected)| > limit
    ensures Thinned(selected, limit).Err? <==> limit == 1
    ensures limit != 1 ==>
              var thin := Thinned(selected, limit).value;
              && DistinctShas(thin) && DrawnFrom(thin, selected)
              && |thin| == (if limit < 0 then 0 else limit)
  {
    var gathered := Gathered(selected);
    GatheredFacts(selected);
    SortByMembers(gathered, TimeOf);
    SortKeepsDistinct(gathered);
    ThinFacts(SortBy(gathered, TimeOf), limit);
  }

  /** The sample is the input when that is small enough; otherwise it is in time
      order, holds no commit twice and only the period's, and has at most `limit`
      entries, exactly `limit` when thinning runs. */
  lemma SampleIsBounded(selected: seq<Event>, limit: int)
    requires limit != 1
    ensures var sample := Representative(selected, limit);
            && sample.Ok?
            && (|selected| <= limit ==> sample.value == selected)
            && (|selected| > limit ==>
                  && SortedBy(sample.value, TimeOf)
                  && DistinctShas(sample.value)
                  && DrawnFrom(sample.value, selected)
                  && |sample.value| == (if limit < 0 then 0
                                        else if |Gathered(selected)| > limit then limit
                                        else |Gathered(selected)|))
  {
    if |selected| > limit {
      GatheredFacts(selected);
      if |Gathered(selected)| > limit {
        ThinnedFacts(selected, limit);
        var thin := Thinned(selected, limit).value;
        SortByFacts(thin, TimeOf);
        SortByMembers(thin, TimeOf);
        SortKeepsDistinct(thin);
      } else {
        SortByFacts(Gathered(selected), TimeOf);
        SortByMembers(Gathered(selected), TimeOf);
        SortKeepsDistinct(Gathered(selected));
      }
    }
  }

  /** A sorted list of events inside a period that holds both ends of the period
      starts and ends where the period does. */
  lemma EndsOfSorted(sorted: seq<Event>, selected: seq<Event>, first: Event, last: Event)
    requires SortedBy(selected, TimeOf) && selected != []
    requires SortedBy(sorted, TimeOf) && DrawnFrom(sorted, selected)
    requires first in sorted && first.time == selected[0].time
    requires last in sorted && last.time == selected[|selected| - 1].time
    ensures sorted[0].time == selected[0].time
    ensures sorted[|sorted| - 1].time == selected[|selected| - 1].time
  {
    var i :| 0 <= i < |sorted| && sorted[i] == first;
    var j :| 0 <= j < |sorted| && sorted[j] == last;
    assert TimeOf(sorted[0]) <= TimeOf(sorted[i]);
    assert TimeOf(sorted[j]) <= TimeOf(sorted[|sorted| - 1]);
    InsideEnds(selected, sorted[0]);
    InsideEnds(selected, sorted[|sorted| - 1]);
  }

  lemma InsideEnds(selected: seq<Event>, x: Event)
    requires SortedBy(selected, TimeOf) && x in selected
    ensures selected[0].time <= x.time <= selected[|selected| - 1].time
  {
    var i :| 0 <= i < |selected| && selected[i] == x;
    assert TimeOf(selected[0]) <= TimeOf(selected[i]) <= TimeOf(selected[|selected| - 1]);
  }

  lemma GatheredHoldsEnds(selected: seq<Event>)
    requires DistinctShas(selected) && selected != []
    ensures selected[0] in Gathered(selected) && selected[|selected| - 1] in Gathered(selected)
  {
    PicksFacts(selected);
    PutAllKeeps(selected, Picks(selected), selected[0]);
    PutAllKeeps(selected, Picks(selected), selected[|selected| - 1]);
  }

  /** The list holds both ends of the period and nothing from outside it. */
  ghost predicate SpansPeriod(s: seq<Event>, selected: seq<Event>) {
    && selected != [] && SortedBy(selected, TimeOf)
    && DrawnFrom(s, selected)
    && selected[0] in s && selected[|selected| - 1] in s
  }

  ghost predicate StartsAndEndsWith(sample: seq<Event>, selected: seq<Event>)
    requires selected != []
  {
    && sample != []
    && sample[0].time == selected[0].time
    && sample[|sample| - 1].time == selected[|selected| - 1].time
  }

  lemma SortedSpan(s: seq<Event>, selected: seq<Event>)
    requires SpansPeriod(s, selected)
    ensures StartsAndEndsWith(SortBy(s, TimeOf), selected)
  {
    SortByFacts(s, TimeOf);
    SortByMembers(s, TimeOf);
    EndsOfSorted(SortBy(s, TimeOf), selected, selected[0], selected[|selected| - 1]);
  }

  lemma GatheredSpans(selected: seq<Event>)
    requires DistinctShas(selected) && SortedBy(selected, TimeOf) && selected != []
    ensures SpansPeriod(Gathered(selected), selected) && DistinctShas(Gathered(selected))
  {
    GatheredHoldsEnds(selected);
    GatheredFacts(selected);
  }

  lemma EndsSurviveSorting(thin: seq<Event>, selected: seq<Event>)
    requires SortedBy(selected, TimeOf) && selected != []
    requires DrawnFrom(thin, selected) && StartsAndEndsWith(thin, selected)
    ensures StartsAndEndsWith(SortBy(thin, TimeOf), selected)
  {
    SortByFacts(thin, TimeOf);
    SortByMembers(thin, TimeOf);
    assert thin[0] in thin && thin[|thin| - 1] in thin;
    EndsOfSorted(SortBy(thin, TimeOf), selected, thin[0], thin[|thin| - 1]);
  }

  lemma SortStaysInside(s: seq<Event>, selected: seq<Event>)
    requires DrawnFrom(s, selected) && DistinctShas(s)
    ensures var sorted := SortBy(s, TimeOf);
            DrawnFrom(sorted, selected) && DistinctShas(sorted) && |sorted| == |s|
  {
    SortByMembers(s, TimeOf);
    SortKeepsDistinct(s);
  }

  lemma ThinSpan(addable: seq<Event>, selected: seq<Event>, limit: int)
    requires SortedBy(selected, TimeOf) && selected != []
    requires DrawnFrom(addable, selected) && DistinctShas(addable) && 2 <= limit < |addable|
    requires StartsAndEndsWith(addable, selected)
    ensures Thin(addable, limit).Ok?
    ensures StartsAndEndsWith(SortBy(Thin(addable, limit).value, TimeOf), selected)
  {
    ThinFacts(addable, limit);
    EndsSurviveSorting(Thin(addable, limit).value, selected);
  }

  lemma ThinnedSpan(s: seq<Event>, selected: seq<Event>, limit: int)
    requires SpansPeriod(s, selected) && DistinctShas(s) && 2 <= limit < |s|
    ensures Thin(SortBy(s, TimeOf), limit).Ok?
    ensures StartsAndEndsWith(SortBy(Thin(SortBy(s, TimeOf), limit).value, TimeOf), selected)
  {
    SortedSpan(s, selected);
    SortStaysInside(s, selected);
    ThinSpan(SortBy(s, TimeOf), selected, limit);
  }

  /** For chronological input the sample begins with an earliest event and ends with a
      latest one. */
  lemma BothEndsAreKept(selected: seq<Event>, limit: int)
    requires DistinctShas(selected) && SortedBy(selected, TimeOf) && selected != []
    requires limit >= 2
    ensures Representative(selected, limit).Ok?
    ensures StartsAndEndsWith(Representative(selected, limit).value, selected)
  {
    if |selected| > limit {
      GatheredSpans(selected);
      if |Gathered(selected)| > limit {
        ThinnedSpan(Gathered(selected), selected, limit);
      } else {
        SortedSpan(Gathered(selected), selected);
      }
    }
  }

  lemma TwoMembers(s: seq<Event>, x: Event, y: Event)
    requires x in s && y in s && x != y
    ensures |s| >= 2
  {
    var i :| 0 <= i < |s| && s[i] == x;
    var j :| 0 <= j < |s| && s[j] == y;
  }

  /** A limit of one is the one limit that fails: it divides by zero exactly when there
      is more than one event to choose from. */
  lemma LimitOneFails(selected: seq<Event>, limit: int)
    requires DistinctShas(selected)
    ensures Representative(selected, limit).Err? <==> limit == 1 && |selected| > 1
  {
    if limit == 1 && |selected| > 1 {
      PicksFacts(selected);
      PutAllKeeps(selected, Picks(selected), selected[0]);
      PutAllKeeps(selected, Picks(selected), selected[|selected| - 1]);
      TwoMembers(Gathered(selected), selected[0], selected[|selected| - 1]);
      ThinnedFacts(selected, 1);
    } else if limit != 1 {
      SampleIsBounded(selected, limit);
    }
  }

  // ------------------------------------------------------------------------ coverage --

  lemma {:induction false} AreaCountsListEveryArea(selected: seq<Event>, all: seq<Event>, seen: set<string>)
    ensures forall x :: x in selected && x.area !in seen ==> (x.area, CountOf(all, x.area)) in AreaCounts(selected, all, seen)
    decreases selected
  {
    if selected != [] {
      var more := if selected[0].area in seen then seen else seen + {selected[0].area};
      AreaCountsListEveryArea(selected[1..], all, more);
      assert selected == [selected[0]] + selected[1..];
    }
  }

  /** An area left out of the eight is no more common than any of them. */
  lemma LeftOutAreasAreRarer(selected: seq<Event>, x: Event)
    requires x in selected
    ensures var entry := (x.area, CountOf(selected, x.area));
            entry in CommonAreas(selected)
            || (|CommonAreas(selected)| == 8 && forall c :: c in CommonAreas(selected) ==> c.1 >= entry.1)
  {
    var counts := AreaCounts(selected, selected, {});
    var ranked := SortBy(counts, Rarity);
    var entry := (x.area, CountOf(selected, x.area));
    AreaCountsListEveryArea(selected, selected, {});
    SortByMembers(counts, Rarity);
    SortByFacts(counts, Rarity);
    var i :| 0 <= i < |ranked| && ranked[i] == entry;
    if i >= 8 {
      forall c | c in ranked[..8]
        ensures c.1 >= entry.1
      {
        var j :| 0 <= j < 8 && ranked[..8][j] == c;
        assert Rarity(ranked[j]) <= Rarity(ranked[i]);
      }
    } else {
      assert entry in if |ranked| <= 8 then ranked else ranked[..8];
    }
  }

  /** When nothing is thinned, the sample holds the eight newest events and the latest
      event of every common area. */
  lemma SampleCovers(selected: seq<Event>, limit: int)
    requires DistinctShas(selected)
    requires |Gathered(selected)| <= limit < |selected|
    ensures var sample := Representative(selected, limit).value;
            && (forall i: nat :: i < |selected| && |selected| <= i + 8 ==> selected[i] in sample)
            && (forall x :: x in selected && (x.area, CountOf(selected, x.area)) in CommonAreas(selected) ==>
                  exists i: nat :: i < |selected| && IsLatest(selected, x.area, i) && selected[i] in sample)
  {
    var sample := Representative(selected, limit).value;
    SortByMembers(Gathered(selected), TimeOf);
    PicksFacts(selected);
    forall i: nat | i < |selected| && |selected| <= i + 8
      ensures selected[i] in sample
    {
      NewestAreLast(selected, i);
      ReversedMembers(Newest(selected));
      PutAllKeeps(selected, Picks(selected), selected[i]);
    }
    forall x | x in selected && (x.area, CountOf(selected, x.area)) in CommonAreas(selected)
      ensures exists i: nat :: i < |selected| && IsLatest(selected, x.area, i) && selected[i] in sample
    {
      CommonAreaIsPicked(selected, x);
      var i: nat :| i < |selected| && IsLatest(selected, x.area, i) && selected[i] in Picks(selected);
      PutAllKeeps(selected, Picks(selected), selected[i]);
    }
  }

  /** `LatestOf` is the last event of the area, and nothing exactly when it has none. */
  lemma {:induction false} LatestIsLast(selected: seq<Event>, area: string)
    ensures |LatestOf(selected, area)| <= 1
    ensures LatestOf(selected, area) == [] <==> forall x :: x in selected ==> x.area != area
    ensures LatestOf(selected, area) != [] ==>
              exists i: nat :: i < |selected| && IsLatest(selected, area, i) && LatestOf(selected, area) == [selected[i]]
  {
    if selected != [] {
      var front, last := selected[..|selected| - 1], selected[|selected| - 1];
      assert selected == front + [last];
      if last.area == area {
        assert IsLatest(selected, area, |selected| - 1);
      } else {
        LatestIsLast(front, area);
        if LatestOf(front, area) != [] {
          var i: nat :| i < |front| && IsLatest(front, area, i) && LatestOf(front, area) == [front[i]];
          assert IsLatest(selected, area, i) && selected[i] == front[i];
        }
      }
    }
  }

  ghost predicate IsLatest(selected: seq<Event>, area: string, i: nat)
    requires i < |selected|
  {
    selected[i].area == area && forall j :: i < j < |selected| ==> selected[j].area != area
  }

  /** The number of events of an area. */
  lemma {:induction false} CountOfIsNumber(selected: seq<Event>, area: string)
    ensures CountOf(selected, area) == |set i | 0 <= i < |selected| && selected[i].area == area|
    decreases |selected|
  {
    if selected != [] {
      var rest := selected[1..];
      var here := set i | 0 <= i < |selected| && selected[i].area == area;
      var there := set i | 0 <= i < |rest| && rest[i].area == area;
      CountOfIsNumber(rest, area);
      Shifted(here - {0}, there);
      assert 0 in here <==> selected[0].area == area;
    }
  }

  lemma {:induction false} Shifted(here: set<int>, there: set<int>)
    requires forall i :: i in here <==> i - 1 in there
    ensures |here| == |there|
    decreases there
  {
    if there == {} {
      if here != {} {
        var i := SomeMember(here);
        assert false;
      }
    } else {
      var k := SomeMember(there);
      assert k + 1 in here;
      Shifted(here - {k + 1}, there - {k});
    }
  }

  /** The newest are the last eight by position, or all when there are fewer. */
  lemma NewestAreLast(selected: seq<Event>, i: nat)
    requires i < |selected| && |selected| <= i + 8
    ensures selected[i] in Newest(selected)
  {
    if |selected| > 8 {
      assert Newest(selected)[i - (|selected| - 8)] == selected[i];
    }
  }

  lemma CommonAreaIsPicked(selected: seq<Event>, x: Event)
    requires x in selected && (x.area, CountOf(selected, x.area)) in CommonAreas(selected)
    ensures exists i: nat :: i < |selected| && IsLatest(selected, x.area, i) && selected[i] in Picks(selected)
  {
    var areas := CommonAreas(selected);
    var k :| 0 <= k < |areas| && areas[k] == (x.area, CountOf(selected, x.area));
    LatestIsLast(selected, x.area);
    var i: nat :| i < |selected| && IsLatest(selected, x.area, i) && LatestOf(selected, x.area) == [selected[i]];
    LatestEachDrawn(selected, areas);
    assert selected[i] in LatestOf(selected, areas[k].0);
    assert selected[i] in Picks(selected);
  }
}
