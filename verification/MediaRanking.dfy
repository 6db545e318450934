/** The diversity passes of `artifact_candidates`. */
module MediaRanking {
  import opened Subsequences

  /** A ranked candidate: its event, the reader area of the event, its path, and the
      identity variants of one picture share. */
  datatype Item = Item(sha: string, area: string, path: string, identity: string)

  // ---------------------------------------------------------------- deduplication --

  /** The first item of each identity, in rank order. */
  function Deduplicated(ranked: seq<Item>, seen: set<string>): seq<Item> {
    if ranked == [] then []
    else if ranked[0].identity in seen then Deduplicated(ranked[1..], seen)
    else [ranked[0]] + Deduplicated(ranked[1..], seen + {ranked[0].identity})
  }

  ghost predicate IsFirstOfItsIdentity(ranked: seq<Item>, i: nat)
    requires i < |ranked|
  {
    forall j :: 0 <= j < i ==> ranked[j].identity != ranked[i].identity
  }

  /** Exactly the best-ranked item of every identity is kept, in rank order. */
  lemma {:induction false} DeduplicatedKeepsBest(ranked: seq<Item>, seen: set<string>)
    ensures var kept := Deduplicated(ranked, seen);
            && Within(kept, ranked)
            && (forall i, j :: 0 <= i < j < |kept| ==> kept[i].identity != kept[j].identity)
            && (forall x :: x in kept ==> x.identity !in seen)
            && (forall i :: 0 <= i < |ranked| && ranked[i].identity !in seen && IsFirstOfItsIdentity(ranked, i) ==>
                  ranked[i] in kept)
    decreases ranked
  {
    if ranked != [] {
      var first, rest := ranked[0], ranked[1..];
      var more := if first.identity in seen then seen else seen + {first.identity};
      DeduplicatedKeepsBest(rest, more);
      var kept := Deduplicated(ranked, seen);
      forall i | 0 <= i < |ranked| && ranked[i].identity !in seen && IsFirstOfItsIdentity(ranked, i)
        ensures ranked[i] in kept
      {
        if i > 0 {
          assert ranked[i] == rest[i - 1] && ranked[0].identity != ranked[i].identity;
          forall j | 0 <= j < i - 1
            ensures rest[j].identity != rest[i - 1].identity
          {
            assert ranked[j + 1] == rest[j];
          }
          assert IsFirstOfItsIdentity(rest, i - 1);
        }
      }
    }
  }

  // ------------------------------------------------------------------- the passes --

  datatype Pass = NewEventAndArea | NewEvent | NewArea | Anything

  /** Events and areas already shown. */
  datatype Seen = Seen(events: set<string>, areas: set<string>)

  predicate Wants(pass: Pass, item: Item, seen: Seen) {
    match pass
    case NewEventAndArea => item.sha !in seen.events && item.area !in seen.areas
    case NewEvent => item.sha !in seen.events
    case NewArea => item.area !in seen.areas
    case Anything => true
  }

  function Show(item: Item, seen: Seen): Seen {
    Seen(seen.events + {item.sha}, seen.areas + {item.area})
  }

  /** What one pass emits, what it defers, and what has been shown after it. */
  function Sift(pass: Pass, pending: seq<Item>, seen: Seen): (seq<Item>, seq<Item>, Seen)
    decreases pending
  {
    if pending == [] then ([], [], seen)
    else if Wants(pass, pending[0], seen) then
      var (taken, deferred, after) := Sift(pass, pending[1..], Show(pending[0], seen));
      ([pending[0]] + taken, deferred, after)
    else
      var (taken, deferred, after) := Sift(pass, pending[1..], seen);
      (taken, [pending[0]] + deferred, after)
  }

  const NOTHING_SEEN: Seen := Seen({}, {})

  /** The four stretches of the result. */
  datatype Stretches = Stretches(first: seq<Item>, second: seq<Item>, third: seq<Item>, fourth: seq<Item>)

  function Ranked(unique: seq<Item>): Stretches {
    var (a, rest1, s1) := Sift(NewEventAndArea, unique, NOTHING_SEEN);
    var (b, rest2, s2) := Sift(NewEvent, rest1, s1);
    var (c, rest3, s3) := Sift(NewArea, rest2, s2);
    var (d, _, _) := Sift(Anything, rest3, s3);
    Stretches(a, b, c, d)
  }

  function Diverse(unique: seq<Item>): seq<Item> {
    var r := Ranked(unique);
    r.first + r.second + r.third + r.fourth
  }

  /** One pass, with the accumulators it appends to. */
  method SiftLoop(pass: Pass, pending: seq<Item>, seen: Seen) returns (taken: seq<Item>, deferred: seq<Item>, after: Seen)
    ensures taken == Sift(pass, pending, seen).0
    ensures deferred == Sift(pass, pending, seen).1
    ensures after == Sift(pass, pending, seen).2
  {
    taken, deferred, after := [], [], seen;
    assert pending[0..] == pending;
    for i := 0 to |pending|
      invariant taken + Sift(pass, pending[i..], after).0 == Sift(pass, pending, seen).0
      invariant deferred + Sift(pass, pending[i..], after).1 == Sift(pass, pending, seen).1
      invariant Sift(pass, pending[i..], after).2 == Sift(pass, pending, seen).2
    {
      SiftStep(pass, pending[i..], after);
      assert pending[i..][0] == pending[i] && pending[i..][1..] == pending[i + 1..];
      if Wants(pass, pending[i], after) {
        taken := taken + [pending[i]];
        after := Show(pending[i], after);
      } else {
        deferred := deferred + [pending[i]];
      }
    }
    assert pending[|pending|..] == [];
  }

  lemma SiftStep(pass: Pass, pending: seq<Item>, seen: Seen)
    requires pending != []
    ensures var first, rest := pending[0], pending[1..];
            var result := Sift(pass, pending, seen);
            if Wants(pass, first, seen) then
              var tail := Sift(pass, rest, Show(first, seen));
              result.0 == [first] + tail.0 && result.1 == tail.1 && result.2 == tail.2
            else
              var tail := Sift(pass, rest, seen);
              result.0 == tail.0 && result.1 == [first] + tail.1 && result.2 == tail.2
  {
  }

  /** The deduplication loop. */
  method DeduplicateLoop(ranked: seq<Item>) returns (unique: seq<Item>)
    ensures unique == Deduplicated(ranked, {})
  {
    unique := [];
    var seen: set<string> := {};
    for i := 0 to |ranked|
      invariant unique + Deduplicated(ranked[i..], seen) == Deduplicated(ranked, {})
    {
      assert ranked[i..][0] == ranked[i] && ranked[i..][1..] == ranked[i + 1..];
      if ranked[i].identity !in seen {
        seen := seen + {ranked[i].identity};
        unique := unique + [ranked[i]];
      }
    }
  }

  /** `artifact_candidates` from the sorted ranking on. */
  method Diversify(ranked: seq<Item>) returns (diverse: seq<Item>)
    ensures diverse == Diverse(Deduplicated(ranked, {}))
  {
    var pending := DeduplicateLoop(ranked);
    var taken, seen := [], NOTHING_SEEN;
    diverse := [];
    taken, pending, seen := SiftLoop(NewEventAndArea, pending, seen);
    diverse := diverse + taken;
    taken, pending, seen := SiftLoop(NewEvent, pending, seen);
    diverse := diverse + taken;
    taken, pending, seen := SiftLoop(NewArea, pending, seen);
    diverse := diverse + taken;
    taken, pending, seen := SiftLoop(Anything, pending, seen);
    diverse := diverse + taken;
  }

  // --------------------------------------------------------------------- fairness --

  /** The state a pass hands to the rest of its input. */
  function Onward(pass: Pass, first: Item, seen: Seen): Seen {
    if Wants(pass, first, seen) then Show(first, seen) else seen
  }

  /** A pass loses and invents nothing. */
  lemma {:induction false} SiftPermutes(pass: Pass, pending: seq<Item>, seen: Seen)
    ensures var (taken, deferred, _) := Sift(pass, pending, seen);
            multiset(taken) + multiset(deferred) == multiset(pending)
    decreases pending
  {
    if pending != [] {
      SiftStep(pass, pending, seen);
      SiftPermutes(pass, pending[1..], Onward(pass, pending[0], seen));
      assert pending == [pending[0]] + pending[1..];
    }
  }

  lemma SiftMembers(pass: Pass, pending: seq<Item>, seen: Seen, x: Item)
    ensures var (taken, deferred, _) := Sift(pass, pending, seen);
            x in pending <==> x in taken || x in deferred
  {
    SiftPermutes(pass, pending, seen);
    var (taken, deferred, _) := Sift(pass, pending, seen);
    assert x in pending <==> x in multiset(pending);
    assert x in multiset(taken) + multiset(deferred) <==> x in multiset(taken) || x in multiset(deferred);
  }

  /** A pass keeps the order of what it emits and of what it defers. */
  lemma {:induction false} SiftKeepsOrder(pass: Pass, pending: seq<Item>, seen: Seen)
    ensures Within(Sift(pass, pending, seen).0, pending)
    ensures Within(Sift(pass, pending, seen).1, pending)
    decreases pending
  {
    if pending != [] {
      SiftStep(pass, pending, seen);
      SiftKeepsOrder(pass, pending[1..], Onward(pass, pending[0], seen));
    }
  }

  function Events(items: seq<Item>): set<string> {
    set x | x in items :: x.sha
  }

  function Areas(items: seq<Item>): set<string> {
    set x | x in items :: x.area
  }

  /** A pass records exactly what it emits. */
  lemma {:induction false} SiftRecords(pass: Pass, pending: seq<Item>, seen: Seen)
    ensures var (taken, _, after) := Sift(pass, pending, seen);
            && after.events == seen.events + Events(taken)
            && after.areas == seen.areas + Areas(taken)
    decreases pending
  {
    if pending != [] {
      SiftStep(pass, pending, seen);
      SiftRecords(pass, pending[1..], Onward(pass, pending[0], seen));
      if Wants(pass, pending[0], seen) {
        var tail := Sift(pass, pending[1..], Show(pending[0], seen)).0;
        assert Events([pending[0]] + tail) == {pending[0].sha} + Events(tail);
        assert Areas([pending[0]] + tail) == {pending[0].area} + Areas(tail);
      }
    }
  }

  /** The result is a permutation of the deduplicated ranking, and inside each of the
      four stretches the ranking's order is kept. */
  lemma DiverseIsFairPermutation(unique: seq<Item>)
    ensures multiset(Diverse(unique)) == multiset(unique)
    ensures var r := Ranked(unique);
            Within(r.first, unique) && Within(r.second, unique) && Within(r.third, unique) && Within(r.fourth, unique)
  {
    var (a, rest1, s1) := Sift(NewEventAndArea, unique, NOTHING_SEEN);
    var (b, rest2, s2) := Sift(NewEvent, rest1, s1);
    var (c, rest3, s3) := Sift(NewArea, rest2, s2);
    var (d, rest4, _) := Sift(Anything, rest3, s3);
    SiftPermutes(NewEventAndArea, unique, NOTHING_SEEN);
    SiftPermutes(NewEvent, rest1, s1);
    SiftPermutes(NewArea, rest2, s2);
    SiftPermutes(Anything, rest3, s3);
    AnythingDefersNothing(rest3, s3);
    SiftKeepsOrder(NewEventAndArea, unique, NOTHING_SEEN);
    SiftKeepsOrder(NewEvent, rest1, s1);
    SiftKeepsOrder(NewArea, rest2, s2);
    SiftKeepsOrder(Anything, rest3, s3);
    WithinTransitive(b, rest1, unique);
    WithinTransitive(rest2, rest1, unique);
    WithinTransitive(c, rest2, unique);
    WithinTransitive(rest3, rest2, unique);
    WithinTransitive(d, rest3, unique);
  }

  lemma {:induction false} AnythingDefersNothing(pending: seq<Item>, seen: Seen)
    ensures Sift(Anything, pending, seen).1 == []
    decreases pending
  {
    if pending != [] {
      AnythingDefersNothing(pending[1..], Show(pending[0], seen));
    }
  }

  ghost predicate DistinctEvents(items: seq<Item>) {
    forall i, j :: 0 <= i < j < |items| ==> items[i].sha != items[j].sha
  }

  /** A pass that asks for new events emits each event once, none of them shown before. */
  lemma {:induction false} NewEventsOnly(pass: Pass, pending: seq<Item>, seen: Seen)
    requires pass == NewEventAndArea || pass == NewEvent
    ensures var taken := Sift(pass, pending, seen).0;
            DistinctEvents(taken) && Events(taken) !! seen.events
    decreases pending
  {
    if pending != [] {
      SiftStep(pass, pending, seen);
      var first := pending[0];
      NewEventsOnly(pass, pending[1..], Onward(pass, first, seen));
      if Wants(pass, first, seen) {
        var tail := Sift(pass, pending[1..], Show(first, seen)).0;
        assert Events([first] + tail) == {first.sha} + Events(tail);
        forall j | 0 <= j < |tail|
          ensures tail[j].sha != first.sha
        {
          assert tail[j].sha in Events(tail);
        }
      }
    }
  }

  ghost predicate DistinctAreas(items: seq<Item>) {
    forall i, j :: 0 <= i < j < |items| ==> items[i].area != items[j].area
  }

  predicate Repeats(x: Item, y: Item) {
    x.sha == y.sha || x.area == y.area
  }

  /** An item of the first pass is taken, or repeats the event or area of one before it
      that was taken, or of what had been shown. */
  ghost predicate IsPlaced(pending: seq<Item>, taken: seq<Item>, seen: Seen, i: nat)
    requires i < |pending|
  {
    || pending[i] in taken
    || pending[i].sha in seen.events || pending[i].area in seen.areas
    || exists j: nat :: j < i && pending[j] in taken && Repeats(pending[j], pending[i])
  }

  /** The pass that asks for a new event and a new area shows every area at most once,
      none shown before, and passes over an item only for one it has shown earlier. */
  lemma {:induction false} FreshOnly(pending: seq<Item>, seen: Seen)
    ensures var taken := Sift(NewEventAndArea, pending, seen).0;
            && DistinctAreas(taken) && Areas(taken) !! seen.areas
            && forall i: nat :: i < |pending| ==> IsPlaced(pending, taken, seen, i)
    decreases pending
  {
    if pending != [] {
      var first, rest := pending[0], pending[1..];
      var onward := Onward(NewEventAndArea, first, seen);
      var taken, tail := Sift(NewEventAndArea, pending, seen).0, Sift(NewEventAndArea, rest, onward).0;
      SiftStep(NewEventAndArea, pending, seen);
      FreshOnly(rest, onward);
      if Wants(NewEventAndArea, first, seen) {
        assert Areas([first] + tail) == {first.area} + Areas(tail);
        forall j | 0 <= j < |tail|
          ensures tail[j].area != first.area
        {
          assert tail[j].area in Areas(tail);
        }
      }
      forall i: nat | i < |pending|
        ensures IsPlaced(pending, taken, seen, i)
      {
        if i > 0 {
          PlacedOnward(pending, taken, tail, seen, i - 1);
        }
      }
    }
  }

  lemma PlacedOnward(pending: seq<Item>, taken: seq<Item>, tail: seq<Item>, seen: Seen, i: nat)
    requires i + 1 < |pending|
    requires taken == (if Wants(NewEventAndArea, pending[0], seen) then [pending[0]] else []) + tail
    requires IsPlaced(pending[1..], tail, Onward(NewEventAndArea, pending[0], seen), i)
    ensures IsPlaced(pending, taken, seen, i + 1)
  {
    var rest := pending[1..];
    if exists j: nat :: j < i && rest[j] in tail && Repeats(rest[j], rest[i]) {
      var j: nat :| j < i && rest[j] in tail && Repeats(rest[j], rest[i]);
      assert pending[j + 1] in taken && Repeats(pending[j + 1], pending[i + 1]);
    } else if rest[i] !in tail && rest[i].sha !in seen.events && rest[i].area !in seen.areas {
      assert pending[0] in taken && Repeats(pending[0], pending[i + 1]);
    }
  }

  /** The first stretch: every event and every area at most once, and an item is missing
      only when an earlier one of the stretch has its event or its area. */
  lemma FirstStretchIsFresh(unique: seq<Item>)
    ensures var first := Ranked(unique).first;
            && DistinctEvents(first) && DistinctAreas(first)
            && forall i: nat :: i < |unique| && unique[i] !in first ==>
                 exists j: nat :: j < i && unique[j] in first && Repeats(unique[j], unique[i])
  {
    var first := Ranked(unique).first;
    NewEventsOnly(NewEventAndArea, unique, NOTHING_SEEN);
    FreshOnly(unique, NOTHING_SEEN);
    forall i: nat | i < |unique| && unique[i] !in first
      ensures exists j: nat :: j < i && unique[j] in first && Repeats(unique[j], unique[i])
    {
      assert IsPlaced(unique, first, NOTHING_SEEN, i);
    }
  }

  /** After the pass that asks for a new event and nothing else, every pending event
      has been shown. */
  lemma {:induction false} EveryEventIsShown(pending: seq<Item>, seen: Seen)
    ensures Events(pending) <= Sift(NewEvent, pending, seen).2.events
    decreases pending
  {
    if pending != [] {
      SiftStep(NewEvent, pending, seen);
      var onward := Onward(NewEvent, pending[0], seen);
      EveryEventIsShown(pending[1..], onward);
      SiftRecords(NewEvent, pending[1..], onward);
      assert Events(pending) == {pending[0].sha} + Events(pending[1..]);
    }
  }

  lemma {:induction false} DistinctCount(items: seq<Item>)
    requires DistinctEvents(items)
    ensures |Events(items)| == |items|
  {
    if items != [] {
      DistinctCount(items[1..]);
      assert Events(items) == {items[0].sha} + Events(items[1..]);
    }
  }

  lemma EventsOfBoth(left: seq<Item>, right: seq<Item>)
    ensures Events(left + right) == Events(left) + Events(right)
  {
  }

  /** An item is shown by its pass, or is still pending after it. */
  lemma SiftCovers(pass: Pass, pending: seq<Item>, seen: Seen)
    ensures var (taken, deferred, _) := Sift(pass, pending, seen);
            Events(pending) <= Events(taken) + Events(deferred)
  {
    var (taken, deferred, _) := Sift(pass, pending, seen);
    forall x | x in pending
      ensures x.sha in Events(taken) + Events(deferred)
    {
      SiftMembers(pass, pending, seen, x);
    }
  }

  /** What a pass and the next new-event pass emit together shows every event. */
  lemma FrontCovers(pass: Pass, pending: seq<Item>, seen: Seen)
    ensures var (a, rest, after) := Sift(pass, pending, seen);
            Events(pending) <= seen.events + Events(a + Sift(NewEvent, rest, after).0)
  {
    var (a, rest, after) := Sift(pass, pending, seen);
    SiftRecords(pass, pending, seen);
    SiftRecords(NewEvent, rest, after);
    EveryEventIsShown(rest, after);
    SiftCovers(pass, pending, seen);
    EventsOfBoth(a, Sift(NewEvent, rest, after).0);
  }

  /** Both passes draw on what was pending. */
  lemma FrontIsDrawn(pass: Pass, pending: seq<Item>, seen: Seen)
    ensures var (a, rest, after) := Sift(pass, pending, seen);
            forall x :: x in a + Sift(NewEvent, rest, after).0 ==> x in pending
  {
    var (a, rest, after) := Sift(pass, pending, seen);
    forall x | x in a + Sift(NewEvent, rest, after).0
      ensures x in pending
    {
      SiftMembers(NewEvent, rest, after, x);
      SiftMembers(pass, pending, seen, x);
    }
  }

  /** The first two passes show every event. */
  lemma FrontCoversEvents(unique: seq<Item>)
    ensures var r := Ranked(unique);
            Events(r.first + r.second) == Events(unique)
  {
    FrontCovers(NewEventAndArea, unique, NOTHING_SEEN);
    FrontIsDrawn(NewEventAndArea, unique, NOTHING_SEEN);
  }

  /** The first two passes show no event twice. */
  lemma FrontIsDistinct(unique: seq<Item>)
    ensures var r := Ranked(unique);
            DistinctEvents(r.first + r.second)
  {
    var (a, rest1, s1) := Sift(NewEventAndArea, unique, NOTHING_SEEN);
    var b := Sift(NewEvent, rest1, s1).0;
    NewEventsOnly(NewEventAndArea, unique, NOTHING_SEEN);
    NewEventsOnly(NewEvent, rest1, s1);
    SiftRecords(NewEventAndArea, unique, NOTHING_SEEN);
    var front := a + b;
    forall i, j | 0 <= i < j < |front|
      ensures front[i].sha != front[j].sha
    {
      if i < |a| <= j {
        assert a[i].sha in Events(a) && b[j - |a|].sha in Events(b);
      }
    }
  }

  /** With D distinct events, the first D entries come from D different events. */
  lemma EveryEventComesFirst(unique: seq<Item>)
    ensures var d := |Events(unique)|;
            && d <= |Diverse(unique)|
            && DistinctEvents(Diverse(unique)[..d])
            && Events(Diverse(unique)[..d]) == Events(unique)
  {
    var r := Ranked(unique);
    var front := r.first + r.second;
    FrontCoversEvents(unique);
    FrontIsDistinct(unique);
    DistinctCount(front);
    assert Diverse(unique) == front + (r.third + r.fourth);
    assert Diverse(unique)[..|front|] == front;
  }

  /** The reader area is a function of the event. */
  ghost predicate AreaFollowsEvent(items: seq<Item>) {
    forall x, y :: x in items && y in items && x.sha == y.sha ==> x.area == y.area
  }

  lemma {:induction false} NothingNewInArea(pending: seq<Item>, seen: Seen)
    requires forall x :: x in pending ==> x.area in seen.areas
    ensures Sift(NewArea, pending, seen).0 == []
    decreases pending
  {
    if pending != [] {
      NothingNewInArea(pending[1..], seen);
    }
  }

  /** The third pass never emits: by then every event has been shown, and its area
      with it. */
  lemma ThirdPassIsEmpty(unique: seq<Item>)
    requires AreaFollowsEvent(unique)
    ensures Ranked(unique).third == []
  {
    var (a, rest1, s1) := Sift(NewEventAndArea, unique, NOTHING_SEEN);
    var (b, rest2, s2) := Sift(NewEvent, rest1, s1);
    SiftRecords(NewEventAndArea, unique, NOTHING_SEEN);
    SiftRecords(NewEvent, rest1, s1);
    FrontCoversEvents(unique);
    forall x | x in rest2
      ensures x.area in s2.areas
    {
      SiftMembers(NewEvent, rest1, s1, x);
      SiftMembers(NewEventAndArea, unique, NOTHING_SEEN, x);
      assert x.sha in Events(a + b);
      var y :| y in a + b && y.sha == x.sha;
      SiftMembers(NewEvent, rest1, s1, y);
      SiftMembers(NewEventAndArea, unique, NOTHING_SEEN, y);
      assert y.area in Areas(a) + Areas(b);
    }
    NothingNewInArea(rest2, s2);
  }
}
