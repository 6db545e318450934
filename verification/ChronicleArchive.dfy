/** The archive of periods, the events filed in them, and the weekly bars of a month. */
module ChronicleArchive {
  import opened IntOrder
  import opened Numerals
  import opened Periods
  import opened TextOrder

  /** A commit and the day it happened on. */
  datatype Event = Event(sha: string, date: int)

  ghost predicate Dated(events: seq<Event>) {
    forall e :: e in events ==> e.date >= 1
  }

  /** `events_through`. */
  function Through(events: seq<Event>, day: int): seq<Event> {
    if events == [] then []
    else (if events[0].date <= day then [events[0]] else []) + Through(events[1..], day)
  }

  /** `events_in_period`. */
  function EventsInPeriod(events: seq<Event>, p: Period): seq<Event> {
    if events == [] then []
    else (if Holds(p, events[0].date) then [events[0]] else []) + EventsInPeriod(events[1..], p)
  }

  // ------------------------------------------------------------------- the archive --

  /** The first archived day: the earliest day of an event up to `through`. */
  function FirstDay(events: seq<Event>, through: int): (first: int)
    ensures first <= through
    ensures forall e :: e in events && e.date <= through ==> first <= e.date
    ensures first == through || exists e :: e in events && e.date == first
    ensures Dated(events) && through >= 1 ==> first >= 1
  {
    if events == [] then through
    else
      var rest := FirstDay(events[1..], through);
      assert events == [events[0]] + events[1..];
      if events[0].date < rest then events[0].date else rest
  }

  /** The period of each day, for one kind. */
  type Family = int -> Period

  /** Each day is in its period, a key names one period, and two periods are equal or
      have no day in common. */
  ghost predicate IsFamily(f: Family, first: int, through: int) {
    && (forall d :: first <= d <= through ==> Holds(f(d), d))
    && (forall c, d :: first <= c <= through && first <= d <= through && f(c).key == f(d).key ==> f(c) == f(d))
    && (forall c, d :: first <= c <= through && first <= d <= through ==> Apart(f(c), f(d)))
  }

  ghost predicate Apart(p: Period, q: Period) {
    p == q || p.end <= q.start || q.end <= p.start
  }

  /** What the cursor has filed under each key by the end of day `through`. */
  function Filed(f: Family, first: int, through: int): map<string, Period>
    decreases through - first
  {
    if through < first then map[] else Shelf(Filed(f, first, through - 1), f(through))
  }

  /** `periods[kind][period.key] = period`. */
  function Shelf(filed: map<string, Period>, p: Period): map<string, Period> {
    filed[p.key := p]
  }

  function Listed(keys: seq<string>, filed: map<string, Period>): seq<Period>
    requires forall k :: k in keys ==> k in filed
  {
    seq(|keys|, i requires 0 <= i < |keys| => filed[keys[i]])
  }

  /** The archived periods of a family, in the order of their keys. */
  ghost function Archive(f: Family, first: int, through: int): seq<Period> {
    var filed := Filed(f, first, through);
    Listed(Sorted(filed.Keys), filed)
  }

  /** The family of a kind: `periods_for(day)[kind]`. */
  function FamilyOf(kind: Kind): Family {
    n => if n >= 1 then PeriodOf(kind, n) else PeriodOf(kind, 1)
  }

  lemma KindIsFamily(kind: Kind, first: int, through: int)
    requires first >= 1
    ensures IsFamily(FamilyOf(kind), first, through)
  {
    var f := FamilyOf(kind);
    forall d | first <= d <= through
      ensures Holds(f(d), d)
    {
      DayIsInItsPeriod(kind, d);
    }
    forall c, d | first <= c <= through && first <= d <= through
      ensures f(c).key == f(d).key ==> f(c) == f(d)
    {
      KeyNamesPeriod(kind, c, d);
    }
    forall c, d | first <= c <= through && first <= d <= through
      ensures Apart(f(c), f(d))
    {
      PeriodsAreEqualOrDisjoint(kind, c, d);
    }
  }

  const KINDS := [Day, Week, Month, Year]

  lemma EveryKindIsListed(kind: Kind)
    ensures kind in KINDS
  {
    match kind
    case Day => assert KINDS[0] == Day;
    case Week => assert KINDS[1] == Week;
    case Month => assert KINDS[2] == Month;
    case Year => assert KINDS[3] == Year;
  }

  /** One dictionary a kind, holding what the cursor has filed by the end of a day. */
  ghost predicate AreFiled(families: Kind -> Family, periods: map<Kind, map<string, Period>>, first: int, through: int) {
    forall kind :: kind in periods && periods[kind] == Filed(families(kind), first, through)
  }

  method EmptyShelves(ghost families: Kind -> Family, ghost first: int) returns (periods: map<Kind, map<string, Period>>)
    ensures AreFiled(families, periods, first, first - 1)
  {
    periods := map kind | kind in KINDS :: map[];
    forall kind
      ensures kind in periods && periods[kind] == Filed(families(kind), first, first - 1)
    {
      EveryKindIsListed(kind);
    }
  }

  lemma ShelfStep(f: Family, first: int, n: int)
    requires first <= n
    ensures Shelf(Filed(f, first, n - 1), f(n)) == Filed(f, first, n)
  {
  }

  /** `for kind, period in periods_for(cursor).items(): periods[kind][period.key] = period`. */
  method FileDay(families: Kind -> Family, filed: map<Kind, map<string, Period>>, ghost first: int, cursor: int)
    returns (periods: map<Kind, map<string, Period>>)
    requires first <= cursor && AreFiled(families, filed, first, cursor - 1)
    ensures AreFiled(families, periods, first, cursor)
  {
    periods := filed;
    for i := 0 to |KINDS|
      invariant forall kind :: kind in periods
      invariant forall k :: 0 <= k < i ==> periods[KINDS[k]] == Filed(families(KINDS[k]), first, cursor)
      invariant forall k :: i <= k < |KINDS| ==> periods[KINDS[k]] == Filed(families(KINDS[k]), first, cursor - 1)
    {
      var kind := KINDS[i];
      var f := families(kind);
      ShelfStep(f, first, cursor);
      assert forall k :: 0 <= k < |KINDS| && k != i ==> KINDS[k] != kind;
      periods := periods[kind := Shelf(periods[kind], f(cursor))];
    }
    forall kind
      ensures periods[kind] == Filed(families(kind), first, cursor)
    {
      EveryKindIsListed(kind);
    }
  }

  /** The cursor's loop. */
  method FileDays(families: Kind -> Family, first: int, through: int) returns (periods: map<Kind, map<string, Period>>)
    requires first <= through
    ensures AreFiled(families, periods, first, through)
  {
    periods := EmptyShelves(families, first);
    var cursor := first;
    ghost var filed := first - 1;
    while cursor <= through
      invariant first <= cursor == filed + 1 <= through + 1
      invariant AreFiled(families, periods, first, filed)
    {
      periods := FileDay(families, periods, first, cursor);
      filed, cursor := cursor, cursor + 1;
    }
    assert filed == through;
  }

  method InKeyOrder(ghost f: Family, ghost first: int, ghost through: int, filed: map<string, Period>)
    returns (listed: seq<Period>)
    requires filed == Filed(f, first, through)
    ensures listed == Archive(f, first, through)
  {
    var keys := SortKeys(filed.Keys);
    listed := Listed(keys, filed);
  }

  method ListKinds(ghost families: Kind -> Family, ghost first: int, ghost through: int, periods: map<Kind, map<string, Period>>)
    returns (archive: map<Kind, seq<Period>>)
    requires AreFiled(families, periods, first, through)
    ensures forall kind :: kind in archive && archive[kind] == Archive(families(kind), first, through)
  {
    archive := map[];
    for i := 0 to |KINDS|
      invariant forall k :: 0 <= k < i ==>
                  KINDS[k] in archive && archive[KINDS[k]] == Archive(families(KINDS[k]), first, through)
    {
      var kind := KINDS[i];
      var listed := InKeyOrder(families(kind), first, through, periods[kind]);
      assert forall k :: 0 <= k < i ==> KINDS[k] != kind;
      archive := archive[kind := listed];
    }
    forall kind
      ensures kind in archive && archive[kind] == Archive(families(kind), first, through)
    {
      EveryKindIsListed(kind);
    }
  }

  method HistoricalPeriods(events: seq<Event>, through: int) returns (archive: map<Kind, seq<Period>>)
    requires Dated(events) && through >= 1
    ensures forall kind :: kind in archive && archive[kind] == Archive(FamilyOf(kind), FirstDay(events, through), through)
  {
    var first := FirstDay(events, through);
    var periods := FileDays(FamilyOf, first, through);
    archive := ListKinds(FamilyOf, first, through, periods);
  }

  /** A day passed is filed under its key, with its own period. */
  lemma {:induction false} DayIsFiled(f: Family, first: int, through: int, d: int)
    requires first <= d <= through && IsFamily(f, first, through)
    ensures var filed := Filed(f, first, through);
            f(d).key in filed && filed[f(d).key] == f(d)
    decreases through - first
  {
    if d < through {
      DayIsFiled(f, first, through - 1, d);
    }
  }

  /** A key filed is the key of a day passed. */
  lemma {:induction false} KeyIsOfDay(f: Family, first: int, through: int, key: string) returns (d: int)
    requires key in Filed(f, first, through)
    ensures first <= d <= through && f(d).key == key
    decreases through - first
  {
    if key == f(through).key {
      d := through;
    } else {
      d := KeyIsOfDay(f, first, through - 1, key);
    }
  }

  ghost predicate IsPeriodOfDay(p: Period, f: Family, first: int, through: int) {
    exists d :: first <= d <= through && p == f(d)
  }

  /** The archive lists exactly the periods of the days passed, each once. */
  lemma ArchiveListsPeriods(f: Family, first: int, through: int)
    requires IsFamily(f, first, through)
    ensures var archive := Archive(f, first, through);
            && (forall d :: first <= d <= through ==> f(d) in archive)
            && (forall i :: 0 <= i < |archive| ==> IsPeriodOfDay(archive[i], f, first, through))
            && (forall i, j :: 0 <= i < j < |archive| ==> Before(archive[i].key, archive[j].key))
  {
    var filed := Filed(f, first, through);
    var keys := Sorted(filed.Keys);
    var archive := Archive(f, first, through);
    forall d | first <= d <= through
      ensures f(d) in archive
    {
      DayIsFiled(f, first, through, d);
      var i :| 0 <= i < |keys| && keys[i] == f(d).key;
      assert archive[i] == f(d);
    }
    forall i | 0 <= i < |archive|
      ensures IsPeriodOfDay(archive[i], f, first, through) && archive[i].key == keys[i]
    {
      assert keys[i] in filed;
      var d := KeyIsOfDay(f, first, through, keys[i]);
      DayIsFiled(f, first, through, d);
      assert archive[i] == f(d);
    }
  }

  ghost predicate HeldOnlyBy(archive: seq<Period>, day: int, i: nat)
    requires i < |archive|
  {
    Holds(archive[i], day) && forall j :: 0 <= j < |archive| && Holds(archive[j], day) ==> j == i
  }

  /** Every archived day is in exactly one archived period: its own. */
  lemma EveryDayIsHeldOnce(f: Family, first: int, through: int, day: int) returns (i: nat)
    requires IsFamily(f, first, through) && first <= day <= through
    ensures i < |Archive(f, first, through)|
    ensures HeldOnlyBy(Archive(f, first, through), day, i)
    ensures Archive(f, first, through)[i] == f(day)
  {
    var archive := Archive(f, first, through);
    ArchiveListsPeriods(f, first, through);
    assert f(day) in archive;
    i :| 0 <= i < |archive| && archive[i] == f(day);
    forall j | 0 <= j < |archive| && Holds(archive[j], day)
      ensures j == i
    {
      assert IsPeriodOfDay(archive[j], f, first, through);
      var d :| first <= d <= through && archive[j] == f(d);
      assert Apart(f(d), f(day));
      var low, high := if i < j then i else j, if i < j then j else i;
      if low < high {
        BeforeIsStrict(archive[low].key, archive[high].key);
      }
    }
  }

  // ----------------------------------------------------------------- the partition --

  /** The events of all periods, counted period by period. */
  function Total(archive: seq<Period>, events: seq<Event>): nat {
    if archive == [] then 0 else |EventsInPeriod(events, archive[0])| + Total(archive[1..], events)
  }

  function TimesHeld(archive: seq<Period>, day: int): nat {
    if archive == [] then 0 else (if Holds(archive[0], day) then 1 else 0) + TimesHeld(archive[1..], day)
  }

  lemma {:induction false} TotalByEvent(archive: seq<Period>, events: seq<Event>)
    requires events != []
    ensures Total(archive, events) == TimesHeld(archive, events[0].date) + Total(archive, events[1..])
    decreases archive
  {
    if archive != [] {
      TotalByEvent(archive[1..], events);
    }
  }

  lemma {:induction false} TotalOfNothing(archive: seq<Period>)
    ensures Total(archive, []) == 0
  {
    if archive != [] {
      TotalOfNothing(archive[1..]);
    }
  }

  lemma {:induction false} NeverHeld(archive: seq<Period>, day: int)
    requires forall j :: 0 <= j < |archive| ==> !Holds(archive[j], day)
    ensures TimesHeld(archive, day) == 0
  {
    if archive != [] {
      NeverHeld(archive[1..], day);
    }
  }

  lemma {:induction false} HeldOnce(archive: seq<Period>, day: int, i: nat)
    requires i < |archive| && HeldOnlyBy(archive, day, i)
    ensures TimesHeld(archive, day) == 1
  {
    var rest := archive[1..];
    assert forall j :: 0 <= j < |rest| ==> rest[j] == archive[j + 1];
    if i == 0 {
      NeverHeld(rest, day);
    } else {
      HeldOnce(rest, day, i - 1);
    }
  }

  /** Events of the archived days, counted period by period, add up to all of them. */
  lemma {:induction false} CountsAddUp(f: Family, first: int, through: int, events: seq<Event>)
    requires IsFamily(f, first, through)
    requires forall e :: e in events ==> first <= e.date <= through
    ensures Total(Archive(f, first, through), events) == |events|
    decreases events
  {
    var archive := Archive(f, first, through);
    if events == [] {
      TotalOfNothing(archive);
    } else {
      assert events[0] in events;
      var i := EveryDayIsHeldOnce(f, first, through, events[0].date);
      HeldOnce(archive, events[0].date, i);
      TotalByEvent(archive, events);
      CountsAddUp(f, first, through, events[1..]);
    }
  }

  lemma {:induction false} ThroughKeeps(events: seq<Event>, day: int)
    ensures forall e :: e in Through(events, day) <==> e in events && e.date <= day
  {
    if events != [] {
      ThroughKeeps(events[1..], day);
      assert events == [events[0]] + events[1..];
    }
  }

  /** Events of the archived days are each in exactly one archived period, and the
      counts of the periods add up. */
  ghost predicate Partitions(archive: seq<Period>, events: seq<Event>) {
    && (forall e :: e in events ==> exists i: nat :: i < |archive| && HeldOnlyBy(archive, e.date, i))
    && Total(archive, events) == |events|
  }

  lemma FamilyPartitions(f: Family, first: int, through: int, events: seq<Event>)
    requires IsFamily(f, first, through)
    requires forall e :: e in events ==> first <= e.date <= through
    ensures Partitions(Archive(f, first, through), events)
  {
    var archive := Archive(f, first, through);
    forall e | e in events
      ensures exists i: nat :: i < |archive| && HeldOnlyBy(archive, e.date, i)
    {
      var i := EveryDayIsHeldOnce(f, first, through, e.date);
    }
    CountsAddUp(f, first, through, events);
  }

  /** So the periods of each kind partition the events that `events_through` keeps. */
  lemma HistoryIsPartitioned(kind: Kind, events: seq<Event>, through: int)
    requires Dated(events) && through >= 1
    ensures Partitions(Archive(FamilyOf(kind), FirstDay(events, through), through), Through(events, through))
  {
    ThroughKeeps(events, through);
    KindIsFamily(kind, FirstDay(events, through), through);
    FamilyPartitions(FamilyOf(kind), FirstDay(events, through), through, Through(events, through));
  }

  // -------------------------------------------------------------------- time order --

  /** The days' leads, from the first to the last, have one width. */
  ghost predicate OneWidth(kind: Kind, first: int, through: int)
    requires first >= 1
  {
    forall d :: first <= d <= through ==> |Lead(kind, d)| == |Lead(kind, first)|
  }

  /** Four-digit years have one width, so this covers the years 1000 to 9999. */
  lemma OneWidthIff(kind: Kind, first: int, through: int)
    requires 1 <= first <= through
    ensures kind != Day ==> (OneWidth(kind, first, through) <==> |Lead(kind, first)| == |Lead(kind, through)|)
    ensures kind == Day && Calendar.YearOf(through) < 10000 ==> OneWidth(kind, first, through)
  {
    forall d | first <= d <= through
      ensures Number(kind, first) <= Number(kind, d) <= Number(kind, through)
    {
      NumbersKeepOrder(kind, first, d);
      NumbersKeepOrder(kind, d, through);
    }
    if kind != Day && |Lead(kind, first)| == |Lead(kind, through)| {
      forall d | first <= d <= through
        ensures |Lead(kind, d)| == |Lead(kind, first)|
      {
        LongerIsGreater(Number(kind, first), Number(kind, d));
        LongerIsGreater(Number(kind, d), Number(kind, through));
      }
    }
    if kind == Day && Calendar.YearOf(through) < 10000 {
      forall d | first <= d <= through
        ensures |Lead(kind, d)| == 4
      {
        assert Number(kind, d) <= Number(kind, through);
        Pad4Facts(Calendar.YearOf(d));
      }
    }
  }

  lemma NumbersKeepOrder(kind: Kind, m: int, n: int)
    requires 1 <= m <= n
    ensures Number(kind, m) <= Number(kind, n)
  {
    if kind == Week {
      Calendar.YearOfIncreases(Calendar.MondayOf(m) + 3, Calendar.MondayOf(n) + 3);
    } else {
      Calendar.YearOfIncreases(m, n);
    }
  }

  ghost predicate KeysFollowTime(f: Family, first: int, through: int) {
    forall c, d :: first <= c <= through && first <= d <= through && f(c).start < f(d).start ==>
      Before(f(c).key, f(d).key)
  }

  lemma PairFollowsTime(kind: Kind, c: int, d: int)
    requires c >= 1 && d >= 1 && |Lead(kind, c)| == |Lead(kind, d)|
    ensures PeriodOf(kind, c).start < PeriodOf(kind, d).start ==> Before(PeriodOf(kind, c).key, PeriodOf(kind, d).key)
  {
    if Start(kind, c) < Start(kind, d) {
      KeyOrderIsTimeOrder(kind, c, d);
    }
  }

  lemma OneWidthFollowsTime(kind: Kind, first: int, through: int)
    requires first >= 1 && OneWidth(kind, first, through)
    ensures KeysFollowTime(FamilyOf(kind), first, through)
  {
    forall c, d | first <= c <= through && first <= d <= through
      ensures PeriodOf(kind, c).start < PeriodOf(kind, d).start ==>
                Before(PeriodOf(kind, c).key, PeriodOf(kind, d).key)
    {
      PairFollowsTime(kind, c, d);
    }
  }

  ghost predicate InTimeOrder(archive: seq<Period>) {
    && (forall i :: 0 <= i < |archive| ==> archive[i].start < archive[i].end)
    && (forall i, j :: 0 <= i < j < |archive| ==> archive[i].end <= archive[j].start)
  }

  lemma ArchiveIsChronological(f: Family, first: int, through: int)
    requires IsFamily(f, first, through) && KeysFollowTime(f, first, through)
    ensures InTimeOrder(Archive(f, first, through))
  {
    var archive := Archive(f, first, through);
    ArchiveListsPeriods(f, first, through);
    forall i | 0 <= i < |archive|
      ensures archive[i].start < archive[i].end
    {
      assert IsPeriodOfDay(archive[i], f, first, through);
    }
    forall i, j | 0 <= i < j < |archive|
      ensures archive[i].end <= archive[j].start
    {
      assert IsPeriodOfDay(archive[i], f, first, through) && IsPeriodOfDay(archive[j], f, first, through);
      var c :| first <= c <= through && archive[i] == f(c);
      var d :| first <= d <= through && archive[j] == f(d);
      BeforeIsStrict(f(c).key, f(d).key);
      assert Apart(f(c), f(d));
    }
  }

  lemma NoGap(archive: seq<Period>, i: nat, k: nat)
    requires InTimeOrder(archive) && i + 1 < |archive| && k < |archive|
    requires Holds(archive[k], archive[i].end)
    ensures archive[i].end == archive[i + 1].start
  {
  }

  lemma PeriodReachesDay(p: Period, f: Family, first: int, through: int)
    requires IsFamily(f, first, through) && IsPeriodOfDay(p, f, first, through)
    ensures p.start <= through && p.end > first
  {
  }

  /** The day after a period of the archive is archived too, unless it was the last. */
  lemma DayAfterIsHeld(f: Family, first: int, through: int, i: nat) returns (k: nat)
    requires IsFamily(f, first, through) && KeysFollowTime(f, first, through)
    requires i + 1 < |Archive(f, first, through)|
    ensures var archive := Archive(f, first, through);
            k < |archive| && Holds(archive[k], archive[i].end)
  {
    var archive := Archive(f, first, through);
    ArchiveListsPeriods(f, first, through);
    ArchiveIsChronological(f, first, through);
    PeriodReachesDay(archive[i], f, first, through);
    PeriodReachesDay(archive[i + 1], f, first, through);
    k := EveryDayIsHeldOnce(f, first, through, archive[i].end);
  }

  lemma ArchiveReachesEnds(f: Family, first: int, through: int)
    requires IsFamily(f, first, through) && KeysFollowTime(f, first, through) && first <= through
    ensures var archive := Archive(f, first, through);
            archive != [] && archive[0] == f(first) && archive[|archive| - 1] == f(through)
  {
    var archive := Archive(f, first, through);
    ArchiveListsPeriods(f, first, through);
    ArchiveIsChronological(f, first, through);
    var i := EveryDayIsHeldOnce(f, first, through, first);
    var j := EveryDayIsHeldOnce(f, first, through, through);
    PeriodReachesDay(archive[0], f, first, through);
    PeriodReachesDay(archive[|archive| - 1], f, first, through);
  }

  /** The archive of a kind is in time order and without gaps: each period begins where
      the one before it ends, and together they reach from the first day to the last. */
  lemma ArchiveIsContiguous(kind: Kind, first: int, through: int)
    requires 1 <= first <= through && OneWidth(kind, first, through)
    ensures var archive := Archive(FamilyOf(kind), first, through);
            && archive != []
            && archive[0] == PeriodOf(kind, first)
            && archive[|archive| - 1] == PeriodOf(kind, through)
            && InTimeOrder(archive)
            && forall i :: 0 <= i < |archive| - 1 ==> archive[i].end == archive[i + 1].start
  {
    var f := FamilyOf(kind);
    var archive := Archive(f, first, through);
    KindIsFamily(kind, first, through);
    OneWidthFollowsTime(kind, first, through);
    ArchiveIsChronological(f, first, through);
    ArchiveReachesEnds(f, first, through);
    forall i | 0 <= i < |archive| - 1
      ensures archive[i].end == archive[i + 1].start
    {
      var k := DayAfterIsHeld(f, first, through, i);
      NoGap(archive, i, k);
    }
  }

  lemma DayLastsADay(p: Period, first: int, through: int)
    requires first >= 1 && IsPeriodOfDay(p, FamilyOf(Day), first, through)
    ensures p.end == p.start + 1
  {
  }

  lemma {:induction false} DayAtIndex(first: int, through: int, i: nat)
    requires 1 <= first <= through && OneWidth(Day, first, through)
    requires i < |Archive(FamilyOf(Day), first, through)|
    ensures Holds(Archive(FamilyOf(Day), first, through)[i], first + i)
    ensures Archive(FamilyOf(Day), first, through)[i].end == first + i + 1
  {
    var archive := Archive(FamilyOf(Day), first, through);
    ArchiveIsContiguous(Day, first, through);
    KindIsFamily(Day, first, through);
    ArchiveListsPeriods(FamilyOf(Day), first, through);
    DayLastsADay(archive[i], first, through);
    if i > 0 {
      DayAtIndex(first, through, i - 1);
    }
  }

  /** The archive has every day from the first to the last, in order. */
  lemma DaysAreContiguous(first: int, through: int)
    requires 1 <= first <= through && OneWidth(Day, first, through)
    ensures var days := Archive(FamilyOf(Day), first, through);
            |days| == through - first + 1 && forall i :: 0 <= i < |days| ==> days[i].end == first + i + 1
  {
    var days := Archive(FamilyOf(Day), first, through);
    ArchiveIsContiguous(Day, first, through);
    forall i | 0 <= i < |days|
      ensures days[i].end == first + i + 1
    {
      DayAtIndex(first, through, i);
    }
    assert days[|days| - 1].end == through + 1;
  }

  // -------------------------------------------------------------------- weekly bars --

  /** The start of the week, counted from the start of the period, a day falls in. */
  function Bucket(start: int, day: int): int {
    start + (day - start) / 7 * 7
  }

  /** The weeks drawn even when nothing happened in them. */
  function Ticks(start: int, end: int): seq<int>
    decreases end - start
  {
    if start < end then [start] + Ticks(start + 7, end) else []
  }

  function InBucket(selected: seq<Event>, start: int, tick: int): nat {
    if selected == [] then 0
    else (if Bucket(start, selected[0].date) == tick then 1 else 0) + InBucket(selected[1..], start, tick)
  }

  function Labels(bars: seq<(int, nat)>): seq<int> {
    seq(|bars|, i requires 0 <= i < |bars| => bars[i].0)
  }

  function SumOf(bars: seq<(int, nat)>): nat {
    if bars == [] then 0 else bars[0].1 + SumOf(bars[1..])
  }

  /** A bar for every week of the period and every bucket used, in date order, with
      the number of events in it. */
  ghost predicate AreBars(bars: seq<(int, nat)>, selected: seq<Event>, start: int, end: int) {
    && Increasing(Labels(bars))
    && (forall t :: t in Labels(bars) <==> t in Ticks(start, end) || InBucket(selected, start, t) > 0)
    && (forall i :: 0 <= i < |bars| ==> bars[i].1 == InBucket(selected, start, bars[i].0))
  }

  function CountOf(counts: map<int, nat>, tick: int): nat {
    if tick in counts then counts[tick] else 0
  }

  /** The weeks of the period, each with nothing in it yet. */
  method EmptyWeeks(start: int, end: int) returns (counts: map<int, nat>)
    ensures forall t :: t in counts <==> t in Ticks(start, end)
    ensures forall t :: t in counts ==> counts[t] == 0
  {
    counts := map[];
    var cursor := start;
    ghost var drawn: seq<int> := [];
    while cursor < end
      invariant drawn + Ticks(cursor, end) == Ticks(start, end)
      invariant forall t :: t in counts <==> t in drawn
      invariant forall t :: t in counts ==> counts[t] == 0
      decreases end - cursor
    {
      counts := counts[cursor := 0];
      drawn := drawn + [cursor];
      cursor := cursor + 7;
    }
    assert drawn + [] == drawn;
  }

  /** `counts[bucket] += 1` for every event. */
  method CountWeeks(weeks: map<int, nat>, selected: seq<Event>, start: int) returns (counts: map<int, nat>)
    requires forall t :: t in weeks ==> weeks[t] == 0
    ensures forall t :: t in counts <==> t in weeks || InBucket(selected, start, t) > 0
    ensures forall t :: t in counts ==> counts[t] == InBucket(selected, start, t)
  {
    counts := weeks;
    for i := 0 to |selected|
      invariant forall t :: t in counts <==> t in weeks || InBucket(selected[..i], start, t) > 0
      invariant forall t :: t in counts ==> counts[t] == InBucket(selected[..i], start, t)
    {
      var bucket := Bucket(start, selected[i].date);
      assert selected[..i + 1] == selected[..i] + [selected[i]];
      forall t
        ensures InBucket(selected[..i + 1], start, t) == InBucket(selected[..i], start, t) + (if t == bucket then 1 else 0)
      {
        BucketSnoc(selected[..i], selected[i], start, t);
      }
      counts := counts[bucket := CountOf(counts, bucket) + 1];
    }
    assert selected[..|selected|] == selected;
  }

  method WeeklyActivity(selected: seq<Event>, period: Period) returns (bars: seq<(int, nat)>)
    ensures AreBars(bars, selected, period.start, period.end)
  {
    var weeks := EmptyWeeks(period.start, period.end);
    var counts := CountWeeks(weeks, selected, period.start);
    var ticks := SortInts(counts.Keys);
    assert forall t :: t in ticks ==> t in counts;
    bars := seq(|ticks|, i requires 0 <= i < |ticks| => (ticks[i], CountOf(counts, ticks[i])));
    assert Labels(bars) == ticks;
    assert forall i :: 0 <= i < |bars| ==> ticks[i] in ticks;
  }

  lemma {:induction false} BucketSnoc(selected: seq<Event>, e: Event, start: int, tick: int)
    ensures InBucket(selected + [e], start, tick)
            == InBucket(selected, start, tick) + (if tick == Bucket(start, e.date) then 1 else 0)
  {
    if selected == [] {
      assert selected + [e] == [e] && [e][1..] == [];
    } else {
      assert (selected + [e])[1..] == selected[1..] + [e];
      BucketSnoc(selected[1..], e, start, tick);
    }
  }

  function SumOver(labels: seq<int>, selected: seq<Event>, start: int): nat {
    if labels == [] then 0 else InBucket(selected, start, labels[0]) + SumOver(labels[1..], selected, start)
  }

  lemma {:induction false} SumOfIsSumOver(bars: seq<(int, nat)>, selected: seq<Event>, start: int)
    requires forall i :: 0 <= i < |bars| ==> bars[i].1 == InBucket(selected, start, bars[i].0)
    ensures SumOf(bars) == SumOver(Labels(bars), selected, start)
  {
    if bars != [] {
      assert Labels(bars)[1..] == Labels(bars[1..]);
      SumOfIsSumOver(bars[1..], selected, start);
    }
  }

  function Occurrences(labels: seq<int>, t: int): nat {
    if labels == [] then 0 else (if labels[0] == t then 1 else 0) + Occurrences(labels[1..], t)
  }

  lemma {:induction false} SumOverByEvent(labels: seq<int>, selected: seq<Event>, start: int)
    requires selected != []
    ensures SumOver(labels, selected, start)
            == Occurrences(labels, Bucket(start, selected[0].date)) + SumOver(labels, selected[1..], start)
    decreases labels
  {
    if labels != [] {
      SumOverByEvent(labels[1..], selected, start);
    }
  }

  lemma {:induction false} SumOverNothing(labels: seq<int>, start: int)
    ensures SumOver(labels, [], start) == 0
  {
    if labels != [] {
      SumOverNothing(labels[1..], start);
    }
  }

  lemma {:induction false} OccursOnce(labels: seq<int>, t: int)
    requires Increasing(labels)
    ensures Occurrences(labels, t) == if t in labels then 1 else 0
  {
    if labels != [] {
      OccursOnce(labels[1..], t);
      HeadIsSmallest(labels, t);
    }
  }

  lemma {:induction false} SumOverAll(labels: seq<int>, selected: seq<Event>, start: int)
    requires Increasing(labels)
    requires forall e :: e in selected ==> Bucket(start, e.date) in labels
    ensures SumOver(labels, selected, start) == |selected|
    decreases selected
  {
    if selected == [] {
      SumOverNothing(labels, start);
    } else {
      SumOverByEvent(labels, selected, start);
      OccursOnce(labels, Bucket(start, selected[0].date));
      SumOverAll(labels, selected[1..], start);
    }
  }

  lemma {:induction false} BucketIsUsed(selected: seq<Event>, start: int, e: Event)
    requires e in selected
    ensures InBucket(selected, start, Bucket(start, e.date)) > 0
  {
    if e != selected[0] {
      BucketIsUsed(selected[1..], start, e);
    }
  }

  /** The bars add up to the events drawn. */
  lemma BarsAddUp(bars: seq<(int, nat)>, selected: seq<Event>, start: int, end: int)
    requires AreBars(bars, selected, start, end)
    ensures SumOf(bars) == |selected|
  {
    forall e | e in selected
      ensures Bucket(start, e.date) in Labels(bars)
    {
      BucketIsUsed(selected, start, e);
    }
    SumOfIsSumOver(bars, selected, start);
    SumOverAll(Labels(bars), selected, start);
  }

  lemma {:induction false} TickMembers(start: int, end: int, t: int)
    ensures t in Ticks(start, end) <==> start <= t < end && (t - start) % 7 == 0
    decreases end - start
  {
    if start < end {
      TickMembers(start + 7, end, t);
      assert (t - start) % 7 == (t - (start + 7)) % 7;
    }
  }

  lemma {:induction false} TicksIncrease(start: int, end: int)
    ensures Increasing(Ticks(start, end))
    decreases end - start
  {
    if start < end {
      TicksIncrease(start + 7, end);
      var rest := Ticks(start + 7, end);
      forall j | 0 <= j < |rest|
        ensures start < rest[j]
      {
        assert rest[j] in rest;
        TickMembers(start + 7, end, rest[j]);
      }
    }
  }

  /** The seven days from a tick on. */
  function WeekFrom(tick: int): Period {
    Period(Week, "", tick, tick + 7, "")
  }

  lemma {:induction false} BucketIsWeek(selected: seq<Event>, start: int, tick: int)
    requires (tick - start) % 7 == 0
    ensures InBucket(selected, start, tick) == |EventsInPeriod(selected, WeekFrom(tick))|
  {
    if selected != [] {
      BucketIsWeek(selected[1..], start, tick);
      BucketHolds(start, selected[0].date, tick);
    }
  }

  lemma BucketHolds(start: int, day: int, tick: int)
    requires (tick - start) % 7 == 0
    ensures Bucket(start, day) == tick <==> Holds(WeekFrom(tick), day)
  {
    var weeks := (tick - start) / 7;
    assert tick == start + 7 * weeks;
    assert Bucket(start, day) == start + 7 * ((day - start) / 7);
  }

  lemma {:induction false} InPeriodFacts(events: seq<Event>, p: Period)
    ensures forall e :: e in EventsInPeriod(events, p) <==> e in events && Holds(p, e.date)
  {
    if events != [] {
      InPeriodFacts(events[1..], p);
      assert events == [events[0]] + events[1..];
    }
  }

  lemma {:induction false} UsedBucketHasEvent(selected: seq<Event>, start: int, tick: int) returns (e: Event)
    requires InBucket(selected, start, tick) > 0
    ensures e in selected && Bucket(start, e.date) == tick
  {
    if Bucket(start, selected[0].date) == tick {
      e := selected[0];
    } else {
      e := UsedBucketHasEvent(selected[1..], start, tick);
    }
  }

  /** Drawn for the events of a period, there is one bar for every week of the period,
      empty ones included, each counts the period's events of its seven days, and the
      bars add up to the events of the period. */
  lemma WeeklyBarsPartitionPeriod(bars: seq<(int, nat)>, events: seq<Event>, p: Period)
    requires AreBars(bars, EventsInPeriod(events, p), p.start, p.end)
    ensures Labels(bars) == Ticks(p.start, p.end)
    ensures forall i :: 0 <= i < |bars| ==>
              bars[i].1 == |EventsInPeriod(EventsInPeriod(events, p), WeekFrom(bars[i].0))|
    ensures SumOf(bars) == |EventsInPeriod(events, p)|
  {
    var selected := EventsInPeriod(events, p);
    BarsAddUp(bars, selected, p.start, p.end);
    TicksIncrease(p.start, p.end);
    InPeriodFacts(events, p);
    forall t
      ensures t in Labels(bars) <==> t in Ticks(p.start, p.end)
    {
      TickMembers(p.start, p.end, t);
      if InBucket(selected, p.start, t) > 0 {
        var e := UsedBucketHasEvent(selected, p.start, t);
      }
    }
    ListingIsUnique(Ticks(p.start, p.end), Labels(bars));
    forall i | 0 <= i < |bars|
      ensures bars[i].1 == |EventsInPeriod(selected, WeekFrom(bars[i].0))|
    {
      assert bars[i].0 == Labels(bars)[i];
      assert Labels(bars)[i] in Labels(bars);
      TickMembers(p.start, p.end, bars[i].0);
      BucketIsWeek(selected, p.start, bars[i].0);
    }
  }
}
