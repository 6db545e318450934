/** The day, week, month and year periods of the Chronicle, and its archive. */
module Periods {
  import opened Calendar
  import opened Numerals
  import opened Subsequences
  import opened TextOrder

  datatype Kind = Day | Week | Month | Year

  /** Days from `start` up to but not including `end`. */
  datatype Period = Period(kind: Kind, key: string, start: int, end: int, slug: string)

  const SLUG_PREFIX := "barkpark-changelog-"
  const INDEX_SLUG := "barkpark-chronicle"

  // ------------------------------------------------------------------- one period --

  /** `month_end`: the first day of the next month. */
  function MonthEnd(n: int): int
    requires n >= 1
  {
    if MonthOf(n) == 12 then YearStart(YearOf(n) + 1) else MonthStart(YearOf(n), MonthOf(n) + 1)
  }

  /** The year a key begins with, as it is written. */
  function Lead(kind: Kind, n: int): string
    requires n >= 1
  {
    match kind
    case Day => Pad4(YearOf(n))
    case Week => Decimal(IsoYear(n))
    case Month => Decimal(YearOf(n))
    case Year => Decimal(YearOf(n))
  }

  /** The rest of the key; a slug writes the week's letter in lower case. */
  function Tail(kind: Kind, n: int, letter: char): string
    requires n >= 1
  {
    match kind
    case Day => "-" + (Pad2(MonthOf(n)) + ("-" + Pad2(DayOfMonth(n))))
    case Week => "-" + ([letter] + Pad2(IsoWeek(n)))
    case Month => "-" + Pad2(MonthOf(n))
    case Year => ""
  }

  function Key(kind: Kind, n: int): string
    requires n >= 1
  {
    Lead(kind, n) + Tail(kind, n, 'W')
  }

  function Slug(kind: Kind, n: int): string
    requires n >= 1
  {
    SLUG_PREFIX + (Lead(kind, n) + Tail(kind, n, 'w'))
  }

  function Start(kind: Kind, n: int): int
    requires n >= 1
  {
    match kind
    case Day => n
    case Week => MondayOf(n)
    case Month => MonthStart(YearOf(n), MonthOf(n))
    case Year => YearStart(YearOf(n))
  }

  function End(kind: Kind, n: int): int
    requires n >= 1
  {
    match kind
    case Day => n + 1
    case Week => MondayOf(n) + 7
    case Month => MonthEnd(n)
    case Year => YearStart(YearOf(n) + 1)
  }

  /** An entry of `periods_for`. */
  function PeriodOf(kind: Kind, n: int): Period
    requires n >= 1
  {
    Period(kind, Key(kind, n), Start(kind, n), End(kind, n), Slug(kind, n))
  }

  predicate Holds(p: Period, day: int) {
    p.start <= day < p.end
  }

  lemma MonthEndIsNextMonth(n: int)
    requires n >= 1
    ensures MonthEnd(n) == MonthStart(YearOf(n), MonthOf(n) + 1)
  {
    MonthsFillYear(YearOf(n));
  }

  /** A day is in its own period of every kind. */
  lemma DayIsInItsPeriod(kind: Kind, n: int)
    requires n >= 1
    ensures Holds(PeriodOf(kind, n), n) && Start(kind, n) >= 1
  {
    MonthEndIsNextMonth(n);
    if YearOf(n) > 1 {
      YearStartIncreases(1, YearOf(n));
    }
    if MonthOf(n) > 1 {
      MonthStartIncreases(YearOf(n), 1, MonthOf(n));
    }
  }

  /** What a period of a kind is made from. */
  ghost predicate Alike(kind: Kind, m: int, n: int)
    requires m >= 1 && n >= 1
  {
    match kind
    case Day => m == n
    case Week => MondayOf(m) == MondayOf(n)
    case Month => YearOf(m) == YearOf(n) && MonthOf(m) == MonthOf(n)
    case Year => YearOf(m) == YearOf(n)
  }

  lemma AlikeLeads(kind: Kind, m: int, n: int)
    requires m >= 1 && n >= 1 && Alike(kind, m, n)
    ensures Lead(kind, m) == Lead(kind, n)
    ensures Start(kind, m) == Start(kind, n) && End(kind, m) == End(kind, n)
  {
  }

  lemma AlikeTails(kind: Kind, m: int, n: int, letter: char)
    requires m >= 1 && n >= 1 && Alike(kind, m, n)
    ensures Tail(kind, m, letter) == Tail(kind, n, letter)
  {
    match kind
    case Day =>
    case Week =>
      assert IsoWeek(m) == IsoWeek(n);
    case Month =>
    case Year =>
  }

  lemma AlikePeriods(kind: Kind, m: int, n: int)
    requires m >= 1 && n >= 1 && Alike(kind, m, n)
    ensures PeriodOf(kind, m) == PeriodOf(kind, n)
  {
    AlikeLeads(kind, m, n);
    AlikeTails(kind, m, n, 'W');
    AlikeTails(kind, m, n, 'w');
  }

  lemma SameMonth(m: int, n: int)
    requires m >= 1 && n >= 1 && Start(Month, n) <= m < End(Month, n)
    ensures YearOf(m) == YearOf(n) && MonthOf(m) == MonthOf(n)
  {
    MonthEndIsNextMonth(n);
    MonthIsUnique(m, YearOf(n), MonthOf(n));
  }

  lemma InsideIsAlike(kind: Kind, m: int, n: int)
    requires m >= 1 && n >= 1 && Start(kind, n) <= m < End(kind, n)
    ensures Alike(kind, m, n)
  {
    match kind
    case Day =>
    case Week =>
      MondayIsUnique(m, n);
    case Month =>
      SameMonth(m, n);
    case Year =>
      YearIsUnique(m, YearOf(n));
  }

  /** Every day of a period has that same period, so two periods of a kind are equal
      or have no day in common. */
  lemma SamePeriod(kind: Kind, m: int, n: int)
    requires m >= 1 && n >= 1 && Holds(PeriodOf(kind, n), m)
    ensures PeriodOf(kind, m) == PeriodOf(kind, n)
  {
    InsideIsAlike(kind, m, n);
    AlikePeriods(kind, m, n);
  }

  lemma PeriodsAreEqualOrDisjoint(kind: Kind, m: int, n: int)
    requires m >= 1 && n >= 1
    ensures PeriodOf(kind, m) == PeriodOf(kind, n)
            || PeriodOf(kind, m).end <= PeriodOf(kind, n).start
            || PeriodOf(kind, n).end <= PeriodOf(kind, m).start
  {
    DayIsInItsPeriod(kind, m);
    DayIsInItsPeriod(kind, n);
    var p, q := PeriodOf(kind, m), PeriodOf(kind, n);
    var later := if p.start < q.start then q.start else p.start;
    if later < p.end && later < q.end {
      SamePeriod(kind, later, m);
      SamePeriod(kind, later, n);
    }
  }

  // ---------------------------------------------------------------------- the keys --

  ghost predicate NoDash(s: string) {
    forall i :: 0 <= i < |s| ==> s[i] != '-'
  }

  /** The text up to the first dash is read back. */
  lemma {:induction false} DashSplits(a: string, b: string, r: string, s: string)
    requires NoDash(a) && NoDash(b)
    requires r == "" || r[0] == '-'
    requires s == "" || s[0] == '-'
    requires a + r == b + s
    ensures a == b && r == s
  {
    assert a != "" ==> (a + r)[0] == a[0];
    assert b != "" ==> (b + s)[0] == b[0];
    assert a == "" ==> a + r == r;
    assert b == "" ==> b + s == s;
    if a != "" {
      assert (a + r)[1..] == a[1..] + r && (b + s)[1..] == b[1..] + s;
      DashSplits(a[1..], b[1..], r, s);
      assert a == [a[0]] + a[1..] && b == [b[0]] + b[1..];
    }
  }

  /** The year number behind the lead. */
  function Number(kind: Kind, n: int): nat
    requires n >= 1
  {
    if kind == Week then IsoYear(n) else YearOf(n)
  }

  lemma LeadFacts(kind: Kind, n: int)
    requires n >= 1
    ensures Digits(Lead(kind, n)) && Value(Lead(kind, n)) == Number(kind, n) && NoDash(Lead(kind, n))
  {
    Pad4Facts(YearOf(n));
    ValueOfDecimal(Number(kind, n));
  }

  lemma Pad2Injective(a: nat, b: nat)
    requires Pad2(a) == Pad2(b)
    ensures a == b
  {
    Pad2Facts(a);
    Pad2Facts(b);
  }

  lemma DayTailTells(m: nat, d: nat, n: nat, e: nat)
    requires m < 100 && n < 100
    requires "-" + (Pad2(m) + ("-" + Pad2(d))) == "-" + (Pad2(n) + ("-" + Pad2(e)))
    ensures m == n && d == e
  {
    EqualHalves("-", "-", Pad2(m) + ("-" + Pad2(d)), Pad2(n) + ("-" + Pad2(e)));
    EqualHalves(Pad2(m), Pad2(n), "-" + Pad2(d), "-" + Pad2(e));
    EqualHalves("-", "-", Pad2(d), Pad2(e));
    Pad2Injective(m, n);
    Pad2Injective(d, e);
  }

  lemma MonthTailTells(m: nat, n: nat)
    requires "-" + Pad2(m) == "-" + Pad2(n)
    ensures m == n
  {
    assert Pad2(m) == ("-" + Pad2(m))[1..] && Pad2(n) == ("-" + Pad2(n))[1..];
    Pad2Injective(m, n);
  }

  lemma WeekTailTells(m: nat, n: nat, letter: char)
    requires "-" + ([letter] + Pad2(m)) == "-" + ([letter] + Pad2(n))
    ensures m == n
  {
    var a, b := [letter] + Pad2(m), [letter] + Pad2(n);
    assert a == ("-" + a)[1..] && b == ("-" + b)[1..];
    assert Pad2(m) == a[1..] && Pad2(n) == b[1..];
    Pad2Injective(m, n);
  }

  /** The rest of the key tells the week, the month, or the month and day. */
  lemma TailTells(kind: Kind, m: int, n: int, letter: char)
    requires m >= 1 && n >= 1 && Tail(kind, m, letter) == Tail(kind, n, letter)
    ensures kind == Week ==> IsoWeek(m) == IsoWeek(n)
    ensures kind == Month || kind == Day ==> MonthOf(m) == MonthOf(n)
    ensures kind == Day ==> DayOfMonth(m) == DayOfMonth(n)
  {
    match kind
    case Week =>
      WeekTailTells(IsoWeek(m), IsoWeek(n), letter);
    case Month =>
      MonthTailTells(MonthOf(m), MonthOf(n));
    case Day =>
      DayTailTells(MonthOf(m), DayOfMonth(m), MonthOf(n), DayOfMonth(n));
    case Year =>
  }

  lemma LabelTells(kind: Kind, m: int, n: int, letter: char)
    requires m >= 1 && n >= 1
    requires Lead(kind, m) + Tail(kind, m, letter) == Lead(kind, n) + Tail(kind, n, letter)
    ensures Start(kind, m) == Start(kind, n)
  {
    LeadFacts(kind, m);
    LeadFacts(kind, n);
    DashSplits(Lead(kind, m), Lead(kind, n), Tail(kind, m, letter), Tail(kind, n, letter));
    TailTells(kind, m, n, letter);
    if kind == Week {
      IsoWeekIdentifiesMonday(m, n);
    }
  }

  /** Inside a kind, a key names one period: keys are equal exactly when the periods
      are, which is exactly when they start on the same day. */
  lemma KeyNamesPeriod(kind: Kind, m: int, n: int)
    requires m >= 1 && n >= 1
    ensures Key(kind, m) == Key(kind, n) <==> PeriodOf(kind, m) == PeriodOf(kind, n)
    ensures Start(kind, m) == Start(kind, n) <==> PeriodOf(kind, m) == PeriodOf(kind, n)
  {
    if Key(kind, m) == Key(kind, n) {
      LabelTells(kind, m, n, 'W');
    }
    if Start(kind, m) == Start(kind, n) {
      DayIsInItsPeriod(kind, m);
      DayIsInItsPeriod(kind, n);
      SamePeriod(kind, Start(kind, m), m);
      SamePeriod(kind, Start(kind, n), n);
    }
  }

  lemma TailShape(kind: Kind, n: int, letter: char)
    requires n >= 1
    ensures var t := Tail(kind, n, letter);
            && (t == "" || t[0] == '-')
            && |t| == (match kind case Day => 6 case Week => 4 case Month => 3 case Year => 0)
  {
  }

  lemma PrefixIsNotIndex(rest: string)
    ensures SLUG_PREFIX + rest != INDEX_SLUG
  {
    assert (SLUG_PREFIX + rest)[11] == 'a' && INDEX_SLUG[11] == 'r';
  }

  lemma SameSlugSameKind(kind: Kind, m: int, other: Kind, n: int)
    requires m >= 1 && n >= 1
    requires Lead(kind, m) + Tail(kind, m, 'w') == Lead(other, n) + Tail(other, n, 'w')
    ensures kind == other
  {
    LeadFacts(kind, m);
    LeadFacts(other, n);
    TailShape(kind, m, 'w');
    TailShape(other, n, 'w');
    DashSplits(Lead(kind, m), Lead(other, n), Tail(kind, m, 'w'), Tail(other, n, 'w'));
  }

  /** Across kinds, a slug names one period, so no two editions of a build share a
      slug, and none has the slug of the index. */
  lemma SlugNamesPeriod(kind: Kind, m: int, other: Kind, n: int)
    requires m >= 1 && n >= 1
    ensures Slug(kind, m) == Slug(other, n) <==> PeriodOf(kind, m) == PeriodOf(other, n)
    ensures Slug(kind, m) != INDEX_SLUG
  {
    PrefixIsNotIndex(Lead(kind, m) + Tail(kind, m, 'w'));
    if Slug(kind, m) == Slug(other, n) {
      EqualHalves(SLUG_PREFIX, SLUG_PREFIX, Lead(kind, m) + Tail(kind, m, 'w'), Lead(other, n) + Tail(other, n, 'w'));
      SameSlugSameKind(kind, m, other, n);
      LabelTells(kind, m, n, 'w');
      KeyNamesPeriod(kind, m, n);
    }
  }

  // ------------------------------------------------------------ keys in time order --

  lemma {:induction false} BeforeExtends(a: string, b: string, s: string, t: string)
    requires |a| == |b| && Before(a, b)
    ensures Before(a + s, b + t)
  {
    assert (a + s)[1..] == a[1..] + s && (b + t)[1..] == b[1..] + t;
    if a[0] == b[0] {
      BeforeExtends(a[1..], b[1..], s, t);
    }
  }

  lemma Pad2Order(a: nat, b: nat)
    requires a < b < 100
    ensures Before(Pad2(a), Pad2(b)) && |Pad2(a)| == |Pad2(b)| == 2
  {
    Pad2Facts(a);
    Pad2Facts(b);
    DigitOrder(Pad2(a), Pad2(b));
  }

  /** Inside one year the rest of the key is in time order. */
  lemma TailOrder(kind: Kind, m: int, n: int)
    requires m >= 1 && n >= 1
    requires Number(kind, m) == Number(kind, n) && Start(kind, m) < Start(kind, n)
    ensures Before(Tail(kind, m, 'W'), Tail(kind, n, 'W'))
  {
    match kind
    case Week =>
      IsoWeekOrdersMondays(m, n);
      Pad2Order(IsoWeek(m), IsoWeek(n));
      BeforeSkips("W", Pad2(IsoWeek(m)), Pad2(IsoWeek(n)));
      BeforeSkips("-", "W" + Pad2(IsoWeek(m)), "W" + Pad2(IsoWeek(n)));
    case Month =>
      MonthNumbersGrow(m, n);
      Pad2Order(MonthOf(m), MonthOf(n));
      BeforeSkips("-", Pad2(MonthOf(m)), Pad2(MonthOf(n)));
    case Day =>
      DayTailOrder(m, n);
    case Year =>
  }

  lemma MonthNumbersGrow(m: int, n: int)
    requires 1 <= m && 1 <= n && YearOf(m) == YearOf(n) && Start(Month, m) < Start(Month, n)
    ensures MonthOf(m) < MonthOf(n)
  {
    if MonthOf(n) < MonthOf(m) {
      MonthStartIncreases(YearOf(n), MonthOf(n), MonthOf(m));
    }
  }

  lemma DayTailOrder(m: int, n: int)
    requires 1 <= m < n && YearOf(m) == YearOf(n)
    ensures Before(Tail(Day, m, 'W'), Tail(Day, n, 'W'))
  {
    var a, b := Pad2(MonthOf(m)), Pad2(MonthOf(n));
    var r, s := "-" + Pad2(DayOfMonth(m)), "-" + Pad2(DayOfMonth(n));
    if MonthOf(m) == MonthOf(n) {
      Pad2Order(DayOfMonth(m), DayOfMonth(n));
      BeforeSkips("-", Pad2(DayOfMonth(m)), Pad2(DayOfMonth(n)));
      BeforeSkips(a, r, s);
    } else {
      if MonthOf(n) < MonthOf(m) && MonthOf(n) + 1 < MonthOf(m) {
        MonthStartIncreases(YearOf(n), MonthOf(n) + 1, MonthOf(m));
      }
      Pad2Order(MonthOf(m), MonthOf(n));
      BeforeExtends(a, b, r, s);
    }
    BeforeSkips("-", a + r, b + s);
  }

  /** Among years written with the same number of digits, string order of keys is time
      order. */
  lemma KeyOrderIsTimeOrder(kind: Kind, m: int, n: int)
    requires m >= 1 && n >= 1
    requires |Lead(kind, m)| == |Lead(kind, n)|
    requires Start(kind, m) < Start(kind, n)
    ensures Before(Key(kind, m), Key(kind, n))
  {
    LeadFacts(kind, m);
    LeadFacts(kind, n);
    NumbersGrow(kind, m, n);
    DigitOrder(Lead(kind, m), Lead(kind, n));
    if Number(kind, m) == Number(kind, n) {
      TailOrder(kind, m, n);
      BeforeSkips(Lead(kind, m), Tail(kind, m, 'W'), Tail(kind, n, 'W'));
    } else {
      BeforeExtends(Lead(kind, m), Lead(kind, n), Tail(kind, m, 'W'), Tail(kind, n, 'W'));
    }
  }

  lemma NumbersGrow(kind: Kind, m: int, n: int)
    requires m >= 1 && n >= 1 && Start(kind, m) < Start(kind, n)
    ensures Number(kind, m) <= Number(kind, n)
  {
    PeriodsAreEqualOrDisjoint(kind, m, n);
    DayIsInItsPeriod(kind, m);
    DayIsInItsPeriod(kind, n);
    if kind == Week {
      IsoWeekOrdersMondays(m, n);
    } else {
      YearOfIncreases(m, n);
    }
  }

  /** Year keys of a run of years sort in time order exactly when the first and the
      last year have the same number of digits: from year 999 to year 1000 they do not. */
  lemma YearKeysSortIff(lo: nat, hi: nat)
    requires 1 <= lo <= hi
    ensures InOrder(lo, hi) <==> |Decimal(lo)| == |Decimal(hi)|
    ensures !InOrder(999, 1000)
    ensures forall n :: n >= 1 ==> Key(Year, n) == Decimal(YearOf(n))
  {
    DecimalsSortIff(lo, hi);
    ThousandsHaveFourDigits(1000);
    assert |Decimal(99)| == 2 && |Decimal(999)| == 3;
    DecimalsSortIff(999, 1000);
  }
}
