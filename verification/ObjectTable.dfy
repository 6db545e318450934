/** `objectTable`: a read-only array of flat objects as an aligned text table. */
module ObjectTable {
  import opened Subsequences
  import opened Wrappers
  import opened TextOrder
  import Numerals

  const MAX_ROWS: nat := 6
  const FLOOR: nat := 3
  const ELLIPSIS := '\U{2026}'

  datatype Value = Text(s: string) | Number(rendered: string) | Boolean(b: bool) | Missing | Nested

  type Record = map<string, Value>

  /** A JSON array entry: an object, or null. */
  datatype Entry = Object(record: Record) | NullEntry

  /** Terminal cells per character, and upper-casing. */
  datatype Metric = Metric(width: char -> nat, upper: string -> string)

  /** What is used of display width: printable ASCII and the ellipsis take one cell. */
  ghost predicate IsMetric(m: Metric) {
    m.width(ELLIPSIS) == 1 && forall c :: ' ' <= c <= '~' ==> m.width(c) == 1
  }

  // ---------------------------------------------------------------------- widths --

  function Width(m: Metric, s: string): nat {
    if s == "" then 0 else m.width(s[0]) + Width(m, s[1..])
  }

  lemma {:induction false} WidthConcat(m: Metric, a: string, b: string)
    ensures Width(m, a + b) == Width(m, a) + Width(m, b)
  {
    if a == "" {
      assert a + b == b;
    } else {
      WidthConcat(m, a[1..], b);
      assert (a + b)[1..] == a[1..] + b;
    }
  }

  function Sum(xs: seq<nat>): nat {
    if xs == [] then 0 else xs[0] + Sum(xs[1..])
  }

  lemma {:induction false} SumConcat(a: seq<nat>, b: seq<nat>)
    ensures Sum(a + b) == Sum(a) + Sum(b)
  {
    if a == [] {
      assert a + b == b;
    } else {
      SumConcat(a[1..], b);
      assert (a + b)[1..] == a[1..] + b;
    }
  }

  lemma SumUpdate(w: seq<nat>, i: nat, x: nat)
    requires i < |w|
    ensures Sum(w[i := x]) == Sum(w) - w[i] + x
  {
    assert w == w[..i] + ([w[i]] + w[i + 1..]);
    assert w[i := x] == w[..i] + ([x] + w[i + 1..]);
    SumConcat(w[..i], [w[i]] + w[i + 1..]);
    SumConcat(w[..i], [x] + w[i + 1..]);
  }

  // -------------------------------------------------------------- the shrink loop --

  /** Leftmost widest column of the first `n`. */
  function Widest(w: seq<nat>, n: nat): (k: nat)
    requires 0 < n <= |w|
    ensures k < n
    ensures forall i :: 0 <= i < n ==> w[i] <= w[k]
    ensures forall i :: 0 <= i < k ==> w[i] < w[k]
  {
    if n == 1 then 0
    else
      var k := Widest(w, n - 1);
      if w[n - 1] > w[k] then n - 1 else k
  }

  /** Some column is wider than the floor when the budget allows the floor for all. */
  lemma {:induction false} SumOfFloors(w: seq<nat>)
    requires forall i :: 0 <= i < |w| ==> w[i] <= FLOOR
    ensures Sum(w) <= FLOOR * |w|
  {
    if w != [] {
      SumOfFloors(w[1..]);
    }
  }

  lemma WidestIsAboveFloor(w: seq<nat>, budget: nat)
    requires w != [] && FLOOR * |w| <= budget < Sum(w)
    ensures w[Widest(w, |w|)] > FLOOR
  {
    if w[Widest(w, |w|)] <= FLOOR {
      SumOfFloors(w);
    }
  }

  /** The widths the loop settles on. */
  function Fit(w: seq<nat>, budget: nat): (r: seq<nat>)
    requires w != [] && FLOOR * |w| <= budget
    ensures |r| == |w|
    decreases Sum(w)
  {
    if Sum(w) <= budget then w
    else
      var k := Widest(w, |w|);
      WidestIsAboveFloor(w, budget);
      SumUpdate(w, k, w[k] - 1);
      Fit(w[k := w[k] - 1], budget)
  }

  method FindWidest(w: array<nat>) returns (widest: nat)
    requires w.Length > 0
    ensures widest == Widest(w[..], w.Length)
  {
    widest := 0;
    for i := 1 to w.Length
      invariant widest == Widest(w[..], i)
    {
      if w[i] > w[widest] {
        widest := i;
      }
    }
  }

  lemma FitStep(w: seq<nat>, budget: nat)
    requires w != [] && FLOOR * |w| <= budget < Sum(w)
    ensures var k := Widest(w, |w|);
            && w[k] > FLOOR
            && Fit(w, budget) == Fit(w[k := w[k] - 1], budget)
            && Sum(w[k := w[k] - 1]) < Sum(w)
  {
    var k := Widest(w, |w|);
    WidestIsAboveFloor(w, budget);
    SumUpdate(w, k, w[k] - 1);
  }

  /** `for total := sum(w); total > budget; ...`, in place.  The branch that gives up
      on a column of width three or less cannot be reached. */
  method Shrink(w: array<nat>, budget: nat)
    requires w.Length > 0 && FLOOR * w.Length <= budget
    modifies w
    ensures w[..] == Fit(old(w[..]), budget)
  {
    while Sum(w[..]) > budget
      invariant Fit(w[..], budget) == Fit(old(w[..]), budget)
      decreases Sum(w[..])
    {
      var widest := FindWidest(w);
      ghost var before := w[..];
      FitStep(before, budget);
      if w[widest] <= FLOOR {
        assert false;
      } else {
        w[widest] := w[widest] - 1;
        assert w[..] == before[widest := before[widest] - 1];
      }
    }
  }

  /** How far the loop has come: every column above the water level has been brought
      down to it, and the leftmost of those one further. */
  ghost predicate IsLevelled(natural: seq<nat>, w: seq<nat>, level: nat) {
    && |w| == |natural| && 0 < level
    && (exists i :: 0 <= i < |w| && w[i] == level)
    && (forall i :: 0 <= i < |w| ==>
          if natural[i] < level then w[i] == natural[i] else level - 1 <= w[i] <= level)
    && (forall i, j :: 0 <= i < j < |w| && natural[i] >= level && natural[j] >= level && w[j] == level - 1 ==>
          w[i] == level - 1)
  }

  lemma StartIsLevelled(natural: seq<nat>)
    requires natural != [] && Sum(natural) > FLOOR * |natural|
    ensures IsLevelled(natural, natural, natural[Widest(natural, |natural|)])
  {
    WidestIsAboveFloor(natural, FLOOR * |natural|);
  }

  /** One trim keeps the picture, at the same level or the next. */
  lemma TrimKeepsLevel(natural: seq<nat>, w: seq<nat>, level: nat)
    requires IsLevelled(natural, w, level) && level > 1
    ensures var k := Widest(w, |w|);
            && w[k] == level
            && (var t := w[k := level - 1]; IsLevelled(natural, t, level) || IsLevelled(natural, t, level - 1))
  {
    var k := Widest(w, |w|);
    var i :| 0 <= i < |w| && w[i] == level;
    assert w[k] == level;
    var t := w[k := level - 1];
    if j :| 0 <= j < |t| && t[j] == level {
      assert IsLevelled(natural, t, level);
    } else {
      assert t[k] == level - 1;
      assert forall j :: 0 <= j < |t| ==> t[j] <= level - 1;
      assert IsLevelled(natural, t, level - 1);
    }
  }

  lemma {:induction false} FitIsLevelled(natural: seq<nat>, w: seq<nat>, budget: nat, level: nat)
    requires w != [] && FLOOR * |w| <= budget && IsLevelled(natural, w, level)
    ensures exists l: nat :: l <= level && IsLevelled(natural, Fit(w, budget), l)
    decreases Sum(w)
  {
    if Sum(w) > budget {
      var k := Widest(w, |w|);
      FitStep(w, budget);
      assert w[k] == level;
      TrimKeepsLevel(natural, w, level);
      var t := w[k := w[k] - 1];
      FitIsLevelled(natural, t, budget, if IsLevelled(natural, t, level) then level else level - 1);
      var l: nat :| l <= level && IsLevelled(natural, Fit(t, budget), l);
      assert IsLevelled(natural, Fit(w, budget), l);
    } else {
      assert IsLevelled(natural, Fit(w, budget), level);
    }
  }

  lemma {:induction false} FitTotal(w: seq<nat>, budget: nat)
    requires w != [] && FLOOR * |w| <= budget
    ensures Sum(Fit(w, budget)) == if Sum(w) <= budget then Sum(w) else budget
    decreases Sum(w)
  {
    if Sum(w) > budget {
      var k := Widest(w, |w|);
      WidestIsAboveFloor(w, budget);
      SumUpdate(w, k, w[k] - 1);
      FitTotal(w[k := w[k] - 1], budget);
    }
  }

  lemma {:induction false} TrimmedKeepsFloor(w: seq<nat>, budget: nat, i: nat)
    requires w != [] && FLOOR * |w| <= budget && i < |w|
    ensures Fit(w, budget)[i] <= w[i]
    ensures Fit(w, budget)[i] < w[i] ==> Fit(w, budget)[i] >= FLOOR
    decreases Sum(w)
  {
    if Sum(w) > budget {
      var k := Widest(w, |w|);
      WidestIsAboveFloor(w, budget);
      SumUpdate(w, k, w[k] - 1);
      TrimmedKeepsFloor(w[k := w[k] - 1], budget, i);
    }
  }

  /** What the loop achieves: the total is the natural total or the whole budget, no
      column grows, and a trimmed column keeps at least three cells and is within one
      of the widest. */
  lemma FitIsFair(natural: seq<nat>, budget: nat)
    requires natural != [] && FLOOR * |natural| <= budget
    ensures var w := Fit(natural, budget);
            && Sum(w) == (if Sum(natural) <= budget then Sum(natural) else budget)
            && (forall i :: 0 <= i < |w| ==> w[i] <= natural[i])
            && (forall i, j :: 0 <= i < |w| && 0 <= j < |w| && w[i] < natural[i] ==> FLOOR <= w[i] && w[j] <= w[i] + 1)
  {
    var w := Fit(natural, budget);
    FitTotal(natural, budget);
    forall i | 0 <= i < |w|
      ensures w[i] <= natural[i] && (w[i] < natural[i] ==> w[i] >= FLOOR)
    {
      TrimmedKeepsFloor(natural, budget, i);
    }
    if Sum(natural) > budget {
      StartIsLevelled(natural);
      FitIsLevelled(natural, natural, budget, natural[Widest(natural, |natural|)]);
    }
  }

  lemma {:induction false} SumMonotone(a: seq<nat>, b: seq<nat>)
    requires |a| == |b| && forall i :: 0 <= i < |a| ==> a[i] <= b[i]
    ensures Sum(a) <= Sum(b)
    ensures (exists i :: 0 <= i < |a| && a[i] < b[i]) ==> Sum(a) < Sum(b)
  {
    if a != [] {
      SumMonotone(a[1..], b[1..]);
      if i :| 0 <= i < |a| && a[i] < b[i] {
        if i > 0 {
          assert a[1..][i - 1] < b[1..][i - 1];
        }
      }
    }
  }

  /** The trimming is optimal: no assignment below the natural widths with the same
      total has a narrower widest column. */
  lemma FitIsMinimax(natural: seq<nat>, budget: nat, other: seq<nat>)
    requires natural != [] && FLOOR * |natural| <= budget
    requires |other| == |natural| && (forall i :: 0 <= i < |other| ==> other[i] <= natural[i])
    requires Sum(other) == Sum(Fit(natural, budget))
    ensures var w := Fit(natural, budget); w[Widest(w, |w|)] <= other[Widest(other, |other|)]
  {
    var w := Fit(natural, budget);
    var k, top := Widest(w, |w|), other[Widest(other, |other|)];
    FitIsFair(natural, budget);
    if top < w[k] {
      forall i | 0 <= i < |w|
        ensures other[i] <= w[i]
      {
        if w[i] < natural[i] {
          assert w[k] <= w[i] + 1;
        }
      }
      assert other[k] < w[k];
      SumMonotone(other, w);
    }
  }

  // ------------------------------------------------------------------------ cells --

  function Spaces(n: nat): (s: string)
    ensures |s| == n
  {
    if n == 0 then "" else " " + Spaces(n - 1)
  }

  lemma {:induction false} SpacesWidth(m: Metric, n: nat)
    requires IsMetric(m)
    ensures Width(m, Spaces(n)) == n
  {
    if n > 0 {
      SpacesWidth(m, n - 1);
    }
  }

  /** The longest beginning at most `n` cells wide. */
  function Prefix(m: Metric, s: string, n: nat): string {
    if s == "" || m.width(s[0]) > n then "" else [s[0]] + Prefix(m, s[1..], n - m.width(s[0]))
  }

  /** `ansi.Truncate` on text without control sequences. */
  function Truncate(m: Metric, s: string, n: nat, tail: string): string {
    if Width(m, s) <= n then s
    else if Width(m, tail) > n then ""
    else Prefix(m, s, n - Width(m, tail)) + tail
  }

  function Pad(m: Metric, s: string, n: nat): string {
    if Width(m, s) > n then Truncate(m, s, n, if n <= 1 then "" else [ELLIPSIS])
    else s + Spaces(n - Width(m, s))
  }

  lemma {:induction false} PrefixFits(m: Metric, s: string, n: nat)
    ensures Width(m, Prefix(m, s, n)) <= n
    ensures (forall c :: m.width(c) <= 1) && Width(m, s) >= n ==> Width(m, Prefix(m, s, n)) == n
  {
    if s != "" && m.width(s[0]) <= n {
      PrefixFits(m, s[1..], n - m.width(s[0]));
      assert ([s[0]] + Prefix(m, s[1..], n - m.width(s[0])))[1..] == Prefix(m, s[1..], n - m.width(s[0]));
    }
  }

  /** A padded cell never overflows its column, and fills it exactly unless a wide
      character had to be cut off at the edge. */
  lemma PadFits(m: Metric, s: string, n: nat)
    requires IsMetric(m)
    ensures Width(m, Pad(m, s, n)) <= n
    ensures Width(m, s) <= n || (forall c :: m.width(c) <= 1) ==> Width(m, Pad(m, s, n)) == n
  {
    if Width(m, s) > n {
      var tail := if n <= 1 then "" else [ELLIPSIS];
      assert Width(m, [ELLIPSIS]) == 1 by { assert [ELLIPSIS][1..] == ""; }
      PrefixFits(m, s, n - Width(m, tail));
      WidthConcat(m, Prefix(m, s, n - Width(m, tail)), tail);
    } else {
      SpacesWidth(m, n - Width(m, s));
      WidthConcat(m, s, Spaces(n - Width(m, s)));
    }
  }

  function CellText(r: Record, key: string): string {
    if key !in r then ""
    else
      match r[key]
      case Text(s) => s
      case Number(rendered) => rendered
      case Boolean(b) => if b then "true" else "false"
      case Missing => ""
      case Nested => ""
  }

  // ---------------------------------------------------------------------- columns --

  predicate IsFlat(e: Entry) {
    e.Object? && forall k | k in e.record :: e.record[k] != Nested
  }

  function Elements(s: seq<string>): set<string> {
    set x | x in s
  }

  /** The columns after one more row: its new keys, sorted, go last. */
  ghost function AddColumns(cols: seq<string>, r: Record): seq<string> {
    cols + Sorted(r.Keys - Elements(cols))
  }

  ghost function Columns(rows: seq<Entry>): seq<string> {
    if rows == [] then []
    else
      var before := Columns(rows[..|rows| - 1]);
      var last := rows[|rows| - 1];
      if last.Object? then AddColumns(before, last.record) else before
  }

  /** The columns are the keys of all rows, each once. */
  lemma {:induction false} ColumnsAreUnion(rows: seq<Entry>)
    ensures forall k :: k in Columns(rows) <==> exists e :: e in rows && e.Object? && k in e.record
    ensures Distinct(Columns(rows))
  {
    if rows != [] {
      var front, last := rows[..|rows| - 1], rows[|rows| - 1];
      assert rows == front + [last];
      ColumnsAreUnion(front);
      var before := Columns(front);
      if last.Object? {
        var extra := Sorted(last.record.Keys - Elements(before));
        assert Columns(rows) == before + extra;
        assert forall k :: k in before + extra <==> k in before || k in last.record;
        DistinctUnion(before, extra);
      }
    }
  }

  lemma DistinctUnion(a: seq<string>, b: seq<string>)
    requires forall i, j :: 0 <= i < j < |a| ==> a[i] != a[j]
    requires IsSorted(b) && forall k :: k in b ==> k !in a
    ensures forall i, j :: 0 <= i < j < |a + b| ==> (a + b)[i] != (a + b)[j]
  {
    forall i, j | 0 <= i < j < |a + b|
      ensures (a + b)[i] != (a + b)[j]
    {
      if i >= |a| {
        BeforeIsStrict(b[i - |a|], b[j - |a|]);
      } else if j >= |a| {
        assert b[j - |a|] in b;
      }
    }
  }

  method CollectColumns(rows: seq<Entry>) returns (flat: bool, cols: seq<string>)
    ensures flat <==> forall e :: e in rows ==> IsFlat(e)
    ensures flat ==> cols == Columns(rows)
  {
    cols := [];
    for i := 0 to |rows|
      invariant forall e :: e in rows[..i] ==> IsFlat(e)
      invariant cols == Columns(rows[..i])
    {
      assert rows[..i + 1] == rows[..i] + [rows[i]];
      assert rows[..i + 1][..i] == rows[..i];
      if !IsFlat(rows[i]) {
        assert rows[i] in rows;
        return false, [];
      }
      var extra := SortKeys(rows[i].record.Keys - Elements(cols));
      cols := cols + extra;
    }
    assert rows[..|rows|] == rows;
    flat := true;
  }

  // -------------------------------------------------------------------- the table --

  function Shown(rows: seq<Entry>): seq<Entry> {
    if |rows| > MAX_ROWS then rows[..MAX_ROWS] else rows
  }

  function EntryText(e: Entry, key: string): string {
    if e.Object? then CellText(e.record, key) else ""
  }

  function Max(a: nat, b: nat): nat {
    if a >= b then a else b
  }

  /** Widest of the header and the shown cells of a column. */
  function NaturalWidth(m: Metric, rows: seq<Entry>, key: string): nat {
    if rows == [] then Width(m, key)
    else Max(NaturalWidth(m, rows[..|rows| - 1], key), Width(m, EntryText(rows[|rows| - 1], key)))
  }

  function NaturalWidths(m: Metric, rows: seq<Entry>, cols: seq<string>): (w: seq<nat>)
    ensures |w| == |cols|
  {
    seq(|cols|, i requires 0 <= i < |cols| => NaturalWidth(m, rows, cols[i]))
  }

  function JoinCells(cells: seq<string>): string {
    if cells == [] then "" else if |cells| == 1 then cells[0] else cells[0] + "  " + JoinCells(cells[1..])
  }

  function HeaderLine(m: Metric, cols: seq<string>, w: seq<nat>): string
    requires |w| == |cols|
  {
    JoinCells(seq(|cols|, i requires 0 <= i < |cols| => Pad(m, m.upper(cols[i]), w[i])))
  }

  function DataLine(m: Metric, cols: seq<string>, w: seq<nat>, e: Entry): string
    requires |w| == |cols|
  {
    JoinCells(seq(|cols|, i requires 0 <= i < |cols| => Pad(m, EntryText(e, cols[i]), w[i])))
  }

  lemma {:induction false} JoinedWidth(m: Metric, cells: seq<string>, w: seq<nat>)
    requires IsMetric(m) && |cells| == |w| > 0
    requires forall i :: 0 <= i < |cells| ==> Width(m, cells[i]) <= w[i]
    ensures Width(m, JoinCells(cells)) <= Sum(w) + 2 * (|w| - 1)
  {
    if |cells| > 1 {
      JoinedWidth(m, cells[1..], w[1..]);
      WidthConcat(m, cells[0] + "  ", JoinCells(cells[1..]));
      WidthConcat(m, cells[0], "  ");
      SpacesWidth(m, 2);
      assert Spaces(2) == "  " by { assert Spaces(1) == " " + Spaces(0); }
    }
  }

  ghost predicate IsTableShaped(rows: seq<Entry>, width: int) {
    && rows != [] && (forall e :: e in rows ==> IsFlat(e))
    && Columns(rows) != []
    && width - 2 * (|Columns(rows)| - 1) >= FLOOR * |Columns(rows)|
  }

  function Budget(n: nat, width: int): int {
    width - 2 * (n - 1)
  }

  ghost function Widths(m: Metric, rows: seq<Entry>, width: int): (w: seq<nat>)
    requires IsTableShaped(rows, width)
    ensures |w| == |Columns(rows)|
  {
    Fit(NaturalWidths(m, Shown(rows), Columns(rows)), Budget(|Columns(rows)|, width))
  }

  lemma NaturalWidthSnoc(m: Metric, rows: seq<Entry>, row: Entry, key: string)
    ensures NaturalWidth(m, rows + [row], key) == Max(NaturalWidth(m, rows, key), Width(m, EntryText(row, key)))
  {
    assert (rows + [row])[..|rows|] == rows;
  }

  /** One row may widen every column. */
  method WidenFor(m: Metric, row: Entry, cols: seq<string>, w: array<nat>)
    requires w.Length == |cols|
    modifies w
    ensures forall c :: 0 <= c < |cols| ==> w[c] == Max(old(w[c]), Width(m, EntryText(row, cols[c])))
  {
    for i := 0 to |cols|
      invariant forall c :: 0 <= c < i ==> w[c] == Max(old(w[c]), Width(m, EntryText(row, cols[c])))
      invariant forall c :: i <= c < |cols| ==> w[c] == old(w[c])
    {
      var l := Width(m, EntryText(row, cols[i]));
      if l > w[i] {
        w[i] := l;
      }
    }
  }

  method NaturalWidthLoop(m: Metric, rows: seq<Entry>, cols: seq<string>) returns (w: array<nat>)
    ensures fresh(w) && w[..] == NaturalWidths(m, rows, cols)
  {
    w := new nat[|cols|];
    for i := 0 to |cols|
      invariant forall c :: 0 <= c < i ==> w[c] == Width(m, cols[c])
    {
      w[i] := Width(m, cols[i]);
    }
    for r := 0 to |rows|
      invariant forall c :: 0 <= c < |cols| ==> w[c] == NaturalWidth(m, rows[..r], cols[c])
    {
      assert rows[..r + 1] == rows[..r] + [rows[r]];
      WidenFor(m, rows[r], cols, w);
      forall c | 0 <= c < |cols|
        ensures w[c] == NaturalWidth(m, rows[..r + 1], cols[c])
      {
        NaturalWidthSnoc(m, rows[..r], rows[r], cols[c]);
      }
    }
    assert rows[..|rows|] == rows;
  }

  function DataLines(m: Metric, cols: seq<string>, w: seq<nat>, shown: seq<Entry>): (lines: seq<string>)
    requires |w| == |cols|
    ensures |lines| == |shown|
  {
    seq(|shown|, i requires 0 <= i < |shown| => DataLine(m, cols, w, shown[i]))
  }

  /** The remark about rows left out. */
  function MoreRows(n: nat): string {
    [ELLIPSIS] + " +" + Numerals.Decimal(n) + " more rows"
  }

  /** A header, the shown rows, and a remark when rows were left out. */
  function TableLines(m: Metric, cols: seq<string>, w: seq<nat>, rows: seq<Entry>): seq<string>
    requires |w| == |cols|
  {
    [HeaderLine(m, cols, w)] + DataLines(m, cols, w, Shown(rows))
    + (if |rows| > MAX_ROWS then [MoreRows(|rows| - MAX_ROWS)] else [])
  }

  ghost function Lines(m: Metric, rows: seq<Entry>, width: int): seq<string>
    requires IsTableShaped(rows, width)
  {
    TableLines(m, Columns(rows), Widths(m, rows, width), rows)
  }

  /** The lines, appended one by one. */
  method WriteLines(m: Metric, cols: seq<string>, w: seq<nat>, rows: seq<Entry>) returns (lines: seq<string>)
    requires |w| == |cols|
    ensures lines == TableLines(m, cols, w, rows)
  {
    var shown := Shown(rows);
    lines := [HeaderLine(m, cols, w)];
    for i := 0 to |shown|
      invariant lines == [HeaderLine(m, cols, w)] + DataLines(m, cols, w, shown)[..i]
    {
      lines := lines + [DataLine(m, cols, w, shown[i])];
    }
    if |rows| > MAX_ROWS {
      lines := lines + [MoreRows(|rows| - MAX_ROWS)];
    }
  }

  /** `objectTable`.  It renders exactly the arrays that are table-shaped for the box:
      a header, at most six rows, and a remark when rows were left out. */
  method Render(m: Metric, rows: seq<Entry>, width: int) returns (lines: seq<string>, ok: bool)
    requires IsMetric(m)
    ensures ok <==> IsTableShaped(rows, width)
    ensures lines == if ok then Lines(m, rows, width) else []
  {
    if rows == [] {
      return [], false;
    }
    var flat, cols := CollectColumns(rows);
    if !flat || cols == [] {
      return [], false;
    }
    var shown := Shown(rows);
    var natural := NaturalWidthLoop(m, shown, cols);
    var budget := Budget(|cols|, width);
    if budget < FLOOR * |cols| {
      return [], false;
    }
    Shrink(natural, budget);
    var w := natural[..];
    assert w == Widths(m, rows, width);
    lines := WriteLines(m, cols, w, rows);
    ok := true;
  }

  /** Every header and data line fits in the box. */
  lemma LinesFit(m: Metric, rows: seq<Entry>, width: int, e: Entry)
    requires IsMetric(m) && IsTableShaped(rows, width)
    ensures var cols, w := Columns(rows), Widths(m, rows, width);
            Width(m, HeaderLine(m, cols, w)) <= width && Width(m, DataLine(m, cols, w, e)) <= width
  {
    var cols, w := Columns(rows), Widths(m, rows, width);
    var natural := NaturalWidths(m, Shown(rows), cols);
    FitTotal(natural, Budget(|cols|, width));
    var header := seq(|cols|, i requires 0 <= i < |cols| => Pad(m, m.upper(cols[i]), w[i]));
    var cells := seq(|cols|, i requires 0 <= i < |cols| => Pad(m, EntryText(e, cols[i]), w[i]));
    forall i | 0 <= i < |cols|
      ensures Width(m, header[i]) <= w[i] && Width(m, cells[i]) <= w[i]
    {
      PadFits(m, m.upper(cols[i]), w[i]);
      PadFits(m, EntryText(e, cols[i]), w[i]);
    }
    JoinedWidth(m, header, w);
    JoinedWidth(m, cells, w);
  }

  lemma {:induction false} AsciiWidth(m: Metric, s: string)
    requires IsMetric(m) && forall i :: 0 <= i < |s| ==> s[i] == ELLIPSIS || ' ' <= s[i] <= '~'
    ensures Width(m, s) == |s|
  {
    if s != "" {
      AsciiWidth(m, s[1..]);
    }
  }

  lemma RemarkWidth(m: Metric, n: nat)
    requires IsMetric(m)
    ensures Width(m, MoreRows(n)) == 13 + |Numerals.Decimal(n)|
  {
    AsciiWidth(m, MoreRows(n));
    assert |" +"| == 2 && |" more rows"| == 10;
  }

  /** When the whole table fits: every rendered line is within the box exactly when no
      row was left out or the box has room for the remark, which is never fitted. */
  lemma EveryLineFitsIff(m: Metric, rows: seq<Entry>, width: int)
    requires IsMetric(m) && IsTableShaped(rows, width)
    ensures (forall line :: line in Lines(m, rows, width) ==> Width(m, line) <= width) <==>
            |rows| <= MAX_ROWS || 13 + |Numerals.Decimal(|rows| - MAX_ROWS)| <= width
  {
    var cols, w, shown := Columns(rows), Widths(m, rows, width), Shown(rows);
    var lines := Lines(m, rows, width);
    forall i | 0 <= i < 1 + |shown|
      ensures Width(m, lines[i]) <= width
    {
      if i == 0 {
        LinesFit(m, rows, width, rows[0]);
      } else {
        LinesFit(m, rows, width, shown[i - 1]);
        assert lines[i] == DataLine(m, cols, w, shown[i - 1]);
      }
    }
    if |rows| > MAX_ROWS {
      RemarkWidth(m, |rows| - MAX_ROWS);
      assert lines[1 + |shown|] == MoreRows(|rows| - MAX_ROWS);
      assert lines[1 + |shown|] in lines;
    }
  }

  const ONE_CELL: Entry := Object(map["a" := Text("b")])
  const SEVEN_ROWS: seq<Entry> := [ONE_CELL, ONE_CELL, ONE_CELL, ONE_CELL, ONE_CELL, ONE_CELL, ONE_CELL]

  /** Seven rows of one column are rendered in any box of 3 to 13 cells, and the remark
      sticks out of it. */
  lemma RemarkCanOverflow(m: Metric, width: int)
    requires IsMetric(m) && 3 <= width < 14
    ensures IsTableShaped(SEVEN_ROWS, width)
    ensures exists line :: line in Lines(m, SEVEN_ROWS, width) && Width(m, line) > width
  {
    OneColumn(SEVEN_ROWS);
    EveryLineFitsIff(m, SEVEN_ROWS, width);
  }

  lemma OneColumn(rows: seq<Entry>)
    requires rows != [] && forall i :: 0 <= i < |rows| ==> rows[i] == ONE_CELL
    ensures |Columns(rows)| == 1
  {
    ColumnsAreUnion(rows);
    var cols := Columns(rows);
    assert rows[0] in rows && rows[0] == ONE_CELL && "a" in ONE_CELL.record;
    forall k | k in cols
      ensures k == "a"
    {
      var e :| e in rows && e.Object? && k in e.record;
      var i :| 0 <= i < |rows| && rows[i] == e;
      assert k in ONE_CELL.record.Keys;
    }
    OneMember(cols, "a");
  }

  lemma OneMember<T>(s: seq<T>, x: T)
    requires Distinct(s) && x in s && forall y :: y in s ==> y == x
    ensures |s| == 1
  {
    DistinctAsSet(s);
    assert (set y | y in s) == {x};
  }
}
