/** What a rendered table shows, and where: every value under its own column. */
module TableLayout {
  import opened Wrappers
  import opened ObjectTable
  import Numerals

  // ------------------------------------------------------------------ what is promised --

  /** What a row says under a column. */
  ghost predicate Reads(e: Entry, column: string, text: string) {
    if e.Object? && column in e.record then
      match e.record[column]
      case Text(s) => text == s
      case Number(rendered) => text == rendered
      case Boolean(true) => text == "true"
      case Boolean(false) => text == "false"
      case _ => text == ""
    else text == ""
  }

  /** The text and then spaces; or, when it is too wide, its longest beginning that
      leaves a cell for the ellipsis, and the ellipsis. */
  ghost predicate IsField(m: Metric, text: string, n: nat, field: string) {
    if Width(m, text) <= n then
      && |field| == |text| + (n - Width(m, text)) && text <= field
      && forall i :: |text| <= i < |field| ==> field[i] == ' '
    else
      exists k :: 0 <= k < |text| && IsCut(m, text, n, k) && field == text[..k] + (if n > 1 then ['\U{2026}'] else "")
  }

  ghost predicate IsCut(m: Metric, text: string, n: nat, k: nat)
    requires k < |text|
  {
    var room := if n > 1 then n - 1 else n;
    Width(m, text[..k]) <= room < Width(m, text[..k + 1])
  }

  /** Where a field starts: the fields before it, two spaces after each. */
  function At(fields: seq<string>, i: nat): nat
    requires i <= |fields|
  {
    if i == 0 then 0 else At(fields, i - 1) + |fields[i - 1]| + 2
  }

  /** The line is the fields with two spaces between them. */
  ghost predicate IsSplitInto(line: string, fields: seq<string>) {
    && fields != [] && |line| + 2 == At(fields, |fields|)
    && (forall i :: 0 <= i < |fields| ==> IsFieldAt(line, fields, i))
    && (forall i :: 0 < i < |fields| ==> IsGapBefore(line, fields, i))
  }

  ghost predicate IsFieldAt(line: string, fields: seq<string>, i: nat)
    requires i < |fields|
  {
    At(fields, i) + |fields[i]| <= |line| && line[At(fields, i)..At(fields, i) + |fields[i]|] == fields[i]
  }

  ghost predicate IsGapBefore(line: string, fields: seq<string>, i: nat)
    requires i < |fields|
  {
    2 <= At(fields, i) <= |line| && line[At(fields, i) - 2..At(fields, i)] == "  "
  }

  /** The line shows the texts, each in the width of its column. */
  ghost predicate Shows(m: Metric, line: string, texts: seq<string>, w: seq<nat>) {
    && |texts| == |w|
    && exists fields: seq<string> :: IsSplitInto(line, fields) && AreFields(m, texts, w, fields)
  }

  ghost predicate AreFields(m: Metric, texts: seq<string>, w: seq<nat>, fields: seq<string>) {
    |texts| == |w| == |fields| && forall i :: 0 <= i < |fields| ==> IsField(m, texts[i], w[i], fields[i])
  }

  ghost predicate ReadsRow(e: Entry, cols: seq<string>, texts: seq<string>) {
    |texts| == |cols| && forall i :: 0 <= i < |cols| ==> Reads(e, cols[i], texts[i])
  }

  ghost predicate ShowsRow(m: Metric, line: string, e: Entry, cols: seq<string>, w: seq<nat>) {
    exists texts :: ReadsRow(e, cols, texts) && Shows(m, line, texts, w)
  }

  // ------------------------------------------------------------------------ one field --

  lemma EntryReads(e: Entry, column: string)
    ensures Reads(e, column, EntryText(e, column))
  {
  }

  lemma {:induction false} SpacesAre(n: nat)
    ensures |Spaces(n)| == n && forall i :: 0 <= i < n ==> Spaces(n)[i] == ' '
  {
    if n > 0 {
      SpacesAre(n - 1);
    }
  }

  lemma WidthOfFirst(m: Metric, s: string)
    requires s != ""
    ensures Width(m, s[..1]) == m.width(s[0])
  {
    assert s[..1][1..] == "";
  }

  lemma {:induction false} PrefixIsCut(m: Metric, s: string, room: nat) returns (k: nat)
    requires Width(m, s) > room
    ensures k < |s| && Prefix(m, s, room) == s[..k] && Width(m, s[..k]) <= room < Width(m, s[..k + 1])
  {
    if m.width(s[0]) > room {
      k := 0;
      WidthOfFirst(m, s);
    } else {
      var j := PrefixIsCut(m, s[1..], room - m.width(s[0]));
      k := j + 1;
      assert s[..k] == [s[0]] + s[1..][..j] && s[..k + 1] == [s[0]] + s[1..][..j + 1];
      WidthConcat(m, [s[0]], s[1..][..j]);
      WidthConcat(m, [s[0]], s[1..][..j + 1]);
      assert [s[0]][1..] == "";
    }
  }

  lemma PadIsField(m: Metric, text: string, n: nat)
    requires IsMetric(m)
    ensures IsField(m, text, n, Pad(m, text, n))
  {
    if Width(m, text) <= n {
      SpacesAre(n - Width(m, text));
    } else {
      var tail := if n <= 1 then "" else [ELLIPSIS];
      assert Width(m, [ELLIPSIS]) == 1 by {
        assert [ELLIPSIS][1..] == "";
      }
      var k := PrefixIsCut(m, text, n - Width(m, tail));
      assert IsCut(m, text, n, k);
    }
  }

  // ------------------------------------------------------------------------- one line --

  lemma {:induction false} AtCons(first: string, rest: seq<string>, i: nat)
    requires i <= |rest|
    ensures At([first] + rest, i + 1) == |first| + 2 + At(rest, i)
  {
    if i > 0 {
      AtCons(first, rest, i - 1);
    }
  }

  lemma JoinedCons(first: string, rest: seq<string>)
    requires rest != []
    ensures JoinCells([first] + rest) == first + "  " + JoinCells(rest)
  {
    assert ([first] + rest)[1..] == rest;
  }

  lemma SliceBehind<T>(a: seq<T>, b: seq<T>, i: nat, j: nat)
    requires i <= j <= |b|
    ensures (a + b)[|a| + i..|a| + j] == b[i..j]
  {
  }

  lemma {:induction false} SplitCons(first: string, rest: seq<string>, line: string)
    requires IsSplitInto(line, rest)
    ensures IsSplitInto(first + "  " + line, [first] + rest)
  {
    var all, whole := [first] + rest, first + "  " + line;
    var start := first + "  ";
    AtCons(first, rest, |rest|);
    forall i | 0 <= i < |all|
      ensures IsFieldAt(whole, all, i) && (i > 0 ==> IsGapBefore(whole, all, i))
    {
      if i > 0 {
        AtCons(first, rest, i - 1);
        BehindFirst(start, line, rest, all, whole, i);
      }
    }
  }

  lemma BehindFirst(start: string, line: string, rest: seq<string>, all: seq<string>, whole: string, i: nat)
    requires IsSplitInto(line, rest) && 0 < i < |all| == |rest| + 1 && all[i] == rest[i - 1] && whole == start + line
    requires |start| >= 2 && start[|start| - 2..] == "  " && At(all, i) == |start| + At(rest, i - 1)
    ensures IsFieldAt(whole, all, i) && IsGapBefore(whole, all, i)
  {
    var at := At(rest, i - 1);
    assert IsFieldAt(line, rest, i - 1);
    SliceBehind(start, line, at, at + |all[i]|);
    if i > 1 {
      assert IsGapBefore(line, rest, i - 1);
      SliceBehind(start, line, at - 2, at);
    }
  }

  lemma {:induction false} JoinedIsSplit(fields: seq<string>)
    requires fields != []
    ensures IsSplitInto(JoinCells(fields), fields)
  {
    if |fields| == 1 {
      assert At(fields, 1) == At(fields, 0) + |fields[0]| + 2;
      assert IsFieldAt(fields[0], fields, 0);
    } else {
      var rest := fields[1..];
      assert fields == [fields[0]] + rest;
      JoinedIsSplit(rest);
      JoinedCons(fields[0], rest);
      SplitCons(fields[0], rest, JoinCells(rest));
    }
  }

  lemma PaddedShows(m: Metric, texts: seq<string>, w: seq<nat>)
    requires IsMetric(m) && texts != [] && |w| == |texts|
    ensures Shows(m, JoinCells(seq(|texts|, i requires 0 <= i < |texts| => Pad(m, texts[i], w[i]))), texts, w)
  {
    var fields := seq(|texts|, i requires 0 <= i < |texts| => Pad(m, texts[i], w[i]));
    JoinedIsSplit(fields);
    forall i | 0 <= i < |fields|
      ensures IsField(m, texts[i], w[i], fields[i])
    {
      PadIsField(m, texts[i], w[i]);
    }
  }

  function HeaderTexts(m: Metric, cols: seq<string>): seq<string> {
    seq(|cols|, i requires 0 <= i < |cols| => m.upper(cols[i]))
  }

  lemma HeaderShows(m: Metric, cols: seq<string>, w: seq<nat>)
    requires IsMetric(m) && cols != [] && |w| == |cols|
    ensures Shows(m, HeaderLine(m, cols, w), HeaderTexts(m, cols), w)
  {
    var texts := HeaderTexts(m, cols);
    PaddedShows(m, texts, w);
    assert seq(|texts|, i requires 0 <= i < |texts| => Pad(m, texts[i], w[i]))
        == seq(|cols|, i requires 0 <= i < |cols| => Pad(m, m.upper(cols[i]), w[i]));
  }

  lemma DataShows(m: Metric, cols: seq<string>, w: seq<nat>, e: Entry)
    requires IsMetric(m) && cols != [] && |w| == |cols|
    ensures ShowsRow(m, DataLine(m, cols, w, e), e, cols, w)
  {
    var texts := seq(|cols|, i requires 0 <= i < |cols| => EntryText(e, cols[i]));
    PaddedShows(m, texts, w);
    assert seq(|texts|, i requires 0 <= i < |texts| => Pad(m, texts[i], w[i]))
        == seq(|cols|, i requires 0 <= i < |cols| => Pad(m, EntryText(e, cols[i]), w[i]));
    forall i | 0 <= i < |cols|
      ensures Reads(e, cols[i], texts[i])
    {
      EntryReads(e, cols[i]);
    }
    assert ReadsRow(e, cols, texts);
  }

  // ------------------------------------------------------------------------ the table --

  /** What the rendered lines are: the column names in capitals, a line for each of the
      first six rows with every value in the stretch of its own column, and a remark that
      counts the rest. */
  lemma TableShows(m: Metric, rows: seq<Entry>, width: int)
    requires IsMetric(m) && IsTableShaped(rows, width)
    ensures var lines, cols, w := Lines(m, rows, width), Columns(rows), Widths(m, rows, width);
            var shown := if |rows| > 6 then 6 else |rows|;
            && |lines| == 1 + shown + (if |rows| > 6 then 1 else 0)
            && Shows(m, lines[0], HeaderTexts(m, cols), w)
            && (forall r :: 0 <= r < shown ==> ShowsRow(m, lines[1 + r], rows[r], cols, w))
            && (|rows| > 6 ==> lines[7] == ['\U{2026}'] + " +" + Numerals.Decimal(|rows| - 6) + " more rows")
  {
    var lines, cols, w := Lines(m, rows, width), Columns(rows), Widths(m, rows, width);
    var shown := if |rows| > 6 then 6 else |rows|;
    HeaderShows(m, cols, w);
    forall r | 0 <= r < shown
      ensures ShowsRow(m, lines[1 + r], rows[r], cols, w)
    {
      assert lines[1 + r] == DataLine(m, cols, w, rows[r]);
      DataShows(m, cols, w, rows[r]);
    }
  }

  /** The width a column would like: exactly what its name and the shown values need. */
  lemma {:induction false} NaturalIsWidest(m: Metric, rows: seq<Entry>, key: string)
    ensures Width(m, key) <= NaturalWidth(m, rows, key)
    ensures forall e :: e in rows ==> Width(m, EntryText(e, key)) <= NaturalWidth(m, rows, key)
    ensures || NaturalWidth(m, rows, key) == Width(m, key)
            || exists e :: e in rows && Width(m, EntryText(e, key)) == NaturalWidth(m, rows, key)
  {
    if rows != [] {
      var front, last := rows[..|rows| - 1], rows[|rows| - 1];
      assert rows == front + [last];
      NaturalIsWidest(m, front, key);
    }
  }

  // --------------------------------------------------------------------- plain letters --

  ghost predicate IsPlain(m: Metric) {
    forall c :: m.width(c) == 1
  }

  lemma {:induction false} PlainWidth(m: Metric, s: string)
    requires IsPlain(m)
    ensures Width(m, s) == |s|
  {
    if s != "" {
      PlainWidth(m, s[1..]);
    }
  }

  lemma PlainField(m: Metric, text: string, n: nat, field: string)
    requires IsPlain(m) && IsField(m, text, n, field)
    ensures |field| == n
  {
    PlainWidth(m, text);
    if |text| > n {
      var k :| 0 <= k < |text| && IsCut(m, text, n, k) && field == text[..k] + (if n > 1 then ['\U{2026}'] else "");
      PlainWidth(m, text[..k]);
      PlainWidth(m, text[..k + 1]);
    }
  }

  function Offset(w: seq<nat>, i: nat): nat
    requires i <= |w|
  {
    if i == 0 then 0 else Offset(w, i - 1) + w[i - 1] + 2
  }

  lemma {:induction false} FieldsAlign(fields: seq<string>, w: seq<nat>, i: nat)
    requires |fields| == |w| && i <= |w| && forall j :: 0 <= j < |w| ==> |fields[j]| == w[j]
    ensures At(fields, i) == Offset(w, i)
  {
    if i > 0 {
      FieldsAlign(fields, w, i - 1);
    }
  }

  /** Where every letter takes one cell the columns line up: the text of column `i` is
      found at the same place in every line. */
  lemma ColumnsLineUp(m: Metric, line: string, texts: seq<string>, w: seq<nat>, i: nat)
    requires IsPlain(m) && Shows(m, line, texts, w) && i < |w|
    ensures Offset(w, i) + w[i] <= |line|
    ensures IsField(m, texts[i], w[i], line[Offset(w, i)..Offset(w, i) + w[i]])
  {
    var fields: seq<string> :| IsSplitInto(line, fields) && AreFields(m, texts, w, fields);
    assert |fields| == |w|;
    FieldIsAt(line, fields, i);
    AlignedAt(m, line, texts, w, fields, i);
  }

  lemma FieldIsAt(line: string, fields: seq<string>, i: nat)
    requires IsSplitInto(line, fields) && i < |fields|
    ensures IsFieldAt(line, fields, i)
  {
  }

  lemma AlignedAt(m: Metric, line: string, texts: seq<string>, w: seq<nat>, fields: seq<string>, i: nat)
    requires IsPlain(m) && AreFields(m, texts, w, fields) && i < |w| && IsFieldAt(line, fields, i)
    ensures Offset(w, i) + w[i] <= |line|
    ensures IsField(m, texts[i], w[i], line[Offset(w, i)..Offset(w, i) + w[i]])
  {
    PlainFields(m, texts, w, fields);
    FieldsAlign(fields, w, i);
    assert IsField(m, texts[i], w[i], fields[i]);
  }

  lemma PlainFields(m: Metric, texts: seq<string>, w: seq<nat>, fields: seq<string>)
    requires IsPlain(m) && AreFields(m, texts, w, fields)
    ensures forall j :: 0 <= j < |w| ==> |fields[j]| == w[j]
  {
    forall j | 0 <= j < |w|
      ensures |fields[j]| == w[j]
    {
      PlainField(m, texts[j], w[j], fields[j]);
    }
  }
}
