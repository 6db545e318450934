/** Where the texts of a list and of a table stand once it is canonical. */
module TextPlacement {
  import opened Wrappers
  import opened Json
  import opened InlineContent
  import opened TableDialects
  import opened SettledTables
  import opened CanonicalBlocks
  import opened StructureTheorems
  import opened Subsequences
  import opened TextLedger
  import opened TableLedger
  import opened TextConservation

  /** As many cells, each with the texts of its own source and in their order. */
  ghost predicate CellsStay(source: seq<Json>, made: seq<Json>) {
    |made| == |source| && forall i :: 0 <= i < |source| ==> Within(Texts(made[i]), Texts(source[i]))
  }

  lemma EachStays(vs: seq<Json>)
    requires InlineEach(vs).Some?
    ensures CellsStay(vs, InlineEach(vs).value)
  {
    EachKeeps(vs);
    var r := InlineEach(vs).value;
    forall i | 0 <= i < |vs|
      ensures Within(Texts(r[i]), Texts(vs[i]))
    {
      assert Keeps(Texts(vs[i]), Texts(r[i]), InlineLost(vs[i]));
    }
  }

  lemma CellsStayCanonical(cells: seq<Json>, header: bool)
    ensures CellsStay(cells, CanonicalCells(cells, header).items)
  {
    forall i | 0 <= i < |cells|
      ensures Within(Texts(CanonicalCells(cells, header).items[i]), Texts(cells[i]))
    {
      CellKeeps(cells[i], header);
    }
  }

  lemma CellsStayChain(a: seq<Json>, b: seq<Json>, c: seq<Json>)
    requires CellsStay(a, b) && CellsStay(b, c)
    ensures CellsStay(a, c)
  {
    forall i | 0 <= i < |a|
      ensures Within(Texts(c[i]), Texts(a[i]))
    {
      WithinTransitive(Texts(c[i]), Texts(b[i]), Texts(a[i]));
    }
  }

  // --------------------------------------------------------------------- lists --

  predicate IsUpperOf(c: char, d: char) {
    'a' <= d <= 'z' && c as int == d as int - 32
  }

  /** The same word, whatever the case of its letters. */
  ghost predicate Spells(s: string, word: string) {
    |s| == |word| && forall i :: 0 <= i < |s| ==> s[i] == word[i] || IsUpperOf(s[i], word[i])
  }

  ghost predicate HasStyle(v: Json, word: string) {
    v.Str? && Spells(v.s, word)
  }

  ghost predicate IsOrderedStyle(v: Json) {
    HasStyle(v, "ordered") || HasStyle(v, "number") || HasStyle(v, "numbered") || HasStyle(v, "decimal")
  }

  lemma LowerSpells(s: string, word: string)
    requires forall i :: 0 <= i < |word| ==> 'a' <= word[i] <= 'z'
    ensures Lower(s) == word <==> Spells(s, word)
  {
    if Spells(s, word) {
      assert forall i :: 0 <= i < |s| ==> Lower(s)[i] == word[i];
    }
  }

  lemma OrderedStyleIff(v: Json)
    requires v.Str?
    ensures Lower(v.s) in {"ordered", "number", "numbered", "decimal"} <==> IsOrderedStyle(v)
  {
    LowerSpells(v.s, "ordered");
    LowerSpells(v.s, "number");
    LowerSpells(v.s, "numbered");
    LowerSpells(v.s, "decimal");
  }

  /** A list under another dialect becomes a list of its items, each with its own texts;
      it is ordered exactly when it says so, is of the ordered type, or its style names an
      ordered list.  A style that is there hides the list style. */
  lemma ListIsReadInPlace(m: Fields)
    requires NormalizeList(m).Some?
    ensures var n := NormalizeList(m).value;
            && IsNamed(Get(n, "type"), TList)
            && Get(n, "items").Arr? && CellsStay(ListSource(m).value, Get(n, "items").items)
            && SameOutside(LIST_KEYS, m, n)
            && (Get(n, "ordered") == Bool(true) || Get(n, "ordered") == Bool(false))
            && (Get(n, "ordered") == Bool(true) <==>
                  || Get(m, "ordered") == Bool(true)
                  || TypeToken(m) == TOrderedList
                  || IsOrderedStyle(Get(m, "style"))
                  || (!Truthy(Get(m, "style")) && IsOrderedStyle(Get(m, "listStyle"))))
  {
    var source := ListSource(m).value;
    NormalizedIsList(m);
    ItemsStayInPlace(source);
    if Get(m, "style").Str? {
      OrderedStyleIff(Get(m, "style"));
    }
    if Get(m, "listStyle").Str? {
      OrderedStyleIff(Get(m, "listStyle"));
    }
    var items := ListItems(source).value;
    forall i | 0 <= i < |source|
      ensures Within(Texts(items[i]), Texts(source[i]))
    {
      assert Keeps(Texts(source[i]), Texts(items[i]), ItemLost(source[i]));
    }
  }

  // ------------------------------------------------------------------- the head --

  /** The list of cells a table's head is made of, before its rows are read: its own
      head, or else the first row that `header: true` asks for, or else the scalars under
      `headers`, `header` or `columns`, or columns that hold a text alone. */
  function HeadSource(m: Fields): Json {
    if Truthy(Get(m, "head")) then Get(m, "head")
    else if PromotesFirst(m) && Get(m, "rows").items[0].items != [] then Get(m, "rows").items[0]
    else if HasScalars(m, "headers") then Get(m, "headers")
    else if HasScalars(m, "header") then Get(m, "header")
    else if HasColumns(m) && (PromotesFirst(m) || !Truthy(Get(m, "header")))
            && (AllScalars(Get(m, "columns").items) || AreTextOnly(Get(m, "columns").items)) then Get(m, "columns")
    else Null
  }

  predicate AreTextOnly(vs: seq<Json>) {
    forall i | 0 <= i < |vs| :: IsTextOnly(vs[i])
  }

  ghost predicate HeadStays(source: Json, n: Fields) {
    && source.Arr? && source.items != []
    && Get(n, "head").Arr? && CellsStay(source.items, Get(n, "head").items)
  }

  lemma CanonicalHeadStays(source: Json, n: Fields)
    requires HeadStays(source, n) && CanonicalHead(n).Some?
    ensures HeadStays(source, CanonicalHead(n).value)
  {
    var head := Get(n, "head").items;
    EachStays(head);
    CellsStayChain(source.items, head, InlineEach(head).value);
  }

  function AfterLabels(n: Fields): Option<Fields> {
    match CanonicalHead(n)
    case None => None
    case Some(d) => (match PromoteColumns(d) case None => None case Some(e) => Some(PromoteTextColumns(e)))
  }

  function AfterFirst(a: Fields): Option<Fields> {
    match PromoteLabels(a, "headers")
    case None => None
    case Some(b) => (match PromoteLabels(b, "header") case None => None case Some(c) => AfterLabels(c))
  }

  lemma HeadedIs(m: Fields)
    requires HeaderArms(m).Some?
    ensures PromoteFirstRow(DropSpentHeader(m)).Some?
    ensures AfterFirst(PromoteFirstRow(DropSpentHeader(m)).value) == Some(Headed(m))
  {
  }

  lemma StaysAfterLabels(source: Json, n: Fields)
    requires HeadStays(source, n) && AfterLabels(n).Some?
    ensures HeadStays(source, AfterLabels(n).value)
    ensures Get(AfterLabels(n).value, "rows") == Get(n, "rows")
  {
    CanonicalHeadStays(source, n);
  }

  lemma StaysAfterFirst(source: Json, n: Fields)
    requires HeadStays(source, n) && AfterFirst(n).Some?
    ensures HeadStays(source, AfterFirst(n).value)
    ensures Get(AfterFirst(n).value, "rows") == Get(n, "rows")
  {
    StaysAfterLabels(source, n);
  }

  /** No list of cells was found: the head is what it was, or empty. */
  ghost predicate HasNoHead(n: Fields) {
    !Truthy(Get(n, "head"))
  }

  /** The scalars under `key` become the head, unless there are none. */
  lemma LabelsBecomeHead(n: Fields, key: string)
    requires (key == "headers" || key == "header") && HasNoHead(n) && PromoteLabels(n, key).Some?
    ensures var o := PromoteLabels(n, key).value;
            && (HasScalars(n, key) ==> HeadStays(Get(n, key), o))
            && (!HasScalars(n, key) ==> HasNoHead(o))
            && Get(o, "rows") == Get(n, "rows") && Get(o, "columns") == Get(n, "columns")
            && (key == "headers" ==> Get(o, "header") == Get(n, "header"))
            && (!HasScalars(n, key) ==> Truthy(Get(o, "header")) == Truthy(Get(n, "header")))
  {
    if PromoteLabels(n, key).value != n {
      EachStays(Get(n, key).items);
    }
  }

  lemma ColumnsBecomeHead(n: Fields)
    requires HasNoHead(n) && AfterLabels(n).Some?
    ensures var o := AfterLabels(n).value;
            Get(o, "rows") == Get(n, "rows")
            && if HasColumns(n) && !Truthy(Get(n, "header"))
                  && (AllScalars(Get(n, "columns").items) || AreTextOnly(Get(n, "columns").items))
               then HeadStays(Get(n, "columns"), o) else HasNoHead(o)
  {
    var d := CanonicalHead(n).value;
    if Get(n, "head").Arr? {
      assert InlineEach([]) == Some([]);
      assert Get(d, "head") == Arr([]);
    }
    assert Get(d, "columns") == Get(n, "columns") && Get(d, "header") == Get(n, "header");
    if HasColumns(n) && !Truthy(Get(n, "header")) {
      var columns := Get(n, "columns").items;
      if AllScalars(columns) {
        EachStays(columns);
        assert Get(AfterLabels(n).value, "head") == Arr(InlineEach(columns).value);
      } else if AreTextOnly(columns) {
        TextColumnsStay(d);
      }
    }
  }

  lemma TextColumnsStay(d: Fields)
    requires PromotesTextColumns(d)
    ensures HeadStays(Get(d, "columns"), PromoteTextColumns(d))
  {
    var columns, heads := Get(d, "columns").items, Get(PromoteTextColumns(d), "head").items;
    forall i | 0 <= i < |columns|
      ensures Within(Texts(heads[i]), Texts(columns[i]))
    {
      TextOnlyShows(columns[i]);
      WithinSelf(Texts(columns[i]));
    }
  }

  /** The later sources, when neither the head nor the first row gives one. */
  lemma LabelsOrColumns(a: Fields)
    requires HasNoHead(a) && AfterFirst(a).Some?
    ensures var o := AfterFirst(a).value;
            Get(o, "rows") == Get(a, "rows")
            && if HasScalars(a, "headers") then HeadStays(Get(a, "headers"), o)
               else if HasScalars(a, "header") then HeadStays(Get(a, "header"), o)
               else if HasColumns(a) && !Truthy(Get(a, "header"))
                       && (AllScalars(Get(a, "columns").items) || AreTextOnly(Get(a, "columns").items))
               then HeadStays(Get(a, "columns"), o)
               else HasNoHead(o)
  {
    var b := PromoteLabels(a, "headers").value;
    var c := PromoteLabels(b, "header").value;
    LabelsBecomeHead(a, "headers");
    if HasScalars(a, "headers") {
      StaysAfterLabels(Get(a, "headers"), c);
    } else {
      LabelsBecomeHead(b, "header");
      assert HasScalars(b, "header") <==> HasScalars(a, "header");
      if HasScalars(a, "header") {
        StaysAfterLabels(Get(a, "header"), c);
      } else {
        ColumnsBecomeHead(c);
      }
    }
  }

  /** What the first arm leaves for the others. */
  lemma FirstRowBecomesHead(m: Fields)
    requires PromoteFirstRow(DropSpentHeader(m)).Some?
    ensures var a := PromoteFirstRow(DropSpentHeader(m)).value;
            && Get(a, "rows") == (if PromotesFirst(m) then Arr(Get(m, "rows").items[1..]) else Get(m, "rows"))
            && (forall key :: key !in {"head", "header", "rows"} ==> Get(a, key) == Get(m, key))
            && (Truthy(Get(m, "head")) ==> Get(a, "head") == Get(m, "head"))
            && (!Truthy(Get(m, "head")) && !PromotesFirst(m) ==> a == m)
            && (PromotesFirst(m) ==> Get(a, "header") == Null)
            && (PromotesFirst(m) && Get(m, "rows").items[0].items == [] ==> HasNoHead(a))
            && (PromotesFirst(m) && Get(m, "rows").items[0].items != [] ==> HeadStays(Get(m, "rows").items[0], a))
  {
    if PromotesFirst(m) {
      EachStays(Get(m, "rows").items[0].items);
    }
  }

  /** The head a table has before its rows are read comes from `HeadSource`, cell by
      cell; a head that is no list is kept, and without a source there is none.  The rows
      are those of the table, without the first when that is the one promoted. */
  lemma HeadComesFrom(m: Fields)
    requires HeaderArms(m).Some?
    ensures Get(Headed(m), "rows") == if PromotesFirst(m) then Arr(Get(m, "rows").items[1..]) else Get(m, "rows")
    ensures HeadSource(m).Arr? ==> HeadStays(HeadSource(m), Headed(m))
    ensures !HeadSource(m).Arr? ==> Get(Headed(m), "head") == HeadSource(m) || (HeadSource(m).Null? && HasNoHead(Headed(m)))
  {
    var a := PromoteFirstRow(DropSpentHeader(m)).value;
    HeadedIs(m);
    FirstRowBecomesHead(m);
    if Truthy(Get(m, "head")) {
      TruthyHeadStays(m, a);
    } else if PromotesFirst(m) && Get(m, "rows").items[0].items != [] {
      StaysAfterFirst(Get(m, "rows").items[0], a);
    } else {
      LabelsOrColumns(a);
      assert HasScalars(a, "headers") <==> HasScalars(m, "headers");
      assert HasScalars(a, "header") <==> HasScalars(m, "header");
    }
  }

  lemma TruthyHeadStays(m: Fields, a: Fields)
    requires Truthy(Get(m, "head")) && Get(a, "head") == Get(m, "head") && AfterFirst(a).Some?
    ensures Get(AfterFirst(a).value, "rows") == Get(a, "rows")
    ensures Get(m, "head").Arr? ==> HeadStays(Get(m, "head"), AfterFirst(a).value)
    ensures !Get(m, "head").Arr? ==> Get(AfterFirst(a).value, "head") == Get(m, "head")
  {
    if Get(m, "head").Arr? {
      var head := Get(m, "head").items;
      forall i | 0 <= i < |head|
        ensures Within(Texts(head[i]), Texts(head[i]))
      {
        WithinSelf(Texts(head[i]));
      }
      StaysAfterFirst(Get(m, "head"), a);
    }
  }

  // ------------------------------------------------------------------- the rows --

  /** A row of cells becomes an array of them, each with its own texts; any other row is
      kept as it is. */
  ghost predicate RowStays(row: Json, made: Json) {
    if IsCellsRow(row) then made.Arr? && CellsStay(Get(row.fields, "cells").items, made.items)
    else if row.Arr? then made.Arr? && CellsStay(row.items, made.items)
    else made == row
  }

  ghost predicate RowsStay(rows: seq<Json>, made: seq<Json>) {
    |made| == |rows| && forall r :: 0 <= r < |rows| ==> RowStays(rows[r], made[r])
  }

  lemma {:induction false} NormalRowsStay(rows: seq<Json>)
    requires NormalRows(rows).Some?
    ensures RowsStay(rows, NormalRows(rows).value)
  {
    if rows != [] {
      var made, rest := NormalRows(rows).value, NormalRows(rows[1..]).value;
      NormalRowsStay(rows[1..]);
      if IsCellsRow(rows[0]) {
        CellsStayCanonical(Get(rows[0].fields, "cells").items, false);
      } else if rows[0].Arr? {
        EachStays(rows[0].items);
      }
      forall r | 0 <= r < |rows|
        ensures RowStays(rows[r], made[r])
      {
        assert r > 0 ==> rows[r] == rows[1..][r - 1] && made[r] == rest[r - 1];
      }
    }
  }

  /** A table of records: a header cell for each column shows its label or its key, and
      under it each record shows what it holds under that key, or nothing. */
  ghost predicate ShowsRecords(columns: seq<Json>, rows: seq<Json>, n: Fields) {
    && Get(n, "head").Arr? && |Get(n, "head").items| == |columns|
    && (forall c :: 0 <= c < |columns| ==> Texts(Get(n, "head").items[c]) == LabelTexts(columns[c]))
    && Get(n, "rows").Arr? && |Get(n, "rows").items| == |rows|
    && (forall r :: 0 <= r < |rows| ==> ShowsRecord(columns, rows[r], Get(n, "rows").items[r]))
    && "columns" !in n
  }

  ghost predicate ShowsRecord(columns: seq<Json>, row: Json, made: Json) {
    made.Arr? && |made.items| == |columns|
    && forall c :: 0 <= c < |columns| ==> Texts(made.items[c]) == FieldTexts(row, columns[c])
  }

  lemma RecordRowIsShown(row: Json, columns: seq<Json>)
    requires IsRecord(row)
    ensures ShowsRecord(columns, row, RecordRow(row, columns))
    ensures AreInlined(RecordRow(row, columns).items)
  {
    var made := RecordRow(row, columns).items;
    forall c | 0 <= c < |columns|
      ensures Texts(made[c]) == FieldTexts(row, columns[c]) && IsInlined(made[c])
    {
      RecordCellShows(row, columns[c]);
      TextNodesAreInlined(if ColumnKey(columns[c]).Str? && ColumnKey(columns[c]).s in row.fields
                          then row.fields[ColumnKey(columns[c]).s] else Lit(""));
    }
    EachIsInlined(made);
  }

  lemma RecordsAreShown(h: Fields)
    requires HasRecords(h)
    ensures ShowsRecords(Get(h, "columns").items, Get(h, "rows").items, RecordRows(h))
    ensures RowArms(RecordRows(h)) == Some(RecordRows(h))
  {
    var columns, rows, n := Get(h, "columns").items, Get(h, "rows").items, RecordRows(h);
    var made := Get(n, "rows").items;
    forall c | 0 <= c < |columns|
      ensures Texts(Get(n, "head").items[c]) == LabelTexts(columns[c])
    {
      ColumnHeadShows(columns[c]);
    }
    forall r | 0 <= r < |rows|
      ensures ShowsRecord(columns, rows[r], made[r])
      ensures made[r].Arr? && AreInlined(made[r].items)
    {
      RecordRowIsShown(rows[r], columns);
    }
    DoneRowsStay(made);
    assert n["rows" := Arr(made)] == n;
  }

  /** Where the texts of a table stand at the end: a table of records is read through its
      columns; otherwise the head is the one `HeadSource` gives, or for want of one a first
      row marked as a header, and under it the other rows follow in order. */
  lemma TableIsReadInPlace(m: Fields)
    requires TableArms(m).Some? && Get(m, "rows").Arr?
    ensures var h, n := Headed(m), TableArms(m).value;
            && Get(h, "rows").Arr?
            && var rows := Get(h, "rows").items;
               if HasRecords(h) then ShowsRecords(Get(h, "columns").items, rows, n)
               else if HeadRowIsDue(h) then
                 && HeadSource(m).Null?
                 && Get(n, "head").Arr? && CellsStay(Get(rows[0].fields, "cells").items, Get(n, "head").items)
                 && Get(n, "rows").Arr? && RowsStay(rows[1..], Get(n, "rows").items)
               else
                 && Get(n, "head") == Get(h, "head")
                 && Get(n, "rows").Arr? && RowsStay(rows, Get(n, "rows").items)
  {
    var h := Headed(m);
    HeadComesFrom(m);
    if HasRecords(h) {
      RecordsAreShown(h);
    } else {
      PlainRowsStay(h);
    }
  }

  lemma PlainRowsStay(h: Fields)
    requires Get(h, "rows").Arr? && RowArms(h).Some?
    ensures var n, rows := RowArms(h).value, Get(h, "rows").items;
            if HeadRowIsDue(h) then
              && Get(n, "head").Arr? && CellsStay(Get(rows[0].fields, "cells").items, Get(n, "head").items)
              && Get(n, "rows").Arr? && RowsStay(rows[1..], Get(n, "rows").items)
            else Get(n, "head") == Get(h, "head") && Get(n, "rows").Arr? && RowsStay(rows, Get(n, "rows").items)
  {
    var rows := Get(h, "rows").items;
    if HeadRowIsDue(h) {
      CellsStayCanonical(Get(rows[0].fields, "cells").items, true);
      NormalRowsStay(rows[1..]);
    } else if rows != [] {
      NormalRowsStay(rows);
    }
  }

  // ---------------------------------------------------------------- rows under content --

  /** The cells of a row under `content`: the row itself, or its content, or its cells. */
  function ContentCells(row: Json): seq<Json> {
    match row
    case Arr(cells) => cells
    case Obj(m) =>
      if Get(m, "content").Arr? then Get(m, "content").items
      else if Get(m, "cells").Arr? then Get(m, "cells").items else []
    case _ => []
  }

  /** The row says it is a header, or every one of its cells does. */
  predicate IsMarkedRow(row: Json) {
    row.Obj?
    && (Get(row.fields, "header") == Bool(true)
        || (ContentCells(row) != [] && AreHeaderCells(ContentCells(row))))
  }

  ghost predicate ContentRowsStay(rows: seq<Json>, made: seq<Json>) {
    |made| == |rows|
    && forall r :: 0 <= r < |rows| ==> made[r].Arr? && CellsStay(ContentCells(rows[r]), made[r].items)
  }

  lemma RowCellsAre(row: Json)
    requires RowCells(row).Some?
    ensures RowCells(row).value.0 == ContentCells(row)
    ensures RowCells(row).value.1 <==> IsMarkedRow(row)
  {
  }

  lemma {:induction false} CanonicalRowsStay(rows: seq<Json>)
    requires CanonicalRows(rows).Some?
    ensures ContentRowsStay(rows, AsRows(CanonicalRows(rows).value.0).items)
    ensures |CanonicalRows(rows).value.1| == |rows|
    ensures rows != [] ==> (CanonicalRows(rows).value.1[0] <==> IsMarkedRow(rows[0]))
  {
    if rows != [] {
      var made, rest := AsRows(CanonicalRows(rows).value.0).items, AsRows(CanonicalRows(rows[1..]).value.0).items;
      CanonicalRowsStay(rows[1..]);
      RowCellsAre(rows[0]);
      EachStays(ContentCells(rows[0]));
      forall r | 0 <= r < |rows|
        ensures made[r].Arr? && CellsStay(ContentCells(rows[r]), made[r].items)
      {
        assert r > 0 ==> rows[r] == rows[1..][r - 1] && made[r] == rest[r - 1];
      }
    }
  }

  /** A table whose rows stand under `content`: the head is the one the content names, or
      for want of one a first row marked as a header, and the other rows follow in order. */
  lemma ContentIsReadInPlace(m: Fields)
    requires NormalizeTable(m).Some?
    ensures var source, n := Get(m, "content"), NormalizeTable(m).value;
            && SourceRows(source).Arr? && Get(n, "rows").Arr?
            && var rows := SourceRows(source).items;
               if ExplicitHead(source).Arr? then
                 && Get(n, "head").Arr? && CellsStay(ExplicitHead(source).items, Get(n, "head").items)
                 && ContentRowsStay(rows, Get(n, "rows").items)
               else if rows != [] && IsMarkedRow(rows[0]) then
                 && Get(n, "head").Arr? && CellsStay(ContentCells(rows[0]), Get(n, "head").items)
                 && ContentRowsStay(rows[1..], Get(n, "rows").items)
               else "head" !in n && ContentRowsStay(rows, Get(n, "rows").items)
  {
    var source, n := Get(m, "content"), NormalizeTable(m).value;
    ContentShape(m);
    var rows := SourceRows(source).items;
    CanonicalRowsStay(rows);
    if ExplicitHead(source).Arr? {
      EachStays(ExplicitHead(source).items);
    } else if rows != [] && IsMarkedRow(rows[0]) {
      var all, made := AsRows(CanonicalRows(rows).value.0).items, Get(n, "rows").items;
      assert forall r :: 0 <= r < |made| ==> made[r] == all[r + 1];
    }
  }
}
