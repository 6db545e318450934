/** Which tables one canonicalisation pass settles. */
module SettledTables {
  import opened Wrappers
  import opened Json
  import opened InlineContent
  import opened TableDialects

  predicate HasArrayRows(m: Fields) {
    Get(m, "rows").Arr? && AllArrays(Get(m, "rows").items)
  }

  predicate HasFullHead(m: Fields) {
    Get(m, "head").Arr? && Get(m, "head").items != []
  }

  // ------------------------------------------------------ arms with nothing to do --

  ghost predicate AreInlined(vs: seq<Json>) {
    InlineEach(vs) == Some(vs)
  }

  /** No list of scalars under `key` waits to become the head. */
  predicate LabelsDone(m: Fields, key: string) {
    Truthy(Get(m, "head")) || !Get(m, key).Arr? || !AllScalars(Get(m, key).items)
  }

  ghost predicate HeadDone(m: Fields) {
    Get(m, "head").Arr? ==> AreInlined(Get(m, "head").items)
  }

  predicate HasColumns(m: Fields) {
    Get(m, "columns").Arr? && Get(m, "columns").items != []
  }

  predicate ColumnsDone(m: Fields) {
    HasColumns(m) && IsHeadless(m) ==> !AllScalars(Get(m, "columns").items)
  }

  predicate TextColumnsDone(m: Fields) {
    HasColumns(m) && IsHeadless(m) ==>
      !forall i | 0 <= i < |Get(m, "columns").items| :: IsTextOnly(Get(m, "columns").items[i])
  }

  predicate HasRecords(m: Fields) {
    HasColumns(m) && Get(m, "rows").Arr? && AreRecords(Get(m, "columns").items, Get(m, "rows").items)
  }

  ghost predicate RowsDone(m: Fields) {
    HasArrayRows(m) && forall i :: 0 <= i < |Get(m, "rows").items| ==> AreInlined(Get(m, "rows").items[i].items)
  }

  /** `header: true` over a first row whose cells can all be read. */
  predicate PromotesFirst(m: Fields) {
    && Get(m, "header") == Bool(true) && !Truthy(Get(m, "head"))
    && Get(m, "rows").Arr? && Get(m, "rows").items != [] && Get(m, "rows").items[0].Arr?
    && InlineEach(Get(m, "rows").items[0].items).Some? && AllArrays(InlineEach(Get(m, "rows").items[0].items).value)
  }

  /** A non-empty list of scalars under `key` beside no head. */
  predicate HasScalars(m: Fields, key: string) {
    !Truthy(Get(m, "head")) && Get(m, key).Arr? && Get(m, key).items != [] && AllScalars(Get(m, key).items)
  }

  predicate HasSpentHeader(m: Fields) {
    Get(m, "header") == Bool(true) && HasFullHead(m)
  }

  /** Every arm but the one that drops a spent header leaves the table alone. */
  ghost predicate IsQuiet(m: Fields) {
    && RowsDone(m) && HeadDone(m) && LabelsDone(m, "headers") && LabelsDone(m, "header")
    && ColumnsDone(m) && TextColumnsDone(m) && !HasRecords(m) && !PromotesFirst(m)
  }

  lemma {:induction false} InlineEachIsFixpoint(vs: seq<Json>)
    requires InlineEach(vs).Some?
    ensures AreInlined(InlineEach(vs).value) && |InlineEach(vs).value| == |vs|
  {
    if vs != [] {
      InlineIsFixpoint(vs[0]);
      InlineEachIsFixpoint(vs[1..]);
      var rest := InlineEach(vs[1..]).value;
      assert InlineEach(vs).value[1..] == rest;
    }
  }

  lemma {:induction false} DoneRowsStay(rows: seq<Json>)
    requires forall i :: 0 <= i < |rows| ==> rows[i].Arr? && AreInlined(rows[i].items)
    ensures NormalRows(rows) == Some(rows)
  {
    if rows != [] {
      DoneRowsStay(rows[1..]);
      assert rows[0].Arr? && AreInlined(rows[0].items);
      assert [rows[0]] + rows[1..] == rows;
    }
  }

  lemma QuietHeaderArms(m: Fields)
    requires IsQuiet(m) && !HasSpentHeader(m)
    ensures HeaderArms(m) == Some(m)
  {
    if Get(m, "head").Arr? {
      assert m["head" := Arr(Get(m, "head").items)] == m;
    }
  }

  lemma QuietTableStays(m: Fields)
    requires IsQuiet(m) && !HasSpentHeader(m)
    ensures TableArms(m) == Some(m)
  {
    QuietHeaderArms(m);
    var rows := Get(m, "rows").items;
    DoneRowsStay(rows);
    if rows != [] {
      assert rows[0].Arr?;
      assert m["rows" := Arr(rows)] == m;
    }
  }

  // ------------------------------------------------------------- one pass, by stage --

  lemma FirstRowStage(m: Fields)
    requires HasArrayRows(m) && PromoteFirstRow(DropSpentHeader(m)).Some?
    ensures var a := PromoteFirstRow(DropSpentHeader(m)).value;
            && HasArrayRows(a) && !PromotesFirst(a)
            && (Get(a, "header") == Bool(true) <==>
                  Get(m, "header") == Bool(true) && !HasFullHead(m) && !PromotesFirst(m))
            && (Get(a, "header") == Bool(true) ==> a == m)
  {
    var d := DropSpentHeader(m);
    var a := PromoteFirstRow(d).value;
    var rows := Get(m, "rows").items;
    assert Get(d, "rows") == Get(m, "rows");
    if a != d {
      assert Get(a, "rows") == Arr(rows[1..]);
      assert forall i :: 0 <= i < |rows[1..]| ==> rows[1..][i] == rows[i + 1];
    }
  }

  lemma LabelsStage(m: Fields, key: string)
    requires key in {"headers", "header"} && PromoteLabels(m, key).Some?
    ensures var a := PromoteLabels(m, key).value;
            && LabelsDone(a, key)
            && (LabelsDone(m, "headers") ==> LabelsDone(a, "headers"))
            && Get(a, "rows") == Get(m, "rows") && Get(a, "columns") == Get(m, "columns")
            && (Get(a, "header") == Get(m, "header") || (key == "header" && Get(a, "header") == Null))
            && (Get(m, "header") == Bool(true) ==>
                  && Get(a, "header") == Bool(true)
                  && HasFullHead(a) == (HasFullHead(m) || HasScalars(m, key)))
            && (Truthy(Get(m, "head")) ==> a == m)
  {
    var labels := Get(m, key);
    if !Truthy(Get(m, "head")) && labels.Arr? && AllScalars(labels.items) {
      InlineEachIsFixpoint(labels.items);
    }
  }

  lemma HeadStage(m: Fields)
    requires CanonicalHead(m).Some?
    ensures var a := CanonicalHead(m).value;
            && HeadDone(a) && (Truthy(Get(a, "head")) <==> Truthy(Get(m, "head")))
            && (HasFullHead(a) <==> HasFullHead(m))
            && forall k :: k != "head" ==> Get(a, k) == Get(m, k)
  {
    if Get(m, "head").Arr? {
      InlineEachIsFixpoint(Get(m, "head").items);
    }
  }

  lemma ColumnsStage(m: Fields)
    requires HeadDone(m) && LabelsDone(m, "headers") && LabelsDone(m, "header") && PromoteColumns(m).Some?
    ensures var a := PromoteColumns(m).value;
            && ColumnsDone(a) && HeadDone(a) && LabelsDone(a, "headers") && LabelsDone(a, "header")
            && Get(a, "rows") == Get(m, "rows") && Get(a, "header") == Get(m, "header")
            && (Truthy(Get(m, "header")) ==> a == m)
  {
    if HasColumns(m) && AllScalars(Get(m, "columns").items) && IsHeadless(m) {
      InlineEachIsFixpoint(Get(m, "columns").items);
    }
  }

  /** What the header arms leave, and when `header: true` is still there. */
  lemma HeaderStage(m: Fields)
    requires HasArrayRows(m) && HeaderArms(m).Some?
    ensures var h := HeaderArms(m).value;
            && HasArrayRows(h) && HeadDone(h) && LabelsDone(h, "headers") && LabelsDone(h, "header") && ColumnsDone(h)
            && (Get(h, "header") == Bool(true) <==>
                  Get(m, "header") == Bool(true) && !HasFullHead(m) && !PromotesFirst(m))
            && !PromotesFirst(h)
            && (Get(h, "header") == Bool(true) ==>
                  && Get(h, "rows") == Get(m, "rows") && Get(h, "columns") == Get(m, "columns")
                  && (HasFullHead(h) <==> HasScalars(m, "headers")))
  {
    var a := PromoteFirstRow(DropSpentHeader(m)).value;
    var b := PromoteLabels(a, "headers").value;
    var c := PromoteLabels(b, "header").value;
    var d := CanonicalHead(c).value;
    FirstRowStage(m);
    LabelsStage(a, "headers");
    LabelsStage(b, "header");
    HeadStage(c);
    ColumnsStage(d);
  }

  lemma TextNodesAreInlined(v: Json)
    requires IsScalar(v)
    ensures Inline(TextNodes(v)) == Some(TextNodes(v))
  {
    TextNodeIsSettled(v);
    SettledIsKept([TextNode(v)]);
  }

  ghost predicate IsInlined(v: Json) {
    Inline(v) == Some(v)
  }

  lemma {:induction false} EachIsInlined(vs: seq<Json>)
    requires forall i :: 0 <= i < |vs| ==> IsInlined(vs[i])
    ensures AreInlined(vs)
  {
    if vs != [] {
      EachIsInlined(vs[1..]);
      assert IsInlined(vs[0]);
      assert [vs[0]] + vs[1..] == vs;
    }
  }

  lemma TextColumnsStage(m: Fields)
    requires HeadDone(m) && LabelsDone(m, "headers") && LabelsDone(m, "header") && ColumnsDone(m)
    ensures var a := PromoteTextColumns(m);
            && TextColumnsDone(a) && ColumnsDone(a) && HeadDone(a) && LabelsDone(a, "headers") && LabelsDone(a, "header")
            && Get(a, "rows") == Get(m, "rows") && Get(a, "header") == Get(m, "header")
            && (Truthy(Get(m, "header")) ==> a == m) && (PromotesFirst(a) ==> PromotesFirst(m))
  {
    var a := PromoteTextColumns(m);
    if a != m {
      var columns, heads := Get(m, "columns").items, Get(a, "head").items;
      forall i | 0 <= i < |heads|
        ensures IsInlined(heads[i])
      {
        assert IsTextOnly(columns[i]);
        TextNodesAreInlined(Get(columns[i].fields, "text"));
      }
      EachIsInlined(heads);
    }
  }

  lemma ArraysAreNoRecords(m: Fields)
    requires HasArrayRows(m)
    ensures Get(m, "rows").items != [] ==> !HasRecords(m)
  {
    if Get(m, "rows").items != [] {
      assert Get(m, "rows").items[0].Arr?;
    }
  }

  lemma RecordsStage(m: Fields)
    requires HasArrayRows(m) && HeadDone(m) && LabelsDone(m, "headers") && LabelsDone(m, "header")
    requires ColumnsDone(m) && TextColumnsDone(m)
    ensures var a := RecordRows(m);
            && !HasRecords(a) && TextColumnsDone(a) && ColumnsDone(a) && HeadDone(a)
            && LabelsDone(a, "headers") && LabelsDone(a, "header") && Get(a, "header") == Get(m, "header")
            && Get(a, "rows") == Get(m, "rows") && (PromotesFirst(a) ==> PromotesFirst(m))
            && (HasFullHead(a) <==> HasFullHead(m) || HasRecords(m))
  {
    var a := RecordRows(m);
    ArraysAreNoRecords(m);
    if HasRecords(m) {
      var columns, rows, heads := Get(m, "columns").items, Get(m, "rows").items, Get(a, "head").items;
      forall i | 0 <= i < |heads|
        ensures IsInlined(heads[i])
      {
        var named := Get(columns[i].fields, "label");
        assert named.Null? || named.Str?;
        TextNodesAreInlined(if Truthy(named) then named else ColumnKey(columns[i]));
      }
      EachIsInlined(heads);
      assert Get(a, "rows").items == [];
    }
  }

  lemma {:induction false} NormalArraysAreDone(rows: seq<Json>)
    requires AllArrays(rows) && NormalRows(rows).Some?
    ensures var out := NormalRows(rows).value;
            |out| == |rows| && forall i :: 0 <= i < |out| ==> out[i].Arr? && AreInlined(out[i].items)
    ensures rows != [] ==> rows[0].Arr? && InlineEach(rows[0].items).Some?
                           && NormalRows(rows).value[0] == Arr(InlineEach(rows[0].items).value)
  {
    if rows != [] {
      assert rows[0].Arr?;
      assert AllArrays(rows[1..]);
      NormalArraysAreDone(rows[1..]);
      InlineEachIsFixpoint(rows[0].items);
    }
  }

  lemma RowsStage(m: Fields)
    requires HasArrayRows(m) && RowArms(m).Some?
    ensures var a := RowArms(m).value;
            && RowsDone(a) && (PromotesFirst(a) ==> PromotesFirst(m)) && (HasRecords(a) ==> HasRecords(m))
            && forall k :: k != "rows" ==> Get(a, k) == Get(m, k)
  {
    var rows := Get(m, "rows").items;
    if rows != [] {
      assert rows[0].Arr?;
      NormalArraysAreDone(rows);
      var a := RowArms(m).value;
      assert Get(a, "rows").items[0].Arr?;
      InlineEachIsFixpoint(rows[0].items);
    }
  }

  // --------------------------------------------------------------------- the theorem --

  /** `header: true` outlives the pass that fills the head: there was no head to spend
      it on and no first row to promote, but `headers`, or columns over no rows, filled
      the head later in the pass. */
  predicate HeaderLingers(m: Fields) {
    Get(m, "header") == Bool(true) && !HasFullHead(m) && !PromotesFirst(m) && (HasScalars(m, "headers") || HasRecords(m))
  }

  /** One pass over a table whose rows are arrays leaves nothing to do, but for a
      `header: true` that lingers. */
  lemma PassLeavesQuiet(m: Fields)
    requires HasArrayRows(m) && TableArms(m).Some?
    ensures IsQuiet(TableArms(m).value)
    ensures HasSpentHeader(TableArms(m).value) <==> HeaderLingers(m)
  {
    var h := HeaderArms(m).value;
    var t := PromoteTextColumns(h);
    var r := RecordRows(t);
    HeaderStage(m);
    TextColumnsStage(h);
    RecordsStage(t);
    RowsStage(r);
    var a := RowArms(r).value;
  }

  /** Which tables with array rows one pass settles. */
  lemma ArrayRowsSettleIff(m: Fields)
    requires HasArrayRows(m) && TableArms(m).Some?
    ensures TableArms(TableArms(m).value) == TableArms(m) <==> !HeaderLingers(m)
  {
    var n := TableArms(m).value;
    PassLeavesQuiet(m);
    if HeaderLingers(m) {
      SpentHeaderGoes(n);
    } else {
      QuietTableStays(n);
    }
  }

  lemma SpentHeaderGoes(m: Fields)
    requires HasSpentHeader(m)
    ensures TableArms(m).Some? ==> "header" !in TableArms(m).value
  {
    if TableArms(m).Some? {
      var h := HeaderArms(m).value;
      assert "header" !in h;
      HeaderStaysGone(h);
    }
  }

  lemma HeaderStaysGone(m: Fields)
    requires "header" !in m && RowArms(RecordRows(PromoteTextColumns(m))).Some?
    ensures "header" !in RowArms(RecordRows(PromoteTextColumns(m))).value
  {
    var a := PromoteTextColumns(m);
    assert "header" !in a;
    assert "header" !in RecordRows(a);
  }

  // ------------------------------------------------------------------ tables at rest --

  ghost predicate IsReadRow(row: Json) {
    !IsCellsRow(row) && (row.Arr? ==> AreInlined(row.items))
  }

  /** No arm has anything left to do to the table. */
  ghost predicate IsAtRest(m: Fields) {
    && Get(m, "rows").Arr? && (forall i :: 0 <= i < |Get(m, "rows").items| ==> IsReadRow(Get(m, "rows").items[i]))
    && !HasSpentHeader(m) && !PromotesFirst(m) && !HeadRowIsDue(m)
    && HeadDone(m) && LabelsDone(m, "headers") && LabelsDone(m, "header")
    && ColumnsDone(m) && TextColumnsDone(m) && !HasRecords(m)
  }

  lemma NormalRowIff(row: Json)
    ensures NormalRow(row) == Some(row) <==> IsReadRow(row)
  {
  }

  lemma {:induction false} NormalRowsIff(rows: seq<Json>)
    ensures NormalRows(rows).Some? ==> |NormalRows(rows).value| == |rows|
    ensures NormalRows(rows) == Some(rows) <==> forall i :: 0 <= i < |rows| ==> IsReadRow(rows[i])
  {
    if rows != [] {
      NormalRowsIff(rows[1..]);
      NormalRowIff(rows[0]);
      NormalRowsCons(rows);
      assert (forall i :: 0 <= i < |rows| ==> IsReadRow(rows[i])) <==>
             IsReadRow(rows[0]) && forall i :: 0 <= i < |rows[1..]| ==> IsReadRow(rows[1..][i]) by {
        assert forall i :: 0 < i < |rows| ==> rows[i] == rows[1..][i - 1];
        assert forall i :: 0 <= i < |rows[1..]| ==> rows[1..][i] == rows[i + 1];
      }
    }
  }

  lemma {:induction false} NormalRowsCons(rows: seq<Json>)
    requires rows != []
    ensures NormalRows(rows) == Some(rows) <==> NormalRow(rows[0]) == Some(rows[0]) && NormalRows(rows[1..]) == Some(rows[1..])
  {
    assert rows == [rows[0]] + rows[1..];
    if NormalRow(rows[0]).Some? && NormalRows(rows[1..]).Some? {
      var out := [NormalRow(rows[0]).value] + NormalRows(rows[1..]).value;
      assert out[0] == NormalRow(rows[0]).value && out[1..] == NormalRows(rows[1..]).value;
    }
  }

  lemma RowsDue(m: Fields)
    requires Get(m, "rows").Arr? && RowArms(m).Some?
    ensures HeadRowIsDue(m) ==> |Get(RowArms(m).value, "rows").items| < |Get(m, "rows").items|
    ensures !HeadRowIsDue(m) && Get(m, "rows").items != [] ==>
              RowArms(m) == match NormalRows(Get(m, "rows").items) case None => None case Some(rows) => Some(m["rows" := Arr(rows)])
  {
    var rows := Get(m, "rows").items;
    NormalRowsIff(rows);
    if rows != [] {
      NormalRowsIff(rows[1..]);
    }
  }

  lemma AtRestHeaderArms(m: Fields)
    requires IsAtRest(m)
    ensures HeaderArms(m) == Some(m)
  {
    if Get(m, "head").Arr? {
      assert m["head" := Arr(Get(m, "head").items)] == m;
    }
  }

  lemma RestingRows(m: Fields)
    requires IsAtRest(m)
    ensures RowArms(m) == Some(m)
  {
    var rows := Get(m, "rows").items;
    NormalRowsIff(rows);
    if rows != [] {
      assert m["rows" := Arr(rows)] == m;
    }
  }

  lemma RestingStays(m: Fields)
    requires IsAtRest(m)
    ensures TableArms(m) == Some(m)
  {
    AtRestHeaderArms(m);
    RestingRows(m);
  }

  /** Keys that an arm may take away and none puts back. */
  const SPENT_KEYS: set<string> := {"header", "headers", "columns"}

  ghost predicate KeepsKeys(m: Fields, n: Fields) {
    forall key :: key in SPENT_KEYS && key in m ==> key in n
  }

  ghost predicate AddsNoKeys(m: Fields, n: Fields) {
    forall key :: key in SPENT_KEYS && key in n ==> key in m
  }

  lemma FirstArmsKeep(m: Fields)
    requires PromoteFirstRow(DropSpentHeader(m)).Some?
    ensures AddsNoKeys(m, PromoteFirstRow(DropSpentHeader(m)).value)
    ensures KeepsKeys(m, PromoteFirstRow(DropSpentHeader(m)).value) ==>
              !HasSpentHeader(m) && !PromotesFirst(m) && PromoteFirstRow(DropSpentHeader(m)).value == m
  {
    assert "header" in SPENT_KEYS;
  }

  lemma LabelsKeep(m: Fields, key: string)
    requires key in {"headers", "header"} && PromoteLabels(m, key).Some?
    ensures AddsNoKeys(m, PromoteLabels(m, key).value)
    ensures KeepsKeys(m, PromoteLabels(m, key).value) ==> LabelsDone(m, key) && PromoteLabels(m, key).value == m
  {
    assert key in SPENT_KEYS;
  }

  lemma ColumnsKeep(m: Fields)
    requires PromoteColumns(m).Some?
    ensures AddsNoKeys(m, PromoteColumns(m).value)
    ensures KeepsKeys(m, PromoteColumns(m).value) ==> ColumnsDone(m) && PromoteColumns(m).value == m
  {
    assert "columns" in SPENT_KEYS;
  }

  lemma LaterArmsKeep(m: Fields)
    ensures AddsNoKeys(m, RecordRows(PromoteTextColumns(m)))
    ensures KeepsKeys(m, RecordRows(PromoteTextColumns(m))) ==>
              TextColumnsDone(m) && !HasRecords(m) && RecordRows(PromoteTextColumns(m)) == m
  {
    var t := PromoteTextColumns(m);
    assert "columns" in SPENT_KEYS;
    assert AddsNoKeys(m, t) && AddsNoKeys(t, RecordRows(t));
    if KeepsKeys(m, RecordRows(t)) {
      assert KeepsKeys(m, t);
      assert t == m;
    }
  }

  /** Arms that take no key away change at most the head. */
  lemma HeaderArmsKeep(m: Fields)
    requires HeaderArms(m).Some?
    ensures AddsNoKeys(m, HeaderArms(m).value)
    ensures KeepsKeys(m, HeaderArms(m).value) ==>
              && !HasSpentHeader(m) && !PromotesFirst(m) && LabelsDone(m, "headers") && LabelsDone(m, "header")
              && ColumnsDone(m) && HeaderArms(m) == CanonicalHead(m)
  {
    var a := PromoteFirstRow(DropSpentHeader(m)).value;
    var b := PromoteLabels(a, "headers").value;
    var c := PromoteLabels(b, "header").value;
    var d := CanonicalHead(c).value;
    FirstArmsKeep(m);
    LabelsKeep(a, "headers");
    LabelsKeep(b, "header");
    HeadStage(c);
    assert AddsNoKeys(c, d) && AddsNoKeys(d, c);
    ColumnsKeep(d);
    KeysChain(m, a, b);
    KeysChain(m, b, c);
    KeysChain(m, c, d);
    KeysChain(m, d, PromoteColumns(d).value);
  }

  lemma KeysChain(m: Fields, n: Fields, o: Fields)
    requires AddsNoKeys(m, n) && AddsNoKeys(n, o)
    ensures AddsNoKeys(m, o) && (KeepsKeys(m, o) ==> KeepsKeys(m, n) && KeepsKeys(n, o))
  {
  }

  lemma RowArmsKeepKeys(m: Fields)
    requires RowArms(m).Some?
    ensures AddsNoKeys(m, RowArms(m).value) && KeepsKeys(m, RowArms(m).value)
    ensures !HeadRowIsDue(m) ==> Get(RowArms(m).value, "head") == Get(m, "head")
  {
  }

  lemma StayingIsAtRest(m: Fields)
    requires Get(m, "rows").Arr? && TableArms(m) == Some(m)
    ensures IsAtRest(m)
  {
    var h := HeaderArms(m).value;
    var r := RecordRows(PromoteTextColumns(h));
    HeaderArmsKeep(m);
    LaterArmsKeep(h);
    RowArmsKeepKeys(r);
    KeysChain(m, h, r);
    KeysChain(m, r, m);
    assert KeepsKeys(m, m);
    assert r == h && Some(h) == CanonicalHead(m) && RowArms(h) == Some(m);
    HeadStage(m);
    OnlyHeadChanges(m, h);
  }

  lemma OnlyHeadChanges(m: Fields, h: Fields)
    requires Get(m, "rows").Arr? && CanonicalHead(m) == Some(h) && RowArms(h) == Some(m)
    requires HeadDone(h) && (Truthy(Get(h, "head")) <==> Truthy(Get(m, "head")))
    requires forall k :: k != "head" ==> Get(h, k) == Get(m, k)
    requires TextColumnsDone(h) && !HasRecords(h)
    ensures HeadDone(m) && TextColumnsDone(m) && !HasRecords(m) && !HeadRowIsDue(m)
    ensures forall i :: 0 <= i < |Get(m, "rows").items| ==> IsReadRow(Get(m, "rows").items[i])
  {
    var rows := Get(m, "rows").items;
    assert Get(h, "rows") == Get(m, "rows") && Get(h, "columns") == Get(m, "columns") && Get(h, "header") == Get(m, "header");
    RowsDue(h);
    RowArmsKeepKeys(h);
    assert HeadRowIsDue(h) <==> HeadRowIsDue(m);
    NormalRowsIff(rows);
    if rows != [] {
      assert Get(h["rows" := Arr(NormalRows(rows).value)], "rows") == Arr(NormalRows(rows).value);
    }
  }

  /** Which tables the arms leave as they are. */
  lemma AtRestIff(m: Fields)
    requires Get(m, "rows").Arr?
    ensures TableArms(m) == Some(m) <==> IsAtRest(m)
  {
    if IsAtRest(m) {
      RestingStays(m);
    }
    if TableArms(m) == Some(m) {
      StayingIsAtRest(m);
    }
  }

  /** The arms keep an array of rows an array. */
  lemma RowsStayRows(m: Fields)
    requires Get(m, "rows").Arr? && TableArms(m).Some?
    ensures Get(TableArms(m).value, "rows").Arr?
  {
  }
}
