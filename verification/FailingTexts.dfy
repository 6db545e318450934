/** Papers whose canonical form has lost a text. */
module FailingTexts {
  import opened Wrappers
  import opened Json
  import opened InlineContent
  import opened TableDialects
  import opened SettledTables
  import opened CanonicalBlocks
  import opened TextLedger
  import opened TableLedger
  import opened TextConservation
  import opened TextPlacement

  lemma NoBlocks(bs: seq<Json>)
    requires bs == []
    ensures Canonicalize(bs) == Some([]) && Lost(bs) == [] && Gained(bs) == []
  {
  }

  lemma OneBlock(bs: seq<Json>)
    requires |bs| == 1 && bs[0].Obj? && !IsEmptyParagraph(bs[0]) && CanonicalBlock(bs[0].fields).Some?
    ensures Canonicalize(bs).Some?
    ensures Lost(bs) == BlockLost(bs[0].fields) && Gained(bs) == BlockGained(bs[0].fields)
  {
    NoBlocks(bs[1..]);
    assert BlockLost(bs[0].fields) + [] == BlockLost(bs[0].fields);
    assert BlockGained(bs[0].fields) + [] == BlockGained(bs[0].fields);
  }

  /** A Paper of one block that loses a text and gains none has other texts afterwards. */
  lemma OneBlockLoses(bs: seq<Json>)
    requires |bs| == 1 && bs[0].Obj? && !IsEmptyParagraph(bs[0]) && CanonicalBlock(bs[0].fields).Some?
    requires BlockGained(bs[0].fields) == [] && BlockLost(bs[0].fields) != []
    ensures Canonicalize(bs).Some?
    ensures multiset(TextsAll(Canonicalize(bs).value)) != multiset(TextsAll(bs))
  {
    OneBlock(bs);
    TextsSurviveIff(bs);
  }

  /** A table with a head and, instead of rows, an empty content. */
  const HEADED_TABLE: Fields := map["type" := Name(TTable), "head" := Arr([Lit("A")]), "content" := Arr([])]

  lemma NoRowsNoGain(n: Fields)
    requires Get(n, "rows") == Arr([]) && n.Keys == {"type", "rows"}
    ensures TableArms(n) == Some(n) && TableArmsGained(n) == []
  {
    assert InlineEach([]) == Some([]);
    assert HeaderArms(n) == Some(n);
    assert Headed(n) == n;
    assert !HasRecords(n);
  }

  lemma HeadedTableIsRead(m: Fields)
    requires m == HEADED_TABLE
    ensures NormalizeTable(m).Some?
    ensures NormalizeTable(m).value.Keys == {"type", "rows"} && Get(NormalizeTable(m).value, "rows") == Arr([])
  {
    assert CanonicalRows([]) == Some(([], []));
  }

  /** A table that is read under `content` and left with no rows. */
  lemma EmptyTableAccounts(m: Fields)
    requires TypeToken(m) == TTable && "rows" !in m && "blocks" !in m && "children" !in m
    requires NormalizeTable(m).Some?
    requires NormalizeTable(m).value.Keys == {"type", "rows"} && Get(NormalizeTable(m).value, "rows") == Arr([])
    ensures Arms(m) == Some(NormalizeTable(m).value) && CanonicalBlock(m).Some?
    ensures ArmsGained(m) == []
    ensures ContentLost(m) != [] ==> ArmsLost(m) != []
  {
    var n := NormalizeTable(m).value;
    NoRowsNoGain(n);
    NormalizeTableFrame(m);
    assert Arms(m) == Some(n);
  }

  lemma HeadedTableLoses(m: Fields)
    requires m == HEADED_TABLE
    ensures CanonicalBlock(m).Some? && !IsEmptyParagraph(Obj(m))
    ensures BlockGained(m) == [] && BlockLost(m) != []
  {
    HeadedTableIsRead(m);
    EmptyTableAccounts(m);
    HeadHasText(m);
    assert !Descends(m, "blocks") && !Descends(m, "children");
  }

  lemma HeadHasText(m: Fields)
    requires Get(m, "head") == Arr([Lit("A")])
    ensures ContentLost(m) != []
  {
    TextsOne(Lit("A"));
    assert KeyTexts(m, "head") == ["A"];
  }

  /** Its head is dropped, although the table is read: `content` names no header. */
  lemma HeadBesideContentIsLost()
    ensures Canonicalize([Obj(HEADED_TABLE)]).Some?
    ensures multiset(TextsAll(Canonicalize([Obj(HEADED_TABLE)]).value)) != multiset(TextsAll([Obj(HEADED_TABLE)]))
  {
    HeadedTableLoses(HEADED_TABLE);
    OneBlockLoses([Obj(HEADED_TABLE)]);
  }

  // ------------------------------------------------------- a header over records --

  /** A column that has a key and nothing else. */
  const KEY_COLUMN: Fields := map["key" := Lit("a")]

  /** A table that says its first row is the header, and names its columns by keys. */
  const KEYED_TABLE: Fields :=
    map["type" := Name(TTable), "header" := Bool(true), "columns" := Arr([Obj(KEY_COLUMN)]),
        "rows" := Arr([Arr([Lit("Total")])])]

  /** Such a table once its first row is the head. */
  predicate IsPromoted(n: Fields, cell: Json, column: Json)
    requires IsScalar(cell)
  {
    && n.Keys == {"type", "columns", "head", "rows"} && IsNamed(Get(n, "type"), TTable)
    && Get(n, "columns") == Arr([column]) && Get(n, "head") == Arr([TextNodes(cell)]) && Get(n, "rows") == Arr([])
  }

  lemma OneCell(cells: seq<Json>)
    requires |cells| == 1 && cells[0].Str? && cells[0].decoded.None?
    ensures InlineEach(cells) == Some([TextNodes(cells[0])])
  {
    assert InlineEach(cells[1..]) == Some([]);
    assert Inline(cells[0]) == Some(TextNodes(cells[0]));
    assert [TextNodes(cells[0])] + [] == [TextNodes(cells[0])];
  }

  lemma FirstRowIsPromoted(m: Fields, cell: Json, column: Json)
    requires m.Keys == {"type", "header", "columns", "rows"} && IsNamed(Get(m, "type"), TTable)
    requires Get(m, "header") == Bool(true) && Get(m, "columns") == Arr([column])
    requires Get(m, "rows") == Arr([Arr([cell])]) && cell.Str? && cell.decoded.None?
    ensures DropSpentHeader(m) == m
    ensures PromoteFirstRow(m).Some? && IsPromoted(PromoteFirstRow(m).value, cell, column)
  {
    OneCell([cell]);
    assert [Arr([cell])][1..] == [];
  }

  lemma PromotedStays(n: Fields, cell: Json, column: Json)
    requires IsScalar(cell) && IsPromoted(n, cell, column) && column.Obj?
    ensures AfterFirst(n) == Some(n)
  {
    TextNodesAreInlined(cell);
    EachIsInlined([TextNodes(cell)]);
    assert n["head" := Arr([TextNodes(cell)])] == n;
  }

  lemma KeyedRecords(n: Fields, cell: Json, column: Json)
    requires IsScalar(cell) && IsPromoted(n, cell, column) && column == Obj(KEY_COLUMN)
    ensures HasRecords(n) && RecordsGained(n) == ["a"]
    ensures RowArms(RecordRows(n)) == Some(RecordRows(n))
  {
    assert HasRecords(n);
    RecordsAreShown(n);
    assert LabelTexts(column) == ["a"];
    assert AllLabelTexts([column]) == ["a"] by { assert [column][1..] == []; }
  }

  lemma KeyedTableIsHeaded(m: Fields, n: Fields, cell: Json, column: Json)
    requires DropSpentHeader(m) == m && PromoteFirstRow(m) == Some(n)
    requires IsScalar(cell) && IsPromoted(n, cell, column) && column.Obj?
    ensures HeaderArms(m).Some? && Headed(m) == n
  {
    PromotedStays(n, cell, column);
  }

  lemma HeadTexts(n: Fields, cell: Json)
    requires IsScalar(cell) && Get(n, "head") == Arr([TextNodes(cell)])
    ensures KeyTexts(n, "head") == Texts(cell)
  {
    TextNodesShow(cell);
    TextsOne(TextNodes(cell));
  }

  /** A table of records gains its labels and loses its head. */
  lemma HeadMakesWay(m: Fields, n: Fields)
    requires HeaderArms(m).Some? && Headed(m) == n && HasRecords(n) && RowArms(RecordRows(n)).Some?
    ensures TableArms(m).Some? && TableArmsGained(m) == RecordsGained(n)
    ensures multiset(KeyTexts(n, "head")) <= multiset(TableArmsLost(m))
  {
  }

  lemma ReadTableArms(m: Fields)
    requires IsNamed(Get(m, "type"), TTable) && Get(m, "rows").Arr? && TableArms(m).Some?
    ensures Arms(m) == TableArms(m)
  {
    TableArmsFrame(m);
    assert ListArms(Dialects(m)) == Some(m) && ContentArm(m) == Some(m);
  }

  lemma ChildlessBlock(m: Fields)
    requires Arms(m).Some? && "blocks" !in m && "children" !in m
    ensures CanonicalBlock(m).Some?
    ensures BlockLost(m) == ArmsLost(m) && BlockGained(m) == ArmsGained(m)
  {
    assert ArmsLost(m) + [] + [] == ArmsLost(m) && ArmsGained(m) + [] + [] == ArmsGained(m);
    assert !Descends(m, "blocks") && !Descends(m, "children");
  }

  /** A table without blocks below it that is read as it is. */
  lemma ReadTableAccounts(m: Fields)
    requires IsNamed(Get(m, "type"), TTable) && Get(m, "rows").Arr? && "blocks" !in m && "children" !in m
    requires TableArms(m).Some?
    ensures CanonicalBlock(m).Some?
    ensures BlockLost(m) == TableArmsLost(m) && BlockGained(m) == TableArmsGained(m)
  {
    ReadTableArms(m);
    ChildlessBlock(m);
  }

  predicate IsKeyedTable(m: Fields, cell: Json, column: Json) {
    && m.Keys == {"type", "header", "columns", "rows"} && IsNamed(Get(m, "type"), TTable)
    && Get(m, "header") == Bool(true) && Get(m, "columns") == Arr([column]) && Get(m, "rows") == Arr([Arr([cell])])
    && cell.Str? && cell.decoded.None?
  }

  lemma KeyedTableIs()
    ensures IsKeyedTable(KEYED_TABLE, Lit("Total"), Obj(KEY_COLUMN))
  {
  }

  lemma KeyedTableLoses(m: Fields, cell: Json, column: Json)
    requires IsKeyedTable(m, cell, column) && column == Obj(KEY_COLUMN)
    ensures TableArms(m).Some? && TableArmsGained(m) == ["a"]
    ensures multiset(Texts(cell)) <= multiset(TableArmsLost(m))
  {
    FirstRowIsPromoted(m, cell, column);
    var n := PromoteFirstRow(m).value;
    KeyedTableIsHeaded(m, n, cell, column);
    KeyedRecords(n, cell, column);
    HeadTexts(n, cell);
    HeadMakesWay(m, n);
  }

  lemma KeyedTableHas(m: Fields, cell: Json, column: Json)
    requires IsKeyedTable(m, cell, column)
    ensures IsNamed(Get(m, "type"), TTable) && Get(m, "rows").Arr? && "blocks" !in m && "children" !in m
  {
  }

  lemma TotalIsLost(lost: seq<string>, gained: seq<string>)
    requires multiset(Texts(Lit("Total"))) <= multiset(lost) && gained == ["a"]
    ensures multiset(lost) != multiset(gained)
  {
    assert Texts(Lit("Total")) == ["Total"];
    assert multiset(lost)["Total"] >= multiset(["Total"])["Total"] == 1;
    assert "Total" != "a";
    assert multiset(["a"])["Total"] == 0;
  }

  /** A Paper of one table whose account does not balance. */
  lemma OneTableLoses(bs: seq<Json>)
    requires |bs| == 1 && bs[0].Obj? && IsNamed(Get(bs[0].fields, "type"), TTable) && Get(bs[0].fields, "rows").Arr?
    requires "blocks" !in bs[0].fields && "children" !in bs[0].fields && TableArms(bs[0].fields).Some?
    requires multiset(TableArmsLost(bs[0].fields)) != multiset(TableArmsGained(bs[0].fields))
    ensures Canonicalize(bs).Some?
    ensures multiset(TextsAll(Canonicalize(bs).value)) != multiset(TextsAll(bs))
  {
    ReadTableAccounts(bs[0].fields);
    OneBlock(bs);
    TextsSurviveIff(bs);
  }

  /** The first row becomes the head, and then makes way for the keys of the columns: its
      texts are gone. */
  lemma PromotedRowIsLost()
    ensures Canonicalize([Obj(KEYED_TABLE)]).Some?
    ensures multiset(TextsAll(Canonicalize([Obj(KEYED_TABLE)]).value)) != multiset(TextsAll([Obj(KEYED_TABLE)]))
  {
    KeyedTableIs();
    KeyedTableHas(KEYED_TABLE, Lit("Total"), Obj(KEY_COLUMN));
    KeyedTableLoses(KEYED_TABLE, Lit("Total"), Obj(KEY_COLUMN));
    TotalIsLost(TableArmsLost(KEYED_TABLE), TableArmsGained(KEYED_TABLE));
    OneTableLoses([Obj(KEYED_TABLE)]);
  }
}
