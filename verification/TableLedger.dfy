/** What the table arms of `canonicalize_blocks` keep of a table's texts. */
module TableLedger {
  import opened Wrappers
  import opened Json
  import opened InlineContent
  import opened TableDialects
  import opened SettledTables
  import opened TextLedger

  // ----------------------------------------------------------------- counting --

  function Count(s: seq<string>, x: string): nat {
    multiset(s)[x]
  }

  function At(m: Fields, key: string, x: string): nat {
    Count(KeyTexts(m, key), x)
  }

  /** How often a text stands under the keys the table arms write. */
  function TableCount(m: Fields, x: string): nat {
    At(m, "columns", x) + At(m, "headers", x) + At(m, "header", x) + At(m, "head", x) + At(m, "rows", x)
    + At(m, "content", x)
  }

  function OtherCount(m: Fields, x: string): nat {
    At(m, "cells", x) + At(m, "items", x) + At(m, "text", x) + At(m, "value", x) + At(m, "blocks", x)
    + At(m, "children", x)
  }

  lemma CountJoin(a: seq<string>, b: seq<string>, x: string)
    ensures Count(a + b, x) == Count(a, x) + Count(b, x)
  {
  }

  lemma TableTextsCount(m: Fields, x: string)
    ensures Count(TableTexts(m), x)
         == At(m, "columns", x) + At(m, "headers", x) + At(m, "header", x) + At(m, "head", x) + At(m, "rows", x)
  {
    var a, b, c, d := KeyTexts(m, "columns"), KeyTexts(m, "headers"), KeyTexts(m, "header"), KeyTexts(m, "head");
    CountJoin(a, b, x);
    CountJoin(a + b, c, x);
    CountJoin(a + b + c, d, x);
    CountJoin(a + b + c + d, KeyTexts(m, "rows"), x);
  }

  lemma LeafTextsCount(m: Fields, x: string)
    ensures Count(LeafTexts(m), x)
         == At(m, "cells", x) + At(m, "items", x) + At(m, "content", x) + At(m, "text", x) + At(m, "value", x)
  {
    var a, b, c, d := KeyTexts(m, "cells"), KeyTexts(m, "items"), KeyTexts(m, "content"), KeyTexts(m, "text");
    CountJoin(a, b, x);
    CountJoin(a + b, c, x);
    CountJoin(a + b + c, d, x);
    CountJoin(a + b + c + d, KeyTexts(m, "value"), x);
  }

  lemma ObjCount(m: Fields, x: string)
    ensures Count(Texts(Obj(m)), x) == TableCount(m, x) + OtherCount(m, x)
  {
    TableTextsCount(m, x);
    LeafTextsCount(m, x);
    CountJoin(KeyTexts(m, "blocks"), KeyTexts(m, "children"), x);
    CountJoin(TableTexts(m), LeafTexts(m), x);
    CountJoin(TableTexts(m) + LeafTexts(m), NestedTexts(m), x);
  }

  lemma TableWithout(m: Fields, gone: string, x: string)
    requires gone == "head" || gone == "header" || gone == "rows" || gone == "cells"
    ensures TableCount(m, x) == TableCount(m - {gone}, x) + if gone == "cells" then 0 else At(m, gone, x)
  {
    KeyRemoved(m, gone, "columns");
    KeyRemoved(m, gone, "headers");
    KeyRemoved(m, gone, "header");
    KeyRemoved(m, gone, "head");
    KeyRemoved(m, gone, "rows");
    KeyRemoved(m, gone, "content");
  }

  lemma OtherWithout(m: Fields, gone: string, x: string)
    requires gone == "head" || gone == "header" || gone == "rows" || gone == "cells"
    ensures OtherCount(m, x) == OtherCount(m - {gone}, x) + if gone == "cells" then At(m, gone, x) else 0
  {
    KeyRemoved(m, gone, "cells");
    KeyRemoved(m, gone, "items");
    KeyRemoved(m, gone, "text");
    KeyRemoved(m, gone, "value");
    KeyRemoved(m, gone, "blocks");
    KeyRemoved(m, gone, "children");
  }

  lemma WithoutKey(m: Fields, gone: string, x: string)
    requires gone == "head" || gone == "header" || gone == "rows" || gone == "cells" || gone == "content" || gone == "text"
    ensures Count(Texts(Obj(m)), x) == Count(Texts(Obj(m - {gone})), x) + At(m, gone, x)
  {
    if gone == "content" {
      WithoutContent(m);
    } else if gone == "text" {
      WithoutText(m);
    } else {
      ObjCount(m, x);
      ObjCount(m - {gone}, x);
      TableWithout(m, gone, x);
      OtherWithout(m, gone, x);
    }
  }

  /** The texts under a key depend on its value alone. */
  lemma SameValue(m: Fields, n: Fields, key: string)
    requires Get(m, key) == Get(n, key)
    ensures KeyTexts(m, key) == KeyTexts(n, key)
  {
  }

  lemma ArrayTexts(m: Fields, key: string)
    requires Get(m, key).Arr?
    ensures KeyTexts(m, key) == TextsAll(Get(m, key).items)
  {
  }

  // -------------------------------------------------------------------- cells --

  lemma ContentKept(m: Fields)
    requires Get(m, "content").Arr?
    ensures Keeps(Texts(Obj(m)), TextsAll(Get(m, "content").items), Texts(Obj(m - {"content"})))
  {
    WithoutContent(m);
    ArrayTexts(m, "content");
  }

  /** Each value canonicalised on its own keeps its own texts. */
  lemma {:induction false} EachKeeps(vs: seq<Json>)
    requires InlineEach(vs).Some?
    ensures var r := InlineEach(vs).value;
            && |r| == |vs|
            && Keeps(TextsAll(vs), TextsAll(r), InlineLostAll(vs))
            && forall i :: 0 <= i < |vs| ==> Keeps(Texts(vs[i]), Texts(r[i]), InlineLost(vs[i]))
  {
    if vs == [] {
      KeepsAll([]);
    } else {
      var r := InlineEach(vs).value;
      var rest := InlineEach(vs[1..]).value;
      InlineKeeps(vs[0]);
      EachKeeps(vs[1..]);
      KeepsJoin(Texts(vs[0]), Texts(r[0]), InlineLost(vs[0]), TextsAll(vs[1..]), TextsAll(rest), InlineLostAll(vs[1..]));
      assert r[1..] == rest;
      forall i | 0 <= i < |vs|
        ensures Keeps(Texts(vs[i]), Texts(r[i]), InlineLost(vs[i]))
      {
        assert i > 0 ==> vs[i] == vs[1..][i - 1] && r[i] == rest[i - 1];
      }
    }
  }

  /** A paragraph whose content takes its place in a cell. */
  predicate IsFlattened(node: Json) {
    node.Obj? && IsNamed(Get(node.fields, "type"), TParagraph) && Get(node.fields, "content").Arr?
  }

  /** The texts beside the content of the paragraphs a cell is flattened from. */
  function FlatLost(nodes: seq<Json>): seq<string> {
    if nodes == [] then []
    else
      (if IsFlattened(nodes[0]) then Texts(Obj(nodes[0].fields - {"content"})) else []) + FlatLost(nodes[1..])
  }

  lemma {:induction false} FlattenKeeps(nodes: seq<Json>)
    ensures Keeps(TextsAll(nodes), TextsAll(FlattenCell(nodes)), FlatLost(nodes))
  {
    if nodes == [] {
      KeepsAll([]);
    } else {
      var node, rest := nodes[0], FlattenCell(nodes[1..]);
      FlattenKeeps(nodes[1..]);
      if IsFlattened(node) {
        var inner := Get(node.fields, "content").items;
        ContentKept(node.fields);
        TextsJoin(inner, rest);
        KeepsJoin(Texts(node), TextsAll(inner), Texts(Obj(node.fields - {"content"})),
                  TextsAll(nodes[1..]), TextsAll(rest), FlatLost(nodes[1..]));
      } else {
        KeepsAll(Texts(node));
        TextsOne(node);
        TextsJoin([node], rest);
        KeepsJoin(Texts(node), Texts(node), [], TextsAll(nodes[1..]), TextsAll(rest), FlatLost(nodes[1..]));
      }
    }
  }

  /** The texts a cell under `cells` leaves behind. */
  function CellLost(cell: Json, header: bool): seq<string> {
    match cell
    case Arr(nodes) => FlatLost(nodes)
    case Obj(m) =>
      if !(m.Keys <= (if header then {"content", "text", "header"} else {"content", "text"})) then []
      else if Get(m, "content").Arr? then Texts(Obj(m - {"content"})) + FlatLost(Get(m, "content").items)
      else if Get(m, "text").Str? then Texts(Obj(m - {"text"}))
      else []
    case _ => []
  }

  lemma CellKeeps(cell: Json, header: bool)
    ensures Keeps(Texts(cell), Texts(CanonicalCell(cell, header)), CellLost(cell, header))
  {
    if IsScalar(cell) {
      TextNodesShow(cell);
      KeepsAll(Texts(cell));
    } else if cell.Arr? {
      FlattenKeeps(cell.items);
    } else if CanonicalCell(cell, header) == cell {
      KeepsAll(Texts(cell));
      UnchangedCellLosesNothing(cell, header);
    } else if Get(cell.fields, "content").Arr? {
      var inner := Get(cell.fields, "content").items;
      ContentKept(cell.fields);
      FlattenKeeps(inner);
      KeepsChain(Texts(cell), TextsAll(inner), TextsAll(FlattenCell(inner)), Texts(Obj(cell.fields - {"content"})), FlatLost(inner));
    } else {
      WithoutText(cell.fields);
      TextNodesShow(Get(cell.fields, "text"));
    }
  }

  lemma UnchangedCellLosesNothing(cell: Json, header: bool)
    requires cell.Obj? && CanonicalCell(cell, header) == cell
    ensures CellLost(cell, header) == []
  {
  }

  function CellsLost(cells: seq<Json>, header: bool): seq<string> {
    if cells == [] then [] else CellLost(cells[0], header) + CellsLost(cells[1..], header)
  }

  lemma {:induction false} CellsKeep(cells: seq<Json>, header: bool)
    ensures Keeps(TextsAll(cells), TextsAll(CanonicalCells(cells, header).items), CellsLost(cells, header))
  {
    var r := CanonicalCells(cells, header).items;
    if cells == [] {
      KeepsAll([]);
    } else {
      var rest := CanonicalCells(cells[1..], header).items;
      assert r[1..] == rest && r[0] == CanonicalCell(cells[0], header);
      CellKeeps(cells[0], header);
      CellsKeep(cells[1..], header);
      KeepsJoin(Texts(cells[0]), Texts(r[0]), CellLost(cells[0], header),
                TextsAll(cells[1..]), TextsAll(rest), CellsLost(cells[1..], header));
    }
  }

  // --------------------------------------------------------------------- rows --

  /** The texts a row leaves behind: an object of cells keeps only its cells. */
  function RowLost(row: Json): seq<string> {
    if IsCellsRow(row) then Texts(Obj(row.fields - {"cells"})) + CellsLost(Get(row.fields, "cells").items, false)
    else if row.Arr? then InlineLostAll(row.items)
    else []
  }

  function RowsLost(rows: seq<Json>): seq<string> {
    if rows == [] then [] else RowLost(rows[0]) + RowsLost(rows[1..])
  }

  lemma CellsRowCount(row: Json, x: string)
    requires IsCellsRow(row)
    ensures Count(Texts(CanonicalCells(Get(row.fields, "cells").items, false)), x) + Count(RowLost(row), x)
         == Count(Texts(row), x)
  {
    var cells, rest := Get(row.fields, "cells").items, Texts(Obj(row.fields - {"cells"}));
    ArrayTexts(row.fields, "cells");
    WithoutKey(row.fields, "cells", x);
    CellsKeep(cells, false);
    CountJoin(rest, CellsLost(cells, false), x);
  }

  lemma RowCount(row: Json, x: string)
    requires NormalRow(row).Some?
    ensures Count(Texts(NormalRow(row).value), x) + Count(RowLost(row), x) == Count(Texts(row), x)
  {
    if IsCellsRow(row) {
      CellsRowCount(row, x);
    } else if row.Arr? {
      EachKeeps(row.items);
    }
  }

  lemma {:induction false} RowsCount(rows: seq<Json>, x: string)
    requires NormalRows(rows).Some?
    ensures Count(TextsAll(NormalRows(rows).value), x) + Count(RowsLost(rows), x) == Count(TextsAll(rows), x)
  {
    if rows != [] {
      var r := NormalRows(rows).value;
      RowCount(rows[0], x);
      RowsCount(rows[1..], x);
      assert r[1..] == NormalRows(rows[1..]).value;
    }
  }

  // ----------------------------------------------------------- head and row arms --

  /** One table arm: `n` has the texts of `m` less `lost`, and besides them `gained`. */
  ghost predicate Balanced(m: Fields, n: Fields, lost: seq<string>, gained: seq<string>) {
    forall x :: TableCount(n, x) + Count(lost, x) == TableCount(m, x) + Count(gained, x)
  }

  lemma OutsideStays(keys: set<string>, m: Fields, n: Fields, key: string)
    requires SameOutside(keys, m, n) && key !in keys
    ensures KeyTexts(n, key) == KeyTexts(m, key)
  {
  }

  /** Only the head and one other key changed. */
  lemma OnlyTwoChange(m: Fields, n: Fields, key: string, x: string)
    requires key == "headers" || key == "header" || key == "columns" || key == "rows"
    requires SameOutside({"type", "head", key}, m, n)
    ensures TableCount(n, x) - At(n, "head", x) - At(n, key, x) == TableCount(m, x) - At(m, "head", x) - At(m, key, x)
  {
    var keys := {"type", "head", key};
    if key != "columns" { OutsideStays(keys, m, n, "columns"); }
    if key != "headers" { OutsideStays(keys, m, n, "headers"); }
    if key != "header" { OutsideStays(keys, m, n, "header"); }
    if key != "rows" { OutsideStays(keys, m, n, "rows"); }
    OutsideStays(keys, m, n, "content");
  }

  lemma WithoutTrueHeader(m: Fields, x: string)
    requires Get(m, "header") == Bool(true)
    ensures TableCount(m - {"header"}, x) == TableCount(m, x)
  {
    TableWithout(m, "header", x);
  }

  lemma SpentHeaderBalanced(m: Fields)
    ensures Balanced(m, DropSpentHeader(m), [], [])
  {
    if DropSpentHeader(m) != m {
      forall x
        ensures TableCount(DropSpentHeader(m), x) == TableCount(m, x)
      {
        WithoutTrueHeader(m, x);
      }
    }
  }

  /** The head is replaced by the cells under `key`. */
  lemma HeadReplaced(m: Fields, n: Fields, key: string, x: string)
    requires key == "headers" || key == "header" || key == "columns"
    requires Get(m, key).Arr? && InlineEach(Get(m, key).items).Some?
    requires n == (m - {key})["head" := Arr(InlineEach(Get(m, key).items).value)]
    ensures TableCount(n, x) + Count(InlineLostAll(Get(m, key).items), x) + At(m, "head", x) == TableCount(m, x)
  {
    OnlyTwoChange(m, n, key, x);
    EachKeeps(Get(m, key).items);
    ArrayTexts(m, key);
    ArrayTexts(n, "head");
    assert At(n, key, x) == 0;
  }

  /** The texts left behind when scalars under `key` become the head; a falsy head that
      they replace has none. */
  function LabelsLost(m: Fields, key: string): seq<string> {
    if LabelsDone(m, key) then [] else InlineLostAll(Get(m, key).items) + KeyTexts(m, "head")
  }

  lemma LabelsBalanced(m: Fields, key: string)
    requires PromoteLabels(m, key).Some? && (key == "headers" || key == "header")
    ensures Balanced(m, PromoteLabels(m, key).value, LabelsLost(m, key), [])
  {
    if !LabelsDone(m, key) {
      forall x
        ensures TableCount(PromoteLabels(m, key).value, x) + Count(LabelsLost(m, key), x) == TableCount(m, x)
      {
        HeadReplaced(m, PromoteLabels(m, key).value, key, x);
      }
    }
  }

  function FirstRowLost(m: Fields): seq<string> {
    if PromotesFirst(m) then InlineLostAll(Get(m, "rows").items[0].items) + KeyTexts(m, "head") else []
  }

  lemma FirstRowOthers(m: Fields, x: string)
    requires PromoteFirstRow(m).Some? && PromotesFirst(m)
    ensures var n := PromoteFirstRow(m).value;
            TableCount(n, x) - At(n, "head", x) - At(n, "rows", x) == TableCount(m, x) - At(m, "head", x) - At(m, "rows", x)
  {
    WithoutTrueHeader(m, x);
    OnlyTwoChange(m - {"header"}, PromoteFirstRow(m).value, "rows", x);
    OutsideStays({"header"}, m, m - {"header"}, "head");
    OutsideStays({"header"}, m, m - {"header"}, "rows");
  }

  lemma FirstRowCount(m: Fields, x: string)
    requires PromoteFirstRow(m).Some? && PromotesFirst(m)
    ensures TableCount(PromoteFirstRow(m).value, x) + Count(FirstRowLost(m), x) == TableCount(m, x)
  {
    var rows, n := Get(m, "rows").items, PromoteFirstRow(m).value;
    FirstRowOthers(m, x);
    EachKeeps(rows[0].items);
    ArrayTexts(m, "rows");
    ArrayTexts(n, "rows");
    ArrayTexts(n, "head");
    CountJoin(Texts(rows[0]), TextsAll(rows[1..]), x);
  }

  lemma FirstRowBalanced(m: Fields)
    requires PromoteFirstRow(m).Some?
    ensures Balanced(m, PromoteFirstRow(m).value, FirstRowLost(m), [])
  {
    if PromotesFirst(m) {
      forall x
        ensures TableCount(PromoteFirstRow(m).value, x) + Count(FirstRowLost(m), x) == TableCount(m, x)
      {
        FirstRowCount(m, x);
      }
    }
  }

  function HeadLost(m: Fields): seq<string> {
    if Get(m, "head").Arr? then InlineLostAll(Get(m, "head").items) else []
  }

  lemma HeadCount(m: Fields, x: string)
    requires CanonicalHead(m).Some? && Get(m, "head").Arr?
    ensures TableCount(CanonicalHead(m).value, x) + Count(HeadLost(m), x) == TableCount(m, x)
  {
    var n := CanonicalHead(m).value;
    OnlyTwoChange(m, n, "rows", x);
    OutsideStays({"head"}, m, n, "rows");
    EachKeeps(Get(m, "head").items);
    ArrayTexts(m, "head");
    ArrayTexts(n, "head");
  }

  lemma HeadBalanced(m: Fields)
    requires CanonicalHead(m).Some?
    ensures Balanced(m, CanonicalHead(m).value, HeadLost(m), [])
  {
    if Get(m, "head").Arr? {
      forall x
        ensures TableCount(CanonicalHead(m).value, x) + Count(HeadLost(m), x) == TableCount(m, x)
      {
        HeadCount(m, x);
      }
    }
  }

  function ColumnsLost(m: Fields): seq<string> {
    if ColumnsDone(m) then [] else InlineLostAll(Get(m, "columns").items) + KeyTexts(m, "head")
  }

  lemma ColumnsBalanced(m: Fields)
    requires PromoteColumns(m).Some?
    ensures Balanced(m, PromoteColumns(m).value, ColumnsLost(m), [])
  {
    if !ColumnsDone(m) {
      forall x
        ensures TableCount(PromoteColumns(m).value, x) + Count(ColumnsLost(m), x) == TableCount(m, x)
      {
        HeadReplaced(m, PromoteColumns(m).value, "columns", x);
      }
    }
  }

  predicate PromotesTextColumns(m: Fields) {
    HasColumns(m) && IsHeadless(m)
    && forall i | 0 <= i < |Get(m, "columns").items| :: IsTextOnly(Get(m, "columns").items[i])
  }

  function TextColumnsLost(m: Fields): seq<string> {
    if PromotesTextColumns(m) then KeyTexts(m, "head") else []
  }

  lemma {:induction false} SameTexts(a: seq<Json>, b: seq<Json>)
    requires |a| == |b|
    requires forall i :: 0 <= i < |a| ==> Texts(a[i]) == Texts(b[i])
    ensures TextsAll(a) == TextsAll(b)
  {
    if a != [] {
      assert Texts(a[0]) == Texts(b[0]);
      forall i | 0 <= i < |a[1..]|
        ensures Texts(a[1..][i]) == Texts(b[1..][i])
      {
        assert a[1..][i] == a[i + 1] && b[1..][i] == b[i + 1];
      }
      SameTexts(a[1..], b[1..]);
    }
  }

  lemma TextOnlyShows(column: Json)
    requires IsTextOnly(column)
    ensures Texts(TextNodes(Get(column.fields, "text"))) == Texts(column)
  {
    var m := column.fields;
    var text := m["text"];
    assert m - {"text"} == map[];
    WithoutText(m);
    assert Texts(Obj(map[])) == [];
    KeepsEveryIff(Texts(column), KeyTexts(m, "text"), []);
    TextNodesShow(text);
  }

  lemma TextColumnsCount(m: Fields, x: string)
    requires PromotesTextColumns(m)
    ensures TableCount(PromoteTextColumns(m), x) + Count(TextColumnsLost(m), x) == TableCount(m, x)
  {
    var columns, n := Get(m, "columns").items, PromoteTextColumns(m);
    var heads := Get(n, "head").items;
    forall i | 0 <= i < |columns|
      ensures Texts(heads[i]) == Texts(columns[i])
    {
      TextOnlyShows(columns[i]);
    }
    SameTexts(heads, columns);
    OnlyTwoChange(m, n, "columns", x);
    ArrayTexts(m, "columns");
    ArrayTexts(n, "head");
    assert At(n, "columns", x) == 0;
  }

  lemma TextColumnsBalanced(m: Fields)
    ensures Balanced(m, PromoteTextColumns(m), TextColumnsLost(m), [])
  {
    if PromotesTextColumns(m) {
      forall x
        ensures TableCount(PromoteTextColumns(m), x) + Count(TextColumnsLost(m), x) == TableCount(m, x)
      {
        TextColumnsCount(m, x);
      }
    }
  }

  // ------------------------------------------------------------------ record rows --

  /** What a column shows as its header: its label, or its key for want of one. */
  function LabelTexts(column: Json): seq<string> {
    if !column.Obj? then []
    else if Truthy(Get(column.fields, "label")) then Texts(Get(column.fields, "label"))
    else Texts(Get(column.fields, "key"))
  }

  /** What a record holds under a column's key. */
  function FieldTexts(row: Json, column: Json): seq<string> {
    if !row.Obj? || !ColumnKey(column).Str? || ColumnKey(column).s !in row.fields then []
    else Texts(row.fields[ColumnKey(column).s])
  }

  function AllLabelTexts(columns: seq<Json>): seq<string> {
    if columns == [] then [] else LabelTexts(columns[0]) + AllLabelTexts(columns[1..])
  }

  function AllFieldTexts(row: Json, columns: seq<Json>): seq<string> {
    if columns == [] then [] else FieldTexts(row, columns[0]) + AllFieldTexts(row, columns[1..])
  }

  function RecordTexts(rows: seq<Json>, columns: seq<Json>): seq<string> {
    if rows == [] then [] else AllFieldTexts(rows[0], columns) + RecordTexts(rows[1..], columns)
  }

  predicate IsColumn(column: Json) {
    column.Obj? && ColumnKey(column).Str? && (Get(column.fields, "label").Null? || Get(column.fields, "label").Str?)
  }

  predicate IsRecord(row: Json) {
    row.Obj? && forall k | k in row.fields :: IsScalar(row.fields[k])
  }

  lemma ColumnHeadShows(column: Json)
    requires IsColumn(column)
    ensures Texts(ColumnHead(column)) == LabelTexts(column)
  {
    TextNodesShow(if Truthy(Get(column.fields, "label")) then Get(column.fields, "label") else ColumnKey(column));
  }

  lemma RecordCellShows(row: Json, column: Json)
    requires IsRecord(row)
    ensures Texts(RecordCell(row, column)) == FieldTexts(row, column)
  {
    if ColumnKey(column).Str? && ColumnKey(column).s in row.fields {
      TextNodesShow(row.fields[ColumnKey(column).s]);
    } else {
      TextNodesShow(Lit(""));
    }
  }

  lemma {:induction false} LabelsShow(columns: seq<Json>, heads: seq<Json>)
    requires |heads| == |columns|
    requires forall i :: 0 <= i < |columns| ==> IsColumn(columns[i]) && heads[i] == ColumnHead(columns[i])
    ensures TextsAll(heads) == AllLabelTexts(columns)
  {
    if columns != [] {
      ColumnHeadShows(columns[0]);
      assert forall i :: 0 <= i < |columns[1..]| ==> columns[1..][i] == columns[i + 1] && heads[1..][i] == heads[i + 1];
      LabelsShow(columns[1..], heads[1..]);
    }
  }

  lemma {:induction false} RecordRowShows(row: Json, columns: seq<Json>)
    requires IsRecord(row)
    ensures Texts(RecordRow(row, columns)) == AllFieldTexts(row, columns)
  {
    if columns != [] {
      RecordCellShows(row, columns[0]);
      RecordRowShows(row, columns[1..]);
      var r := RecordRow(row, columns).items;
      assert r[0] == RecordCell(row, columns[0]) && r[1..] == RecordRow(row, columns[1..]).items;
    }
  }

  lemma {:induction false} RecordsShow(rows: seq<Json>, columns: seq<Json>, made: seq<Json>)
    requires |made| == |rows|
    requires forall i :: 0 <= i < |rows| ==> IsRecord(rows[i]) && made[i] == RecordRow(rows[i], columns)
    ensures TextsAll(made) == RecordTexts(rows, columns)
  {
    if rows != [] {
      RecordRowShows(rows[0], columns);
      assert forall i :: 0 <= i < |rows[1..]| ==> rows[1..][i] == rows[i + 1] && made[1..][i] == made[i + 1];
      RecordsShow(rows[1..], columns, made[1..]);
    }
  }

  /** A table of records is read through its columns: what its columns, head and rows
      showed before is replaced. */
  function RecordsLost(m: Fields): seq<string> {
    if HasRecords(m) then KeyTexts(m, "columns") + KeyTexts(m, "head") + KeyTexts(m, "rows") else []
  }

  function RecordsGained(m: Fields): seq<string> {
    if HasRecords(m)
    then AllLabelTexts(Get(m, "columns").items) + RecordTexts(Get(m, "rows").items, Get(m, "columns").items) else []
  }

  lemma RecordsShown(m: Fields)
    requires HasRecords(m)
    ensures KeyTexts(RecordRows(m), "head") == AllLabelTexts(Get(m, "columns").items)
    ensures KeyTexts(RecordRows(m), "rows") == RecordTexts(Get(m, "rows").items, Get(m, "columns").items)
    ensures KeyTexts(RecordRows(m), "columns") == []
  {
    var columns, rows, n := Get(m, "columns").items, Get(m, "rows").items, RecordRows(m);
    ArrayTexts(n, "head");
    ArrayTexts(n, "rows");
    LabelsShow(columns, Get(n, "head").items);
    RecordsShow(rows, columns, Get(n, "rows").items);
  }

  lemma RecordsCount(m: Fields, x: string)
    requires HasRecords(m)
    ensures TableCount(RecordRows(m), x) + Count(RecordsLost(m), x) == TableCount(m, x) + Count(RecordsGained(m), x)
  {
    var n := RecordRows(m);
    var keys := {"columns", "head", "rows"};
    RecordsShown(m);
    OutsideStays(keys, m, n, "headers");
    OutsideStays(keys, m, n, "header");
    OutsideStays(keys, m, n, "content");
    CountJoin(KeyTexts(m, "columns"), KeyTexts(m, "head"), x);
    CountJoin(KeyTexts(m, "columns") + KeyTexts(m, "head"), KeyTexts(m, "rows"), x);
    CountJoin(KeyTexts(n, "head"), KeyTexts(n, "rows"), x);
  }

  lemma RecordsBalanced(m: Fields)
    ensures Balanced(m, RecordRows(m), RecordsLost(m), RecordsGained(m))
  {
    if HasRecords(m) {
      forall x
        ensures TableCount(RecordRows(m), x) + Count(RecordsLost(m), x) == TableCount(m, x) + Count(RecordsGained(m), x)
      {
        RecordsCount(m, x);
      }
    }
  }

  // --------------------------------------------------------------------- row arms --

  /** The texts the row arms leave behind: those beside the cells of a row that becomes
      the head, those each row leaves, and those of the falsy head that is replaced. */
  function RowArmsLost(m: Fields): seq<string> {
    if !Get(m, "rows").Arr? then []
    else
      var rows := Get(m, "rows").items;
      if !HeadRowIsDue(m) then RowsLost(rows)
      else
        Texts(Obj(rows[0].fields - {"cells"})) + CellsLost(Get(rows[0].fields, "cells").items, true)
        + RowsLost(rows[1..]) + KeyTexts(m, "head")
  }

  lemma HeadRowCount(m: Fields, x: string)
    requires HeadRowIsDue(m) && RowArms(m).Some?
    ensures TableCount(RowArms(m).value, x) + Count(RowArmsLost(m), x) == TableCount(m, x)
  {
    var rows, n := Get(m, "rows").items, RowArms(m).value;
    var first, rest := rows[0].fields, Texts(Obj(rows[0].fields - {"cells"}));
    var cells := Get(first, "cells").items;
    WithoutKey(first, "cells", x);
    ArrayTexts(first, "cells");
    CellsKeep(cells, true);
    RowsCount(rows[1..], x);
    OnlyTwoChange(m, n, "rows", x);
    ArrayTexts(m, "rows");
    ArrayTexts(n, "rows");
    ArrayTexts(n, "head");
    CountJoin(Texts(rows[0]), TextsAll(rows[1..]), x);
    CountJoin(rest, CellsLost(cells, true), x);
    CountJoin(rest + CellsLost(cells, true), RowsLost(rows[1..]), x);
    CountJoin(rest + CellsLost(cells, true) + RowsLost(rows[1..]), KeyTexts(m, "head"), x);
  }

  lemma PlainRowsCount(m: Fields, x: string)
    requires Get(m, "rows").Arr? && !HeadRowIsDue(m) && RowArms(m).Some?
    ensures TableCount(RowArms(m).value, x) + Count(RowArmsLost(m), x) == TableCount(m, x)
  {
    var rows, n := Get(m, "rows").items, RowArms(m).value;
    if rows != [] {
      RowsCount(rows, x);
      OnlyTwoChange(m, n, "rows", x);
      OutsideStays({"rows"}, m, n, "head");
      ArrayTexts(m, "rows");
      ArrayTexts(n, "rows");
    }
  }

  lemma RowArmsBalanced(m: Fields)
    requires RowArms(m).Some?
    ensures Balanced(m, RowArms(m).value, RowArmsLost(m), [])
  {
    if Get(m, "rows").Arr? {
      forall x
        ensures TableCount(RowArms(m).value, x) + Count(RowArmsLost(m), x) == TableCount(m, x)
      {
        if HeadRowIsDue(m) {
          HeadRowCount(m, x);
        } else {
          PlainRowsCount(m, x);
        }
      }
    }
  }

  lemma BalancedChain(m: Fields, n: Fields, o: Fields, s: seq<string>, g: seq<string>, t: seq<string>, h: seq<string>)
    requires Balanced(m, n, s, g) && Balanced(n, o, t, h)
    ensures Balanced(m, o, s + t, g + h)
  {
    forall x
      ensures TableCount(o, x) + Count(s + t, x) == TableCount(m, x) + Count(g + h, x)
    {
      assert TableCount(n, x) + Count(s, x) == TableCount(m, x) + Count(g, x);
      CountJoin(s, t, x);
      CountJoin(g, h, x);
    }
  }

  // ------------------------------------------------------------- the content dialect --

  /** The texts beside the cells of a row under `content`, and those its cells leave. */
  function ContentRowLost(row: Json): seq<string> {
    match row
    case Arr(cells) => InlineLostAll(cells)
    case Obj(m) =>
      if Get(m, "content").Arr? then Texts(Obj(m - {"content"})) + InlineLostAll(Get(m, "content").items)
      else if Get(m, "cells").Arr? then Texts(Obj(m - {"cells"})) + InlineLostAll(Get(m, "cells").items)
      else []
    case _ => []
  }

  function ContentRowsLost(rows: seq<Json>): seq<string> {
    if rows == [] then [] else ContentRowLost(rows[0]) + ContentRowsLost(rows[1..])
  }

  lemma ContentRowCount(row: Json, x: string)
    requires RowCells(row).Some? && InlineEach(RowCells(row).value.0).Some?
    ensures Count(TextsAll(InlineEach(RowCells(row).value.0).value), x) + Count(ContentRowLost(row), x)
         == Count(Texts(row), x)
  {
    var cells := RowCells(row).value.0;
    EachKeeps(cells);
    if row.Obj? {
      var key := if Get(row.fields, "content").Arr? then "content" else "cells";
      ArrayTexts(row.fields, key);
      WithoutKey(row.fields, key, x);
      CountJoin(Texts(Obj(row.fields - {key})), InlineLostAll(cells), x);
    }
  }

  lemma {:induction false} ContentRowsCount(rows: seq<Json>, x: string)
    requires CanonicalRows(rows).Some?
    ensures Count(TextsAll(AsRows(CanonicalRows(rows).value.0).items), x) + Count(ContentRowsLost(rows), x)
         == Count(TextsAll(rows), x)
  {
    if rows != [] {
      var made := CanonicalRows(rows).value.0;
      var rest := CanonicalRows(rows[1..]).value.0;
      ContentRowCount(rows[0], x);
      ContentRowsCount(rows[1..], x);
      assert AsRows(made).items[0] == Arr(made[0]);
      assert AsRows(made).items[1..] == AsRows(rest).items;
      CountJoin(ContentRowLost(rows[0]), ContentRowsLost(rows[1..]), x);
      CountJoin(Texts(rows[0]), TextsAll(rows[1..]), x);
      CountJoin(Texts(Arr(made[0])), TextsAll(AsRows(rest).items), x);
    }
  }

  function HeadKey(source: Fields): string {
    if Truthy(Get(source, "head")) then "head" else "header"
  }

  /** The texts left behind in a `content` that held the rows: those beside the rows and
      the header of an object, and those the cells leave. */
  function SourceLost(source: Json): seq<string> {
    match source
    case Arr(rows) => ContentRowsLost(rows)
    case Obj(m) =>
      if !Get(m, "rows").Arr? then []
      else if Get(m, HeadKey(m)).Arr? then
        Texts(Obj(m - {"rows"} - {HeadKey(m)})) + InlineLostAll(Get(m, HeadKey(m)).items)
        + ContentRowsLost(Get(m, "rows").items)
      else Texts(Obj(m - {"rows"})) + ContentRowsLost(Get(m, "rows").items)
    case _ => []
  }

  /** The texts the content dialect leaves behind, a head and a header of the table and
      rows that are no array among them. */
  function ContentLost(m: Fields): seq<string> {
    KeyTexts(m, "head") + KeyTexts(m, "header") + KeyTexts(m, "rows") + SourceLost(Get(m, "content"))
  }

  lemma {:induction false} FirstOfRows(rows: seq<seq<Json>>, x: string)
    requires rows != []
    ensures Count(TextsAll(AsRows(rows).items), x) == Count(TextsAll(rows[0]), x) + Count(TextsAll(AsRows(rows[1..]).items), x)
  {
    assert AsRows(rows).items[0] == Arr(rows[0]);
    assert AsRows(rows).items[1..] == AsRows(rows[1..]).items;
    CountJoin(TextsAll(rows[0]), TextsAll(AsRows(rows[1..]).items), x);
  }

  /** An object with the rows, beside them no header. */
  lemma BareSourceCount(m: Fields, x: string)
    requires Get(m, "rows").Arr? && CanonicalRows(Get(m, "rows").items).Some? && !Get(m, HeadKey(m)).Arr?
    ensures Count(TextsAll(AsRows(CanonicalRows(Get(m, "rows").items).value.0).items), x) + Count(SourceLost(Obj(m)), x)
         == Count(Texts(Obj(m)), x)
  {
    var rows := Get(m, "rows").items;
    ContentRowsCount(rows, x);
    ArrayTexts(m, "rows");
    WithoutKey(m, "rows", x);
    CountJoin(Texts(Obj(m - {"rows"})), ContentRowsLost(rows), x);
  }

  lemma HeadedSourceRest(m: Fields, x: string)
    requires Get(m, "rows").Arr? && Get(m, HeadKey(m)).Arr?
    ensures Count(Texts(Obj(m)), x)
         == Count(Texts(Obj(m - {"rows"} - {HeadKey(m)})), x) + Count(TextsAll(Get(m, HeadKey(m)).items), x)
            + Count(TextsAll(Get(m, "rows").items), x)
  {
    var n := m - {"rows"};
    ArrayTexts(m, "rows");
    WithoutKey(m, "rows", x);
    assert Get(n, HeadKey(m)) == Get(m, HeadKey(m));
    ArrayTexts(n, HeadKey(m));
    WithoutKey(n, HeadKey(m), x);
  }

  /** An object with the rows and the header. */
  lemma HeadedSourceCount(m: Fields, x: string)
    requires Get(m, "rows").Arr? && CanonicalRows(Get(m, "rows").items).Some?
    requires Get(m, HeadKey(m)).Arr? && InlineEach(Get(m, HeadKey(m)).items).Some?
    ensures Count(TextsAll(AsRows(CanonicalRows(Get(m, "rows").items).value.0).items), x)
            + Count(TextsAll(InlineEach(Get(m, HeadKey(m)).items).value), x) + Count(SourceLost(Obj(m)), x)
         == Count(Texts(Obj(m)), x)
  {
    var rows, cells := Get(m, "rows").items, Get(m, HeadKey(m)).items;
    var rest := Texts(Obj(m - {"rows"} - {HeadKey(m)}));
    HeadedSourceRest(m, x);
    ContentRowsCount(rows, x);
    EachKeeps(cells);
    CountJoin(rest, InlineLostAll(cells), x);
    CountJoin(rest + InlineLostAll(cells), ContentRowsLost(rows), x);
  }

  function SourceRows(source: Json): Json {
    if source.Obj? then Get(source.fields, "rows") else source
  }

  /** The head and the rows the dialect makes of the source's canonical rows. */
  lemma ContentShape(m: Fields)
    requires NormalizeTable(m).Some?
    ensures var source, n := Get(m, "content"), NormalizeTable(m).value;
            && SourceRows(source).Arr? && CanonicalRows(SourceRows(source).items).Some?
            && var rows := CanonicalRows(SourceRows(source).items).value.0;
               if ExplicitHead(source).Arr? then
                 && source.Obj? && InlineEach(ExplicitHead(source).items).Some?
                 && Get(n, "head") == Arr(InlineEach(ExplicitHead(source).items).value) && Get(n, "rows") == AsRows(rows)
               else if "head" in n then
                 rows != [] && Get(n, "head") == Arr(rows[0]) && Get(n, "rows") == AsRows(rows[1..])
               else Get(n, "rows") == AsRows(rows)
  {
  }

  lemma MadeOfRows(n: Fields, rows: seq<seq<Json>>, x: string)
    requires if "head" in n then rows != [] && Get(n, "head") == Arr(rows[0]) && Get(n, "rows") == AsRows(rows[1..])
             else Get(n, "rows") == AsRows(rows)
    ensures At(n, "head", x) + At(n, "rows", x) == Count(TextsAll(AsRows(rows).items), x)
  {
    ArrayTexts(n, "rows");
    if "head" in n {
      ArrayTexts(n, "head");
      FirstOfRows(rows, x);
    }
  }

  lemma ContentMade(m: Fields, x: string)
    requires NormalizeTable(m).Some?
    ensures At(NormalizeTable(m).value, "head", x) + At(NormalizeTable(m).value, "rows", x)
            + Count(SourceLost(Get(m, "content")), x)
         == At(m, "content", x)
  {
    var source, n := Get(m, "content"), NormalizeTable(m).value;
    ContentShape(m);
    var rows := CanonicalRows(SourceRows(source).items).value.0;
    assert KeyTexts(m, "content") == Texts(source);
    if ExplicitHead(source).Arr? {
      ArrayTexts(n, "rows");
      ArrayTexts(n, "head");
      HeadedSourceCount(source.fields, x);
    } else {
      MadeOfRows(n, rows, x);
      if source.Obj? {
        BareSourceCount(source.fields, x);
      } else {
        ContentRowsCount(source.items, x);
      }
    }
  }

  lemma ContentCount(m: Fields, x: string)
    requires NormalizeTable(m).Some?
    ensures TableCount(NormalizeTable(m).value, x) + Count(ContentLost(m), x) == TableCount(m, x)
  {
    var n := NormalizeTable(m).value;
    var keys := {"type", "content", "head", "header", "rows"};
    ContentMade(m, x);
    assert SameOutside(keys, m, n);
    OutsideStays(keys, m, n, "columns");
    OutsideStays(keys, m, n, "headers");
    assert KeyTexts(n, "content") == KeyTexts(n, "header") == [];
    CountJoin(KeyTexts(m, "head"), KeyTexts(m, "header"), x);
    CountJoin(KeyTexts(m, "head") + KeyTexts(m, "header"), KeyTexts(m, "rows"), x);
    CountJoin(KeyTexts(m, "head") + KeyTexts(m, "header") + KeyTexts(m, "rows"), SourceLost(Get(m, "content")), x);
  }

  lemma ContentBalanced(m: Fields)
    requires NormalizeTable(m).Some?
    ensures Balanced(m, NormalizeTable(m).value, ContentLost(m), [])
  {
    forall x
      ensures TableCount(NormalizeTable(m).value, x) + Count(ContentLost(m), x) == TableCount(m, x)
    {
      ContentCount(m, x);
    }
  }

  // ------------------------------------------------------------------ the whole arm --

  function HeaderLost(m: Fields): seq<string>
    requires HeaderArms(m).Some?
  {
    var a := PromoteFirstRow(DropSpentHeader(m)).value;
    var b := PromoteLabels(a, "headers").value;
    var c := PromoteLabels(b, "header").value;
    var d := CanonicalHead(c).value;
    FirstRowLost(DropSpentHeader(m)) + LabelsLost(a, "headers") + LabelsLost(b, "header") + HeadLost(c) + ColumnsLost(d)
  }

  lemma HeaderBalanced(m: Fields)
    requires HeaderArms(m).Some?
    ensures Balanced(m, HeaderArms(m).value, HeaderLost(m), [])
  {
    var s := DropSpentHeader(m);
    var a := PromoteFirstRow(s).value;
    var b := PromoteLabels(a, "headers").value;
    var c := PromoteLabels(b, "header").value;
    var d := CanonicalHead(c).value;
    var e := PromoteColumns(d).value;
    SpentHeaderBalanced(m);
    FirstRowBalanced(s);
    BalancedChain(m, s, a, [], [], FirstRowLost(s), []);
    LabelsBalanced(a, "headers");
    BalancedChain(m, a, b, FirstRowLost(s), [], LabelsLost(a, "headers"), []);
    LabelsBalanced(b, "header");
    BalancedChain(m, b, c, FirstRowLost(s) + LabelsLost(a, "headers"), [], LabelsLost(b, "header"), []);
    HeadBalanced(c);
    BalancedChain(m, c, d, FirstRowLost(s) + LabelsLost(a, "headers") + LabelsLost(b, "header"), [], HeadLost(c), []);
    ColumnsBalanced(d);
    BalancedChain(m, d, e, FirstRowLost(s) + LabelsLost(a, "headers") + LabelsLost(b, "header") + HeadLost(c), [],
                  ColumnsLost(d), []);
  }

  /** A table as it stands before its rows are read as records. */
  function Headed(m: Fields): Fields
    requires HeaderArms(m).Some?
  {
    PromoteTextColumns(HeaderArms(m).value)
  }

  function TableArmsLost(m: Fields): seq<string>
    requires TableArms(m).Some?
  {
    HeaderLost(m) + TextColumnsLost(HeaderArms(m).value) + RecordsLost(Headed(m)) + RowArmsLost(RecordRows(Headed(m)))
  }

  function TableArmsGained(m: Fields): seq<string>
    requires TableArms(m).Some?
  {
    RecordsGained(Headed(m))
  }

  lemma TableArmsBalanced(m: Fields)
    requires TableArms(m).Some?
    ensures Balanced(m, TableArms(m).value, TableArmsLost(m), TableArmsGained(m))
  {
    var a, b := HeaderArms(m).value, Headed(m);
    var c := RecordRows(b);
    var d := RowArms(c).value;
    HeaderBalanced(m);
    TextColumnsBalanced(a);
    BalancedChain(m, a, b, HeaderLost(m), [], TextColumnsLost(a), []);
    RecordsBalanced(b);
    BalancedChain(m, b, c, HeaderLost(m) + TextColumnsLost(a), [], RecordsLost(b), RecordsGained(b));
    RowArmsBalanced(c);
    BalancedChain(m, c, d, HeaderLost(m) + TextColumnsLost(a) + RecordsLost(b), RecordsGained(b), RowArmsLost(c), []);
  }
}
