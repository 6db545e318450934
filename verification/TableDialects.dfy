/** The table arms of `canonicalize_blocks`. */
module TableDialects {
  import opened Wrappers
  import opened Json
  import opened InlineContent

  /** The only keys a table arm writes or removes. */
  const TABLE_KEYS: set<string> := {"type", "content", "head", "header", "headers", "rows", "columns"}

  ghost predicate SameOutside(keys: set<string>, m: Fields, n: Fields) {
    forall k :: k !in keys ==> (k in m <==> k in n) && (k in m ==> m[k] == n[k])
  }

  /** Nothing outside the table keys changed, and the type is the same or "table". */
  ghost predicate TableFrame(m: Fields, n: Fields) {
    SameOutside(TABLE_KEYS, m, n) && (Get(n, "type") == Get(m, "type") || Get(n, "type") == Name(TTable))
  }

  /** Each value canonicalised on its own; `None` when one raises. */
  function InlineEach(vs: seq<Json>): Option<seq<Json>> {
    if vs == [] then Some([])
    else
      match (Inline(vs[0]), InlineEach(vs[1..]))
      case (Some(first), Some(rest)) => Some([first] + rest)
      case _ => None
  }

  // ------------------------------------------------ rows under a content carrier --

  predicate IsHeaderCell(v: Json) {
    v.Obj? && (Get(v.fields, "header") == Bool(true) || TypeToken(v.fields) == TTableHeader)
  }

  predicate AreHeaderCells(cells: seq<Json>) {
    forall i | 0 <= i < |cells| :: IsHeaderCell(cells[i])
  }

  /** `_table_row_cells`. */
  function RowCells(row: Json): Option<(seq<Json>, bool)> {
    match row
    case Arr(cells) => Some((cells, false))
    case Obj(m) =>
      var carrier := if Get(m, "content").Arr? then Get(m, "content") else Get(m, "cells");
      if !carrier.Arr? then None
      else
        Some((carrier.items,
              Get(m, "header") == Bool(true)
              || (carrier.items != [] && AreHeaderCells(carrier.items))))
    case _ => None
  }

  /** Canonical rows and their header flags. */
  function CanonicalRows(rows: seq<Json>): Option<(seq<seq<Json>>, seq<bool>)> {
    if rows == [] then Some(([], []))
    else
      match (RowCells(rows[0]), CanonicalRows(rows[1..]))
      case (Some(first), Some(rest)) =>
        (match InlineEach(first.0)
         case Some(cells) => if AllArrays(cells) then Some(([cells] + rest.0, [first.1] + rest.1)) else None
         case None => None)
      case _ => None
  }

  function AsRows(rows: seq<seq<Json>>): Json {
    Arr(seq(|rows|, i requires 0 <= i < |rows| => Arr(rows[i])))
  }

  /** The header named by a content object: `head or header`. */
  function ExplicitHead(source: Json): Json {
    if !source.Obj? then Null
    else if Truthy(Get(source.fields, "head")) then Get(source.fields, "head")
    else Get(source.fields, "header")
  }

  /** `_normalize_table_content_dialect`; `None` is its ValueError. */
  function NormalizeTable(m: Fields): Option<Fields> {
    var source := Get(m, "content");
    var sourceRows := if source.Obj? then Get(source.fields, "rows") else source;
    if !source.Obj? && !source.Arr? then None
    else if !sourceRows.Arr? then None
    else
      match CanonicalRows(sourceRows.items)
      case None => None
      case Some((rows, flags)) =>
        var base := (m - {"content", "head", "header", "rows"})["type" := Name(TTable)];
        var explicit := ExplicitHead(source);
        if explicit.Arr? then
          match InlineEach(explicit.items)
          case Some(head) => if AllArrays(head) then Some(base["rows" := AsRows(rows)]["head" := Arr(head)]) else None
          case None => None
        else if rows != [] && flags != [] && flags[0] then
          Some(base["rows" := AsRows(rows[1..])]["head" := Arr(rows[0])])
        else Some(base["rows" := AsRows(rows)])
  }

  // ------------------------------------------ rows under a typed content carrier --

  datatype Typed = NotTyped | TypedRows(rows: seq<seq<Json>>, flags: seq<bool>)

  predicate IsCellNode(v: Json) {
    v.Obj? && TypeToken(v.fields) == TTableCell && Get(v.fields, "content").Arr?
  }

  /** Cells up to the first that is not a cell node; the flag says all were. */
  function TypedCells(cells: seq<Json>): Option<(seq<Json>, bool)> {
    if cells == [] then Some(([], true))
    else if !IsCellNode(cells[0]) then Some(([], false))
    else
      match Inline(cells[0])
      case None => None
      case Some(first) =>
        match TypedCells(cells[1..])
        case None => None
        case Some((rest, ok)) => Some(([first] + rest, ok))
  }

  function TypedTable(rows: seq<Json>): Option<Typed> {
    if rows == [] then Some(TypedRows([], []))
    else if !(rows[0].Obj? && TypeToken(rows[0].fields) == TTableRow && Get(rows[0].fields, "content").Arr?) then
      Some(NotTyped)
    else
      var cells := Get(rows[0].fields, "content").items;
      match TypedCells(cells)
      case None => None
      case Some((first, ok)) =>
        if !ok then Some(NotTyped)
        else
          match TypedTable(rows[1..])
          case None => None
          case Some(NotTyped) => Some(NotTyped)
          case Some(TypedRows(rest, flags)) =>
            var flag := cells != []
              && forall i | 0 <= i < |cells| :: cells[i].Obj? && Get(cells[i].fields, "header") == Bool(true);
            Some(TypedRows([first] + rest, [flag] + flags))
  }

  function ContentArm(m: Fields): Option<Fields> {
    if !("rows" !in m && Get(m, "content").Arr?) then Some(m)
    else
      match TypedTable(Get(m, "content").items)
      case None => None
      case Some(NotTyped) => Some(m)
      case Some(TypedRows(rows, flags)) =>
        if rows != [] && flags != [] && flags[0] then
          Some((m - {"content"})["head" := Arr(rows[0])]["rows" := AsRows(rows[1..])])
        else Some((m - {"content"})["rows" := AsRows(rows)])
  }

  // ------------------------------------------------------------------ head and rows --

  function DropSpentHeader(m: Fields): Fields {
    if Get(m, "header") == Bool(true) && Get(m, "head").Arr? && Get(m, "head").items != [] then m - {"header"} else m
  }

  /** `header: true` promotes the first row. */
  function PromoteFirstRow(m: Fields): Option<Fields> {
    var rows := Get(m, "rows");
    if Get(m, "header") == Bool(true) && !Truthy(Get(m, "head"))
       && rows.Arr? && rows.items != [] && rows.items[0].Arr? then
      match InlineEach(rows.items[0].items)
      case None => None
      case Some(head) =>
        if AllArrays(head) then Some((m - {"header"})["head" := Arr(head)]["rows" := Arr(rows.items[1..])])
        else Some(m)
    else Some(m)
  }

  /** A list of scalars under `key` becomes the head. */
  function PromoteLabels(m: Fields, key: string): Option<Fields> {
    var labels := Get(m, key);
    if !Truthy(Get(m, "head")) && labels.Arr? && AllScalars(labels.items) then
      match InlineEach(labels.items)
      case None => None
      case Some(head) => Some((m - {key})["head" := Arr(head)])
    else Some(m)
  }

  function CanonicalHead(m: Fields): Option<Fields> {
    if Get(m, "head").Arr? then
      match InlineEach(Get(m, "head").items)
      case None => None
      case Some(head) => Some(m["head" := Arr(head)])
    else Some(m)
  }

  predicate IsHeadless(m: Fields) {
    !Truthy(Get(m, "head")) && !Truthy(Get(m, "header"))
  }

  function PromoteColumns(m: Fields): Option<Fields> {
    var columns := Get(m, "columns");
    if columns.Arr? && columns.items != [] && AllScalars(columns.items) && IsHeadless(m) then
      match InlineEach(columns.items)
      case None => None
      case Some(head) => Some((m - {"columns"})["head" := Arr(head)])
    else Some(m)
  }

  predicate IsTextOnly(v: Json) {
    v.Obj? && v.fields.Keys <= {"text"} && Get(v.fields, "text").Str?
  }

  function PromoteTextColumns(m: Fields): Fields {
    var columns := Get(m, "columns");
    if columns.Arr? && columns.items != [] && IsHeadless(m)
       && forall i | 0 <= i < |columns.items| :: IsTextOnly(columns.items[i]) then
      var heads := seq(|columns.items|, i requires 0 <= i < |columns.items| =>
        if columns.items[i].Obj? && IsScalar(Get(columns.items[i].fields, "text"))
        then TextNodes(Get(columns.items[i].fields, "text")) else Null);
      (m - {"columns"})["head" := Arr(heads)]
    else m
  }

  // ------------------------------------------------------------------- record rows --

  function ColumnKey(column: Json): Json {
    if column.Obj? then Get(column.fields, "key") else Null
  }

  function ColumnKeys(columns: seq<Json>): set<string> {
    set i | 0 <= i < |columns| && ColumnKey(columns[i]).Str? :: ColumnKey(columns[i]).s
  }

  predicate AreRecords(columns: seq<Json>, rows: seq<Json>) {
    && (forall i | 0 <= i < |columns| ::
          columns[i].Obj? && ColumnKey(columns[i]).Str? && ColumnKey(columns[i]).s != "")
    && (forall i, j | 0 <= i < j < |columns| ::
          ColumnKey(columns[i]).Str? && ColumnKey(columns[j]).Str? ==>
            ColumnKey(columns[i]).s != ColumnKey(columns[j]).s)
    && (forall i | 0 <= i < |columns| ::
          columns[i].Obj? && (Get(columns[i].fields, "label").Null? || Get(columns[i].fields, "label").Str?))
    && (forall i | 0 <= i < |rows| ::
          rows[i].Obj? && rows[i].fields.Keys <= ColumnKeys(columns)
          && forall k | k in rows[i].fields :: IsScalar(rows[i].fields[k]))
  }

  /** Text nodes of a scalar; anything else cannot occur where this is used. */
  function NodesOf(v: Json): Json {
    if IsScalar(v) then TextNodes(v) else v
  }

  function RecordCell(row: Json, column: Json): Json {
    if row.Obj? && ColumnKey(column).Str? && ColumnKey(column).s in row.fields
    then NodesOf(row.fields[ColumnKey(column).s]) else TextNodes(Lit(""))
  }

  function RecordRow(row: Json, columns: seq<Json>): Json {
    Arr(seq(|columns|, i requires 0 <= i < |columns| => RecordCell(row, columns[i])))
  }

  function ColumnHead(column: Json): Json {
    if column.Obj? && Truthy(Get(column.fields, "label")) then NodesOf(Get(column.fields, "label"))
    else NodesOf(ColumnKey(column))
  }

  function RecordRows(m: Fields): Fields {
    var columns, rows := Get(m, "columns"), Get(m, "rows");
    if columns.Arr? && columns.items != [] && rows.Arr? && AreRecords(columns.items, rows.items) then
      (m - {"columns"})
      ["head" := Arr(seq(|columns.items|, i requires 0 <= i < |columns.items| => ColumnHead(columns.items[i])))]
      ["rows" := Arr(seq(|rows.items|, i requires 0 <= i < |rows.items| => RecordRow(rows.items[i], columns.items)))]
    else m
  }

  // -------------------------------------------------------------------- object rows --

  /** `_flatten_cell`. */
  function FlattenCell(nodes: seq<Json>): seq<Json> {
    if nodes == [] then []
    else
      (if nodes[0].Obj? && IsNamed(Get(nodes[0].fields, "type"), TParagraph) && Get(nodes[0].fields, "content").Arr?
       then Get(nodes[0].fields, "content").items else [nodes[0]])
      + FlattenCell(nodes[1..])
  }

  /** `_canonical_cell`. */
  function CanonicalCell(cell: Json, header: bool): Json {
    if IsScalar(cell) then TextNodes(cell)
    else
      match cell
      case Arr(nodes) => Arr(FlattenCell(nodes))
      case Obj(m) =>
        if m.Keys <= (if header then {"content", "text", "header"} else {"content", "text"}) then
          if Get(m, "content").Arr? then Arr(FlattenCell(Get(m, "content").items))
          else if Get(m, "text").Str? then TextNodes(Get(m, "text"))
          else cell
        else cell
      case _ => cell
  }

  function CanonicalCells(cells: seq<Json>, header: bool): Json {
    Arr(seq(|cells|, i requires 0 <= i < |cells| => CanonicalCell(cells[i], header)))
  }

  /** A row object that becomes an array of its cells. */
  predicate IsCellsRow(row: Json) {
    row.Obj? && row.fields.Keys <= {"cells", "header"} && Get(row.fields, "header") != Bool(true)
    && Get(row.fields, "cells").Arr?
  }

  function NormalRow(row: Json): Option<Json> {
    if IsCellsRow(row) then Some(CanonicalCells(Get(row.fields, "cells").items, false))
    else if row.Arr? then
      match InlineEach(row.items)
      case None => None
      case Some(cells) => Some(Arr(cells))
    else Some(row)
  }

  function NormalRows(rows: seq<Json>): Option<seq<Json>> {
    if rows == [] then Some([])
    else
      match (NormalRow(rows[0]), NormalRows(rows[1..]))
      case (Some(first), Some(rest)) => Some([first] + rest)
      case _ => None
  }

  predicate AreMarked(cells: seq<Json>) {
    forall i | 0 <= i < |cells| :: cells[i].Obj? && Get(cells[i].fields, "header") == Bool(true)
  }

  /** A row object of cells that is marked as a header, as a whole or cell by cell. */
  predicate IsHeadRow(row: Json) {
    row.Obj? && Get(row.fields, "cells").Arr?
    && (var cells := Get(row.fields, "cells").items;
        Get(row.fields, "header") == Bool(true) || (cells != [] && AreMarked(cells)))
  }

  /** There is no head, and the first row is marked as one. */
  predicate HeadRowIsDue(m: Fields) {
    var rows := Get(m, "rows");
    !Truthy(Get(m, "head")) && rows.Arr? && rows.items != [] && IsHeadRow(rows.items[0])
  }

  function RowArms(m: Fields): Option<Fields> {
    var rows := Get(m, "rows");
    if !rows.Arr? || rows.items == [] then Some(m)
    else if HeadRowIsDue(m) then
      match NormalRows(rows.items[1..])
      case None => None
      case Some(normal) =>
        var cells := Get(rows.items[0].fields, "cells").items;
        Some(m["head" := CanonicalCells(cells, true)]["rows" := Arr(normal)])
    else
      match NormalRows(rows.items)
      case None => None
      case Some(normal) => Some(m["rows" := Arr(normal)])
  }

  // ----------------------------------------------------------------- the whole arm --

  function HeaderArms(m: Fields): Option<Fields> {
    match PromoteFirstRow(DropSpentHeader(m))
    case None => None
    case Some(a) =>
      match PromoteLabels(a, "headers")
      case None => None
      case Some(b) =>
        match PromoteLabels(b, "header")
        case None => None
        case Some(c) =>
          match CanonicalHead(c)
          case None => None
          case Some(d) => PromoteColumns(d)
  }

  /** Everything `canonicalize_blocks` does to a block whose type is "table" and
      whose rows are an array. */
  function TableArms(m: Fields): Option<Fields> {
    match HeaderArms(m)
    case None => None
    case Some(headed) => RowArms(RecordRows(PromoteTextColumns(headed)))
  }

  lemma NormalizeTableFrame(m: Fields)
    requires NormalizeTable(m).Some?
    ensures TableFrame(m, NormalizeTable(m).value)
    ensures IsNamed(Get(NormalizeTable(m).value, "type"), TTable)
  {
  }

  lemma ContentArmFrame(m: Fields)
    requires ContentArm(m).Some?
    ensures TableFrame(m, ContentArm(m).value)
  {
  }

  lemma FrameTransitive(m: Fields, n: Fields, o: Fields)
    requires TableFrame(m, n) && TableFrame(n, o)
    ensures TableFrame(m, o)
  {
  }

  lemma PromoteFirstRowFrame(m: Fields)
    requires PromoteFirstRow(m).Some?
    ensures TableFrame(m, PromoteFirstRow(m).value)
  {
  }

  lemma PromoteLabelsFrame(m: Fields, key: string)
    requires key in TABLE_KEYS && key != "type" && PromoteLabels(m, key).Some?
    ensures TableFrame(m, PromoteLabels(m, key).value)
  {
  }

  lemma HeaderArmsFrame(m: Fields)
    requires HeaderArms(m).Some?
    ensures TableFrame(m, HeaderArms(m).value)
  {
    var start := DropSpentHeader(m);
    var a := PromoteFirstRow(start).value;
    var b := PromoteLabels(a, "headers").value;
    var c := PromoteLabels(b, "header").value;
    var d := CanonicalHead(c).value;
    PromoteFirstRowFrame(start);
    FrameTransitive(m, start, a);
    PromoteLabelsFrame(a, "headers");
    FrameTransitive(m, a, b);
    PromoteLabelsFrame(b, "header");
    FrameTransitive(m, b, c);
    FrameTransitive(m, c, d);
    FrameTransitive(m, d, PromoteColumns(d).value);
  }

  lemma PromoteTextColumnsFrame(m: Fields)
    ensures TableFrame(m, PromoteTextColumns(m))
  {
  }

  lemma RecordRowsFrame(m: Fields)
    ensures TableFrame(m, RecordRows(m))
  {
  }

  lemma RowArmsFrame(m: Fields)
    requires RowArms(m).Some?
    ensures TableFrame(m, RowArms(m).value)
  {
  }

  /** The table arms leave every other key of the block, its children included, alone. */
  lemma TableArmsFrame(m: Fields)
    requires TableArms(m).Some?
    ensures TableFrame(m, TableArms(m).value)
  {
    var a := HeaderArms(m).value;
    var b := PromoteTextColumns(a);
    var c := RecordRows(b);
    HeaderArmsFrame(m);
    PromoteTextColumnsFrame(a);
    FrameTransitive(m, a, b);
    RecordRowsFrame(b);
    FrameTransitive(m, b, c);
    RowArmsFrame(c);
    FrameTransitive(m, c, RowArms(c).value);
  }

  /** In particular the nested arrays. */
  lemma FrameKeepsNested(m: Fields, n: Fields)
    requires TableFrame(m, n)
    ensures "blocks" in m <==> "blocks" in n
    ensures "blocks" in m ==> m["blocks"] == n["blocks"]
    ensures "children" in m <==> "children" in n
    ensures "children" in m ==> m["children"] == n["children"]
  {
  }
}
