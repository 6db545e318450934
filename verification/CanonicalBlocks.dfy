/** `canonicalize_blocks`, and the list and spacer arms of `audit_blocks`. */
module CanonicalBlocks {
  import opened Wrappers
  import opened Json
  import opened InlineContent
  import opened TableDialects
  import opened Whitespace

  // ------------------------------------------------------------ the list dialects --

  /** `_list_source`: the first of the three carriers that is an array. */
  function ListSource(m: Fields): Option<seq<Json>> {
    if Get(m, "items").Arr? then Some(Get(m, "items").items)
    else if Get(m, "content").Arr? then Some(Get(m, "content").items)
    else if Get(m, "children").Arr? then Some(Get(m, "children").items)
    else None
  }

  predicate IsAccepted(item: Json) {
    item.Arr? || (item.Obj? && Get(item.fields, "id").Str? && item.fields.Keys <= {"id", "content", "text"})
  }

  /** The item can be carried over without loss. */
  predicate IsNormalizable(v: Json) {
    ListItem(v).Some? && IsAccepted(ListItem(v).value)
  }

  predicate IsOrdered(m: Fields) {
    var style := if Truthy(Get(m, "style")) then Get(m, "style") else Get(m, "listStyle");
    || Get(m, "ordered") == Bool(true)
    || TypeToken(m) == TOrderedList
    || (style.Str? && Lower(style.s) in {"ordered", "number", "numbered", "decimal"})
  }

  /** `_normalize_list_dialect`; `None` is its ValueError. */
  function NormalizeList(m: Fields): Option<Fields> {
    match ListSource(m)
    case None => None
    case Some(source) =>
      match ListItems(source)
      case None => None
      case Some(items) =>
        if forall i | 0 <= i < |items| :: IsAccepted(items[i]) then
          Some((m - {"content", "children", "items", "style", "listStyle"})
               ["type" := Name(TList)]["ordered" := Bool(IsOrdered(m))]["items" := Arr(items)])
        else None
  }

  predicate IsListed(m: Fields) {
    IsListToken(TypeToken(m))
  }

  /** A list under a legacy type or item carrier. */
  predicate IsListDialect(m: Fields) {
    IsListed(m) && (!IsNamed(Get(m, "type"), TList) || !Get(m, "items").Arr?)
  }

  /** Items up to the first the dialect does not know; the flag says all were known. */
  function TypedItems(vs: seq<Json>): Option<(seq<Json>, bool)> {
    if vs == [] then Some(([], true))
    else if vs[0].Obj? && TypeToken(vs[0].fields) == TListItem && Get(vs[0].fields, "content").Arr? then
      match (Inline(vs[0]))
      case None => None
      case Some(first) =>
        (match TypedItems(vs[1..]) case None => None case Some((rest, ok)) => Some(([first] + rest, ok)))
    else if vs[0].Obj? && TypeToken(vs[0].fields) == TText then
      (match TypedItems(vs[1..]) case None => None case Some((rest, ok)) => Some(([Arr([vs[0]])] + rest, ok)))
    else Some(([], false))
  }

  function TypedItemsArm(m: Fields): Option<Fields> {
    if IsNamed(Get(m, "type"), TList) && "items" !in m && Get(m, "content").Arr? then
      match TypedItems(Get(m, "content").items)
      case None => None
      case Some((items, ok)) => if ok then Some((m - {"content"})["items" := Arr(items)]) else Some(m)
    else Some(m)
  }

  function ItemsArm(m: Fields): Option<Fields> {
    if IsNamed(Get(m, "type"), TList) && Get(m, "items").Arr? then
      match ListItems(Get(m, "items").items)
      case None => None
      case Some(items) => Some(m["items" := Arr(items)])
    else Some(m)
  }

  /** The dialect arms, whose errors are swallowed. */
  function Dialects(m: Fields): Fields {
    var listed := if IsListDialect(m) && NormalizeList(m).Some? then NormalizeList(m).value else m;
    if TypeToken(m) == TTable && !Get(listed, "rows").Arr? && NormalizeTable(listed).Some?
    then NormalizeTable(listed).value else listed
  }

  function ListArms(m: Fields): Option<Fields> {
    match TypedItemsArm(m) case None => None case Some(n) => ItemsArm(n)
  }

  function TableArm(m: Fields): Option<Fields> {
    if IsNamed(Get(m, "type"), TTable) then
      match ContentArm(m)
      case None => None
      case Some(n) => if Get(n, "rows").Arr? then TableArms(n) else Some(n)
    else Some(m)
  }

  /** A callout's stranded text becomes its content. */
  function CalloutArm(m: Fields): Fields {
    var text, content, slots := Get(m, "text"), Get(m, "content"), Get(m, "slots");
    if IsNamed(Get(m, "type"), TCallout) && text.Str? && !IsBlank(text.s)
       && (content == Null || content == Arr([])) && (slots == Null || slots == Obj(map[]))
    then (m - {"text"})["content" := TextNodes(text)] else m
  }

  /** Everything done to a block before the blocks under it. */
  function Arms(m: Fields): Option<Fields> {
    match ListArms(Dialects(m))
    case None => None
    case Some(listed) =>
      match TableArm(listed)
      case None => None
      case Some(tabled) => Some(CalloutArm(tabled))
  }

  // ----------------------------------------------------------------- the recursion --

  /** `canonicalize_blocks` on one block object.  The arms never touch `blocks`, and
      `children` only by dropping it, so the nested arrays are the source's own. */
  function CanonicalBlock(m: Fields): Option<Fields>
    decreases Obj(m), 0
  {
    match Arms(m)
    case None => None
    case Some(n) =>
      match (if "blocks" in m && m["blocks"].Arr? && "blocks" in n then
               (match Canonicalize(m["blocks"].items) case None => None case Some(bs) => Some(n["blocks" := Arr(bs)]))
             else Some(n))
      case None => None
      case Some(o) =>
        if "children" in m && m["children"].Arr? && "children" in o then
          match Canonicalize(m["children"].items)
          case None => None
          case Some(cs) => Some(o["children" := Arr(cs)])
        else Some(o)
  }

  /** `canonicalize_blocks`; `None` when an item or cell raises. */
  function Canonicalize(bs: seq<Json>): Option<seq<Json>> {
    if bs == [] then Some([])
    else
      match Canonicalize(bs[1..])
      case None => None
      case Some(rest) =>
        if !bs[0].Obj? then Some([bs[0]] + rest)
        else if IsEmptyParagraph(bs[0]) then Some(rest)
        else match CanonicalBlock(bs[0].fields) case None => None case Some(m) => Some([Obj(m)] + rest)
  }

  // --------------------------------------------------------------------- the audit --

  datatype FindingKind =
    | BlockNotObject
    | EmptyParagraphSpacer
    | ListAliasDialect
    | ListContentDialect
    | ListItemObjectWrapper
    | ListItemScalar

  datatype Finding = Finding(kind: FindingKind, safe: bool)

  function AuditItem(item: Json): seq<Finding> {
    match item
    case Obj(m) =>
      if IsIdentifiedItem(item) then []
      else
        [Finding(ListItemObjectWrapper,
                 m.Keys <= {"content", "text"} && (Get(m, "content").Arr? || Get(m, "text").Str?))]
    case Arr(_) => []
    case _ => [Finding(ListItemScalar, true)]
  }

  function AuditItems(items: seq<Json>): seq<Finding> {
    if items == [] then [] else AuditItem(items[0]) + AuditItems(items[1..])
  }

  function AuditDialect(m: Fields): seq<Finding> {
    [Finding(if IsNamed(Get(m, "type"), TList) then ListContentDialect else ListAliasDialect, NormalizeList(m).Some?)]
  }

  /** `audit_blocks` on one block: its spacer and list arms, then the blocks below. */
  function AuditBlock(m: Fields): seq<Finding>
    decreases Obj(m), 0
  {
    (if IsEmptyParagraph(Obj(m)) then [Finding(EmptyParagraphSpacer, true)] else [])
    + (if IsListDialect(m) then AuditDialect(m)
       else
         (if IsListed(m) && Get(m, "items").Arr? then AuditItems(Get(m, "items").items) else [])
         + (if "blocks" in m && m["blocks"].Arr? then AuditBlocks(m["blocks"].items) else [])
         + (if "children" in m && m["children"].Arr? then AuditBlocks(m["children"].items) else []))
  }

  function AuditBlocks(bs: seq<Json>): seq<Finding> {
    if bs == [] then []
    else (if bs[0].Obj? then AuditBlock(bs[0].fields) else [Finding(BlockNotObject, false)]) + AuditBlocks(bs[1..])
  }

  ghost predicate NoneSafe(findings: seq<Finding>) {
    forall f :: f in findings ==> !f.safe
  }

  // --------------------------------------------------------------- what arms keep --

  /** A block that is neither a list, a table nor a callout passes through the arms. */
  lemma ArmsPassOthers(m: Fields)
    requires !IsListed(m) && TypeToken(m) != TTable && !IsNamed(Get(m, "type"), TCallout)
    ensures Arms(m) == Some(m)
  {
  }

  /** What the arms do to a list. */
  lemma ArmsOnList(m: Fields)
    requires IsListed(m)
    ensures Arms(m) == ListArms(Dialects(m))
    ensures Dialects(m) == if IsListDialect(m) && NormalizeList(m).Some? then NormalizeList(m).value else m
  {
    var d := Dialects(m);
    if ListArms(d).Some? {
      var n := ListArms(d).value;
      assert Get(n, "type") == Get(d, "type");
    }
  }

  /** What the arms do to a table. */
  lemma ArmsOnTable(m: Fields)
    requires TypeToken(m) == TTable && Arms(m).Some?
    ensures TableFrame(m, Arms(m).value)
    ensures TypeToken(Arms(m).value) == TTable
  {
    var d := Dialects(m);
    if d != m {
      NormalizeTableFrame(m);
    }
    assert TableFrame(m, d) && TypeToken(d) == TTable;
    assert ListArms(d) == Some(d);
    if IsNamed(Get(d, "type"), TTable) {
      var c := ContentArm(d).value;
      ContentArmFrame(d);
      FrameTransitive(m, d, c);
      if Get(c, "rows").Arr? {
        TableArmsFrame(c);
        FrameTransitive(m, c, TableArms(c).value);
      }
    }
  }

  lemma ArmsOnCallout(m: Fields)
    requires IsNamed(Get(m, "type"), TCallout)
    ensures Arms(m) == Some(CalloutArm(m))
  {
  }

  /** Nested arrays reach the recursion as they are in the source. */
  lemma ArmsKeepNested(m: Fields)
    requires Arms(m).Some?
    ensures var n := Arms(m).value;
            && ("blocks" in n <==> "blocks" in m) && ("blocks" in m ==> n["blocks"] == m["blocks"])
            && ("children" in n ==> "children" in m && n["children"] == m["children"])
  {
    if IsListed(m) {
      ArmsOnList(m);
    } else if TypeToken(m) == TTable {
      ArmsOnTable(m);
      FrameKeepsNested(m, Arms(m).value);
    } else if IsNamed(Get(m, "type"), TCallout) {
      ArmsOnCallout(m);
    } else {
      ArmsPassOthers(m);
    }
  }
}
