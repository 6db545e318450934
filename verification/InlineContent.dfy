/** `_canonical_inline` and `_canonical_list_item`. */
module InlineContent {
  import opened Wrappers
  import opened Json

  /** `str(value)` of a scalar, kept as a JSON string; null renders empty. */
  function Rendered(v: Json): (r: Json)
    requires IsScalar(v)
    ensures r.Str?
  {
    match v
    case Null => Lit("")
    case Bool(b) => Lit(if b then "True" else "False")
    case Num(repr) => Lit(repr)
    case Str(_, _, _) => v
  }

  function TextNode(v: Json): Json
    requires IsScalar(v)
  {
    Obj(map["type" := Name(TText), "value" := Rendered(v)])
  }

  /** `_text_node`. */
  function TextNodes(v: Json): Json
    requires IsScalar(v)
  {
    Arr([TextNode(v)])
  }

  predicate IsWrapper(token: Token) {
    token == TListItem || token == TParagraph || token == TTableCell || token == TTableHeader
  }

  /** `_canonical_inline`; `None` is its ValueError. */
  function Inline(v: Json): Option<Json> {
    match v
    case Null => Some(Arr([]))
    case Bool(_) => Some(TextNodes(v))
    case Num(_) => Some(TextNodes(v))
    case Str(_, decoded, _) =>
      if decoded.Some? && (decoded.value.Obj? || decoded.value.Arr?) then Inline(decoded.value)
      else Some(TextNodes(v))
    case Arr(items) =>
      (match InlineAll(items) case None => None case Some(flat) => Some(Arr(flat)))
    case Obj(m) =>
      var token := TypeToken(m);
      if token == TText && Get(m, "value").Str? then Some(Arr([Obj(m - {"text"})]))
      else if m.Keys <= {"content", "text"} && "content" in m && m["content"].Arr? then Inline(m["content"])
      else if m.Keys <= {"content", "text"} && Get(m, "text").Str? then Some(TextNodes(Get(m, "text")))
      else if "content" in m && m["content"].Arr? && IsWrapper(token) then Inline(m["content"])
      else if IsNonEmpty(Get(m, "type")) then Some(Arr([v]))
      else if Get(m, "text").Str? then Some(TextNodes(Get(m, "text")))
      else Some(v)
  }

  function InlineAll(vs: seq<Json>): Option<seq<Json>> {
    if vs == [] then Some([])
    else
      match (Inline(vs[0]), InlineAll(vs[1..]))
      case (Some(first), Some(rest)) => if first.Arr? then Some(first.items + rest) else None
      case _ => None
  }

  /** The accepted object form of a list item: an id, and content or text. */
  predicate IsIdentifiedItem(v: Json) {
    v.Obj? && Get(v.fields, "id").Str? && v.fields.Keys <= {"id", "content", "text"}
    && (Get(v.fields, "content").Arr? || Get(v.fields, "text").Str?)
  }

  /** `_canonical_list_item`. */
  function ListItem(v: Json): Option<Json> {
    if IsIdentifiedItem(v) then Some(v) else Inline(v)
  }

  function ListItems(vs: seq<Json>): (r: Option<seq<Json>>)
    ensures r.Some? <==> forall i :: 0 <= i < |vs| ==> ListItem(vs[i]).Some?
    ensures r.Some? ==> |r.value| == |vs| && forall i :: 0 <= i < |vs| ==> Some(r.value[i]) == ListItem(vs[i])
  {
    if vs == [] then Some([])
    else
      assert forall i :: 0 <= i < |vs[1..]| ==> vs[1..][i] == vs[i + 1];
      match (ListItem(vs[0]), ListItems(vs[1..]))
      case (Some(first), Some(rest)) => Some([first] + rest)
      case _ => None
  }

  // ------------------------------------------------------------ the fixpoint --

  /** An inline node that canonicalisation returns as it is. */
  predicate IsSettled(v: Json) {
    v.Obj? && Inline(v) == Some(Arr([v]))
  }

  ghost predicate AllSettled(vs: seq<Json>) {
    forall i :: 0 <= i < |vs| ==> IsSettled(vs[i])
  }

  lemma TextNodeIsSettled(v: Json)
    requires IsScalar(v)
    ensures IsSettled(TextNode(v))
  {
    var m := TextNode(v).fields;
    assert m - {"text"} == m;
  }

  lemma StrippedTextIsSettled(m: Fields)
    requires TypeToken(m) == TText && Get(m, "value").Str?
    ensures IsSettled(Obj(m - {"text"}))
  {
    var n := m - {"text"};
    assert Get(n, "type") == Get(m, "type") && Get(n, "value") == Get(m, "value");
    assert n - {"text"} == n;
  }

  /** Every node of a canonical inline array is settled. */
  lemma {:induction false} InlineYieldsSettled(v: Json)
    requires Inline(v).Some? && Inline(v).value.Arr?
    ensures AllSettled(Inline(v).value.items)
    decreases v
  {
    match v
    case Null =>
    case Bool(_) => TextNodeIsSettled(v);
    case Num(_) => TextNodeIsSettled(v);
    case Str(_, decoded, _) =>
      if decoded.Some? && (decoded.value.Obj? || decoded.value.Arr?) {
        InlineYieldsSettled(decoded.value);
      } else {
        TextNodeIsSettled(v);
      }
    case Arr(items) => InlineAllYieldsSettled(items);
    case Obj(m) =>
      var token := TypeToken(m);
      if token == TText && Get(m, "value").Str? {
        StrippedTextIsSettled(m);
      } else if m.Keys <= {"content", "text"} && "content" in m && m["content"].Arr? {
        InlineYieldsSettled(m["content"]);
      } else if m.Keys <= {"content", "text"} && Get(m, "text").Str? {
        TextNodeIsSettled(Get(m, "text"));
      } else if "content" in m && m["content"].Arr? && IsWrapper(token) {
        InlineYieldsSettled(m["content"]);
      } else if IsNonEmpty(Get(m, "type")) {
      } else if Get(m, "text").Str? {
        TextNodeIsSettled(Get(m, "text"));
      }
  }

  lemma {:induction false} InlineAllYieldsSettled(vs: seq<Json>)
    requires InlineAll(vs).Some?
    ensures AllSettled(InlineAll(vs).value)
    decreases vs
  {
    if vs != [] {
      InlineYieldsSettled(vs[0]);
      InlineAllYieldsSettled(vs[1..]);
    }
  }

  lemma {:induction false} SettledIsKept(vs: seq<Json>)
    requires AllSettled(vs)
    ensures InlineAll(vs) == Some(vs)
  {
    if vs != [] {
      SettledIsKept(vs[1..]);
      assert IsSettled(vs[0]);
      assert [vs[0]] + vs[1..] == vs;
    }
  }

  /** Canonicalisation of inline content is a fixpoint: an array it returns is
      returned again unchanged, although strings are decoded on the way in. */
  lemma InlineIsFixpoint(v: Json)
    requires Inline(v).Some?
    ensures Inline(Inline(v).value) == Inline(v)
  {
    var r := Inline(v).value;
    if r.Arr? {
      InlineYieldsSettled(v);
      SettledIsKept(r.items);
    } else {
      UnrecognisedIsReturned(v);
    }
  }

  /** What is not turned into an array is an object, given back as it was. */
  lemma {:induction false} UnrecognisedIsReturned(v: Json)
    requires Inline(v).Some? && !Inline(v).value.Arr?
    ensures Inline(v).value.Obj? && Inline(Inline(v).value) == Inline(v)
    decreases v
  {
    match v
    case Str(_, decoded, _) => UnrecognisedIsReturned(decoded.value);
    case Obj(m) =>
      if m.Keys <= {"content", "text"} && "content" in m && m["content"].Arr? {
        UnrecognisedIsReturned(m["content"]);
      } else if "content" in m && m["content"].Arr? && IsWrapper(TypeToken(m)) {
        UnrecognisedIsReturned(m["content"]);
      }
    case _ =>
  }

  lemma ListItemIsFixpoint(v: Json)
    requires ListItem(v).Some?
    ensures ListItem(ListItem(v).value) == ListItem(v)
    ensures ListItem(v).value.Arr? || ListItem(v).value.Obj?
  {
    if !IsIdentifiedItem(v) {
      InlineIsFixpoint(v);
      if !Inline(v).value.Arr? {
        UnrecognisedIsReturned(v);
      }
    }
  }

  lemma ListItemsAreFixpoint(vs: seq<Json>)
    requires ListItems(vs).Some?
    ensures ListItems(ListItems(vs).value) == ListItems(vs)
  {
    var r := ListItems(vs).value;
    forall i | 0 <= i < |vs|
      ensures ListItem(r[i]) == Some(r[i])
    {
      ListItemIsFixpoint(vs[i]);
    }
    var again := ListItems(r).value;
    assert forall i :: 0 <= i < |vs| ==> again[i] == r[i];
    assert again == r;
  }
}
