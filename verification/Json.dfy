/** JSON values as the structure audit meets them. */
module Json {
  import opened Wrappers
  import opened Whitespace

  /** What `_type_token` can read in a string, as far as any arm asks. */
  datatype Token =
    | TText | TParagraph | TCallout
    | TList | TBulletList | TBulletedList | TOrderedList | TListItem
    | TTable | TTableRow | TTableCell | TTableHeader
    | TOther

  /** A string read as a block type: the canonical spelling of a token, or another
      spelling of it ("bullet_list", "ListItem"). */
  datatype TypeName = Exact(token: Token) | Loose(token: Token)

  /** A number carries its Python rendering.  A string carries what `json.loads`
      makes of it, when that is an object or an array, and how it reads as a type;
      both functions stay opaque. */
  datatype Json =
    | Null
    | Bool(b: bool)
    | Num(repr: string)
    | Str(s: string, decoded: Option<Json>, name: TypeName)
    | Arr(items: seq<Json>)
    | Obj(fields: Fields)

  type Fields = map<string, Json>

  /** A string that is neither JSON nor the name of a type. */
  function Lit(s: string): Json {
    Str(s, None, Loose(TOther))
  }

  /** The canonical names the code writes. */
  function Name(token: Token): Json {
    Str(match token case TText => "text" case TList => "list" case _ => "table", None, Exact(token))
  }

  /** `value.get(key)`: a missing key reads as null. */
  function Get(m: Fields, key: string): Json {
    if key in m then m[key] else Null
  }

  /** `value == "list"` and the like. */
  predicate IsNamed(v: Json, token: Token) {
    v.Str? && v.name == Exact(token)
  }

  /** `isinstance(value, str)`, `... list)` and so on are discriminators; this is
      `_record_scalar`. */
  predicate IsScalar(v: Json) {
    v.Null? || v.Bool? || v.Num? || v.Str?
  }

  predicate Truthy(v: Json) {
    match v
    case Null => false
    case Bool(b) => b
    case Num(repr) => repr !in {"0", "0.0", "-0.0"}
    case Str(s, _, _) => s != ""
    case Arr(items) => items != []
    case Obj(m) => m != map[]
  }

  function LowerChar(c: char): char {
    if 'A' <= c <= 'Z' then c - 'A' + 'a' else c
  }

  function Lower(s: string): string {
    seq(|s|, i requires 0 <= i < |s| => LowerChar(s[i]))
  }

  /** `_type_token`.  A type that is not a string has no token any arm looks for. */
  function TypeToken(m: Fields): Token {
    var t := Get(m, "type");
    if t.Str? then t.name.token else TOther
  }

  /** A string that is not empty; one that spells a token is not. */
  predicate IsNonEmpty(v: Json) {
    v.Str? && (v.s != "" || v.name.token != TOther)
  }

  /** `_empty_paragraph`. */
  predicate IsEmptyParagraph(v: Json) {
    v.Obj? && IsNamed(Get(v.fields, "type"), TParagraph)
    && (var content := Get(v.fields, "content"); content == Null || content == Arr([]))
    && !(Get(v.fields, "text").Str? && !IsBlank(Get(v.fields, "text").s))
  }

  predicate AllArrays(vs: seq<Json>) {
    forall i | 0 <= i < |vs| :: vs[i].Arr?
  }

  predicate AllScalars(vs: seq<Json>) {
    forall i | 0 <= i < |vs| :: IsScalar(vs[i])
  }

  predicate IsListToken(token: Token) {
    token == TList || token == TBulletList || token == TBulletedList || token == TOrderedList
  }
}
