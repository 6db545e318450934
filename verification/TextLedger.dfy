/** The texts of a JSON value, and what canonical inline content keeps of them. */
module TextLedger {
  import opened Wrappers
  import opened Json
  import opened InlineContent
  import opened Subsequences

  /** A string as a list of texts: an empty one is no text. */
  function Shown(s: string): seq<string> {
    if s == "" then [] else [s]
  }

  /** The texts of a value in reading order.  A string is a text, unless it is JSON: then
      it stands for what it spells.  A bare number or boolean is a text as Python renders
      it.  An object has the texts under the keys that carry text. */
  function Texts(v: Json): seq<string>
    decreases v, 2
  {
    match v
    case Null => []
    case Bool(b) => [if b then "True" else "False"]
    case Num(repr) => Shown(repr)
    case Str(s, decoded, _) =>
      if decoded.Some? && (decoded.value.Obj? || decoded.value.Arr?) then Texts(decoded.value) else Shown(s)
    case Arr(items) => TextsAll(items)
    case Obj(m) => TableTexts(m) + LeafTexts(m) + NestedTexts(m)
  }

  function TextsAll(vs: seq<Json>): seq<string>
    decreases vs, 2
  {
    if vs == [] then [] else Texts(vs[0]) + TextsAll(vs[1..])
  }

  /** The texts under one key; a number or boolean there is a setting, not a text. */
  function KeyTexts(m: Fields, key: string): seq<string>
    decreases Obj(m), 0
  {
    if key !in m || m[key].Null? || m[key].Bool? || m[key].Num? then [] else Texts(m[key])
  }

  function TableTexts(m: Fields): seq<string>
    decreases Obj(m), 1
  {
    KeyTexts(m, "columns") + KeyTexts(m, "headers") + KeyTexts(m, "header") + KeyTexts(m, "head") + KeyTexts(m, "rows")
  }

  function LeafTexts(m: Fields): seq<string>
    decreases Obj(m), 1
  {
    KeyTexts(m, "cells") + KeyTexts(m, "items") + KeyTexts(m, "content") + KeyTexts(m, "text") + KeyTexts(m, "value")
  }

  function NestedTexts(m: Fields): seq<string>
    decreases Obj(m), 1
  {
    KeyTexts(m, "blocks") + KeyTexts(m, "children")
  }

  /** `after` has the texts of `before`, in their order, less those in `lost`. */
  ghost predicate Keeps(before: seq<string>, after: seq<string>, lost: seq<string>) {
    Within(after, before) && multiset(before) == multiset(after) + multiset(lost)
  }

  // --------------------------------------------------------- what inline drops --

  /** An object that stands for the array under its `content`. */
  predicate IsUnwrapped(m: Fields) {
    Get(m, "content").Arr? && (m.Keys <= {"content", "text"} || IsWrapper(TypeToken(m)))
  }

  predicate IsTextNode(m: Fields) {
    TypeToken(m) == TText && Get(m, "value").Str?
  }

  /** An object without a type that stands for its `text`. */
  predicate IsTextObject(m: Fields) {
    Get(m, "text").Str? && !IsNonEmpty(Get(m, "type"))
  }

  /** The texts that canonical inline content leaves behind: a text node's `text` beside
      its value, and what stands beside the content or text an object is read as. */
  function InlineLost(v: Json): seq<string>
    decreases v
  {
    match v
    case Str(_, decoded, _) =>
      if decoded.Some? && (decoded.value.Obj? || decoded.value.Arr?) then InlineLost(decoded.value) else []
    case Arr(items) => InlineLostAll(items)
    case Obj(m) =>
      if IsTextNode(m) then KeyTexts(m, "text")
      else if IsUnwrapped(m) then Texts(Obj(m - {"content"})) + InlineLost(m["content"])
      else if IsTextObject(m) then Texts(Obj(m - {"text"}))
      else []
    case _ => []
  }

  function InlineLostAll(vs: seq<Json>): seq<string>
    decreases vs
  {
    if vs == [] then [] else InlineLost(vs[0]) + InlineLostAll(vs[1..])
  }

  // ------------------------------------------------------------------- lemmas --

  lemma KeepsAll(s: seq<string>)
    ensures Keeps(s, s, [])
  {
    WithinSelf(s);
  }

  lemma KeepsJoin(a: seq<string>, b: seq<string>, s: seq<string>, c: seq<string>, d: seq<string>, t: seq<string>)
    requires Keeps(a, b, s) && Keeps(c, d, t)
    ensures Keeps(a + c, b + d, s + t)
  {
    WithinJoin(b, a, d, c);
  }

  lemma KeepsChain(a: seq<string>, b: seq<string>, c: seq<string>, s: seq<string>, t: seq<string>)
    requires Keeps(a, b, s) && Keeps(b, c, t)
    ensures Keeps(a, c, s + t)
  {
    WithinTransitive(c, b, a);
  }

  lemma KeepsPart(p: seq<string>, k: seq<string>, q: seq<string>)
    ensures Keeps(p + k + q, k, p + q)
    ensures Keeps(p + k + q, p + q, k)
  {
    WithinSelf(k);
    WithinPadded(k, p, k, q);
    WithinSelf(p);
    WithinSelf(q);
    NothingWithin(k);
    WithinJoin(p, p, [], k);
    assert p + [] == p;
    WithinJoin(p, p + k, q, q);
  }

  lemma TextsJoin(a: seq<Json>, b: seq<Json>)
    ensures TextsAll(a + b) == TextsAll(a) + TextsAll(b)
  {
    if a == [] {
      assert a + b == b;
    } else {
      Peel(a, b);
      TextsJoin(a[1..], b);
    }
  }

  lemma TextsOne(v: Json)
    ensures TextsAll([v]) == Texts(v)
  {
    assert [v][1..] == [];
  }

  lemma KeyRemoved(m: Fields, gone: string, key: string)
    ensures KeyTexts(m - {gone}, key) == if key == gone then [] else KeyTexts(m, key)
  {
  }

  lemma OthersStay(m: Fields, gone: string)
    requires gone == "content" || gone == "text"
    ensures TableTexts(m - {gone}) == TableTexts(m)
    ensures NestedTexts(m - {gone}) == NestedTexts(m)
  {
    KeyRemoved(m, gone, "columns");
    KeyRemoved(m, gone, "headers");
    KeyRemoved(m, gone, "header");
    KeyRemoved(m, gone, "head");
    KeyRemoved(m, gone, "rows");
    KeyRemoved(m, gone, "blocks");
    KeyRemoved(m, gone, "children");
  }

  /** The texts around two neighbours `b` and `c`. */
  lemma Regroup(t: seq<string>, a: seq<string>, b: seq<string>, c: seq<string>, d: seq<string>, n: seq<string>)
    ensures t + (a + b + c + d) + n == (t + a) + b + (c + d + n)
    ensures t + (a + b + c + d) + n == (t + (a + b)) + c + (d + n)
    ensures t + (a + [] + c + d) + n == (t + a) + (c + d + n)
    ensures t + (a + b + [] + d) + n == (t + (a + b)) + (d + n)
  {
  }

  /** What `content` adds to an object, in place. */
  lemma WithoutContent(m: Fields)
    ensures Keeps(Texts(Obj(m)), KeyTexts(m, "content"), Texts(Obj(m - {"content"})))
  {
    var n := m - {"content"};
    var a := KeyTexts(m, "cells") + KeyTexts(m, "items");
    OthersStay(m, "content");
    KeyRemoved(m, "content", "cells");
    KeyRemoved(m, "content", "items");
    KeyRemoved(m, "content", "content");
    KeyRemoved(m, "content", "text");
    KeyRemoved(m, "content", "value");
    Regroup(TableTexts(m), a, KeyTexts(m, "content"), KeyTexts(m, "text"), KeyTexts(m, "value"), NestedTexts(m));
    KeepsPart(TableTexts(m) + a, KeyTexts(m, "content"), KeyTexts(m, "text") + KeyTexts(m, "value") + NestedTexts(m));
  }

  /** What `text` adds to an object, in place. */
  lemma WithoutText(m: Fields)
    ensures Keeps(Texts(Obj(m)), Texts(Obj(m - {"text"})), KeyTexts(m, "text"))
    ensures Keeps(Texts(Obj(m)), KeyTexts(m, "text"), Texts(Obj(m - {"text"})))
  {
    var n := m - {"text"};
    var a := KeyTexts(m, "cells") + KeyTexts(m, "items");
    OthersStay(m, "text");
    KeyRemoved(m, "text", "cells");
    KeyRemoved(m, "text", "items");
    KeyRemoved(m, "text", "content");
    KeyRemoved(m, "text", "text");
    KeyRemoved(m, "text", "value");
    Regroup(TableTexts(m), a, KeyTexts(m, "content"), KeyTexts(m, "text"), KeyTexts(m, "value"), NestedTexts(m));
    KeepsPart(TableTexts(m) + (a + KeyTexts(m, "content")), KeyTexts(m, "text"), KeyTexts(m, "value") + NestedTexts(m));
  }

  /** A text node shows the scalar it was made of. */
  lemma TextNodesShow(v: Json)
    requires IsScalar(v)
    ensures Texts(TextNodes(v)) == Texts(v)
  {
    var m := TextNode(v).fields;
    assert TableTexts(m) == [] && NestedTexts(m) == [];
    assert LeafTexts(m) == KeyTexts(m, "value") == Texts(Rendered(v));
    TextsOne(TextNode(v));
  }

  /** Canonical inline content keeps the texts in their order, and exactly `InlineLost`
      is left behind. */
  lemma {:induction false} InlineKeeps(v: Json)
    requires Inline(v).Some?
    ensures Keeps(Texts(v), Texts(Inline(v).value), InlineLost(v))
    decreases v
  {
    var r := Inline(v).value;
    match v
    case Null =>
      KeepsAll([]);
    case Bool(_) =>
      TextNodesShow(v);
      KeepsAll(Texts(v));
    case Num(_) =>
      TextNodesShow(v);
      KeepsAll(Texts(v));
    case Str(_, decoded, _) =>
      if decoded.Some? && (decoded.value.Obj? || decoded.value.Arr?) {
        InlineKeeps(decoded.value);
      } else {
        TextNodesShow(v);
        KeepsAll(Texts(v));
      }
    case Arr(items) =>
      InlineAllKeeps(items);
    case Obj(m) =>
      if IsTextNode(m) {
        WithoutText(m);
        TextsOne(Obj(m - {"text"}));
      } else if IsUnwrapped(m) {
        WithoutContent(m);
        InlineKeeps(m["content"]);
        KeepsChain(Texts(v), Texts(m["content"]), Texts(r), Texts(Obj(m - {"content"})), InlineLost(m["content"]));
      } else if IsTextObject(m) {
        WithoutText(m);
        TextNodesShow(m["text"]);
      } else {
        KeepsAll(Texts(v));
        TextsOne(v);
      }
  }

  lemma {:induction false} InlineAllKeeps(vs: seq<Json>)
    requires InlineAll(vs).Some?
    ensures Keeps(TextsAll(vs), TextsAll(InlineAll(vs).value), InlineLostAll(vs))
    decreases vs
  {
    if vs == [] {
      KeepsAll([]);
    } else {
      var first := Inline(vs[0]).value;
      var rest := InlineAll(vs[1..]).value;
      InlineKeeps(vs[0]);
      InlineAllKeeps(vs[1..]);
      TextsJoin(first.items, rest);
      KeepsJoin(Texts(vs[0]), Texts(first), InlineLost(vs[0]), TextsAll(vs[1..]), TextsAll(rest), InlineLostAll(vs[1..]));
    }
  }

  lemma {:induction false} WithinSameSize(a: seq<string>, b: seq<string>)
    requires Within(a, b)
    ensures |a| <= |b|
    ensures |a| == |b| ==> a == b
  {
    if b != [] {
      if Within(a, b[1..]) {
        WithinSameSize(a, b[1..]);
      } else {
        WithinSameSize(a[1..], b[1..]);
        assert |a| == |b| ==> a == [a[0]] + a[1..] && b == [b[0]] + b[1..];
      }
    }
  }

  /** The same texts in the same order exactly when none was left behind. */
  lemma KeepsEveryIff(before: seq<string>, after: seq<string>, lost: seq<string>)
    requires Keeps(before, after, lost)
    ensures after == before <==> lost == []
  {
    assert |multiset(before)| == |multiset(after)| + |multiset(lost)|;
    WithinSameSize(after, before);
  }

  /** Inline content has the same texts in the same order exactly when no text stands
      beside what an object is read as. */
  lemma InlineKeepsEveryTextIff(v: Json)
    requires Inline(v).Some?
    ensures Texts(Inline(v).value) == Texts(v) <==> InlineLost(v) == []
  {
    InlineKeeps(v);
    KeepsEveryIff(Texts(v), Texts(Inline(v).value), InlineLost(v));
  }
}
