/** What the canonicalisation of a Paper's blocks keeps of their texts, and in which order. */
module TextConservation {
  import opened Wrappers
  import opened Json
  import opened Whitespace
  import opened InlineContent
  import opened TableDialects
  import opened CanonicalBlocks
  import opened StructureTheorems
  import opened TextLedger
  import opened TableLedger

  // --------------------------------------------------------------------- lists --

  function ItemLost(v: Json): seq<string> {
    if IsIdentifiedItem(v) then [] else InlineLost(v)
  }

  function ItemsLost(vs: seq<Json>): seq<string> {
    if vs == [] then [] else ItemLost(vs[0]) + ItemsLost(vs[1..])
  }

  lemma ItemKeeps(v: Json)
    requires ListItem(v).Some?
    ensures Keeps(Texts(v), Texts(ListItem(v).value), ItemLost(v))
  {
    if IsIdentifiedItem(v) {
      KeepsAll(Texts(v));
    } else {
      InlineKeeps(v);
    }
  }

  lemma {:induction false} ItemsKeep(vs: seq<Json>)
    requires ListItems(vs).Some?
    ensures Keeps(TextsAll(vs), TextsAll(ListItems(vs).value), ItemsLost(vs))
  {
    if vs == [] {
      KeepsAll([]);
    } else {
      var r, rest := ListItems(vs).value, ListItems(vs[1..]).value;
      assert r[1..] == rest;
      ItemKeeps(vs[0]);
      ItemsKeep(vs[1..]);
      KeepsJoin(Texts(vs[0]), Texts(r[0]), ItemLost(vs[0]), TextsAll(vs[1..]), TextsAll(rest), ItemsLost(vs[1..]));
    }
  }

  /** Item by item: each has the texts of its own source, in order. */
  lemma ItemsStayInPlace(vs: seq<Json>)
    requires ListItems(vs).Some?
    ensures |ListItems(vs).value| == |vs|
    ensures forall i :: 0 <= i < |vs| ==> Keeps(Texts(vs[i]), Texts(ListItems(vs).value[i]), ItemLost(vs[i]))
  {
    forall i | 0 <= i < |vs|
      ensures Keeps(Texts(vs[i]), Texts(ListItems(vs).value[i]), ItemLost(vs[i]))
    {
      ItemKeeps(vs[i]);
    }
  }

  /** The texts under the two carriers a list was not read from. */
  function CarriersLost(m: Fields): seq<string> {
    if Get(m, "items").Arr? then KeyTexts(m, "content") + KeyTexts(m, "children")
    else if Get(m, "content").Arr? then KeyTexts(m, "items") + KeyTexts(m, "children")
    else KeyTexts(m, "items") + KeyTexts(m, "content")
  }

  function DialectLost(m: Fields): seq<string>
    requires ListSource(m).Some?
  {
    CarriersLost(m) + ItemsLost(ListSource(m).value)
  }

  function ListCount(m: Fields, x: string): nat {
    At(m, "items", x) + At(m, "content", x) + At(m, "children", x)
  }

  const LIST_KEYS: set<string> := {"content", "children", "items", "style", "listStyle", "type", "ordered"}

  lemma ListLeavesTable(m: Fields, n: Fields, x: string)
    requires SameOutside(LIST_KEYS, m, n)
    ensures TableCount(n, x) - At(n, "content", x) == TableCount(m, x) - At(m, "content", x)
  {
    OutsideStays(LIST_KEYS, m, n, "columns");
    OutsideStays(LIST_KEYS, m, n, "headers");
    OutsideStays(LIST_KEYS, m, n, "header");
    OutsideStays(LIST_KEYS, m, n, "head");
    OutsideStays(LIST_KEYS, m, n, "rows");
  }

  lemma ListLeavesOthers(m: Fields, n: Fields, x: string)
    requires SameOutside(LIST_KEYS, m, n)
    ensures OtherCount(n, x) - At(n, "items", x) - At(n, "children", x)
         == OtherCount(m, x) - At(m, "items", x) - At(m, "children", x)
  {
    OutsideStays(LIST_KEYS, m, n, "cells");
    OutsideStays(LIST_KEYS, m, n, "text");
    OutsideStays(LIST_KEYS, m, n, "value");
    OutsideStays(LIST_KEYS, m, n, "blocks");
  }

  lemma OnlyListChanges(m: Fields, n: Fields, x: string)
    requires SameOutside(LIST_KEYS, m, n)
    ensures Count(Texts(Obj(n)), x) - ListCount(n, x) == Count(Texts(Obj(m)), x) - ListCount(m, x)
  {
    ObjCount(m, x);
    ObjCount(n, x);
    ListLeavesTable(m, n, x);
    ListLeavesOthers(m, n, x);
  }

  /** What the carriers hold besides the items that are read. */
  lemma CarriersCount(m: Fields, x: string)
    requires ListSource(m).Some?
    ensures Count(CarriersLost(m), x) + Count(TextsAll(ListSource(m).value), x) == ListCount(m, x)
  {
    if Get(m, "items").Arr? {
      ArrayTexts(m, "items");
    } else if Get(m, "content").Arr? {
      ArrayTexts(m, "content");
    } else {
      ArrayTexts(m, "children");
    }
  }

  lemma DialectCount(m: Fields, x: string)
    requires NormalizeList(m).Some?
    ensures Count(Texts(Obj(NormalizeList(m).value)), x) + Count(DialectLost(m), x) == Count(Texts(Obj(m)), x)
  {
    var n, source := NormalizeList(m).value, ListSource(m).value;
    assert SameOutside(LIST_KEYS, m, n);
    OnlyListChanges(m, n, x);
    CarriersCount(m, x);
    ItemsKeep(source);
    NormalizedIsList(m);
    ArrayTexts(n, "items");
    CountJoin(CarriersLost(m), ItemsLost(source), x);
  }

  lemma ItemsCount(m: Fields, x: string)
    requires Get(m, "items").Arr? && ListItems(Get(m, "items").items).Some?
    ensures var n := m["items" := Arr(ListItems(Get(m, "items").items).value)];
            Count(Texts(Obj(n)), x) + Count(ItemsLost(Get(m, "items").items), x) == Count(Texts(Obj(m)), x)
  {
    var n := m["items" := Arr(ListItems(Get(m, "items").items).value)];
    assert SameOutside(LIST_KEYS, m, n);
    OnlyListChanges(m, n, x);
    ItemsKeep(Get(m, "items").items);
    ArrayTexts(m, "items");
    ArrayTexts(n, "items");
    SameValue(m, n, "content");
    SameValue(m, n, "children");
  }

  /** What the arms make of a list. */
  lemma ListSteps(m: Fields)
    requires IsListed(m) && Arms(m).Some?
    ensures Arms(m).value
         == if IsListDialect(m) then (if NormalizeList(m).Some? then NormalizeList(m).value else m)
            else m["items" := Arr(ListItems(Get(m, "items").items).value)]
    ensures !IsListDialect(m) ==> ListItems(Get(m, "items").items).Some?
  {
    ArmsOnList(m);
    TypedItemsArmOnlyRaises(m);
    if IsListDialect(m) && NormalizeList(m).Some? {
      var n := NormalizeList(m).value;
      NormalizedIsList(m);
      ListItemsAreFixpoint(ListSource(m).value);
      assert n["items" := Get(n, "items")] == n;
    }
  }

  // ---------------------------------------------------------------- one block --

  /** What the arms make of a table. */
  lemma TableSteps(m: Fields)
    requires TypeToken(m) == TTable && Arms(m).Some?
    ensures Get(m, "rows").Arr? && IsNamed(Get(m, "type"), TTable) ==> Arms(m) == TableArms(m)
    ensures Get(m, "rows").Arr? && !IsNamed(Get(m, "type"), TTable) ==> Arms(m) == Some(m)
    ensures !Get(m, "rows").Arr? && NormalizeTable(m).None? ==> Arms(m) == Some(m)
    ensures !Get(m, "rows").Arr? && NormalizeTable(m).Some? ==> Arms(m) == TableArms(NormalizeTable(m).value)
  {
    if Get(m, "rows").Arr? && !IsNamed(Get(m, "type"), TTable) {
      LooseTableIsFixed(m);
    } else if !Get(m, "rows").Arr? && NormalizeTable(m).None? {
      UnreadTableIsKept(m);
    } else {
      NamedTableSteps(m);
    }
  }

  lemma NamedTableSteps(m: Fields)
    requires TypeToken(m) == TTable && Arms(m).Some?
    requires if Get(m, "rows").Arr? then IsNamed(Get(m, "type"), TTable) else NormalizeTable(m).Some?
    ensures Arms(m) == TableArms(if Get(m, "rows").Arr? then m else NormalizeTable(m).value)
  {
    var d := Dialects(m);
    if !Get(m, "rows").Arr? {
      NormalizeTableFrame(m);
      NormalizedHasArrayRows(m);
    }
    assert ListArms(d) == Some(d) && ContentArm(d) == Some(d);
    TableArmsFrame(d);
    assert TableArms(d).Some?;
  }

  function TableLost(m: Fields): seq<string>
    requires TypeToken(m) == TTable && Arms(m).Some?
  {
    TableSteps(m);
    if Get(m, "rows").Arr? then (if IsNamed(Get(m, "type"), TTable) then TableArmsLost(m) else [])
    else if NormalizeTable(m).Some? then ContentLost(m) + TableArmsLost(NormalizeTable(m).value)
    else []
  }

  function TableGained(m: Fields): seq<string>
    requires TypeToken(m) == TTable && Arms(m).Some?
  {
    TableSteps(m);
    if Get(m, "rows").Arr? then (if IsNamed(Get(m, "type"), TTable) then TableArmsGained(m) else [])
    else if NormalizeTable(m).Some? then TableArmsGained(NormalizeTable(m).value)
    else []
  }

  /** The texts a block loses before the blocks under it are looked at. */
  function ArmsLost(m: Fields): seq<string>
    requires Arms(m).Some?
  {
    if IsListed(m) then
      if !IsListDialect(m) then ItemsLost(Get(m, "items").items)
      else if NormalizeList(m).Some? then DialectLost(m)
      else []
    else if TypeToken(m) == TTable then TableLost(m)
    else []
  }

  /** The texts it gains: the labels and fields of a table of records. */
  function ArmsGained(m: Fields): seq<string>
    requires Arms(m).Some?
  {
    if TypeToken(m) == TTable then TableGained(m) else []
  }

  lemma OthersSame(m: Fields, n: Fields, x: string)
    requires SameOutside(TABLE_KEYS, m, n)
    ensures OtherCount(n, x) == OtherCount(m, x)
  {
    OutsideStays(TABLE_KEYS, m, n, "cells");
    OutsideStays(TABLE_KEYS, m, n, "items");
    OutsideStays(TABLE_KEYS, m, n, "text");
    OutsideStays(TABLE_KEYS, m, n, "value");
    OutsideStays(TABLE_KEYS, m, n, "blocks");
    OutsideStays(TABLE_KEYS, m, n, "children");
  }

  lemma FramedCount(m: Fields, n: Fields, lost: seq<string>, gained: seq<string>, x: string)
    requires SameOutside(TABLE_KEYS, m, n) && Balanced(m, n, lost, gained)
    ensures Count(Texts(Obj(n)), x) + Count(lost, x) == Count(Texts(Obj(m)), x) + Count(gained, x)
  {
    ObjCount(m, x);
    ObjCount(n, x);
    OthersSame(m, n, x);
    assert TableCount(n, x) + Count(lost, x) == TableCount(m, x) + Count(gained, x);
  }

  lemma TableBlockCount(m: Fields, x: string)
    requires TypeToken(m) == TTable && Arms(m).Some?
    ensures Count(Texts(Obj(Arms(m).value)), x) + Count(TableLost(m), x)
         == Count(Texts(Obj(m)), x) + Count(TableGained(m), x)
  {
    TableSteps(m);
    ArmsOnTable(m);
    if Get(m, "rows").Arr? && IsNamed(Get(m, "type"), TTable) {
      TableArmsBalanced(m);
      FramedCount(m, Arms(m).value, TableLost(m), TableGained(m), x);
    } else if !Get(m, "rows").Arr? && NormalizeTable(m).Some? {
      var n := NormalizeTable(m).value;
      ContentBalanced(m);
      TableArmsBalanced(n);
      BalancedChain(m, n, Arms(m).value, ContentLost(m), [], TableArmsLost(n), TableArmsGained(n));
      assert [] + TableArmsGained(n) == TableArmsGained(n);
      FramedCount(m, Arms(m).value, TableLost(m), TableGained(m), x);
    }
  }

  /** A callout with a text that is not blank, and nothing under `content` or `slots`. */
  ghost predicate IsStranded(m: Fields) {
    && IsNamed(Get(m, "type"), TCallout)
    && Get(m, "text").Str? && (exists i: nat :: i < |Get(m, "text").s| && !IsSpace(Get(m, "text").s[i]))
    && (Get(m, "content") == Null || Get(m, "content") == Arr([]))
    && (Get(m, "slots") == Null || Get(m, "slots") == Obj(map[]))
  }

  lemma StrandedIff(m: Fields)
    ensures CalloutArm(m) != m <==> IsStranded(m)
  {
    var n := CalloutArm(m);
    if n != m {
      assert !IsBlank(Get(m, "text").s);
    }
    if IsStranded(m) {
      var text := Get(m, "text").s;
      var i: nat :| i < |text| && !IsSpace(text[i]);
      assert !IsBlank(text);
      assert "text" in m && "text" !in n;
    }
  }

  /** A callout's stranded text is its content afterwards, and nothing else changes. */
  lemma CalloutTextIsContent(m: Fields)
    requires IsStranded(m)
    ensures KeyTexts(CalloutArm(m), "content") == KeyTexts(m, "text")
    ensures "text" !in CalloutArm(m)
    ensures SameOutside({"text", "content"}, m, CalloutArm(m))
    ensures KeyTexts(m, "content") == []
  {
    StrandedIff(m);
    TextNodesShow(Get(m, "text"));
    assert Texts(Arr([])) == [];
  }

  lemma CalloutCount(m: Fields, x: string)
    ensures Count(Texts(Obj(CalloutArm(m))), x) == Count(Texts(Obj(m)), x)
  {
    var n := CalloutArm(m);
    StrandedIff(m);
    if n != m {
      CalloutTextIsContent(m);
      ObjCount(m, x);
      ObjCount(n, x);
      CalloutOthers(m, x);
      CalloutLeaves(m, x);
      assert KeyTexts(n, "text") == [];
    }
  }

  lemma CalloutOthers(m: Fields, x: string)
    requires CalloutArm(m) != m
    ensures TableCount(CalloutArm(m), x) - At(CalloutArm(m), "content", x) == TableCount(m, x) - At(m, "content", x)
  {
    var n, keys := CalloutArm(m), {"text", "content"};
    OutsideStays(keys, m, n, "columns");
    OutsideStays(keys, m, n, "headers");
    OutsideStays(keys, m, n, "header");
    OutsideStays(keys, m, n, "head");
    OutsideStays(keys, m, n, "rows");
  }

  lemma CalloutLeaves(m: Fields, x: string)
    requires CalloutArm(m) != m
    ensures OtherCount(CalloutArm(m), x) - At(CalloutArm(m), "text", x) == OtherCount(m, x) - At(m, "text", x)
  {
    var n, keys := CalloutArm(m), {"text", "content"};
    OutsideStays(keys, m, n, "cells");
    OutsideStays(keys, m, n, "items");
    OutsideStays(keys, m, n, "value");
    OutsideStays(keys, m, n, "blocks");
    OutsideStays(keys, m, n, "children");
  }

  lemma ArmsCount(m: Fields, x: string)
    requires Arms(m).Some?
    ensures Count(Texts(Obj(Arms(m).value)), x) + Count(ArmsLost(m), x)
         == Count(Texts(Obj(m)), x) + Count(ArmsGained(m), x)
  {
    if IsListed(m) {
      ListSteps(m);
      if !IsListDialect(m) {
        ItemsCount(m, x);
      } else if NormalizeList(m).Some? {
        DialectCount(m, x);
      }
    } else if TypeToken(m) == TTable {
      TableBlockCount(m, x);
    } else if IsNamed(Get(m, "type"), TCallout) {
      ArmsOnCallout(m);
      CalloutCount(m, x);
    } else {
      ArmsPassOthers(m);
    }
  }

  // ------------------------------------------------------------------ the whole Paper --

  /** `blocks` or `children` is an array that the recursion goes into. */
  predicate Descends(m: Fields, key: string)
    requires Arms(m).Some?
  {
    Get(m, key).Arr? && key in Arms(m).value
  }

  function NestedLost(m: Fields, key: string): seq<string>
    requires (key == "blocks" || key == "children") && CanonicalBlock(m).Some?
    decreases Obj(m), 0
  {
    if Descends(m, key) then BlockSteps(m); Lost(m[key].items) else []
  }

  function NestedGained(m: Fields, key: string): seq<string>
    requires (key == "blocks" || key == "children") && CanonicalBlock(m).Some?
    decreases Obj(m), 0
  {
    if Descends(m, key) then BlockSteps(m); Gained(m[key].items) else []
  }

  /** The texts a block loses, those of the blocks under it included. */
  function BlockLost(m: Fields): seq<string>
    requires CanonicalBlock(m).Some?
    decreases Obj(m), 1
  {
    ArmsLost(m) + NestedLost(m, "blocks") + NestedLost(m, "children")
  }

  function BlockGained(m: Fields): seq<string>
    requires CanonicalBlock(m).Some?
    decreases Obj(m), 1
  {
    ArmsGained(m) + NestedGained(m, "blocks") + NestedGained(m, "children")
  }

  /** The texts a Paper loses: those of its spacers, and those its blocks lose. */
  function Lost(bs: seq<Json>): seq<string>
    requires Canonicalize(bs).Some?
  {
    if bs == [] then []
    else if !bs[0].Obj? then Lost(bs[1..])
    else if IsEmptyParagraph(bs[0]) then Texts(bs[0]) + Lost(bs[1..])
    else BlockLost(bs[0].fields) + Lost(bs[1..])
  }

  function Gained(bs: seq<Json>): seq<string>
    requires Canonicalize(bs).Some?
  {
    if bs == [] then []
    else if !bs[0].Obj? || IsEmptyParagraph(bs[0]) then Gained(bs[1..])
    else BlockGained(bs[0].fields) + Gained(bs[1..])
  }

  /** Every text is in `after` as often as in `before`, less those lost and with those
      gained. */
  ghost predicate Accounts(before: seq<string>, after: seq<string>, lost: seq<string>, gained: seq<string>) {
    forall x :: Count(after, x) + Count(lost, x) == Count(before, x) + Count(gained, x)
  }

  lemma AccountsJoin(a: seq<string>, b: seq<string>, s: seq<string>, g: seq<string>,
                     c: seq<string>, d: seq<string>, t: seq<string>, h: seq<string>)
    requires Accounts(a, b, s, g) && Accounts(c, d, t, h)
    ensures Accounts(a + c, b + d, s + t, g + h)
  {
    forall x
      ensures Count(b + d, x) + Count(s + t, x) == Count(a + c, x) + Count(g + h, x)
    {
      assert Count(b, x) + Count(s, x) == Count(a, x) + Count(g, x);
      assert Count(d, x) + Count(t, x) == Count(c, x) + Count(h, x);
      CountJoin(a, c, x);
      CountJoin(b, d, x);
      CountJoin(s, t, x);
      CountJoin(g, h, x);
    }
  }

  lemma AccountsAlone(a: seq<string>)
    ensures Accounts(a, a, [], [])
    ensures Accounts(a, [], a, [])
  {
  }

  /** Replacing the array under one key changes the texts by what changes in the array. */
  lemma NestedCount(n: Fields, key: string, vs: seq<Json>, x: string)
    requires (key == "blocks" || key == "children") && Get(n, key).Arr?
    ensures Count(Texts(Obj(n[key := Arr(vs)])), x) + Count(TextsAll(Get(n, key).items), x)
         == Count(Texts(Obj(n)), x) + Count(TextsAll(vs), x)
  {
    var o := n[key := Arr(vs)];
    ObjCount(n, x);
    ObjCount(o, x);
    NestedLeavesTable(n, o, key, x);
    NestedLeavesOthers(n, o, key, x);
    ArrayTexts(n, key);
    ArrayTexts(o, key);
  }

  lemma NestedLeavesTable(n: Fields, o: Fields, key: string, x: string)
    requires (key == "blocks" || key == "children") && SameOutside({key}, n, o)
    ensures TableCount(o, x) == TableCount(n, x)
  {
    OutsideStays({key}, n, o, "columns");
    OutsideStays({key}, n, o, "headers");
    OutsideStays({key}, n, o, "header");
    OutsideStays({key}, n, o, "head");
    OutsideStays({key}, n, o, "rows");
    OutsideStays({key}, n, o, "content");
  }

  lemma NestedLeavesOthers(n: Fields, o: Fields, key: string, x: string)
    requires (key == "blocks" || key == "children") && SameOutside({key}, n, o)
    ensures OtherCount(o, x) - At(o, key, x) == OtherCount(n, x) - At(n, key, x)
  {
    OutsideStays({key}, n, o, "cells");
    OutsideStays({key}, n, o, "items");
    OutsideStays({key}, n, o, "text");
    OutsideStays({key}, n, o, "value");
    if key != "blocks" { OutsideStays({key}, n, o, "blocks"); }
    if key != "children" { OutsideStays({key}, n, o, "children"); }
  }

  lemma NestedAccounts(before: seq<string>, n: Fields, key: string, vs: seq<Json>,
                       s: seq<string>, g: seq<string>, t: seq<string>, h: seq<string>)
    requires (key == "blocks" || key == "children") && Get(n, key).Arr?
    requires Accounts(before, Texts(Obj(n)), s, g)
    requires Accounts(TextsAll(Get(n, key).items), TextsAll(vs), t, h)
    ensures Accounts(before, Texts(Obj(n[key := Arr(vs)])), s + t, g + h)
  {
    var was, made, o := TextsAll(Get(n, key).items), TextsAll(vs), Texts(Obj(n[key := Arr(vs)]));
    forall x
      ensures Count(o, x) + Count(s + t, x) == Count(before, x) + Count(g + h, x)
    {
      assert Count(Texts(Obj(n)), x) + Count(s, x) == Count(before, x) + Count(g, x);
      assert Count(made, x) + Count(t, x) == Count(was, x) + Count(h, x);
      NestedCount(n, key, vs, x);
      CountJoin(s, t, x);
      CountJoin(g, h, x);
    }
  }

  /** The block with one nested array canonicalised. */
  function WithNested(m: Fields, n: Fields, key: string): Fields {
    if Get(m, key).Arr? && key in n && Canonicalize(Get(m, key).items).Some?
    then n[key := Arr(Canonicalize(Get(m, key).items).value)] else n
  }

  lemma BlockSteps(m: Fields)
    requires CanonicalBlock(m).Some?
    ensures Arms(m).Some?
    ensures CanonicalBlock(m).value == WithNested(m, WithNested(m, Arms(m).value, "blocks"), "children")
    ensures Descends(m, "blocks") ==> Canonicalize(m["blocks"].items).Some? && Get(Arms(m).value, "blocks") == m["blocks"]
    ensures Descends(m, "children") ==>
              Canonicalize(m["children"].items).Some? && Get(Arms(m).value, "children") == m["children"]
  {
    ArmsKeepNested(m);
  }

  lemma ArmsAccount(m: Fields)
    requires Arms(m).Some?
    ensures Accounts(Texts(Obj(m)), Texts(Obj(Arms(m).value)), ArmsLost(m), ArmsGained(m))
  {
    forall x
      ensures Count(Texts(Obj(Arms(m).value)), x) + Count(ArmsLost(m), x)
           == Count(Texts(Obj(m)), x) + Count(ArmsGained(m), x)
    {
      ArmsCount(m, x);
    }
  }

  /** One nested array: it is canonicalised where the arms left it standing. */
  lemma {:induction false} KeyAccounts(m: Fields, n: Fields, key: string, s: seq<string>, g: seq<string>)
    requires (key == "blocks" || key == "children") && CanonicalBlock(m).Some?
    requires Descends(m, key) ==> Get(n, key) == m[key]
    requires !Descends(m, key) ==> !Get(m, key).Arr? || key !in n
    requires Accounts(Texts(Obj(m)), Texts(Obj(n)), s, g)
    ensures Accounts(Texts(Obj(m)), Texts(Obj(WithNested(m, n, key))), s + NestedLost(m, key), g + NestedGained(m, key))
    decreases Obj(m), 0
  {
    if Descends(m, key) {
      BlockSteps(m);
      PaperAccounts(m[key].items);
      NestedAccounts(Texts(Obj(m)), n, key, Canonicalize(m[key].items).value, s, g, Lost(m[key].items), Gained(m[key].items));
    } else {
      assert s + [] == s && g + [] == g;
    }
  }

  lemma {:induction false} BlockAccounts(m: Fields)
    requires CanonicalBlock(m).Some?
    ensures Accounts(Texts(Obj(m)), Texts(Obj(CanonicalBlock(m).value)), BlockLost(m), BlockGained(m))
    decreases Obj(m), 1
  {
    BlockSteps(m);
    ArmsAccount(m);
    var n := Arms(m).value;
    var o := WithNested(m, n, "blocks");
    KeyAccounts(m, n, "blocks", ArmsLost(m), ArmsGained(m));
    assert "children" in o <==> "children" in n;
    assert Get(o, "children") == Get(n, "children");
    KeyAccounts(m, o, "children", ArmsLost(m) + NestedLost(m, "blocks"), ArmsGained(m) + NestedGained(m, "blocks"));
  }

  /** Canonicalising a Paper: every text is there as often as before, less those lost and
      with those gained. */
  lemma {:induction false} PaperAccounts(bs: seq<Json>)
    requires Canonicalize(bs).Some?
    ensures Accounts(TextsAll(bs), TextsAll(Canonicalize(bs).value), Lost(bs), Gained(bs))
    decreases bs
  {
    if bs != [] {
      var rest := Canonicalize(bs[1..]).value;
      PaperAccounts(bs[1..]);
      if bs[0].Obj? && !IsEmptyParagraph(bs[0]) {
        BlockAccounts(bs[0].fields);
        FirstAccounts(bs, Texts(Obj(CanonicalBlock(bs[0].fields).value)), BlockLost(bs[0].fields), BlockGained(bs[0].fields));
        FirstTexts(Obj(CanonicalBlock(bs[0].fields).value), rest);
      } else {
        AccountsAlone(Texts(bs[0]));
        if bs[0].Obj? {
          FirstAccounts(bs, [], Texts(bs[0]), []);
        } else {
          FirstAccounts(bs, Texts(bs[0]), [], []);
          FirstTexts(bs[0], rest);
        }
      }
    }
  }

  lemma FirstTexts(v: Json, rest: seq<Json>)
    ensures TextsAll([v] + rest) == Texts(v) + TextsAll(rest)
  {
    TextsJoin([v], rest);
    TextsOne(v);
  }

  lemma FirstAccounts(bs: seq<Json>, after: seq<string>, lost: seq<string>, gained: seq<string>)
    requires bs != [] && Canonicalize(bs[1..]).Some?
    requires Accounts(Texts(bs[0]), after, lost, gained)
    requires Accounts(TextsAll(bs[1..]), TextsAll(Canonicalize(bs[1..]).value), Lost(bs[1..]), Gained(bs[1..]))
    ensures Accounts(TextsAll(bs), after + TextsAll(Canonicalize(bs[1..]).value), lost + Lost(bs[1..]), gained + Gained(bs[1..]))
  {
    AccountsJoin(Texts(bs[0]), after, lost, gained,
                 TextsAll(bs[1..]), TextsAll(Canonicalize(bs[1..]).value), Lost(bs[1..]), Gained(bs[1..]));
  }

  /** The Paper has the same texts, each as often, exactly when it gains what it loses;
      without a table of records, exactly when nothing is lost. */
  lemma TextsSurviveIff(bs: seq<Json>)
    requires Canonicalize(bs).Some?
    ensures multiset(TextsAll(Canonicalize(bs).value)) == multiset(TextsAll(bs)) <==> multiset(Lost(bs)) == multiset(Gained(bs))
    ensures Gained(bs) == [] ==> (multiset(TextsAll(Canonicalize(bs).value)) == multiset(TextsAll(bs)) <==> Lost(bs) == [])
  {
    assert Lost(bs) != [] ==> Lost(bs)[0] in multiset(Lost(bs));
    PaperAccounts(bs);
    SameCountsIff(TextsAll(bs), TextsAll(Canonicalize(bs).value), Lost(bs), Gained(bs));
  }

  lemma SameCountsIff(before: seq<string>, after: seq<string>, lost: seq<string>, gained: seq<string>)
    requires Accounts(before, after, lost, gained)
    ensures multiset(after) == multiset(before) <==> multiset(lost) == multiset(gained)
  {
    forall x: string
      ensures multiset(after)[x] + multiset(lost)[x] == multiset(before)[x] + multiset(gained)[x]
    {
      assert Count(after, x) + Count(lost, x) == Count(before, x) + Count(gained, x);
    }
  }

  // ----------------------------------------------------------- the order of blocks --

  /** The blocks that are no spacers. */
  function Kept(bs: seq<Json>): seq<Json> {
    if bs == [] then []
    else if bs[0].Obj? && IsEmptyParagraph(bs[0]) then Kept(bs[1..])
    else [bs[0]] + Kept(bs[1..])
  }

  /** `o` is what a block becomes: what is no object is kept, and the texts of one are
      accounted for on their own. */
  ghost predicate BlockStays(b: Json, o: Json) {
    if !b.Obj? then o == b
    else o.Obj? && CanonicalBlock(b.fields).Some? && Accounts(Texts(b), Texts(o), BlockLost(b.fields), BlockGained(b.fields))
  }

  /** As many blocks, each what its own source becomes. */
  ghost predicate AllStay(bs: seq<Json>, out: seq<Json>) {
    |out| == |bs| && forall i :: 0 <= i < |bs| ==> BlockStays(bs[i], out[i])
  }

  lemma AllStayCons(b: Json, bs: seq<Json>, o: Json, out: seq<Json>)
    requires BlockStays(b, o) && AllStay(bs, out)
    ensures AllStay([b] + bs, [o] + out)
  {
  }

  /** The blocks of the result are those of the Paper that are no spacers, in order, each
      with its own texts. */
  lemma {:induction false} BlocksStayInPlace(bs: seq<Json>)
    requires Canonicalize(bs).Some?
    ensures AllStay(Kept(bs), Canonicalize(bs).value)
  {
    if bs != [] {
      var out, rest := Canonicalize(bs).value, Canonicalize(bs[1..]).value;
      BlocksStayInPlace(bs[1..]);
      if !(bs[0].Obj? && IsEmptyParagraph(bs[0])) {
        if bs[0].Obj? {
          BlockAccounts(bs[0].fields);
        }
        assert BlockStays(bs[0], out[0]) && out == [out[0]] + rest;
        AllStayCons(bs[0], Kept(bs[1..]), out[0], rest);
      }
    }
  }
}
