/** Canonicalisation against the audit, and against itself. */
module StructureTheorems {
  import opened Wrappers
  import opened Json
  import opened InlineContent
  import opened TableDialects
  import opened SettledTables
  import opened CanonicalBlocks

  // ------------------------------------------------------- what cannot be carried --

  lemma NormalizeListIff(m: Fields)
    ensures NormalizeList(m).Some? <==>
              ListSource(m).Some? && forall i :: 0 <= i < |ListSource(m).value| ==> IsNormalizable(ListSource(m).value[i])
  {
    if ListSource(m).Some? {
      var source := ListSource(m).value;
      if ListItems(source).Some? {
        assert forall i :: 0 <= i < |source| ==> Some(ListItems(source).value[i]) == ListItem(source[i]);
      }
    }
  }

  /** Content the second list arm would accept has already been taken by the dialect
      arm before it. */
  lemma {:induction false} TypedItemsAreNormalizable(vs: seq<Json>)
    requires TypedItems(vs).Some? && TypedItems(vs).value.1
    ensures forall i :: 0 <= i < |vs| ==> IsNormalizable(vs[i])
  {
    if vs != [] {
      TypedItemsAreNormalizable(vs[1..]);
      TypedIsNotIdentified(vs[0]);
      if IsTypedItem(vs[0]) {
        assert Inline(vs[0]) == Inline(vs[0].fields["content"]);
      }
    }
  }

  predicate IsTypedItem(v: Json) {
    v.Obj? && TypeToken(v.fields) == TListItem && Get(v.fields, "content").Arr?
  }

  /** The entries the second list arm reads. */
  predicate IsKnownItem(v: Json) {
    IsTypedItem(v) || (v.Obj? && TypeToken(v.fields) == TText)
  }

  /** An item whose content cannot be carried comes before any entry of another kind. */
  ghost predicate MeetsFailingItem(vs: seq<Json>) {
    exists k :: 0 <= k < |vs| && IsTypedItem(vs[k]) && Inline(vs[k]).None? && forall j :: 0 <= j < k ==> IsKnownItem(vs[j])
  }

  lemma TypedIsNotIdentified(v: Json)
    requires IsKnownItem(v)
    ensures !IsIdentifiedItem(v)
  {
    assert "type" in v.fields;
    assert "type" !in {"content", "text"} && "type" !in {"id", "content", "text"};
  }

  lemma {:induction false} TypedItemsRaisesIff(vs: seq<Json>)
    ensures TypedItems(vs).None? <==> MeetsFailingItem(vs)
  {
    if vs != [] && IsKnownItem(vs[0]) {
      TypedItemsRaisesIff(vs[1..]);
      if MeetsFailingItem(vs[1..]) {
        var k :| 0 <= k < |vs[1..]| && IsTypedItem(vs[1..][k]) && Inline(vs[1..][k]).None?
                 && forall j :: 0 <= j < k ==> IsKnownItem(vs[1..][j]);
        assert vs[k + 1] == vs[1..][k];
        forall j | 0 <= j < k + 1
          ensures IsKnownItem(vs[j])
        {
          assert j > 0 ==> vs[j] == vs[1..][j - 1];
        }
        assert MeetsFailingItem(vs);
      } else if MeetsFailingItem(vs) {
        var k :| 0 <= k < |vs| && IsTypedItem(vs[k]) && Inline(vs[k]).None? && forall j :: 0 <= j < k ==> IsKnownItem(vs[j]);
        assert k == 0;
      }
    }
  }

  /** After the dialect arm the second list arm never changes a block.  It is not idle
      for that: it reads again, outside any `try`, the items whose error the dialect
      arm swallowed, and raises exactly when it meets one of them. */
  lemma TypedItemsArmOnlyRaises(m: Fields)
    ensures TypedItemsArm(Dialects(m)).Some? ==> TypedItemsArm(Dialects(m)).value == Dialects(m)
    ensures TypedItemsArm(Dialects(m)).None? <==>
              IsNamed(Get(m, "type"), TList) && "items" !in m && Get(m, "content").Arr?
              && MeetsFailingItem(Get(m, "content").items)
    ensures TypedItemsArm(Dialects(m)).None? ==> Arms(m).None?
  {
    var d := Dialects(m);
    NormalizeListIff(m);
    if IsNamed(Get(m, "type"), TList) && "items" !in m && Get(m, "content").Arr? {
      var vs := Get(m, "content").items;
      TypedItemsRaisesIff(vs);
      if MeetsFailingItem(vs) {
        var k :| 0 <= k < |vs| && IsTypedItem(vs[k]) && Inline(vs[k]).None?;
        TypedIsNotIdentified(vs[k]);
        assert !IsNormalizable(vs[k]);
        assert d == m;
      } else if d == m && TypedItems(vs).value.1 {
        TypedItemsAreNormalizable(vs);
      }
    }
  }

  /** A list whose one item holds an object no arm recognises. */
  const UNREADABLE: Json := Obj(map["foo" := Null])
  const LIST_ITEM: Json := Str("list_item", None, Loose(TListItem))
  const UNREADABLE_ITEM: Fields := map["type" := LIST_ITEM, "content" := Arr([UNREADABLE])]
  const UNREADABLE_LIST: Fields := map["type" := Name(TList), "content" := Arr([Obj(UNREADABLE_ITEM)])]

  /** One such list aborts the canonicalisation of the whole Paper. */
  lemma UnreadableItemAborts(before: seq<Json>, after: seq<Json>)
    ensures NormalizeList(UNREADABLE_LIST).None? && TypedItemsArm(UNREADABLE_LIST).None?
    ensures Canonicalize(before + [Obj(UNREADABLE_LIST)] + after).None?
  {
    var vs := Get(UNREADABLE_LIST, "content").items;
    assert Inline(UNREADABLE) == Some(UNREADABLE) by {
      assert "foo" in UNREADABLE.fields && "foo" !in {"content", "text"};
    }
    assert Get(UNREADABLE_ITEM, "content").items[0] == UNREADABLE;
    assert InlineAll([UNREADABLE]).None?;
    assert IsTypedItem(vs[0]) && Inline(vs[0]).None? by {
      assert "type" in UNREADABLE_ITEM && "type" !in {"content", "text"};
    }
    assert MeetsFailingItem(vs);
    TypedItemsArmOnlyRaises(UNREADABLE_LIST);
    TypedIsNotIdentified(vs[0]);
    NormalizeListIff(UNREADABLE_LIST);
    AbortsWithin(before, UNREADABLE_LIST, after);
  }

  lemma {:induction false} AbortsWithin(before: seq<Json>, m: Fields, after: seq<Json>)
    requires Arms(m).None? && !IsEmptyParagraph(Obj(m))
    ensures Canonicalize(before + [Obj(m)] + after).None?
  {
    var all := before + [Obj(m)] + after;
    if before != [] {
      AbortsWithin(before[1..], m, after);
      assert all[1..] == before[1..] + [Obj(m)] + after;
    } else {
      assert all[0] == Obj(m);
    }
  }

  /** Same block apart from the arrays below it. */
  ghost predicate SameButNested(m: Fields, n: Fields) {
    m.Keys == n.Keys && SameOutside({"blocks", "children"}, m, n)
  }

  lemma NestedDoesNotMatter(m: Fields, n: Fields)
    requires SameButNested(m, n)
    ensures forall k :: k !in {"blocks", "children"} ==> Get(m, k) == Get(n, k)
    ensures TypeToken(m) == TypeToken(n)
    ensures IsNormalizable(Obj(m)) <==> IsNormalizable(Obj(n))
  {
    assert Get(m, "type") == Get(n, "type") && Get(m, "content") == Get(n, "content");
    assert Get(m, "text") == Get(n, "text") && Get(m, "id") == Get(n, "id") && Get(m, "value") == Get(n, "value");
  }

  lemma TypedItemIsNormalizable(m: Fields)
    ensures IsListed(m) || TypeToken(m) == TTable || TypeToken(m) == TCallout ==> IsNormalizable(Obj(m))
  {
    if IsListed(m) || TypeToken(m) == TTable || TypeToken(m) == TCallout {
      assert "type" in m.Keys;
      assert "type" !in {"content", "text"} && "type" !in {"id", "content", "text"};
      assert Inline(Obj(m)) == Some(Arr([Obj(m)]));
    }
  }

  /** An item that cannot be carried has no type the arms act on. */
  lemma FailingItemIsUntyped(m: Fields)
    requires !IsNormalizable(Obj(m))
    ensures !IsListed(m) && TypeToken(m) != TTable && TypeToken(m) != TCallout
  {
    TypedItemIsNormalizable(m);
  }

  lemma OthersChangeBelowOnly(m: Fields)
    requires !IsListed(m) && TypeToken(m) != TTable && !IsNamed(Get(m, "type"), TCallout)
    requires CanonicalBlock(m).Some?
    ensures SameButNested(m, CanonicalBlock(m).value)
  {
    ArmsPassOthers(m);
  }

  lemma FailingItemStaysFailing(m: Fields)
    requires !IsNormalizable(Obj(m)) && CanonicalBlock(m).Some?
    ensures !IsNormalizable(Obj(CanonicalBlock(m).value))
  {
    FailingItemIsUntyped(m);
    OthersChangeBelowOnly(m);
    NestedDoesNotMatter(m, CanonicalBlock(m).value);
  }

  lemma EmptyParagraphIsNormalizable(v: Json)
    requires IsEmptyParagraph(v)
    ensures IsNormalizable(v)
  {
    var m := v.fields;
    assert "type" in m.Keys;
    assert "type" !in {"content", "text"} && "type" !in {"id", "content", "text"};
    if Get(m, "content").Arr? {
      assert Inline(m["content"]) == Some(Arr([]));
    }
  }

  /** Children that cannot all be carried as items still cannot after they have been
      canonicalised as blocks. */
  lemma {:induction false} FailingCarrierStaysFailing(bs: seq<Json>, i: nat)
    requires i < |bs| && !IsNormalizable(bs[i]) && Canonicalize(bs).Some?
    ensures exists j :: 0 <= j < |Canonicalize(bs).value| && !IsNormalizable(Canonicalize(bs).value[j])
  {
    if i == 0 {
      FailingFirstStaysFailing(bs);
      assert !IsNormalizable(Canonicalize(bs).value[0]);
    } else {
      CanonicalRestIsSuffix(bs);
      var out, rest := Canonicalize(bs).value, Canonicalize(bs[1..]).value;
      FailingCarrierStaysFailing(bs[1..], i - 1);
      var j :| 0 <= j < |rest| && !IsNormalizable(rest[j]);
      assert out[|out| - |rest| + j] == rest[j];
    }
  }

  lemma {:induction false} FailingFirstStaysFailing(bs: seq<Json>)
    requires bs != [] && !IsNormalizable(bs[0]) && Canonicalize(bs).Some?
    ensures Canonicalize(bs).value != [] && !IsNormalizable(Canonicalize(bs).value[0])
  {
    if bs[0].Obj? {
      if IsEmptyParagraph(bs[0]) {
        EmptyParagraphIsNormalizable(bs[0]);
      }
      FailingItemStaysFailing(bs[0].fields);
    }
  }

  lemma {:induction false} CanonicalRestIsSuffix(bs: seq<Json>)
    requires bs != [] && Canonicalize(bs).Some?
    ensures Canonicalize(bs[1..]).Some?
    ensures IsSuffix(Canonicalize(bs[1..]).value, Canonicalize(bs).value)
  {
    var rest := Canonicalize(bs[1..]).value;
    if !bs[0].Obj? {
      SuffixOf([bs[0]], rest);
    } else if IsEmptyParagraph(bs[0]) {
      SuffixOf([], rest);
      assert [] + rest == rest;
    } else {
      SuffixOf([Obj(CanonicalBlock(bs[0].fields).value)], rest);
    }
  }

  ghost predicate IsSuffix<T>(rest: seq<T>, all: seq<T>) {
    |rest| <= |all| && forall j :: 0 <= j < |rest| ==> all[|all| - |rest| + j] == rest[j]
  }

  lemma SuffixOf<T>(start: seq<T>, rest: seq<T>)
    ensures IsSuffix(rest, start + rest)
  {
  }

  // ---------------------------------------------------------- one canonical block --

  /** A list whose dialect cannot be normalised keeps everything but the blocks
      below it, and its dialect still cannot be normalised. */
  lemma FailedListStaysFailed(m: Fields)
    requires IsListDialect(m) && NormalizeList(m).None? && CanonicalBlock(m).Some?
    ensures var n := CanonicalBlock(m).value;
            SameButNested(m, n) && IsListDialect(n) && NormalizeList(n).None?
  {
    var n := CanonicalBlock(m).value;
    ArmsOnList(m);
    TypedItemsArmOnlyRaises(m);
    assert Arms(m) == Some(m);
    NestedDoesNotMatter(m, n);
    NormalizeListIff(m);
    NormalizeListIff(n);
    assert Get(n, "items") == Get(m, "items") && Get(n, "content") == Get(m, "content");
    if ListSource(m).Some? && !Get(m, "items").Arr? && !Get(m, "content").Arr? {
      var source := Get(m, "children").items;
      var i :| 0 <= i < |source| && !IsNormalizable(source[i]);
      FailingCarrierStaysFailing(source, i);
    }
  }

  lemma NormalizedIsList(m: Fields)
    requires NormalizeList(m).Some?
    ensures var n := NormalizeList(m).value;
            && IsNamed(Get(n, "type"), TList) && Get(n, "items").Arr?
            && "children" !in n && "content" !in n
            && ListItems(ListSource(m).value) == Some(Get(n, "items").items)
  {
  }

  /** A list in canonical form whose items are as canonicalisation leaves them. */
  ghost predicate IsCanonicalList(n: Fields) {
    IsNamed(Get(n, "type"), TList) && Get(n, "items").Arr? && ListItems(Get(n, "items").items) == Some(Get(n, "items").items)
  }

  /** Any other list comes out in canonical form. */
  lemma OtherListsAreCanonical(m: Fields)
    requires IsListed(m) && CanonicalBlock(m).Some?
    requires IsListDialect(m) ==> NormalizeList(m).Some?
    ensures IsCanonicalList(CanonicalBlock(m).value)
    ensures IsListDialect(m) ==> "children" !in CanonicalBlock(m).value
  {
    ArmsOnList(m);
    var d := Dialects(m);
    if IsListDialect(m) {
      NormalizedIsList(m);
      ListItemsAreFixpoint(ListSource(m).value);
    } else {
      ListItemsAreFixpoint(Get(m, "items").items);
    }
    var n := ListArms(d).value;
    assert TypedItemsArm(d) == Some(d);
    assert IsCanonicalList(n);
    assert "children" in n <==> "children" in d;
  }

  /** What the recursion does once the arms are done. */
  lemma NestedAreCanonicalized(m: Fields)
    requires CanonicalBlock(m).Some?
    ensures var n := CanonicalBlock(m).value;
            && ("blocks" in n && n["blocks"].Arr? ==>
                  "blocks" in m && m["blocks"].Arr? && Canonicalize(m["blocks"].items) == Some(n["blocks"].items))
            && ("children" in n && n["children"].Arr? ==>
                  "children" in m && m["children"].Arr? && Canonicalize(m["children"].items) == Some(n["children"].items))
            && SameOutside({"blocks", "children"}, Arms(m).value, n)
            && n.Keys == Arms(m).value.Keys
  {
    ArmsKeepNested(m);
  }

  lemma OtherStaysNotEmpty(m: Fields)
    requires !IsEmptyParagraph(Obj(m)) && CanonicalBlock(m).Some?
    requires !IsListed(m) && TypeToken(m) != TTable && !IsNamed(Get(m, "type"), TCallout)
    ensures !IsEmptyParagraph(Obj(CanonicalBlock(m).value))
  {
    var n := CanonicalBlock(m).value;
    NestedAreCanonicalized(m);
    ArmsPassOthers(m);
    assert Get(n, "type") == Get(m, "type");
    assert Get(n, "content") == Get(m, "content") && Get(n, "text") == Get(m, "text");
  }

  lemma NotEmptyStaysNotEmpty(m: Fields)
    requires !IsEmptyParagraph(Obj(m)) && CanonicalBlock(m).Some?
    ensures !IsEmptyParagraph(Obj(CanonicalBlock(m).value))
  {
    if !IsListed(m) && TypeToken(m) != TTable && !IsNamed(Get(m, "type"), TCallout) {
      OtherStaysNotEmpty(m);
    } else {
      NestedAreCanonicalized(m);
      assert Get(CanonicalBlock(m).value, "type") == Get(Arms(m).value, "type");
      ArmsNameNoParagraph(m);
    }
  }

  lemma ArmsNameNoParagraph(m: Fields)
    requires Arms(m).Some? && (IsListed(m) || TypeToken(m) == TTable || IsNamed(Get(m, "type"), TCallout))
    ensures !IsNamed(Get(Arms(m).value, "type"), TParagraph)
  {
    if IsListed(m) {
      ArmsOnList(m);
    } else if TypeToken(m) == TTable {
      ArmsOnTable(m);
    } else {
      ArmsOnCallout(m);
    }
  }

  // ---------------------------------------------------------------- audit theorem --

  lemma {:induction false} CanonicalItemsAreNotSafe(items: seq<Json>)
    requires ListItems(items) == Some(items)
    ensures NoneSafe(AuditItems(items))
  {
    if items != [] {
      CanonicalItemIsNotSafe(items[0]);
      assert forall i :: 0 <= i < |items[1..]| ==> items[1..][i] == items[i + 1];
      var rest := ListItems(items[1..]).value;
      assert rest == items[1..];
      CanonicalItemsAreNotSafe(items[1..]);
    }
  }

  lemma CanonicalItemIsNotSafe(item: Json)
    requires ListItem(item) == Some(item)
    ensures NoneSafe(AuditItem(item))
  {
    ListItemIsFixpoint(item);
    if item.Obj? && !IsIdentifiedItem(item) {
      var m := item.fields;
      if m.Keys <= {"content", "text"} && Get(m, "content").Arr? {
        InlineOfWrapper(m);
      }
    }
  }

  lemma InlineOfWrapper(m: Fields)
    requires m.Keys <= {"content", "text"} && Get(m, "content").Arr?
    ensures Inline(Obj(m)) != Some(Obj(m))
  {
    assert "type" !in m && "value" !in m;
    assert Inline(Obj(m)) == Inline(m["content"]);
  }

  /** Canonicalisation clears what the audit calls safe: of whatever it returns, the
      audit reports no spacer and no list finding marked safe, at any depth. */
  lemma {:induction false} SafeFindingsAreCleared(bs: seq<Json>)
    requires Canonicalize(bs).Some?
    ensures NoneSafe(AuditBlocks(Canonicalize(bs).value))
  {
    if bs != [] {
      SafeFindingsAreCleared(bs[1..]);
      if bs[0].Obj? && !IsEmptyParagraph(bs[0]) {
        SafeFindingsAreClearedIn(bs[0].fields);
      }
    }
  }

  lemma {:induction false} SafeFindingsAreClearedIn(m: Fields)
    requires !IsEmptyParagraph(Obj(m)) && CanonicalBlock(m).Some?
    ensures NoneSafe(AuditBlock(CanonicalBlock(m).value))
    decreases Obj(m), 0
  {
    var n := CanonicalBlock(m).value;
    NotEmptyStaysNotEmpty(m);
    NestedAreCanonicalized(m);
    if IsListed(m) {
      if IsListDialect(m) && NormalizeList(m).None? {
        FailedListStaysFailed(m);
      } else {
        OtherListsAreCanonical(m);
        CanonicalItemsAreNotSafe(Get(n, "items").items);
      }
    } else {
      OtherTokensStay(m);
    }
    if "blocks" in n && n["blocks"].Arr? {
      SafeFindingsAreCleared(m["blocks"].items);
    }
    if "children" in n && n["children"].Arr? {
      SafeFindingsAreCleared(m["children"].items);
    }
  }

  /** The arms do not turn another block into a list. */
  lemma OtherTokensStay(m: Fields)
    requires !IsListed(m) && CanonicalBlock(m).Some?
    ensures !IsListed(CanonicalBlock(m).value)
  {
    NestedAreCanonicalized(m);
    var n, a := CanonicalBlock(m).value, Arms(m).value;
    assert Get(n, "type") == Get(a, "type");
    if TypeToken(m) == TTable {
      ArmsOnTable(m);
    } else if IsNamed(Get(m, "type"), TCallout) {
      ArmsOnCallout(m);
    } else {
      ArmsPassOthers(m);
    }
  }

  // ------------------------------------------------------------- fixpoint theorem --

  /** What one pass leaves of a table with an array of rows is at rest.  Rows under
      another carrier are always settled by it. */
  ghost predicate IsSteadyTable(m: Fields) {
    IsNamed(Get(m, "type"), TTable) && Get(m, "rows").Arr? ==> TableArms(m).Some? && IsAtRest(TableArms(m).value)
  }

  /** The children of a list dialect go into its items. */
  predicate DropsChildren(m: Fields) {
    IsListDialect(m) && NormalizeList(m).Some?
  }

  /** Steady tables at every depth the recursion reaches. */
  ghost predicate IsSteady(m: Fields)
    decreases Obj(m), 0
  {
    IsSteadyTable(m)
    && ("blocks" in m && m["blocks"].Arr? ==> AreSteady(m["blocks"].items))
    && ("children" in m && m["children"].Arr? && !DropsChildren(m) ==> AreSteady(m["children"].items))
  }

  ghost predicate AreSteady(bs: seq<Json>) {
    bs == [] || ((bs[0].Obj? && !IsEmptyParagraph(bs[0]) ==> IsSteady(bs[0].fields)) && AreSteady(bs[1..]))
  }

  /** When canonicalisation is idempotent: exactly when the tables of the document are
      steady.  Everything else settles in one pass, a list or table dialect that could
      not be normalised included. */
  lemma {:induction false} CanonicalizeSettlesIff(bs: seq<Json>)
    requires Canonicalize(bs).Some?
    ensures Canonicalize(Canonicalize(bs).value) == Canonicalize(bs) <==> AreSteady(bs)
  {
    if bs != [] {
      var rest := Canonicalize(bs[1..]).value;
      CanonicalizeSettlesIff(bs[1..]);
      if !bs[0].Obj? {
        ConsSettlesIff(bs[0], rest);
      } else if !IsEmptyParagraph(bs[0]) {
        CanonicalBlockSettlesIff(bs[0].fields);
        NotEmptyStaysNotEmpty(bs[0].fields);
        ConsSettlesIff(Obj(CanonicalBlock(bs[0].fields).value), rest);
      }
    }
  }

  lemma {:induction false} ConsSettlesIff(b: Json, rest: seq<Json>)
    requires !IsEmptyParagraph(b)
    ensures Canonicalize([b] + rest) == Some([b] + rest) <==>
              (b.Obj? ==> CanonicalBlock(b.fields) == Some(b.fields)) && Canonicalize(rest) == Some(rest)
  {
    assert ([b] + rest)[1..] == rest && ([b] + rest)[0] == b;
    if Canonicalize(rest).Some? && (b.Obj? ==> CanonicalBlock(b.fields).Some?) {
      SameCons(if b.Obj? then Obj(CanonicalBlock(b.fields).value) else b, Canonicalize(rest).value, b, rest);
    }
  }

  lemma SameCons<T>(x: T, a: seq<T>, y: T, b: seq<T>)
    ensures [x] + a == [y] + b <==> x == y && a == b
  {
    assert ([x] + a)[0] == x && ([y] + b)[0] == y && ([x] + a)[1..] == a && ([y] + b)[1..] == b;
  }

  /** Arms that leave a block alone, and nested arrays that are fixed, leave it fixed. */
  lemma FixedBlock(n: Fields)
    requires Arms(n) == Some(n)
    requires "blocks" in n && n["blocks"].Arr? ==> Canonicalize(n["blocks"].items) == Some(n["blocks"].items)
    requires "children" in n && n["children"].Arr? ==> Canonicalize(n["children"].items) == Some(n["children"].items)
    ensures CanonicalBlock(n) == Some(n)
  {
    if "blocks" in n && n["blocks"].Arr? {
      assert n["blocks" := Arr(n["blocks"].items)] == n;
    }
    if "children" in n && n["children"].Arr? {
      assert n["children" := Arr(n["children"].items)] == n;
    }
  }

  /** And the other way round: a block that is fixed is left alone by the arms. */
  lemma FixedBlockIsLeftAlone(n: Fields)
    requires CanonicalBlock(n) == Some(n)
    ensures Arms(n) == Some(n)
    ensures "blocks" in n && n["blocks"].Arr? ==> Canonicalize(n["blocks"].items) == Some(n["blocks"].items)
    ensures "children" in n && n["children"].Arr? ==> Canonicalize(n["children"].items) == Some(n["children"].items)
  {
    NestedAreCanonicalized(n);
    ArmsKeepNested(n);
    assert Arms(n).value == n;
  }

  lemma KeepsChildrenIff(m: Fields)
    requires Arms(m).Some? && "children" in m
    ensures "children" in Arms(m).value <==> !DropsChildren(m)
  {
    if IsListed(m) {
      ArmsOnList(m);
    } else if TypeToken(m) == TTable {
      ArmsOnTable(m);
    } else if IsNamed(Get(m, "type"), TCallout) {
      ArmsOnCallout(m);
    } else {
      ArmsPassOthers(m);
    }
  }

  lemma {:induction false} CanonicalBlockSettlesIff(m: Fields)
    requires CanonicalBlock(m).Some?
    ensures CanonicalBlock(CanonicalBlock(m).value) == CanonicalBlock(m) <==> IsSteady(m)
    decreases Obj(m), 0
  {
    var n := CanonicalBlock(m).value;
    ArmsSettleIff(m);
    NestedArraysStay(m);
    if "blocks" in m && m["blocks"].Arr? {
      CanonicalizeSettlesIff(m["blocks"].items);
    }
    if "children" in m && m["children"].Arr? && !DropsChildren(m) {
      CanonicalizeSettlesIff(m["children"].items);
    }
    if IsSteady(m) {
      FixedBlock(n);
    }
    if CanonicalBlock(n) == Some(n) {
      FixedBlockIsLeftAlone(n);
    }
  }

  /** The nested arrays of a canonical block are those of the source, canonicalised. */
  lemma NestedArraysStay(m: Fields)
    requires CanonicalBlock(m).Some?
    ensures var n := CanonicalBlock(m).value;
            && ("blocks" in n && n["blocks"].Arr? <==> "blocks" in m && m["blocks"].Arr?)
            && ("blocks" in m && m["blocks"].Arr? ==> Canonicalize(m["blocks"].items) == Some(n["blocks"].items))
            && ("children" in n && n["children"].Arr? <==> "children" in m && m["children"].Arr? && !DropsChildren(m))
            && ("children" in m && m["children"].Arr? && !DropsChildren(m) ==>
                  Canonicalize(m["children"].items) == Some(n["children"].items))
  {
    NestedAreCanonicalized(m);
    ArmsKeepNested(m);
    if "children" in m {
      KeepsChildrenIff(m);
    }
  }

  lemma ArmsSettleIff(m: Fields)
    requires CanonicalBlock(m).Some?
    ensures Arms(CanonicalBlock(m).value) == Some(CanonicalBlock(m).value) <==> IsSteadyTable(m)
  {
    if IsNamed(Get(m, "type"), TTable) && Get(m, "rows").Arr? {
      RowTableSettlesIff(m);
    } else {
      ArmsAreFixed(m);
    }
  }

  lemma ArmsAreFixed(m: Fields)
    requires CanonicalBlock(m).Some? && !(IsNamed(Get(m, "type"), TTable) && Get(m, "rows").Arr?)
    ensures Arms(CanonicalBlock(m).value) == Some(CanonicalBlock(m).value)
  {
    var n := CanonicalBlock(m).value;
    if IsListed(m) {
      if IsListDialect(m) && NormalizeList(m).None? {
        FailedListStaysFailed(m);
        FailedListIsFixed(m, n);
      } else {
        OtherListsAreCanonical(m);
        CanonicalListIsFixed(n);
      }
    } else if TypeToken(m) == TTable {
      TableIsFixed(m);
    } else if IsNamed(Get(m, "type"), TCallout) {
      CalloutIsFixed(m);
    } else {
      OthersChangeBelowOnly(m);
      NestedDoesNotMatter(m, n);
      ArmsPassOthers(n);
    }
  }

  lemma FailedListIsFixed(m: Fields, n: Fields)
    requires SameButNested(m, n) && IsListDialect(m) && NormalizeList(m).None? && Arms(m).Some?
    requires IsListDialect(n) && NormalizeList(n).None?
    ensures Arms(n) == Some(n)
  {
    NestedDoesNotMatter(m, n);
    ArmsOnList(m);
    ArmsOnList(n);
    assert Get(n, "content") == Get(m, "content") && ("items" in n <==> "items" in m);
    assert TypedItemsArm(n).Some?;
    TypedItemsArmOnlyRaises(n);
  }

  lemma CanonicalListIsFixed(n: Fields)
    requires IsCanonicalList(n)
    ensures Arms(n) == Some(n)
  {
    ArmsOnList(n);
    assert TypedItemsArm(n) == Some(n);
    assert n["items" := Arr(Get(n, "items").items)] == n;
  }

  // ----------------------------------------------------------- tables are settled --

  lemma {:induction false} TypedCellsAreCanonical(cells: seq<Json>)
    requires TypedCells(cells).Some? && TypedCells(cells).value.1
    ensures InlineEach(cells).Some? && AllArrays(InlineEach(cells).value)
  {
    if cells != [] {
      TypedCellsAreCanonical(cells[1..]);
      var m := cells[0].fields;
      assert "type" in m && "type" !in {"content", "text"};
      assert Inline(cells[0]) == Inline(m["content"]);
    }
  }

  lemma {:induction false} TypedRowsAreCanonical(rows: seq<Json>)
    requires TypedTable(rows).Some? && TypedTable(rows).value.TypedRows?
    ensures CanonicalRows(rows).Some?
  {
    if rows != [] {
      TypedRowsAreCanonical(rows[1..]);
      TypedCellsAreCanonical(Get(rows[0].fields, "content").items);
    }
  }

  /** The typed-rows arm never changes a table either: what it accepts has already been
      taken by the table dialect before it. */
  lemma TypedRowsArmChangesNothing(m: Fields)
    requires NormalizeTable(m).None? && ContentArm(m).Some?
    ensures ContentArm(m).value == m
  {
    if "rows" !in m && Get(m, "content").Arr? && TypedTable(Get(m, "content").items).value.TypedRows? {
      TypedRowsAreCanonical(Get(m, "content").items);
    }
  }

  lemma NormalizedHasArrayRows(m: Fields)
    requires NormalizeTable(m).Some?
    ensures HasArrayRows(NormalizeTable(m).value) && !HeaderLingers(NormalizeTable(m).value)
    ensures IsNamed(Get(NormalizeTable(m).value, "type"), TTable)
  {
    assert "header" !in NormalizeTable(m).value;
  }

  /** What the arms do to a table they can read, its rows wherever they were. */
  lemma ReadTableIsQuiet(m: Fields, d: Fields)
    requires d == Dialects(m) && TypeToken(m) == TTable && Arms(m).Some?
    requires IsNamed(Get(d, "type"), TTable) && HasArrayRows(d) && !HeaderLingers(d)
    ensures var a := Arms(m).value;
            IsQuiet(a) && !HasSpentHeader(a) && IsNamed(Get(a, "type"), TTable)
  {
    assert ListArms(d) == Some(d) && ContentArm(d) == Some(d);
    PassLeavesQuiet(d);
    TableArmsFrame(d);
    assert Arms(m) == TableArms(d);
  }

  lemma QuietTableIsFixed(a: Fields, n: Fields)
    requires IsQuiet(a) && !HasSpentHeader(a) && IsNamed(Get(a, "type"), TTable)
    requires forall k :: k !in {"blocks", "children"} ==> Get(a, k) == Get(n, k)
    ensures Arms(n) == Some(n)
  {
    SameQuiet(a, n);
    QuietTableStays(n);
    assert Dialects(n) == n && ListArms(n) == Some(n) && ContentArm(n) == Some(n);
  }

  lemma SameQuiet(a: Fields, n: Fields)
    requires IsQuiet(a) && !HasSpentHeader(a)
    requires forall k :: k !in {"blocks", "children"} ==> Get(a, k) == Get(n, k)
    ensures IsQuiet(n) && !HasSpentHeader(n)
  {
    assert Get(a, "rows") == Get(n, "rows") && Get(a, "head") == Get(n, "head") && Get(a, "header") == Get(n, "header");
    assert Get(a, "headers") == Get(n, "headers") && Get(a, "columns") == Get(n, "columns");
  }

  /** A table no arm can read stays as it is, apart from the blocks below it. */
  lemma UnreadTableIsFixed(m: Fields, n: Fields)
    requires TypeToken(m) == TTable && SameButNested(m, n) && Arms(m).Some?
    requires !Get(m, "rows").Arr? && NormalizeTable(m).None?
    ensures Arms(m) == Some(m) && Arms(n) == Some(n)
  {
    NestedDoesNotMatter(m, n);
    assert Get(n, "rows") == Get(m, "rows") && ("rows" in n <==> "rows" in m) && Get(n, "content") == Get(m, "content");
    assert NormalizeTable(n).None?;
    assert Dialects(m) == m && Dialects(n) == n;
    assert ListArms(m) == Some(m) && ListArms(n) == Some(n);
    if IsNamed(Get(m, "type"), TTable) {
      TypedRowsArmChangesNothing(m);
      assert ContentArm(n).Some?;
      TypedRowsArmChangesNothing(n);
    }
  }

  lemma UnreadTableIsKept(m: Fields)
    requires TypeToken(m) == TTable && Arms(m).Some? && !Get(m, "rows").Arr? && NormalizeTable(m).None?
    ensures Arms(m) == Some(m)
  {
    UnreadTableIsFixed(m, m);
  }

  lemma LooseTableIsFixed(m: Fields)
    requires TypeToken(m) == TTable && Get(m, "rows").Arr? && !IsNamed(Get(m, "type"), TTable)
    ensures Arms(m) == Some(m)
  {
    assert Dialects(m) == m && ListArms(m) == Some(m);
  }

  lemma TableIsFixed(m: Fields)
    requires TypeToken(m) == TTable && CanonicalBlock(m).Some?
    requires !(IsNamed(Get(m, "type"), TTable) && Get(m, "rows").Arr?)
    ensures Arms(CanonicalBlock(m).value) == Some(CanonicalBlock(m).value)
  {
    var n, a, d := CanonicalBlock(m).value, Arms(m).value, Dialects(m);
    NestedAreCanonicalized(m);
    assert forall k :: k !in {"blocks", "children"} ==> Get(a, k) == Get(n, k);
    if Get(m, "rows").Arr? {
      LooseTableIsFixed(m);
      NestedDoesNotMatter(m, n);
      LooseTableIsFixed(n);
    } else if NormalizeTable(m).Some? {
      NormalizedHasArrayRows(m);
      ReadTableIsQuiet(m, d);
      QuietTableIsFixed(a, n);
    } else {
      UnreadTableIsKept(m);
      UnreadTableIsFixed(m, n);
    }
  }

  lemma RowTableSettlesIff(m: Fields)
    requires IsNamed(Get(m, "type"), TTable) && Get(m, "rows").Arr? && CanonicalBlock(m).Some?
    ensures Arms(CanonicalBlock(m).value) == Some(CanonicalBlock(m).value) <==> IsSteadyTable(m)
  {
    var n, a := CanonicalBlock(m).value, Arms(m).value;
    NestedAreCanonicalized(m);
    ArmsOnRows(m);
    RowsStayRows(m);
    TableArmsFrame(m);
    SameRest(a, n);
    ArmsOnRows(n);
    AtRestIff(n);
  }

  lemma SameRest(a: Fields, n: Fields)
    requires SameOutside({"blocks", "children"}, a, n)
    ensures IsAtRest(a) <==> IsAtRest(n)
    ensures Get(a, "rows") == Get(n, "rows") && Get(a, "type") == Get(n, "type")
  {
    assert Get(a, "rows") == Get(n, "rows") && Get(a, "head") == Get(n, "head") && Get(a, "header") == Get(n, "header");
    assert Get(a, "headers") == Get(n, "headers") && Get(a, "columns") == Get(n, "columns");
  }

  lemma CalloutIsFixed(m: Fields)
    requires IsNamed(Get(m, "type"), TCallout) && CanonicalBlock(m).Some?
    ensures Arms(CanonicalBlock(m).value) == Some(CanonicalBlock(m).value)
  {
    var n := CanonicalBlock(m).value;
    NestedAreCanonicalized(m);
    ArmsOnCallout(m);
    var a := CalloutArm(m);
    assert Get(n, "type") == Get(a, "type") && Get(n, "text") == Get(a, "text");
    assert Get(n, "content") == Get(a, "content") && Get(n, "slots") == Get(a, "slots");
    ArmsOnCallout(n);
  }

  // --------------------------------------------------------------------- tables --

  /** A table marked `header: true` whose one row is an object. */
  const OBJECT_ROW_TABLE: Fields :=
    map["type" := Name(TTable), "header" := Bool(true), "rows" := Arr([Obj(map["cells" := Arr([])])])]

  /** The same after its row has become an array. */
  const ARRAY_ROW_TABLE: Fields :=
    map["type" := Name(TTable), "header" := Bool(true), "rows" := Arr([Arr([])])]

  lemma FirstPassOnObjectRow()
    ensures TableArms(OBJECT_ROW_TABLE) == Some(ARRAY_ROW_TABLE)
  {
    var m := OBJECT_ROW_TABLE;
    assert HeaderArms(m) == Some(m);
    assert RecordRows(PromoteTextColumns(m)) == m;
    var rows := Get(m, "rows").items;
    assert rows[1..] == [];
    assert CanonicalCells([], false) == Arr([]);
    assert NormalRow(rows[0]) == Some(Arr([]));
    assert NormalRows(rows[1..]) == Some([]);
    assert [Arr([])] + [] == [Arr([])];
    assert m["rows" := Arr([Arr([])])] == ARRAY_ROW_TABLE;
  }

  /** The second pass promotes the row and drops the header. */
  const PROMOTED_TABLE: Fields := map["type" := Name(TTable), "head" := Arr([]), "rows" := Arr([])]

  lemma SecondPassPromotes()
    ensures TableArms(ARRAY_ROW_TABLE) == Some(PROMOTED_TABLE)
  {
    var m := ARRAY_ROW_TABLE;
    var a := PromoteFirstRow(DropSpentHeader(m)).value;
    assert Get(m, "rows").items[0] == Arr([]);
    assert InlineEach([]) == Some([]);
    assert Get(m, "rows").items[1..] == [];
    assert a == (m - {"header"})["head" := Arr([])]["rows" := Arr([])];
    assert a == PROMOTED_TABLE;
    assert PromoteLabels(a, "headers") == Some(a);
    assert PromoteLabels(a, "header") == Some(a);
    assert CanonicalHead(a).value == a["head" := Arr([])];
    assert a["head" := Arr([])] == a;
  }

  /** Object rows are a true exception to the fixpoint: the header arms run before the
      row arms, so a row that becomes an array in one pass is promoted by the next. */
  lemma TablesCanNeedTwoPasses()
    ensures Canonicalize([Obj(OBJECT_ROW_TABLE)]) == Some([Obj(ARRAY_ROW_TABLE)])
    ensures Canonicalize(Canonicalize([Obj(OBJECT_ROW_TABLE)]).value) != Canonicalize([Obj(OBJECT_ROW_TABLE)])
  {
    FirstPassOnObjectRow();
    OneTable(OBJECT_ROW_TABLE);
    ArrayRowTableChanges();
  }

  lemma ArrayRowTableChanges()
    ensures Canonicalize([Obj(ARRAY_ROW_TABLE)]) == Some([Obj(PROMOTED_TABLE)])
    ensures PROMOTED_TABLE != ARRAY_ROW_TABLE
  {
    SecondPassPromotes();
    OneTable(ARRAY_ROW_TABLE);
    assert "header" in ARRAY_ROW_TABLE && "header" !in PROMOTED_TABLE;
  }

  /** A table with rows and nothing nested is what its arms make of it. */
  lemma OneTable(m: Fields)
    requires IsNamed(Get(m, "type"), TTable) && Get(m, "rows").Arr? && "blocks" !in m && "children" !in m
    requires TableArms(m).Some?
    ensures Canonicalize([Obj(m)]) == Some([Obj(TableArms(m).value)])
  {
    assert [Obj(m)][1..] == [];
    ArmsOnRows(m);
    ArmsKeepNested(m);
    assert CanonicalBlock(m) == Some(TableArms(m).value);
    assert [Obj(TableArms(m).value)] + [] == [Obj(TableArms(m).value)];
  }

  lemma ArmsOnRows(m: Fields)
    requires IsNamed(Get(m, "type"), TTable) && Get(m, "rows").Arr?
    ensures Arms(m) == TableArms(m)
  {
    TypedTableHasRows(m);
    assert ListArms(m) == Some(m) && ContentArm(m) == Some(m);
    if TableArms(m).Some? {
      TableArmsFrame(m);
    }
  }

  lemma TypedTableHasRows(m: Fields)
    requires IsNamed(Get(m, "type"), TTable) && Get(m, "rows").Arr?
    ensures Dialects(m) == m
  {
  }
}
