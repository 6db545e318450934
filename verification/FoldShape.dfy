/** Which Papers are folded, and what a folded Paper looks like, said without the plan
    that folds it. */
module FoldShape {
  import opened Wrappers
  import opened Subsequences
  import opened Words
  import opened PaperBlocks
  import opened QualityGates
  import opened Appendices
  import Numerals

  // ------------------------------------------------------------------ what is promised --

  function CountH2(bs: seq<Block>): nat {
    if bs == [] then 0 else (if IsHeading(bs[0]) && IsLevelTwo(bs[0].level) then 1 else 0) + CountH2(bs[1..])
  }

  /** Too long to be read through, and with more than two sections. */
  predicate NeedsFolding(bs: seq<Block>) {
    && (|VisibleAll(bs)| > 5_000 || |bs| > 80 || CountHeadings(bs) > 16)
    && CountH2(bs) >= 3
  }

  function ChildrenOf(folded: seq<Block>): seq<Block> {
    if folded == [] then [] else (if folded[0].Block? then folded[0].children else []) + ChildrenOf(folded[1..])
  }

  function FirstWords(ws: Prose, n: nat): Prose {
    if |ws| <= n then ws else ws[..n]
  }

  /** An expandable with nothing but an id, a summary that quotes the first heading in it,
      and whole sections for children. */
  predicate HoldsSections(b: Block, number: nat) {
    && b.Block? && b.children != [] && IsHeading(b.children[0]) && IsLevelTwo(b.children[0].level)
    && (var e := Blank(Expandable);
        b == e.(id := Some("epb-evidence-appendix-" + Numerals.Decimal(number)),
                summary := ["Evidence", "appendix", Numerals.Decimal(number), "\U{2014}"]
                           + FirstWords(HeadingText(b.children[0]), 14),
                children := b.children, childless := false))
  }

  /** `size` is `n` divided by the number of appendices, at most four, rounded up. */
  predicate IsShare(size: nat, n: nat) {
    var count := if n < 4 then n else 4;
    n <= size * count < n + count
  }

  /** All but the last appendix hold `size` sections. */
  ghost predicate AreShared(folded: seq<Block>, size: nat) {
    && folded != []
    && (forall i :: 0 <= i < |folded| ==> HoldsSections(folded[i], i + 1))
    && (forall i :: 0 <= i < |folded| - 1 ==> CountH2(folded[i].children) == size)
    && CountH2(folded[|folded| - 1].children) <= size
  }

  /** The sections are shared out among at most four appendices. */
  ghost predicate SharesAlike(folded: seq<Block>, n: nat) {
    exists size :: IsShare(size, n) && AreShared(folded, size)
  }

  /** The last section, when it is short and not the only one hidden, stays. */
  predicate StaysShort(hidden: seq<Block>, last: seq<Block>) {
    CountH2(hidden) >= 2 && |VisibleAll(last)| <= 700
  }

  /** From the third h2 on the Paper is hidden, up to `e`. */
  ghost predicate IsFoldedAt(bs: seq<Block>, p: nat, e: nat, folded: seq<Block>, out: seq<Block>) {
    && p < e <= |bs| && IsHeading(bs[p]) && IsLevelTwo(bs[p].level) && CountH2(bs[..p]) == 2
    && out == bs[..p] + folded + bs[e..]
    && ChildrenOf(folded) == bs[p..e]
    && SharesAlike(folded, CountH2(bs[p..e]))
    && EndsRight(bs, p, e)
  }

  /** The hidden part ends before the last section when that stays. */
  ghost predicate EndsRight(bs: seq<Block>, p: nat, e: nat)
    requires p <= |bs|
  {
    exists l: nat :: IsLastSection(bs, p, l) && e == if StaysShort(bs[p..], bs[l..]) then l else |bs|
  }

  ghost predicate IsLastSection(bs: seq<Block>, p: nat, l: nat) {
    p <= l < |bs| && IsHeading(bs[l]) && IsLevelTwo(bs[l].level) && CountH2(bs[l..]) == 1
  }

  // ------------------------------------------------------------------------ sections --

  lemma {:induction false} CountH2Concat(a: seq<Block>, b: seq<Block>)
    ensures CountH2(a + b) == CountH2(a) + CountH2(b)
  {
    if a == [] {
      assert a + b == b;
    } else {
      Peel(a, b);
      CountH2Concat(a[1..], b);
    }
  }

  lemma {:induction false} NoH2(bs: seq<Block>)
    requires forall i :: 0 <= i < |bs| ==> !IsSectionHead(bs[i])
    ensures CountH2(bs) == 0
  {
    if bs != [] {
      NoH2(bs[1..]);
    }
  }

  ghost predicate IsOneSection(s: seq<Block>) {
    s != [] && IsSectionHead(s[0]) && forall j :: 0 < j < |s| ==> !IsSectionHead(s[j])
  }

  ghost predicate AreOneEach(sections: seq<seq<Block>>) {
    forall i :: 0 <= i < |sections| ==> IsOneSection(sections[i])
  }

  lemma OneSectionCounts(s: seq<Block>)
    requires IsOneSection(s)
    ensures CountH2(s) == 1
  {
    NoH2(s[1..]);
  }

  lemma {:induction false} SectionsCount(sections: seq<seq<Block>>)
    requires AreOneEach(sections)
    ensures CountH2(Flatten(sections)) == |sections|
    ensures sections != [] ==> Flatten(sections) != [] && IsSectionHead(Flatten(sections)[0])
  {
    if sections != [] {
      assert IsOneSection(sections[0]);
      OneSectionCounts(sections[0]);
      SectionsCount(sections[1..]);
      CountH2Concat(sections[0], Flatten(sections[1..]));
    }
  }

  /** The sections of a Paper are counted by its h2s. */
  lemma SectionsOf(bs: seq<Block>)
    ensures var start := NextSection(bs, 0);
            AreOneEach(Sections(bs[start..])) && |Sections(bs[start..])| == CountH2(bs) && CountH2(bs[..start]) == 0
  {
    var start := NextSection(bs, 0);
    var sections := Sections(bs[start..]);
    forall i | 0 <= i < |sections|
      ensures IsOneSection(sections[i])
    {
    }
    SectionsCount(sections);
    NoH2(bs[..start]);
    assert bs == bs[..start] + bs[start..];
    CountH2Concat(bs[..start], bs[start..]);
  }

  // -------------------------------------------------------------------------- groups --

  lemma AppendixHolds(index: nat, children: seq<Block>)
    requires children != [] && IsSectionHead(children[0])
    ensures HoldsSections(Appendix(index, children), index) && Appendix(index, children).children == children
  {
    assert FirstHeading(children) == Some(children[0]);
    assert AppendixLabel(index) + ["\U{2014}"] == ["Evidence", "appendix", Numerals.Decimal(index), "\U{2014}"];
  }

  ghost predicate AreSharedFrom(folded: seq<Block>, size: nat, index: nat) {
    && (forall i :: 0 <= i < |folded| ==> HoldsSections(folded[i], index + i))
    && (forall i :: 0 <= i < |folded| - 1 ==> CountH2(folded[i].children) == size)
    && (folded != [] ==> CountH2(folded[|folded| - 1].children) <= size)
  }

  lemma SharedCons(first: Block, rest: seq<Block>, size: nat, index: nat)
    requires HoldsSections(first, index) && rest != [] && AreSharedFrom(rest, size, index + 1)
    requires CountH2(first.children) == size
    ensures AreSharedFrom([first] + rest, size, index)
    ensures ChildrenOf([first] + rest) == first.children + ChildrenOf(rest)
  {
    var all := [first] + rest;
    assert all[1..] == rest;
    forall i | 0 <= i < |all|
      ensures HoldsSections(all[i], index + i)
    {
      if i > 0 {
        assert all[i] == rest[i - 1] && HoldsSections(rest[i - 1], index + 1 + (i - 1));
      }
    }
    forall i | 0 <= i < |all| - 1
      ensures CountH2(all[i].children) == size
    {
      if i > 0 {
        assert all[i] == rest[i - 1];
      }
    }
    assert all[|all| - 1] == rest[|rest| - 1];
  }

  lemma OneGroup(hidden: seq<seq<Block>>, size: nat, index: nat)
    requires AreOneEach(hidden) && 0 < |hidden| <= size
    ensures var folded := [Appendix(index, Flatten(hidden))];
            AreSharedFrom(folded, size, index) && ChildrenOf(folded) == Flatten(hidden)
  {
    var folded := [Appendix(index, Flatten(hidden))];
    SectionsCount(hidden);
    AppendixHolds(index, Flatten(hidden));
    assert folded[1..] == [];
    assert Flatten(hidden) + [] == Flatten(hidden);
  }

  lemma FirstGroup(here: seq<seq<Block>>, rest: seq<Block>, size: nat, index: nat)
    requires AreOneEach(here) && |here| == size > 0 && rest != [] && AreSharedFrom(rest, size, index + 1)
    ensures var folded := [Appendix(index, Flatten(here))] + rest;
            AreSharedFrom(folded, size, index) && ChildrenOf(folded) == Flatten(here) + ChildrenOf(rest)
  {
    SectionsCount(here);
    AppendixHolds(index, Flatten(here));
    SharedCons(Appendix(index, Flatten(here)), rest, size, index);
  }

  lemma {:induction false} GroupIsShared(hidden: seq<seq<Block>>, size: nat, index: nat)
    requires size > 0 && AreOneEach(hidden) && hidden != []
    ensures var folded := Group(hidden, size, index);
            folded != [] && AreSharedFrom(folded, size, index) && ChildrenOf(folded) == Flatten(hidden)
    decreases |hidden|
  {
    if |hidden| <= size {
      OneGroup(hidden, size, index);
    } else {
      var here, later := hidden[..size], hidden[size..];
      assert hidden == here + later;
      FlattenConcat(here, later);
      GroupIsShared(later, size, index + 1);
      FirstGroup(here, Group(later, size, index + 1), size, index);
    }
  }

  lemma ShareIs(n: nat)
    requires n > 0
    ensures IsShare(ChunkSize(n), n)
  {
    var count := if n < MAX_APPENDICES then n else MAX_APPENDICES;
    if n < 4 {
      assert ChunkSize(n) == 1;
    } else {
      assert ChunkSize(n) == (n + 3) / 4;
    }
  }

  // ------------------------------------------------------------------------ the fold --

  lemma PlanIff(bs: seq<Block>)
    ensures FoldPlan(bs).Some? <==> NeedsFolding(bs)
  {
    SectionsOf(bs);
  }

  /** Where the third section starts. */
  lemma ThirdSection(bs: seq<Block>, start: nat, sections: seq<seq<Block>>) returns (p: nat)
    requires start <= |bs| && CountH2(bs[..start]) == 0 && Flatten(sections) == bs[start..]
    requires AreOneEach(sections) && |sections| > 2
    ensures p < |bs| && IsSectionHead(bs[p]) && CountH2(bs[..p]) == 2
    ensures bs[..p] == bs[..start] + Flatten(sections[..2]) && bs[p..] == Flatten(sections[2..])
  {
    var visible, hidden := sections[..2], sections[2..];
    assert sections == visible + hidden;
    FlattenConcat(visible, hidden);
    SectionsCount(visible);
    SectionsCount(hidden);
    p := start + |Flatten(visible)|;
    SplitTwice(bs, start, Flatten(visible), Flatten(hidden));
    CountH2Concat(bs[..start], Flatten(visible));
    assert bs[p] == bs[p..][0];
  }

  lemma SplitTwice<T>(s: seq<T>, k: nat, a: seq<T>, b: seq<T>)
    requires k <= |s| && s[k..] == a + b
    ensures k + |a| <= |s| && s[..k + |a|] == s[..k] + a && s[k + |a|..] == b
  {
    assert |s| == k + |a| + |b|;
    assert s == s[..k] + s[k..];
    assert s[k + |a|..] == s[k..][|a|..];
  }

  /** The last section of what is hidden. */
  lemma LastIs(bs: seq<Block>, p: nat, hidden: seq<seq<Block>>) returns (l: nat)
    requires p <= |bs| && bs[p..] == Flatten(hidden) && AreOneEach(hidden) && hidden != []
    ensures IsLastSection(bs, p, l)
    ensures bs[p..l] == Flatten(hidden[..|hidden| - 1]) && bs[l..] == hidden[|hidden| - 1] == Flatten(hidden[|hidden| - 1..])
    ensures |hidden| > 1 ==> p < l
  {
    var k := |hidden| - 1;
    var before, last := hidden[..k], hidden[k..];
    assert hidden == before + last && last == [hidden[k]] && last[1..] == [];
    FlattenConcat(before, last);
    SectionsCount(before);
    assert IsOneSection(hidden[k]);
    OneSectionCounts(hidden[k]);
    assert Flatten(last) == hidden[k] by {
      assert hidden[k] + [] == hidden[k];
    }
    SplitTwice(bs, p, Flatten(before), hidden[k]);
    l := p + |Flatten(before)|;
    assert bs[l] == bs[l..][0];
    assert bs[p..l] == bs[p..][..l - p];
  }

  /** Where the hidden part ends. */
  lemma HiddenEnds(bs: seq<Block>, p: nat, hidden: seq<seq<Block>>) returns (e: nat)
    requires p <= |bs| && bs[p..] == Flatten(hidden) && AreOneEach(hidden) && hidden != []
    ensures var n := HiddenCount(hidden);
            p < e <= |bs| && bs[p..e] == Flatten(hidden[..n]) && bs[e..] == Flatten(hidden[n..])
    ensures EndsRight(bs, p, e)
  {
    var n := HiddenCount(hidden);
    var l := LastIs(bs, p, hidden);
    SectionsCount(hidden);
    assert n == |hidden| - 1 <==> StaysShort(bs[p..], bs[l..]);
    if StaysShort(bs[p..], bs[l..]) {
      e := l;
    } else {
      e := |bs|;
      assert hidden[..n] == hidden && hidden[n..] == [];
      assert bs[p..|bs|] == bs[p..];
    }
  }

  /** What a folded Paper looks like. */
  lemma FoldLooks(bs: seq<Block>)
    requires NeedsFolding(bs)
    ensures exists p, e, folded :: IsFoldedAt(bs, p, e, folded, FoldTail(bs))
  {
    var p, hidden := PlanAt(bs);
    var e := HiddenEnds(bs, p, hidden);
    FoldedFrom(bs, p, e, hidden, FoldTail(bs));
  }

  lemma PlanAt(bs: seq<Block>) returns (p: nat, hidden: seq<seq<Block>>)
    requires NeedsFolding(bs)
    ensures p < |bs| && IsSectionHead(bs[p]) && CountH2(bs[..p]) == 2
    ensures AreOneEach(hidden) && hidden != [] && bs[p..] == Flatten(hidden)
    ensures var n := HiddenCount(hidden);
            FoldTail(bs) == bs[..p] + Group(hidden[..n], ChunkSize(n), 1) + Flatten(hidden[n..])
  {
    PlanIff(bs);
    SectionsOf(bs);
    var start := NextSection(bs, 0);
    var sections := Sections(bs[start..]);
    p := ThirdSection(bs, start, sections);
    hidden := sections[2..];
    OneEachBehind(sections);
    PlanIs(bs, start, sections);
  }

  lemma OneEachBehind(sections: seq<seq<Block>>)
    requires AreOneEach(sections) && |sections| > 2
    ensures AreOneEach(sections[2..]) && sections[2..] != []
  {
    forall i | 0 <= i < |sections[2..]|
      ensures IsOneSection(sections[2..][i])
    {
      assert IsOneSection(sections[i + 2]);
    }
  }

  lemma FoldedFrom(bs: seq<Block>, p: nat, e: nat, hidden: seq<seq<Block>>, out: seq<Block>)
    requires p < e <= |bs| && IsSectionHead(bs[p]) && CountH2(bs[..p]) == 2 && EndsRight(bs, p, e)
    requires AreOneEach(hidden) && hidden != []
    requires var n := HiddenCount(hidden);
             && bs[p..e] == Flatten(hidden[..n]) && bs[e..] == Flatten(hidden[n..])
             && out == bs[..p] + Group(hidden[..n], ChunkSize(n), 1) + Flatten(hidden[n..])
    ensures exists p, e, folded :: IsFoldedAt(bs, p, e, folded, out)
  {
    var n := HiddenCount(hidden);
    var folded := Group(hidden[..n], ChunkSize(n), 1);
    HiddenIsShared(hidden[..n], folded);
    assert IsFoldedAt(bs, p, e, folded, out);
  }

  lemma HiddenIsShared(hidden: seq<seq<Block>>, folded: seq<Block>)
    requires AreOneEach(hidden) && hidden != [] && folded == Group(hidden, ChunkSize(|hidden|), 1)
    ensures ChildrenOf(folded) == Flatten(hidden) && SharesAlike(folded, CountH2(Flatten(hidden)))
  {
    GroupIsShared(hidden, ChunkSize(|hidden|), 1);
    SectionsCount(hidden);
    ShareIs(|hidden|);
    SharedFromOne(folded, ChunkSize(|hidden|));
  }

  lemma SharedFromOne(folded: seq<Block>, size: nat)
    requires folded != [] && AreSharedFrom(folded, size, 1)
    ensures AreShared(folded, size)
  {
    forall i | 0 <= i < |folded|
      ensures HoldsSections(folded[i], i + 1)
    {
      assert HoldsSections(folded[i], 1 + i);
    }
  }

  lemma PlanIs(bs: seq<Block>, start: nat, sections: seq<seq<Block>>)
    requires FoldPlan(bs).Some? && start == NextSection(bs, 0) && sections == Sections(bs[start..]) && |sections| > 2
    ensures var hidden := sections[2..];
            var n := HiddenCount(hidden);
            FoldTail(bs) == bs[..start] + Flatten(sections[..2]) + Group(hidden[..n], ChunkSize(n), 1) + Flatten(hidden[n..])
  {
  }

  /** When a Paper without generated appendices is folded, and into what.  It comes back
      as it is exactly when it is short enough or has at most two sections; otherwise all
      from the third h2 on is hidden in appendices of equally many sections, except a
      short last section beside others. */
  lemma FoldsIff(bs: seq<Block>)
    requires NoneGenerated(bs)
    ensures CollapseEvidenceAppendices(bs) == bs <==> !NeedsFolding(bs)
    ensures NeedsFolding(bs) ==> exists p, e, folded :: IsFoldedAt(bs, p, e, folded, CollapseEvidenceAppendices(bs))
  {
    UnwrapPlain(bs);
    CollapseCases(bs);
    PlanIff(bs);
    if NeedsFolding(bs) {
      FoldLooks(bs);
      PlanMakesGenerated(bs);
    }
  }

  lemma PlanMakesGenerated(bs: seq<Block>)
    requires NoneGenerated(bs) && FoldPlan(bs).Some?
    ensures FoldTail(bs) != bs
  {
    PlanParts(bs);
    var plan := FoldPlan(bs).value;
    PartsArePlain(bs, plan.front, AppendicesOf(plan), plan.back);
    GeneratedOfJoin(plan.front, AppendicesOf(plan), plan.back);
    UnwrapPlain(bs);
  }

  // ------------------------------------------------------------------------- healing --

  ghost predicate IsFirstHeading(bs: seq<Block>, k: nat) {
    k < |bs| && IsHeading(bs[k]) && forall i :: 0 <= i < k ==> !IsHeading(bs[i])
  }

  /** A summary numbers the appendix and quotes the first heading among its children. */
  ghost predicate IsSummary(summary: Prose, number: nat, children: seq<Block>) {
    var start := ["Evidence", "appendix", Numerals.Decimal(number)];
    && ((forall i :: 0 <= i < |children| ==> !IsHeading(children[i])) ==> summary == start)
    && forall k: nat :: IsFirstHeading(children, k) ==>
         summary == start + ["\U{2014}"] + FirstWords(HeadingText(children[k]), 14)
  }

  lemma {:induction false} FirstHeadingIs(bs: seq<Block>)
    ensures FirstHeading(bs).None? <==> forall i :: 0 <= i < |bs| ==> !IsHeading(bs[i])
    ensures forall k: nat :: IsFirstHeading(bs, k) ==> FirstHeading(bs) == Some(bs[k])
  {
    if bs != [] && !IsHeading(bs[0]) {
      FirstHeadingIs(bs[1..]);
      assert forall i :: 0 < i < |bs| ==> bs[i] == bs[1..][i - 1];
      forall k: nat | IsFirstHeading(bs, k)
        ensures FirstHeading(bs) == Some(bs[k])
      {
        assert IsFirstHeading(bs[1..], k - 1);
      }
    }
  }

  lemma SummaryIs(number: nat, children: seq<Block>)
    ensures IsSummary(AppendixSummary(number, children), number, children)
  {
    FirstHeadingIs(children);
    assert AppendixLabel(number) == ["Evidence", "appendix", Numerals.Decimal(number)];
  }

  /** Past the fourth, with an array of children that is short. */
  predicate IsOpenedAt(b: Block, rank: nat) {
    rank > 4 && b.Block? && !b.childless && |VisibleAll(b.children)| <= 700
  }

  /** What becomes of a top-level block when the Paper is healed; `rank` counts the
      generated appendices up to it. */
  ghost predicate IsHealed(b: Block, rank: nat, part: seq<Block>) {
    if !IsGeneratedAppendix(b) then part == [b]
    else if IsOpenedAt(b, rank) then part == b.children
    else
      && |part| == 1 && part[0].Block? && IsSummary(part[0].summary, rank, b.children)
      && part[0] == b.(id := Some("epb-evidence-appendix-" + Numerals.Decimal(rank)), summary := part[0].summary)
  }

  function PartsOf(bs: seq<Block>, index: nat, unwrap: bool): (parts: seq<seq<Block>>)
    ensures |parts| == |bs|
  {
    if bs == [] then []
    else if !IsGeneratedAppendix(bs[0]) then [[bs[0]]] + PartsOf(bs[1..], index, unwrap)
    else
      [if IsDropped(bs[0], index, unwrap) then bs[0].children else [Normalised(bs[0], index + 1)]]
      + PartsOf(bs[1..], index + 1, unwrap)
  }

  lemma {:induction false} PartsMake(bs: seq<Block>, index: nat, unwrap: bool)
    ensures Flatten(PartsOf(bs, index, unwrap)) == Renumber(bs, index, unwrap)
  {
    if bs != [] {
      var next := if IsGeneratedAppendix(bs[0]) then index + 1 else index;
      PartsMake(bs[1..], next, unwrap);
      var parts := PartsOf(bs, index, unwrap);
      assert parts[1..] == PartsOf(bs[1..], next, unwrap);
    }
  }

  lemma {:induction false} PartsAreHealed(bs: seq<Block>, index: nat, unwrap: bool, i: nat)
    requires i < |bs| && (index + |Generated(bs)| > MAX_APPENDICES ==> unwrap)
    ensures var rank := index + |Generated(bs[..i + 1])|;
            IsHealed(bs[i], rank, PartsOf(bs, index, unwrap)[i])
  {
    var next := if IsGeneratedAppendix(bs[0]) then index + 1 else index;
    var parts := PartsOf(bs, index, unwrap);
    if i > 0 {
      assert bs[..i + 1][0] == bs[0] && bs[..i + 1][1..] == bs[1..][..i];
      PartsAreHealed(bs[1..], next, unwrap, i - 1);
      assert bs[1..][..i - 1 + 1] == bs[1..][..i];
      assert parts[i] == PartsOf(bs[1..], next, unwrap)[i - 1];
    } else {
      assert bs[..1] == [bs[0]] && bs[..1][1..] == [];
      if IsGeneratedAppendix(bs[0]) {
        GeneratedCons(bs);
        HeadIsHealed(bs[0], index, unwrap);
      }
    }
  }

  lemma HeadIsHealed(b: Block, index: nat, unwrap: bool)
    requires IsGeneratedAppendix(b) && (index + 1 > MAX_APPENDICES ==> unwrap)
    ensures IsHealed(b, index + 1, if IsDropped(b, index, unwrap) then b.children else [Normalised(b, index + 1)])
  {
    SummaryIs(index + 1, b.children);
  }

  /** When a Paper has generated appendices: every other block stays, an appendix past the
      fourth that is short is opened in place, and the rest are renumbered by rank and
      quote their first heading. */
  lemma HealsLike(bs: seq<Block>)
    requires !NoneGenerated(bs)
    ensures exists parts: seq<seq<Block>> ::
              && |parts| == |bs| && CollapseEvidenceAppendices(bs) == Flatten(parts)
              && forall i :: 0 <= i < |bs| ==> IsHealed(bs[i], |Generated(bs[..i + 1])|, parts[i])
  {
    if Generated(bs) == [] {
      NothingGenerated(bs);
    }
    CollapseCases(bs);
    var unwrap := HasArtifact(Generated(bs));
    var parts := PartsOf(bs, 0, unwrap);
    PartsMake(bs, 0, unwrap);
    forall i | 0 <= i < |bs|
      ensures IsHealed(bs[i], |Generated(bs[..i + 1])|, parts[i])
    {
      PartsAreHealed(bs, 0, unwrap, i);
    }
  }
}
