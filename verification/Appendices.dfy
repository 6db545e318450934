/** `_collapse_evidence_appendices`: the tail of an overlong Paper is folded into at
    most four numbered expandables. */
module Appendices {
  import opened Wrappers
  import opened Subsequences
  import opened Words
  import opened PaperBlocks
  import opened QualityGates
  import Numerals

  const MAX_APPENDICES: nat := 4
  const MAX_TAIL_WORDS: nat := 700
  const SUMMARY_WORDS: nat := 14
  const VISIBLE_SECTIONS: nat := 2
  const APPENDIX_PREFIX := "epb-evidence-appendix-"

  predicate IsGeneratedAppendix(b: Block) {
    b.Block? && b.kind == Expandable
    && ((b.id.Some? && APPENDIX_PREFIX <= b.id.value) || AppendixNumber(b.summary).Some?)
  }

  ghost predicate NoneGenerated(bs: seq<Block>) {
    forall b :: b in bs ==> !IsGeneratedAppendix(b)
  }

  function HeadingText(b: Block): Prose
    requires b.Block?
  {
    if b.text != [] then b.text else Join(b.content)
  }

  function Shorten(ws: Prose): Prose {
    if |ws| <= SUMMARY_WORDS then ws else ws[..SUMMARY_WORDS]
  }

  function AppendixId(index: nat): string {
    APPENDIX_PREFIX + Numerals.Decimal(index)
  }

  function AppendixLabel(index: nat): Prose {
    ["Evidence", "appendix", Numerals.Decimal(index)]
  }

  function FirstHeading(bs: seq<Block>): Option<Block> {
    if bs == [] then None else if IsHeading(bs[0]) then Some(bs[0]) else FirstHeading(bs[1..])
  }

  /** Summary of an appendix holding these blocks. */
  function AppendixSummary(index: nat, children: seq<Block>): Prose {
    match FirstHeading(children)
    case Some(h) => if h.Block? then AppendixLabel(index) + ["\U{2014}"] + Shorten(HeadingText(h)) else AppendixLabel(index)
    case None => AppendixLabel(index)
  }

  // -------------------------------------------- appendices of an earlier pass --

  function Normalised(b: Block, index: nat): (r: Block)
    requires b.Block?
    ensures r.Block?
  {
    b.(id := Some(AppendixId(index)), summary := AppendixSummary(index, b.children))
  }

  function Generated(bs: seq<Block>): seq<Block> {
    if bs == [] then [] else (if IsGeneratedAppendix(bs[0]) then [bs[0]] else []) + Generated(bs[1..])
  }

  function IdText(b: Block): string {
    if b.Block? && b.id.Some? then b.id.value else ""
  }

  function HasRepeat<T(==)>(s: seq<T>): bool {
    exists i, j | 0 <= i < j < |s| :: s[i] == s[j]
  }

  /** Earlier passes left repeated or too many appendices. */
  predicate HasArtifact(generated: seq<Block>) {
    || HasRepeat(seq(|generated|, i requires 0 <= i < |generated| => IdText(generated[i])))
    || HasRepeat(AppendixNumbers(generated))
    || |generated| > MAX_APPENDICES
  }

  /** Short enough to be unwrapped; an appendix without an array of children never is. */
  predicate IsLight(b: Block) {
    b.Block? && !b.childless && |VisibleAll(b.children)| <= MAX_TAIL_WORDS
  }

  /** A light appendix past the fourth, found among artifacts, is opened for good. */
  predicate IsDropped(b: Block, index: nat, unwrap: bool) {
    unwrap && index + 1 > MAX_APPENDICES && IsLight(b)
  }

  function Renumber(bs: seq<Block>, index: nat, unwrap: bool): seq<Block> {
    if bs == [] then []
    else if !IsGeneratedAppendix(bs[0]) then [bs[0]] + Renumber(bs[1..], index, unwrap)
    else if IsDropped(bs[0], index, unwrap) then bs[0].children + Renumber(bs[1..], index + 1, unwrap)
    else
      [Normalised(bs[0], index + 1)] + Renumber(bs[1..], index + 1, unwrap)
  }

  function RepairExistingAppendices(bs: seq<Block>): seq<Block> {
    if Generated(bs) == [] then bs else Renumber(bs, 0, HasArtifact(Generated(bs)))
  }

  // ------------------------------------------------------------ the chunking --

  predicate IsSectionHead(b: Block) {
    IsHeading(b) && IsLevelTwo(b.level)
  }

  /** Index of the first section head at or after `from`, else the length. */
  function NextSection(bs: seq<Block>, from: nat): (k: nat)
    requires from <= |bs|
    ensures from <= k <= |bs|
    ensures forall i :: from <= i < k ==> !IsSectionHead(bs[i])
    ensures k < |bs| ==> IsSectionHead(bs[k])
    decreases |bs| - from
  {
    if from == |bs| || IsSectionHead(bs[from]) then from else NextSection(bs, from + 1)
  }

  /** The sections of a sequence that opens with a section head. */
  function Sections(bs: seq<Block>): (r: seq<seq<Block>>)
    requires bs != [] ==> IsSectionHead(bs[0])
    ensures Flatten(r) == bs
    ensures forall i :: 0 <= i < |r| ==> r[i] != [] && IsSectionHead(r[i][0])
    ensures forall i, j :: 0 <= i < |r| && 0 < j < |r[i]| ==> !IsSectionHead(r[i][j])
    decreases |bs|
  {
    if bs == [] then []
    else
      var k := NextSection(bs, 1);
      var rest := Sections(bs[k..]);
      assert ([bs[..k]] + rest)[1..] == rest;
      [bs[..k]] + rest
  }

  function Flatten(sections: seq<seq<Block>>): seq<Block> {
    if sections == [] then [] else sections[0] + Flatten(sections[1..])
  }

  lemma {:induction false} FlattenConcat(a: seq<seq<Block>>, b: seq<seq<Block>>)
    ensures Flatten(a + b) == Flatten(a) + Flatten(b)
  {
    if a == [] {
      assert a + b == b;
    } else {
      Peel(a, b);
      FlattenConcat(a[1..], b);
      Assoc(a[0], Flatten(a[1..]), Flatten(b));
    }
  }

  /** The Paper is too long to be read through at the top level. */
  predicate IsOverloaded(bs: seq<Block>) {
    |VisibleAll(bs)| > MAX_PRIMARY_WORDS || |bs| > MAX_TOP_LEVEL_BLOCKS || CountHeadings(bs) > MAX_TOP_LEVEL_HEADINGS
  }

  function Appendix(index: nat, children: seq<Block>): (b: Block)
    ensures b.Block?
  {
    var b := Blank(Expandable);
    b.(id := Some(AppendixId(index)), summary := AppendixSummary(index, children), children := children,
       childless := false)
  }

  /** Consecutive sections, `size` to an appendix, numbered from `index`. */
  function Group(hidden: seq<seq<Block>>, size: nat, index: nat): seq<Block>
    requires size > 0
    decreases |hidden|
  {
    if hidden == [] then []
    else if |hidden| <= size then [Appendix(index, Flatten(hidden))]
    else [Appendix(index, Flatten(hidden[..size]))] + Group(hidden[size..], size, index + 1)
  }

  /** The last section stays in view when it is short and not the only one hidden. */
  function HiddenCount(hidden: seq<seq<Block>>): (n: nat)
    requires hidden != []
    ensures 0 < n <= |hidden|
  {
    if |hidden| > 1 && |VisibleAll(hidden[|hidden| - 1])| <= MAX_TAIL_WORDS then |hidden| - 1 else |hidden|
  }

  function ChunkSize(n: nat): (size: nat)
    requires n > 0
    ensures size > 0
    ensures var count := if n < MAX_APPENDICES then n else MAX_APPENDICES; count * size >= n
  {
    var count := if n < MAX_APPENDICES then n else MAX_APPENDICES;
    (n + count - 1) / count
  }

  /** How an overloaded Paper is folded: what stays in front, the sections to hide, and
      what stays at the end. */
  datatype Plan = Plan(front: seq<Block>, hidden: seq<seq<Block>>, back: seq<Block>)

  function FoldPlan(bs: seq<Block>): (plan: Option<Plan>)
    ensures plan.Some? ==> plan.value.hidden != []
  {
    var start := NextSection(bs, 0);
    var sections := Sections(bs[start..]);
    if !IsOverloaded(bs) || |sections| <= VISIBLE_SECTIONS then None
    else
      var hidden := sections[VISIBLE_SECTIONS..];
      var n := HiddenCount(hidden);
      Some(Plan(bs[..start] + Flatten(sections[..VISIBLE_SECTIONS]), hidden[..n], Flatten(hidden[n..])))
  }

  function AppendicesOf(plan: Plan): seq<Block>
    requires plan.hidden != []
  {
    Group(plan.hidden, ChunkSize(|plan.hidden|), 1)
  }

  function FoldTail(bs: seq<Block>): seq<Block> {
    match FoldPlan(bs)
    case None => bs
    case Some(plan) => plan.front + AppendicesOf(plan) + plan.back
  }

  /** `_collapse_evidence_appendices`. */
  function CollapseEvidenceAppendices(bs: seq<Block>): seq<Block> {
    var repaired := RepairExistingAppendices(bs);
    if Generated(repaired) != [] then repaired else FoldTail(repaired)
  }

  // ------------------------------------------------------------------ unwrapping --

  /** The document with every generated expandable opened in place. */
  function Unwrap(bs: seq<Block>): seq<Block> {
    if bs == [] then [] else Opened(bs[0]) + Unwrap(bs[1..])
  }

  function Opened(b: Block): seq<Block> {
    if IsGeneratedAppendix(b) then b.children else [b]
  }

  lemma {:induction false} UnwrapConcat(a: seq<Block>, b: seq<Block>)
    ensures Unwrap(a + b) == Unwrap(a) + Unwrap(b)
  {
    if a == [] {
      assert a + b == b;
    } else {
      Peel(a, b);
      UnwrapConcat(a[1..], b);
      Assoc(Opened(a[0]), Unwrap(a[1..]), Unwrap(b));
    }
  }

  lemma {:induction false} UnwrapPlain(bs: seq<Block>)
    requires NoneGenerated(bs)
    ensures Unwrap(bs) == bs && Generated(bs) == []
  {
    if bs != [] {
      UnwrapPlain(bs[1..]);
    }
  }

  lemma AppendixIsGenerated(index: nat, children: seq<Block>)
    ensures IsGeneratedAppendix(Appendix(index, children))
    ensures AppendixNumber(Appendix(index, children).summary) == Some(index)
  {
    var summary := AppendixSummary(index, children);
    var d := Numerals.Decimal(index);
    assert summary[0] == "Evidence" && summary[1] == "appendix" && summary[2] == d;
    assert DigitRun(d) == |d|;
    assert d[..|d|] == d;
    Numerals.ValueOfDecimal(index);
    assert APPENDIX_PREFIX <= AppendixId(index);
  }

  lemma UnwrapCons(index: nat, children: seq<Block>, rest: seq<Block>)
    ensures Unwrap([Appendix(index, children)] + rest) == children + Unwrap(rest)
  {
    var all := [Appendix(index, children)] + rest;
    AppendixIsGenerated(index, children);
    assert all[0] == Appendix(index, children) && all[1..] == rest;
  }

  lemma OneFewer(count: nat, size: nat, n: nat)
    requires count * size >= n > size
    ensures count >= 1 && (count - 1) * size >= n - size
  {
  }

  /** At most `count` groups. */
  lemma {:induction false} GroupsAreFew(hidden: seq<seq<Block>>, size: nat, index: nat, count: nat)
    requires size > 0 && count * size >= |hidden|
    ensures |Group(hidden, size, index)| <= count
    decreases |hidden|
  {
    if hidden == [] {
    } else if |hidden| <= size {
      assert count != 0;
    } else {
      OneFewer(count, size, |hidden|);
      GroupsAreFew(hidden[size..], size, index + 1, count - 1);
    }
  }

  /** Groups hold the sections in order. */
  lemma {:induction false} GroupsUnwrap(hidden: seq<seq<Block>>, size: nat, index: nat)
    requires size > 0
    ensures Unwrap(Group(hidden, size, index)) == Flatten(hidden)
    ensures hidden != [] ==> Group(hidden, size, index) != []
    decreases |hidden|
  {
    if hidden == [] {
    } else if |hidden| <= size {
      UnwrapCons(index, Flatten(hidden), []);
    } else {
      GroupsUnwrap(hidden[size..], size, index + 1);
      UnwrapCons(index, Flatten(hidden[..size]), Group(hidden[size..], size, index + 1));
      assert hidden == hidden[..size] + hidden[size..];
      FlattenConcat(hidden[..size], hidden[size..]);
    }
  }

  lemma GroupIsPartition(hidden: seq<seq<Block>>, size: nat, index: nat, count: nat)
    requires size > 0 && count * size >= |hidden|
    ensures Unwrap(Group(hidden, size, index)) == Flatten(hidden)
    ensures |Group(hidden, size, index)| <= count
    ensures hidden != [] ==> Group(hidden, size, index) != []
  {
    GroupsUnwrap(hidden, size, index);
    GroupsAreFew(hidden, size, index, count);
  }

  /** The appendix numbered `index`, holding at least one whole section. */
  ghost predicate IsAppendix(b: Block, index: nat) {
    b.Block? && b == Appendix(index, b.children) && b.children != [] && IsSectionHead(b.children[0])
  }

  ghost predicate AreAppendices(folded: seq<Block>, index: nat) {
    forall i :: 0 <= i < |folded| ==> IsAppendix(folded[i], index + i)
  }

  ghost predicate AreSections(sections: seq<seq<Block>>) {
    forall i :: 0 <= i < |sections| ==> sections[i] != [] && IsSectionHead(sections[i][0])
  }

  lemma AppendixOfSections(sections: seq<seq<Block>>, index: nat)
    requires AreSections(sections) && sections != []
    ensures IsAppendix(Appendix(index, Flatten(sections)), index)
  {
    assert Flatten(sections)[0] == sections[0][0];
  }

  lemma AppendicesCons(first: Block, rest: seq<Block>, index: nat)
    requires IsAppendix(first, index) && AreAppendices(rest, index + 1)
    ensures AreAppendices([first] + rest, index)
  {
    var all := [first] + rest;
    forall i | 0 <= i < |all|
      ensures IsAppendix(all[i], index + i)
    {
      if i > 0 {
        assert all[i] == rest[i - 1] && IsAppendix(rest[i - 1], index + 1 + (i - 1));
      }
    }
  }

  lemma {:induction false} GroupsAreAppendices(hidden: seq<seq<Block>>, size: nat, index: nat)
    requires size > 0 && AreSections(hidden)
    ensures AreAppendices(Group(hidden, size, index), index)
    decreases |hidden|
  {
    if hidden == [] {
    } else if |hidden| <= size {
      AppendixOfSections(hidden, index);
    } else {
      AppendixOfSections(hidden[..size], index);
      GroupsAreAppendices(hidden[size..], size, index + 1);
      AppendicesCons(Appendix(index, Flatten(hidden[..size])), Group(hidden[size..], size, index + 1), index);
    }
  }

  /** The parts of a folded Paper. */
  ghost predicate FoldsInto(bs: seq<Block>, front: seq<Block>, folded: seq<Block>, back: seq<Block>)
  {
    && FoldTail(bs) == front + folded + back
    && bs == front + Unwrap(folded) + back
    && 0 < |folded| <= MAX_APPENDICES
    && AreAppendices(folded, 1)
    && (bs != [] && !IsSectionHead(bs[0]) ==> front != [])
  }

  /** Without section heads there is nothing to fold. */
  lemma NoSectionsNoPlan(bs: seq<Block>)
    requires forall i :: 0 <= i < |bs| ==> !IsSectionHead(bs[i])
    ensures FoldPlan(bs).None?
  {
    assert NextSection(bs, 0) == |bs|;
    assert bs[|bs|..] == [];
  }

  /** A plan hides whole sections in between one and four appendices. */
  lemma PlanParts(bs: seq<Block>)
    requires FoldPlan(bs).Some?
    ensures var plan := FoldPlan(bs).value;
            FoldsInto(bs, plan.front, AppendicesOf(plan), plan.back)
  {
    var start := NextSection(bs, 0);
    var sections := Sections(bs[start..]);
    var hidden := sections[VISIBLE_SECTIONS..];
    var n := HiddenCount(hidden);
    var size := ChunkSize(n);
    GroupIsPartition(hidden[..n], size, 1, if n < MAX_APPENDICES then n else MAX_APPENDICES);
    GroupsAreAppendices(hidden[..n], size, 1);
    Reassemble(bs, start, sections, n);
  }

  lemma FoldParts(bs: seq<Block>) returns (front: seq<Block>, folded: seq<Block>, back: seq<Block>)
    requires FoldTail(bs) != bs
    ensures FoldsInto(bs, front, folded, back)
  {
    var plan := FoldPlan(bs).value;
    PlanParts(bs);
    front, folded, back := plan.front, AppendicesOf(plan), plan.back;
  }

  /** The four stretches of a Paper put together again. */
  lemma Reassemble(bs: seq<Block>, start: nat, sections: seq<seq<Block>>, n: nat)
    requires start <= |bs| && Flatten(sections) == bs[start..]
    requires |sections| >= VISIBLE_SECTIONS && n <= |sections| - VISIBLE_SECTIONS
    ensures var visible, hidden := sections[..VISIBLE_SECTIONS], sections[VISIBLE_SECTIONS..];
            bs == bs[..start] + Flatten(visible) + Flatten(hidden[..n]) + Flatten(hidden[n..])
  {
    var visible, hidden := sections[..VISIBLE_SECTIONS], sections[VISIBLE_SECTIONS..];
    var v, h, t := Flatten(visible), Flatten(hidden[..n]), Flatten(hidden[n..]);
    assert sections == visible + hidden && hidden == hidden[..n] + hidden[n..];
    FlattenConcat(visible, hidden);
    FlattenConcat(hidden[..n], hidden[n..]);
    assert bs == bs[..start] + bs[start..];
    FourParts(bs[..start], v, h, t);
  }

  lemma FourParts<T>(a: seq<T>, v: seq<T>, h: seq<T>, t: seq<T>)
    ensures a + (v + (h + t)) == a + v + h + t
  {
  }

  /** Every generated expandable opened, those inside others too. */
  function Bare(bs: seq<Block>): seq<Block> {
    if bs == [] then [] else BareOf(bs[0]) + Bare(bs[1..])
  }

  function BareOf(b: Block): seq<Block> {
    if IsGeneratedAppendix(b) then Bare(b.children) else [b]
  }

  lemma {:induction false} BareConcat(a: seq<Block>, b: seq<Block>)
    ensures Bare(a + b) == Bare(a) + Bare(b)
  {
    if a == [] {
      assert a + b == b;
    } else {
      Peel(a, b);
      BareConcat(a[1..], b);
      Assoc(BareOf(a[0]), Bare(a[1..]), Bare(b));
    }
  }

  lemma {:induction false} BareOfGenerated(bs: seq<Block>)
    requires forall b :: b in bs ==> IsGeneratedAppendix(b)
    ensures Bare(bs) == Bare(Unwrap(bs))
  {
    if bs != [] {
      BareOfGenerated(bs[1..]);
      BareConcat(Opened(bs[0]), Unwrap(bs[1..]));
    }
  }

  lemma {:induction false} BarePlain(bs: seq<Block>)
    requires NoneGenerated(bs)
    ensures Bare(bs) == bs
  {
    if bs != [] {
      BarePlain(bs[1..]);
    }
  }

  lemma NormalisedIsGenerated(b: Block, index: nat)
    requires IsGeneratedAppendix(b)
    ensures IsGeneratedAppendix(Normalised(b, index))
    ensures AppendixNumberOf(Normalised(b, index)) == [index]
  {
    AppendixIsGenerated(index, b.children);
  }

  lemma BareCons(first: Block, rest: seq<Block>)
    ensures Bare([first] + rest) == BareOf(first) + Bare(rest)
  {
    assert ([first] + rest)[1..] == rest;
  }

  lemma {:induction false} RenumberConserves(bs: seq<Block>, index: nat, unwrap: bool)
    ensures Bare(Renumber(bs, index, unwrap)) == Bare(bs)
  {
    if bs != [] {
      if !IsGeneratedAppendix(bs[0]) {
        RenumberConserves(bs[1..], index, unwrap);
        BareCons(bs[0], Renumber(bs[1..], index, unwrap));
      } else {
        var rest := Renumber(bs[1..], index + 1, unwrap);
        RenumberConserves(bs[1..], index + 1, unwrap);
        if IsDropped(bs[0], index, unwrap) {
          BareConcat(bs[0].children, rest);
        } else {
          NormalisedIsGenerated(bs[0], index + 1);
          BareCons(Normalised(bs[0], index + 1), rest);
        }
      }
    }
  }

  /** The first appendix is never dropped. */
  lemma {:induction false} RenumberKeepsSome(bs: seq<Block>, unwrap: bool)
    requires Generated(bs) != []
    ensures Generated(Renumber(bs, 0, unwrap)) != []
  {
    var out := Renumber(bs, 0, unwrap);
    if IsGeneratedAppendix(bs[0]) {
      NormalisedIsGenerated(bs[0], 1);
      assert out[0] == Normalised(bs[0], 1);
    } else {
      RenumberKeepsSome(bs[1..], unwrap);
      assert out[1..] == Renumber(bs[1..], 0, unwrap);
    }
  }

  /** A Paper is either healed or folded. */
  lemma CollapseCases(bs: seq<Block>)
    ensures Generated(bs) == [] ==> NoneGenerated(bs) && CollapseEvidenceAppendices(bs) == FoldTail(bs)
    ensures Generated(bs) != [] ==> CollapseEvidenceAppendices(bs) == Renumber(bs, 0, HasArtifact(Generated(bs)))
  {
    if Generated(bs) != [] {
      RenumberKeepsSome(bs, HasArtifact(Generated(bs)));
    } else {
      NothingGenerated(bs);
    }
  }

  lemma {:induction false} NothingGenerated(bs: seq<Block>)
    requires Generated(bs) == []
    ensures NoneGenerated(bs)
  {
    if bs != [] {
      NothingGenerated(bs[1..]);
    }
  }

  lemma FoldConserves(bs: seq<Block>)
    requires NoneGenerated(bs)
    ensures Unwrap(FoldTail(bs)) == bs && Bare(FoldTail(bs)) == bs
  {
    UnwrapPlain(bs);
    BarePlain(bs);
    if FoldTail(bs) != bs {
      var front, folded, back := FoldParts(bs);
      PartsArePlain(bs, front, folded, back);
      UnwrapPlain(front);
      UnwrapPlain(back);
      UnwrapConcat(front, folded);
      UnwrapConcat(front + folded, back);
      AppendicesAreGenerated(folded, 1);
      BareOfGenerated(folded);
      BarePlain(front);
      BarePlain(back);
      BarePlain(Unwrap(folded));
      BareConcat(front, folded);
      BareConcat(front + folded, back);
    }
  }

  lemma PartsArePlain(bs: seq<Block>, front: seq<Block>, folded: seq<Block>, back: seq<Block>)
    requires NoneGenerated(bs) && bs == front + Unwrap(folded) + back
    ensures NoneGenerated(front) && NoneGenerated(back) && NoneGenerated(Unwrap(folded))
  {
    assert forall b :: b in front || b in back || b in Unwrap(folded) ==> b in bs;
  }

  /** Collapsing conserves the document, healed or folded: opening the generated
      expandables before and after gives the same blocks, in order. */
  lemma CollapseConserves(bs: seq<Block>)
    ensures Bare(CollapseEvidenceAppendices(bs)) == Bare(bs)
  {
    CollapseCases(bs);
    if Generated(bs) != [] {
      RenumberConserves(bs, 0, HasArtifact(Generated(bs)));
    } else {
      FoldConserves(bs);
      BarePlain(bs);
    }
  }

  // ----------------------------------------------------------------- the numbers --

  /** Generated blocks of a folded Paper: at most four, numbered 1, 2, ... in order. */
  lemma FoldNumbers(bs: seq<Block>)
    requires NoneGenerated(bs)
    ensures var made := Generated(FoldTail(bs));
            && |made| <= MAX_APPENDICES
            && AppendixNumbers(made) == UpTo(|made|)
            && (made != [] <==> FoldTail(bs) != bs)
  {
    UnwrapPlain(bs);
    if FoldTail(bs) != bs {
      var front, folded, back := FoldParts(bs);
      GeneratedOfParts(bs, front, folded, back);
      FoldedCount(folded);
    } else {
      assert UpTo(0) == [];
    }
  }

  /** A light appendix past the fourth before one that is kept. */
  ghost predicate HasGap(gs: seq<Block>) {
    exists i, j :: MAX_APPENDICES <= i < j < |gs| && IsLight(gs[i]) && !IsLight(gs[j])
  }

  /** Numbers given to the appendices that are not dropped. */
  function KeptNumbers(gs: seq<Block>, index: nat, unwrap: bool): seq<nat> {
    if gs == [] then []
    else (if IsDropped(gs[0], index, unwrap) then [] else [index + 1]) + KeptNumbers(gs[1..], index + 1, unwrap)
  }

  /** Nothing directly inside a generated appendix is numbered. */
  ghost predicate HasPlainChildren(bs: seq<Block>) {
    forall b :: b in bs && IsGeneratedAppendix(b) ==> AppendixNumbers(b.children) == []
  }

  lemma {:induction false} RenumberNumbers(bs: seq<Block>, index: nat, unwrap: bool)
    requires HasPlainChildren(bs)
    ensures AppendixNumbers(Renumber(bs, index, unwrap)) == KeptNumbers(Generated(bs), index, unwrap)
  {
    if bs != [] {
      if !IsGeneratedAppendix(bs[0]) {
        var rest := Renumber(bs[1..], index, unwrap);
        RenumberNumbers(bs[1..], index, unwrap);
        assert Generated(bs) == Generated(bs[1..]) && AppendixNumberOf(bs[0]) == [];
        AppendixNumbersCons([bs[0]] + rest);
        assert ([bs[0]] + rest)[1..] == rest;
      } else {
        var rest := Renumber(bs[1..], index + 1, unwrap);
        RenumberNumbers(bs[1..], index + 1, unwrap);
        GeneratedCons(bs);
        if IsDropped(bs[0], index, unwrap) {
          AppendixNumbersConcat(bs[0].children, rest);
        } else {
          var first := Normalised(bs[0], index + 1);
          NormalisedIsGenerated(bs[0], index + 1);
          AppendixNumbersCons([first] + rest);
          assert ([first] + rest)[1..] == rest;
        }
      }
    }
  }

  lemma GeneratedCons(bs: seq<Block>)
    requires bs != [] && IsGeneratedAppendix(bs[0])
    ensures Generated(bs)[0] == bs[0] && Generated(bs)[1..] == Generated(bs[1..])
  {
  }

  lemma {:induction false} KeptNumbersGrow(gs: seq<Block>, index: nat, unwrap: bool)
    ensures forall k :: 0 <= k < |KeptNumbers(gs, index, unwrap)| ==> KeptNumbers(gs, index, unwrap)[k] > index
    ensures KeptNumbers(gs, index, unwrap) == [] <==> forall j :: 0 <= j < |gs| ==> IsDropped(gs[j], index + j, unwrap)
  {
    if gs != [] {
      KeptNumbersGrow(gs[1..], index + 1, unwrap);
      ShiftDropped(gs, index, unwrap);
    }
  }

  lemma ShiftDropped(gs: seq<Block>, index: nat, unwrap: bool)
    requires gs != []
    ensures forall j :: 0 <= j < |gs[1..]| ==>
              IsDropped(gs[1..][j], index + 1 + j, unwrap) == IsDropped(gs[j + 1], index + (j + 1), unwrap)
    ensures forall j :: 0 < j < |gs| ==>
              IsDropped(gs[j], index + j, unwrap) == IsDropped(gs[1..][j - 1], index + 1 + (j - 1), unwrap)
  {
  }

  ghost predicate HasGapFrom(gs: seq<Block>, index: nat, unwrap: bool) {
    exists i, j :: 0 <= i < j < |gs| && IsDropped(gs[i], index + i, unwrap) && !IsDropped(gs[j], index + j, unwrap)
  }

  lemma GapInTail(gs: seq<Block>, index: nat, unwrap: bool)
    requires gs != []
    ensures HasGapFrom(gs[1..], index + 1, unwrap) ==> HasGapFrom(gs, index, unwrap)
    ensures HasGapFrom(gs, index, unwrap) && !IsDropped(gs[0], index, unwrap) ==> HasGapFrom(gs[1..], index + 1, unwrap)
  {
    if HasGapFrom(gs[1..], index + 1, unwrap) {
      var i, j :| 0 <= i < j < |gs[1..]| && IsDropped(gs[1..][i], index + 1 + i, unwrap)
                  && !IsDropped(gs[1..][j], index + 1 + j, unwrap);
      assert IsDropped(gs[i + 1], index + (i + 1), unwrap) && !IsDropped(gs[j + 1], index + (j + 1), unwrap);
    }
    if HasGapFrom(gs, index, unwrap) && !IsDropped(gs[0], index, unwrap) {
      var i, j :| 0 <= i < j < |gs| && IsDropped(gs[i], index + i, unwrap) && !IsDropped(gs[j], index + j, unwrap);
      assert IsDropped(gs[1..][i - 1], index + 1 + (i - 1), unwrap);
      assert !IsDropped(gs[1..][j - 1], index + 1 + (j - 1), unwrap);
    }
  }

  ghost predicate RunsFrom(numbers: seq<nat>, n: nat) {
    forall k :: 0 <= k < |numbers| ==> numbers[k] == n + k
  }

  lemma RunsCons(n: nat, rest: seq<nat>)
    ensures RunsFrom([n] + rest, n) <==> RunsFrom(rest, n + 1)
  {
    var all := [n] + rest;
    assert forall k :: 0 <= k < |rest| ==> rest[k] == all[k + 1];
    assert forall k :: 0 < k < |all| ==> all[k] == rest[k - 1];
  }

  /** The numbers run on from `index` exactly when nothing kept follows a drop. */
  lemma {:induction false} KeptNumbersRunIff(gs: seq<Block>, index: nat, unwrap: bool)
    ensures RunsFrom(KeptNumbers(gs, index, unwrap), index + 1) <==> !HasGapFrom(gs, index, unwrap)
  {
    if gs != [] {
      var rest := KeptNumbers(gs[1..], index + 1, unwrap);
      if IsDropped(gs[0], index, unwrap) {
        KeptNumbersGrow(gs[1..], index + 1, unwrap);
        DropThenKept(gs, index, unwrap);
        assert KeptNumbers(gs, index, unwrap) == rest;
        assert rest != [] ==> rest[0] != index + 1 + 0;
      } else {
        GapInTail(gs, index, unwrap);
        KeptNumbersRunIff(gs[1..], index + 1, unwrap);
        RunsCons(index + 1, rest);
      }
    }
  }

  lemma DropThenKept(gs: seq<Block>, index: nat, unwrap: bool)
    requires gs != [] && IsDropped(gs[0], index, unwrap)
    ensures HasGapFrom(gs, index, unwrap) <==> KeptNumbers(gs[1..], index + 1, unwrap) != []
  {
    KeptNumbersGrow(gs[1..], index + 1, unwrap);
    ShiftDropped(gs, index, unwrap);
    if KeptNumbers(gs[1..], index + 1, unwrap) != [] {
      var j :| 0 <= j < |gs[1..]| && !IsDropped(gs[1..][j], index + 1 + j, unwrap);
      assert IsDropped(gs[0], index + 0, unwrap) && !IsDropped(gs[j + 1], index + (j + 1), unwrap);
    }
  }

  lemma GapIsArtifact(gs: seq<Block>)
    ensures HasGapFrom(gs, 0, HasArtifact(gs)) <==> HasGap(gs)
  {
    var unwrap := HasArtifact(gs);
    if HasGapFrom(gs, 0, unwrap) {
      var i, j :| 0 <= i < j < |gs| && IsDropped(gs[i], 0 + i, unwrap) && !IsDropped(gs[j], 0 + j, unwrap);
      assert IsLight(gs[i]) && !IsLight(gs[j]);
    }
    if HasGap(gs) {
      var i, j :| MAX_APPENDICES <= i < j < |gs| && IsLight(gs[i]) && !IsLight(gs[j]);
      assert IsDropped(gs[i], 0 + i, unwrap) && !IsDropped(gs[j], 0 + j, unwrap);
    }
  }

  lemma HealedNumbers(bs: seq<Block>, unwrap: bool)
    requires HasPlainChildren(bs) && unwrap == HasArtifact(Generated(bs))
    ensures var numbers := AppendixNumbers(Renumber(bs, 0, unwrap));
            (numbers == UpTo(|numbers|) <==> !HasGap(Generated(bs))) && |numbers| <= |Generated(bs)|
  {
    var gs := Generated(bs);
    var numbers := KeptNumbers(gs, 0, unwrap);
    RenumberNumbers(bs, 0, unwrap);
    KeptNumbersRunIff(gs, 0, unwrap);
    GapIsArtifact(gs);
    KeptAreFewer(gs, 0, unwrap);
    assert numbers == UpTo(|numbers|) <==> RunsFrom(numbers, 1);
  }

  lemma FoldedNumbers(bs: seq<Block>)
    requires NoneGenerated(bs)
    ensures var numbers := AppendixNumbers(FoldTail(bs));
            numbers == UpTo(|numbers|) && |numbers| <= MAX_APPENDICES
  {
    FoldNumbers(bs);
    NumbersOfGenerated(FoldTail(bs));
    assert |UpTo(|Generated(FoldTail(bs))|)| == |Generated(FoldTail(bs))|;
  }

  /** Numbers at the top level after the collapse: 1, 2, ... exactly when the Paper came
      without a gap, and at most four unless it came with more. */
  lemma CollapseNumbersIff(bs: seq<Block>)
    requires HasPlainChildren(bs)
    ensures var numbers := AppendixNumbers(CollapseEvidenceAppendices(bs));
            && (numbers == UpTo(|numbers|) <==> !HasGap(Generated(bs)))
            && (|Generated(bs)| <= MAX_APPENDICES ==> |numbers| <= MAX_APPENDICES)
  {
    CollapseCases(bs);
    if Generated(bs) != [] {
      HealedNumbers(bs, HasArtifact(Generated(bs)));
    } else {
      FoldedNumbers(bs);
    }
  }

  lemma {:induction false} KeptAreFewer(gs: seq<Block>, index: nat, unwrap: bool)
    ensures |KeptNumbers(gs, index, unwrap)| <= |gs|
  {
    if gs != [] {
      KeptAreFewer(gs[1..], index + 1, unwrap);
    }
  }

  lemma FoldedCount(folded: seq<Block>)
    requires AreAppendices(folded, 1)
    ensures AppendixNumbers(folded) == UpTo(|folded|)
  {
    NumbersOfFolded(folded, 1);
  }

  lemma AppendicesAreGenerated(folded: seq<Block>, index: nat)
    requires AreAppendices(folded, index)
    ensures forall b :: b in folded ==> IsGeneratedAppendix(b)
  {
    forall b | b in folded
      ensures IsGeneratedAppendix(b)
    {
      var i :| 0 <= i < |folded| && folded[i] == b;
      AppendixIsGenerated(index + i, b.children);
    }
  }

  lemma GeneratedOfJoin(front: seq<Block>, folded: seq<Block>, back: seq<Block>)
    requires NoneGenerated(front) && NoneGenerated(back) && AreAppendices(folded, 1)
    ensures Generated(front + folded + back) == folded
    ensures Generated(front) == [] && Generated(folded) == folded
  {
    UnwrapPlain(front);
    UnwrapPlain(back);
    AppendicesAreGenerated(folded, 1);
    AllGenerated(folded);
    GeneratedConcat(front, folded);
    GeneratedConcat(front + folded, back);
    assert [] + folded + [] == folded;
  }

  lemma GeneratedOfParts(bs: seq<Block>, front: seq<Block>, folded: seq<Block>, back: seq<Block>)
    requires NoneGenerated(bs) && FoldsInto(bs, front, folded, back)
    ensures NoneGenerated(front) && NoneGenerated(back)
    ensures Generated(front) == [] && Generated(folded) == folded
    ensures Generated(FoldTail(bs)) == folded
  {
    PartsArePlain(bs, front, folded, back);
    GeneratedOfJoin(front, folded, back);
  }

  lemma {:induction false} GeneratedConcat(a: seq<Block>, b: seq<Block>)
    ensures Generated(a + b) == Generated(a) + Generated(b)
  {
    if a == [] {
      assert a + b == b;
    } else {
      Peel(a, b);
      GeneratedConcat(a[1..], b);
      Assoc(if IsGeneratedAppendix(a[0]) then [a[0]] else [], Generated(a[1..]), Generated(b));
    }
  }

  lemma {:induction false} AllGenerated(bs: seq<Block>)
    requires forall b :: b in bs ==> IsGeneratedAppendix(b)
    ensures Generated(bs) == bs
  {
    if bs != [] {
      AllGenerated(bs[1..]);
    }
  }

  lemma NumberOfAppendix(b: Block, index: nat)
    requires IsAppendix(b, index)
    ensures AppendixNumberOf(b) == [index]
  {
    AppendixIsGenerated(index, b.children);
  }

  lemma {:induction false} NumbersOfFolded(folded: seq<Block>, index: nat)
    requires AreAppendices(folded, index)
    ensures |AppendixNumbers(folded)| == |folded|
    ensures forall i :: 0 <= i < |folded| ==> AppendixNumbers(folded)[i] == index + i
  {
    if folded != [] {
      assert IsAppendix(folded[0], index + 0);
      NumberOfAppendix(folded[0], index);
      AppendicesTail(folded, index);
      NumbersOfFolded(folded[1..], index + 1);
      AppendixNumbersCons(folded);
    }
  }

  lemma AppendixNumbersCons(bs: seq<Block>)
    requires bs != []
    ensures AppendixNumbers(bs) == AppendixNumberOf(bs[0]) + AppendixNumbers(bs[1..])
  {
  }

  lemma AppendicesTail(folded: seq<Block>, index: nat)
    requires AreAppendices(folded, index) && folded != []
    ensures AreAppendices(folded[1..], index + 1)
  {
    forall i | 0 <= i < |folded[1..]|
      ensures IsAppendix(folded[1..][i], index + 1 + i)
    {
      assert IsAppendix(folded[i + 1], index + (i + 1));
    }
  }

  // ------------------------------------------------------------------ second pass --

  /** Each generated block is what renumbering from `index` would make of it. */
  ghost predicate InOrder(bs: seq<Block>, index: nat) {
    if bs == [] then true
    else if IsGeneratedAppendix(bs[0]) then bs[0] == Normalised(bs[0], index + 1) && InOrder(bs[1..], index + 1)
    else InOrder(bs[1..], index)
  }

  lemma {:induction false} RenumberInOrder(bs: seq<Block>, index: nat, unwrap: bool)
    requires InOrder(bs, index) && NoneDropped(Generated(bs), index, unwrap)
    ensures Renumber(bs, index, unwrap) == bs
  {
    if bs != [] {
      if IsGeneratedAppendix(bs[0]) {
        GeneratedCons(bs);
        assert !IsDropped(Generated(bs)[0], index + 0, unwrap);
        NoneDroppedTail(Generated(bs), index, unwrap);
        RenumberInOrder(bs[1..], index + 1, unwrap);
      } else {
        assert Generated(bs) == Generated(bs[1..]);
        RenumberInOrder(bs[1..], index, unwrap);
      }
    }
  }

  ghost predicate NoneDropped(gs: seq<Block>, index: nat, unwrap: bool) {
    forall j :: 0 <= j < |gs| ==> !IsDropped(gs[j], index + j, unwrap)
  }

  lemma NoneDroppedTail(gs: seq<Block>, index: nat, unwrap: bool)
    requires gs != [] && NoneDropped(gs, index, unwrap)
    ensures NoneDropped(gs[1..], index + 1, unwrap)
  {
    ShiftDropped(gs, index, unwrap);
  }

  lemma {:induction false} InOrderConcat(a: seq<Block>, b: seq<Block>, index: nat)
    requires InOrder(a, index) && InOrder(b, index + |Generated(a)|)
    ensures InOrder(a + b, index)
  {
    if a == [] {
      assert a + b == b;
    } else {
      InOrderConcat(a[1..], b, if IsGeneratedAppendix(a[0]) then index + 1 else index);
      assert (a + b)[1..] == a[1..] + b;
    }
  }

  lemma {:induction false} PlainInOrder(bs: seq<Block>, index: nat)
    requires NoneGenerated(bs)
    ensures InOrder(bs, index)
  {
    if bs != [] {
      PlainInOrder(bs[1..], index);
    }
  }

  lemma {:induction false} FoldedInOrder(folded: seq<Block>, index: nat)
    requires AreAppendices(folded, index + 1)
    ensures InOrder(folded, index)
  {
    if folded != [] {
      assert IsAppendix(folded[0], index + 1 + 0);
      assert Normalised(folded[0], index + 1) == folded[0];
      AppendixIsGenerated(index + 1, folded[0].children);
      AppendicesTail(folded, index + 1);
      FoldedInOrder(folded[1..], index + 1);
    }
  }

  lemma StitchInOrder(front: seq<Block>, folded: seq<Block>, back: seq<Block>)
    requires NoneGenerated(front) && NoneGenerated(back)
    requires InOrder(folded, 0)
    ensures InOrder(front + folded + back, 0)
  {
    UnwrapPlain(front);
    PlainInOrder(front, 0);
    PlainInOrder(back, |Generated(front + folded)|);
    InOrderConcat(front, folded, 0);
    InOrderConcat(front + folded, back, 0);
  }

  lemma FoldIsSettled(bs: seq<Block>)
    requires NoneGenerated(bs) && FoldTail(bs) != bs
    ensures CollapseEvidenceAppendices(FoldTail(bs)) == FoldTail(bs)
  {
    var front, folded, back := FoldParts(bs);
    GeneratedOfParts(bs, front, folded, back);
    FoldedInOrder(folded, 0);
    StitchInOrder(front, folded, back);
    CollapseCases(FoldTail(bs));
    RenumberInOrder(FoldTail(bs), 0, HasArtifact(folded));
  }

  /** No generated appendix directly inside another. */
  ghost predicate IsFlat(bs: seq<Block>) {
    forall b :: b in bs && IsGeneratedAppendix(b) ==> NoneGenerated(b.children)
  }

  lemma FlatHasPlainChildren(bs: seq<Block>)
    requires IsFlat(bs)
    ensures HasPlainChildren(bs)
  {
    forall b | b in bs && IsGeneratedAppendix(b)
      ensures AppendixNumbers(b.children) == []
    {
      UnwrapPlain(b.children);
      NumbersOfGenerated(b.children);
    }
  }

  /** The appendices kept, renumbered. */
  function Kept(gs: seq<Block>, index: nat, unwrap: bool): seq<Block> {
    if gs == [] then []
    else
      (if IsDropped(gs[0], index, unwrap) || gs[0].NotBlock? then [] else [Normalised(gs[0], index + 1)])
      + Kept(gs[1..], index + 1, unwrap)
  }

  lemma GeneratedAfter(b: Block, rest: seq<Block>)
    ensures Generated([b] + rest) == (if IsGeneratedAppendix(b) then [b] else []) + Generated(rest)
  {
    assert ([b] + rest)[1..] == rest;
  }

  lemma {:induction false} GeneratedOfRenumber(bs: seq<Block>, index: nat, unwrap: bool)
    requires IsFlat(bs)
    ensures Generated(Renumber(bs, index, unwrap)) == Kept(Generated(bs), index, unwrap)
  {
    if bs != [] {
      if !IsGeneratedAppendix(bs[0]) {
        GeneratedOfRenumber(bs[1..], index, unwrap);
        GeneratedAfter(bs[0], Renumber(bs[1..], index, unwrap));
        assert Generated(bs) == Generated(bs[1..]);
      } else {
        GeneratedOfRenumber(bs[1..], index + 1, unwrap);
        GeneratedCons(bs);
        GeneratedOfHealed(bs[0], index, unwrap, Renumber(bs[1..], index + 1, unwrap));
      }
    }
  }

  lemma GeneratedOfHealed(b: Block, index: nat, unwrap: bool, rest: seq<Block>)
    requires IsGeneratedAppendix(b) && NoneGenerated(b.children)
    ensures Generated((if IsDropped(b, index, unwrap) then b.children else [Normalised(b, index + 1)]) + rest)
              == (if IsDropped(b, index, unwrap) then [] else [Normalised(b, index + 1)]) + Generated(rest)
  {
    if IsDropped(b, index, unwrap) {
      UnwrapPlain(b.children);
      GeneratedConcat(b.children, rest);
    } else {
      NormalisedIsGenerated(b, index + 1);
      GeneratedAfter(Normalised(b, index + 1), rest);
    }
  }

  lemma {:induction false} RenumberIsFlat(bs: seq<Block>, index: nat, unwrap: bool)
    requires IsFlat(bs)
    ensures IsFlat(Renumber(bs, index, unwrap))
  {
    if bs != [] {
      RenumberIsFlat(bs[1..], if IsGeneratedAppendix(bs[0]) then index + 1 else index, unwrap);
    }
  }

  /** What a pass kept past the fourth place is too long to be dropped by the next. */
  lemma {:induction false} KeptStay(gs: seq<Block>, index: nat, unwrap: bool, j: nat)
    requires j < |Kept(gs, index, unwrap)| && unwrap && index + j >= MAX_APPENDICES
    ensures !IsLight(Kept(gs, index, unwrap)[j])
  {
    if IsDropped(gs[0], index, unwrap) || gs[0].NotBlock? {
      KeptStay(gs[1..], index + 1, unwrap, j);
    } else if j > 0 {
      KeptStay(gs[1..], index + 1, unwrap, j - 1);
    }
  }

  lemma {:induction false} KeptIsFewer(gs: seq<Block>, index: nat, unwrap: bool)
    ensures |Kept(gs, index, unwrap)| <= |gs|
  {
    if gs != [] {
      KeptIsFewer(gs[1..], index + 1, unwrap);
    }
  }

  lemma NoneDroppedTwice(gs: seq<Block>)
    ensures var kept := Kept(gs, 0, HasArtifact(gs)); NoneDropped(kept, 0, HasArtifact(kept))
  {
    var kept := Kept(gs, 0, HasArtifact(gs));
    KeptIsFewer(gs, 0, HasArtifact(gs));
    forall j | 0 <= j < |kept|
      ensures !IsDropped(kept[j], 0 + j, HasArtifact(kept))
    {
      if j >= MAX_APPENDICES {
        KeptStay(gs, 0, HasArtifact(gs), j);
      }
    }
  }

  lemma {:induction false} AllDroppedIsPlain(bs: seq<Block>, index: nat, unwrap: bool)
    requires IsFlat(bs) && KeptNumbers(Generated(bs), index, unwrap) == []
    ensures NoneGenerated(Renumber(bs, index, unwrap))
  {
    if bs != [] {
      if !IsGeneratedAppendix(bs[0]) {
        assert Generated(bs) == Generated(bs[1..]);
        AllDroppedIsPlain(bs[1..], index, unwrap);
      } else {
        GeneratedCons(bs);
        AllDroppedIsPlain(bs[1..], index + 1, unwrap);
      }
    }
  }

  lemma {:induction false} RenumberedInOrder(bs: seq<Block>, index: nat, unwrap: bool)
    requires IsFlat(bs) && !HasGapFrom(Generated(bs), index, unwrap)
    ensures InOrder(Renumber(bs, index, unwrap), index)
  {
    if bs != [] {
      if !IsGeneratedAppendix(bs[0]) {
        assert Generated(bs) == Generated(bs[1..]);
        RenumberedInOrder(bs[1..], index, unwrap);
        assert Renumber(bs, index, unwrap)[1..] == Renumber(bs[1..], index, unwrap);
      } else {
        var gs, rest := Generated(bs), Renumber(bs[1..], index + 1, unwrap);
        GeneratedCons(bs);
        if IsDropped(bs[0], index, unwrap) {
          DropThenKept(gs, index, unwrap);
          AllDroppedIsPlain(bs[1..], index + 1, unwrap);
          PlainInOrder(bs[0].children + rest, index);
        } else {
          GapInTail(gs, index, unwrap);
          RenumberedInOrder(bs[1..], index + 1, unwrap);
          NormalisedIsGenerated(bs[0], index + 1);
          assert Renumber(bs, index, unwrap)[1..] == rest;
        }
      }
    }
  }

  lemma HealedSettlesIff(bs: seq<Block>, out: seq<Block>)
    requires IsFlat(bs) && Generated(bs) != [] && out == Renumber(bs, 0, HasArtifact(Generated(bs)))
    ensures CollapseEvidenceAppendices(out) == out <==> !HasGap(Generated(bs))
  {
    var gs := Generated(bs);
    var again := Generated(out);
    GeneratedOfRenumber(bs, 0, HasArtifact(gs));
    RenumberIsFlat(bs, 0, HasArtifact(gs));
    RenumberKeepsSome(bs, HasArtifact(gs));
    NoneDroppedTwice(gs);
    GapIsArtifact(gs);
    CollapseCases(out);
    if HasGap(gs) {
      FlatHasPlainChildren(bs);
      FlatHasPlainChildren(out);
      HealedNumbers(bs, HasArtifact(gs));
      HealedNumbers(out, HasArtifact(again));
      GapIsArtifact(again);
    } else {
      RenumberedInOrder(bs, 0, HasArtifact(gs));
      RenumberInOrder(out, 0, HasArtifact(again));
    }
  }

  /** When a second collapse changes nothing. */
  lemma CollapseSettlesIff(bs: seq<Block>)
    requires IsFlat(bs)
    ensures CollapseEvidenceAppendices(CollapseEvidenceAppendices(bs)) == CollapseEvidenceAppendices(bs)
            <==> !HasGap(Generated(bs))
  {
    CollapseCases(bs);
    if Generated(bs) != [] {
      HealedSettlesIff(bs, CollapseEvidenceAppendices(bs));
    } else if FoldTail(bs) != bs {
      FoldIsSettled(bs);
    }
  }

  // ------------------------------------------------------------- the chunk loop --

  /** The loop over `range(0, len(appendix_sections), chunk_size)`. */
  method BuildAppendices(hidden: seq<seq<Block>>, size: nat) returns (appendices: seq<Block>)
    requires size > 0
    ensures appendices == Group(hidden, size, 1)
  {
    appendices := [];
    var offset, index := 0, 1;
    while offset < |hidden|
      invariant 0 < index && 0 <= offset <= |hidden|
      invariant appendices + Group(hidden[offset..], size, index) == Group(hidden, size, 1)
    {
      var stop := if offset + size < |hidden| then offset + size else |hidden|;
      var appendix := Appendix(index, Flatten(hidden[offset..stop]));
      GroupStep(hidden, size, index, offset, stop);
      Assoc(appendices, [appendix], Group(hidden[stop..], size, index + 1));
      appendices := appendices + [appendix];
      offset, index := stop, index + 1;
    }
  }

  lemma GroupStep(hidden: seq<seq<Block>>, size: nat, index: nat, offset: nat, stop: nat)
    requires size > 0 && offset < |hidden|
    requires stop == if offset + size < |hidden| then offset + size else |hidden|
    ensures Group(hidden[offset..], size, index)
              == [Appendix(index, Flatten(hidden[offset..stop]))] + Group(hidden[stop..], size, index + 1)
  {
    var here := hidden[offset..];
    if |here| <= size {
      assert here == hidden[offset..stop] && hidden[stop..] == [];
    } else {
      SliceOfTail(hidden, offset, size);
    }
  }

  lemma SliceOfTail<T>(s: seq<T>, offset: nat, size: nat)
    requires offset + size <= |s|
    ensures s[offset..][..size] == s[offset..offset + size]
    ensures s[offset..][size..] == s[offset + size..]
  {
  }

  /** The loop over the top level that keeps or opens the appendices it meets. */
  method HealAppendices(blocks: seq<Block>) returns (repaired: seq<Block>)
    ensures repaired == RepairExistingAppendices(blocks)
  {
    var generated := Generated(blocks);
    if generated == [] {
      return blocks;
    }
    var unwrap := HasArtifact(generated);
    var index := 0;
    repaired := [];
    for i := 0 to |blocks|
      invariant repaired + Renumber(blocks[i..], index, unwrap) == Renumber(blocks, 0, unwrap)
    {
      var here: seq<Block>;
      RenumberStep(blocks, i, index, unwrap);
      if !IsGeneratedAppendix(blocks[i]) {
        here := [blocks[i]];
      } else {
        here := if IsDropped(blocks[i], index, unwrap) then blocks[i].children else [Normalised(blocks[i], index + 1)];
        index := index + 1;
      }
      Assoc(repaired, here, Renumber(blocks[i + 1..], index, unwrap));
      repaired := repaired + here;
    }
    assert blocks[|blocks|..] == [];
  }

  lemma RenumberStep(blocks: seq<Block>, i: nat, index: nat, unwrap: bool)
    requires i < |blocks|
    ensures var b, rest := blocks[i], blocks[i + 1..];
            Renumber(blocks[i..], index, unwrap) ==
              if !IsGeneratedAppendix(b) then [b] + Renumber(rest, index, unwrap)
              else if IsDropped(b, index, unwrap) then b.children + Renumber(rest, index + 1, unwrap)
              else [Normalised(b, index + 1)] + Renumber(rest, index + 1, unwrap)
  {
    assert blocks[i..][1..] == blocks[i + 1..];
  }

  /** Healing, and folding where there was nothing to heal. */
  method CollapseAppendices(blocks: seq<Block>) returns (repaired: seq<Block>)
    ensures repaired == CollapseEvidenceAppendices(blocks)
  {
    repaired := HealAppendices(blocks);
    if Generated(repaired) == [] {
      var plan := FoldPlan(repaired);
      if plan.Some? {
        var appendices := BuildAppendices(plan.value.hidden, ChunkSize(|plan.value.hidden|));
        repaired := plan.value.front + appendices + plan.value.back;
      }
    }
  }

  // ------------------------------------------------------------------- words --

  /** Folding hides no word: the source reads, in order, inside the result. */
  lemma {:induction false} UnwrappedWithin(bs: seq<Block>)
    ensures Within(VisibleAll(Unwrap(bs)), VisibleAll(bs))
  {
    if bs != [] {
      UnwrappedWithin(bs[1..]);
      VisibleAllConcat(Opened(bs[0]), Unwrap(bs[1..]));
      OpenedWithin(bs[0]);
      WithinJoin(VisibleAll(Opened(bs[0])), Visible(bs[0]), VisibleAll(Unwrap(bs[1..])), VisibleAll(bs[1..]));
    }
  }

  lemma OpenedWithin(b: Block)
    ensures Within(VisibleAll(Opened(b)), Visible(b))
  {
    if IsGeneratedAppendix(b) {
      var shown := VisibleAll(b.children);
      WithinSelf(shown);
      NothingWithin(b.summary);
      WithinJoin([], b.summary, shown, shown);
      assert [] + shown == shown;
    } else {
      VisibleOfOne(b);
      WithinSelf(Visible(b));
    }
  }

  lemma {:induction false} RenumberKeepsWords(bs: seq<Block>, index: nat, unwrap: bool)
    ensures Within(VisibleAll(Unwrap(bs)), VisibleAll(Renumber(bs, index, unwrap)))
  {
    if bs != [] {
      var b := bs[0];
      var next := if IsGeneratedAppendix(b) then index + 1 else index;
      var first := if !IsGeneratedAppendix(b) then [b]
                   else if IsDropped(b, index, unwrap) then b.children
                   else [Normalised(b, index + 1)];
      var rest := Renumber(bs[1..], next, unwrap);
      RenumberKeepsWords(bs[1..], next, unwrap);
      assert Renumber(bs, index, unwrap) == first + rest;
      VisibleAllConcat(Opened(b), Unwrap(bs[1..]));
      VisibleAllConcat(first, rest);
      HealedWithin(b, index, unwrap, first);
      WithinJoin(VisibleAll(Opened(b)), VisibleAll(first), VisibleAll(Unwrap(bs[1..])), VisibleAll(rest));
    }
  }

  lemma HealedWithin(b: Block, index: nat, unwrap: bool, first: seq<Block>)
    requires first == if !IsGeneratedAppendix(b) then [b]
                      else if IsDropped(b, index, unwrap) then b.children
                      else [Normalised(b, index + 1)]
    ensures Within(VisibleAll(Opened(b)), VisibleAll(first))
  {
    if IsGeneratedAppendix(b) && !IsDropped(b, index, unwrap) {
      var n := Normalised(b, index + 1);
      NormalisedIsGenerated(b, index + 1);
      OpenedWithin(n);
      VisibleOfOne(n);
    } else {
      WithinSelf(VisibleAll(first));
    }
  }

  /** Collapsing hides no word: what a Paper says, the summaries of its generated
      appendices aside, reads in order inside the result. */
  lemma CollapseKeepsWords(bs: seq<Block>)
    ensures Within(VisibleAll(Unwrap(bs)), VisibleAll(CollapseEvidenceAppendices(bs)))
  {
    CollapseCases(bs);
    if Generated(bs) != [] {
      RenumberKeepsWords(bs, 0, HasArtifact(Generated(bs)));
    } else {
      UnwrapPlain(bs);
      FoldConserves(bs);
      UnwrappedWithin(FoldTail(bs));
    }
  }

  // ------------------------------------------------------- what the walk meets --

  /** Numbers met at the top level when nothing below is numbered. */
  lemma {:induction false} NumbersAreTopLevel(bs: seq<Block>)
    requires forall b :: b in bs && b.Block? ==> AppendixNumbers(Walk(b)) == AppendixNumberOf(b)
    ensures AppendixNumbers(WalkAll(bs)) == AppendixNumbers(bs)
  {
    if bs != [] {
      AppendixNumbersConcat(Walk(bs[0]), WalkAll(bs[1..]));
      NumbersAreTopLevel(bs[1..]);
      if bs[0].NotBlock? {
        assert AppendixNumbers(bs) == AppendixNumbers(bs[1..]);
      }
    }
  }

  lemma {:induction false} UnnumberedWalk(walked: seq<Block>)
    requires forall b :: b in walked ==> AppendixNumberOf(b) == []
    ensures AppendixNumbers(walked) == []
  {
    if walked != [] {
      UnnumberedWalk(walked[1..]);
    }
  }

  lemma {:induction false} NumbersOfGenerated(bs: seq<Block>)
    ensures AppendixNumbers(bs) == AppendixNumbers(Generated(bs))
  {
    if bs != [] {
      NumbersOfGenerated(bs[1..]);
      if IsGeneratedAppendix(bs[0]) {
        assert Generated(bs) == [bs[0]] + Generated(bs[1..]);
        AppendixNumbersCons(bs);
        AppendixNumbersCons(Generated(bs));
      } else {
        assert Generated(bs) == Generated(bs[1..]);
        assert AppendixNumberOf(bs[0]) == [];
      }
    }
  }

  /** Every block of a folded Paper is a block of the source or a new appendix whose
      children are blocks of the source. */
  lemma FoldedBlock(bs: seq<Block>, b: Block)
    requires NoneGenerated(bs) && b in FoldTail(bs)
    ensures b in bs || (b.Block? && (exists index :: IsAppendix(b, index)) && forall c :: c in b.children ==> c in bs)
  {
    if FoldTail(bs) != bs && b !in bs {
      var front, folded, back := FoldParts(bs);
      assert b in folded;
      var i :| 0 <= i < |folded| && folded[i] == b;
      assert IsAppendix(b, 1 + i);
      AppendixIsGenerated(1 + i, b.children);
      ChildrenAreUnwrapped(folded, b);
      assert forall c :: c in Unwrap(folded) ==> c in bs;
    }
  }

  lemma {:induction false} ChildrenAreUnwrapped(bs: seq<Block>, b: Block)
    requires b in bs && IsGeneratedAppendix(b)
    ensures forall c :: c in b.children ==> c in Unwrap(bs)
  {
    if b != bs[0] {
      ChildrenAreUnwrapped(bs[1..], b);
    }
  }

  lemma FoldKeepsFirst(bs: seq<Block>)
    requires NoneGenerated(bs) && bs != [] && !IsSectionHead(bs[0])
    ensures var out := FoldTail(bs);
            out != [] && out[0] == bs[0]
            && forall b :: b in out[1..] ==> b in bs[1..] || (b.Block? && b.kind == Expandable)
  {
    if FoldTail(bs) != bs {
      var front, folded, back := FoldParts(bs);
      FirstOfParts(bs, FoldTail(bs), front, folded, back);
      forall b | b in folded
        ensures b.Block? && b.kind == Expandable
      {
        var i :| 0 <= i < |folded| && folded[i] == b;
        assert IsAppendix(b, 1 + i);
      }
    }
  }

  /** The opening block stays first. */
  lemma CollapseKeepsFirst(bs: seq<Block>)
    requires bs != [] && !IsSectionHead(bs[0]) && !IsGeneratedAppendix(bs[0])
    ensures CollapseEvidenceAppendices(bs) != [] && CollapseEvidenceAppendices(bs)[0] == bs[0]
  {
    CollapseCases(bs);
    if Generated(bs) == [] {
      FoldKeepsFirst(bs);
    }
  }

  lemma FirstOfParts<T>(bs: seq<T>, out: seq<T>, front: seq<T>, folded: seq<T>, back: seq<T>)
    requires front != [] && out == front + folded + back
    requires front <= bs && |back| <= |bs| - |front| && bs[|bs| - |back|..] == back
    ensures out[0] == bs[0]
    ensures forall b :: b in out[1..] ==> b in bs[1..] || b in folded
  {
    assert out[1..] == front[1..] + folded + back;
    forall b | b in out[1..] && b !in folded
      ensures b in bs[1..]
    {
      if b in front[1..] {
        var i :| 0 <= i < |front[1..]| && front[1..][i] == b;
        assert bs[i + 1] == b && bs[1..][i] == b;
      } else {
        var i :| 0 <= i < |back| && back[i] == b;
        assert bs[|bs| - |back| + i] == b && bs[1..][|bs| - |back| + i - 1] == b;
      }
    }
  }
}
