/** Papers whose appendix numbering, tables, steps or density the audit still objects to
    after repair. */
module FailingPapers {
  import opened Wrappers
  import opened Subsequences
  import opened Words
  import opened PaperBlocks
  import opened QualityGates
  import opened StepRepair
  import opened BlockRepair
  import opened Appendices
  import opened DenseBlocks
  import opened SourceLeaves
  import opened EpicRepair
  import opened RepairTheorems
  import opened LeafTheorems
  import opened SourceWalk
  import opened TreeTheorems
  import opened DensityTheorems
  import opened SmallPapers

  // ------------------------------------------------------------------- the numbering --

  lemma SmallAppendicesPass(bs: seq<Block>)
    requires forall i :: 0 <= i < |bs| ==> IsSmallAppendix(bs[i])
    ensures KeepsEveryLeaf(bs) && HoldsBelow(IsUnnumbered, bs)
  {
    forall i | 0 <= i < |bs|
      ensures Holds(ShowsItsText, Walk(bs[i]))
    {
      SmallAppendixIsFine(bs[i]);
    }
    WalksAre(bs, ShowsItsText);
    forall b | b in bs
      ensures IsGeneratedAppendix(b) && Holds(KeepsItsText, Below(b)) && Holds(IsUnnumbered, Below(b))
    {
      var i :| 0 <= i < |bs| && bs[i] == b;
      SmallAppendixIsFine(b);
    }
  }

  lemma SmallAppendicesStay(bs: seq<Block>)
    requires forall i :: 0 <= i < |bs| ==> IsSmallAppendix(bs[i])
    ensures RepairSeq(bs) == Some(bs) && Generated(bs) == bs
  {
    UnrepairedStay(bs);
    forall b | b in bs
      ensures IsGeneratedAppendix(b)
    {
      var i :| 0 <= i < |bs| && bs[i] == b;
    }
    AllGenerated(bs);
  }

  lemma GapFails(paper: Paper)
    requires paper.description != [] && forall i :: 0 <= i < |paper.blocks| ==> IsSmallAppendix(paper.blocks[i])
    requires HasGap(paper.blocks)
    ensures Repair(paper).Ok?
    ensures var numbers := AppendixNumbers(WalkAll(Repair(paper).value)); numbers != UpTo(|numbers|)
  {
    SmallAppendicesPass(paper.blocks);
    SmallAppendicesStay(paper.blocks);
    LeafCheckPasses(paper);
    AppendixNumberingIff(paper);
  }

  /** Five appendices alike, and a sixth. */
  function SixPaper(title: Prose, description: Prose, a: Block, g: Block): Paper {
    Paper(title, description, [a, a, a, a, a, g])
  }

  /** Five empty appendices, left by earlier passes, before one of more than seven
      hundred words: the fifth is dropped and the sixth keeps its place in the count. */
  lemma GapFailsNumbering(title: Prose, description: Prose, words: Prose)
    requires description != [] && |words| > MAX_TAIL_WORDS
    ensures var paper := SixPaper(title, description, Appendix(1, []), Appendix(2, [TextParagraph(words)]));
            && Repair(paper).Ok?
            && var numbers := AppendixNumbers(WalkAll(Repair(paper).value)); numbers != UpTo(|numbers|)
  {
    ParagraphIsBare(words);
    EmptyAppendixIsSmall(1);
    AppendixOfOneIsSmall(2, TextParagraph(words));
    SixAppendices(title, description, Appendix(1, []), Appendix(2, [TextParagraph(words)]));
  }

  lemma SixAppendices(title: Prose, description: Prose, a: Block, g: Block)
    requires description != [] && IsSmallAppendix(a) && IsLight(a) && IsSmallAppendix(g) && !IsLight(g)
    ensures var paper := SixPaper(title, description, a, g);
            && Repair(paper).Ok?
            && var numbers := AppendixNumbers(WalkAll(Repair(paper).value)); numbers != UpTo(|numbers|)
  {
    var paper := SixPaper(title, description, a, g);
    SixHaveGap(paper.blocks, a, g);
    AllOfSix(paper.blocks, a, g, IsSmallAppendix);
    GapFails(paper);
  }

  lemma SixHaveGap(bs: seq<Block>, a: Block, g: Block)
    requires |bs| == 6 && bs[5] == g && forall i :: 0 <= i < 5 ==> bs[i] == a
    requires IsLight(a) && !IsLight(g)
    ensures HasGap(bs)
  {
    assert IsLight(bs[4]) && !IsLight(bs[5]);
  }

  lemma AllOfSix<T>(s: seq<T>, a: T, g: T, p: T -> bool)
    requires |s| == 6 && s[5] == g && (forall i :: 0 <= i < 5 ==> s[i] == a) && p(a) && p(g)
    ensures forall i :: 0 <= i < |s| ==> p(s[i])
  {
  }

  // ---------------------------------------------------------------- tables and steps --

  /** A Paper of one block with nothing nested in it, which shows what it carries. */
  lemma OneLeafPasses(paper: Paper, b: Block)
    requires paper.description != [] && paper.blocks == [b] && b.Block? && b.kind != Expandable && !IsOrientation(b)
    requires RepairEntry(b).Some? && Below(b) == [] && ShowsItsText(b) && !IsEmptyParagraph(b)
    ensures Repair(paper).Ok? && b in RemainingOf(paper.blocks)
  {
    assert [b][1..] == [];
    WalkOfOne(b);
    assert Walk(b) == [b] + Below(b) == [b];
    LeafCheckPasses(paper);
    assert b in Remaining(b);
  }

  /** A table whose first row is an empty array, and one more row. */
  function Unheadable(words: Prose): (b: Block)
    ensures b.Block? && b.kind == Table
  {
    var b := Blank(Table);
    b.(rows := [Cells([]), Cells([words])])
  }

  /** The row promoted is no header. */
  lemma HeaderlessTableFails(title: Prose, description: Prose, words: Prose)
    requires description != []
    ensures var paper := Paper(title, description, [Unheadable(words)]);
            Repair(paper).Ok? && Any(IsHeaderless, WalkAll(Repair(paper).value))
  {
    UnheadableIsALeaf(words);
    OneTableFails(Paper(title, description, [Unheadable(words)]), Unheadable(words));
  }

  lemma UnheadableIsALeaf(words: Prose)
    ensures var b := Unheadable(words);
            RepairEntry(b).Some? && Below(b) == [] && ShowsItsText(b) && LosesHeader(b)
  {
    var b := Unheadable(words);
    assert RepairNested(b) == Some(b);
    assert Below(b) == WalkAll([]) + WalkAll([]) + WalkSteps([]);
  }

  lemma OneTableFails(paper: Paper, b: Block)
    requires paper.description != [] && paper.blocks == [b] && LosesHeader(b)
    requires RepairEntry(b).Some? && Below(b) == [] && ShowsItsText(b)
    ensures Repair(paper).Ok? && Any(IsHeaderless, WalkAll(Repair(paper).value))
  {
    OneLeafPasses(paper, b);
    HeaderGateFailsIff(paper);
  }

  function OneUntitledStep(): (b: Block)
    ensures b.Block? && b.kind == StepsBlock
  {
    var b := Blank(StepsBlock);
    b.(steps := [Step([], [])])
  }

  /** A step with neither a title nor a body to take one from. */
  lemma UntitledStepFails(title: Prose, description: Prose)
    requires description != []
    ensures var paper := Paper(title, description, [OneUntitledStep()]);
            Repair(paper).Ok? && Any(HasEmptyStep, WalkAll(Repair(paper).value))
  {
    UntitledIsALeaf();
    OneStepsBlockFails(Paper(title, description, [OneUntitledStep()]), OneUntitledStep());
  }

  lemma UntitledIsALeaf()
    ensures var b := OneUntitledStep();
            RepairEntry(b).Some? && Below(b) == [] && ShowsItsText(b) && HasStuckStep(b)
  {
    var b, s := OneUntitledStep(), Step([], []);
    assert !IsContinued(s);
    assert s in b.steps;
    RepairStepRaisesIff(s);
    NestedUntitled(b, s);
    assert Below(b) == WalkAll([]) + WalkAll([]) + WalkSteps([s]);
    assert [s][1..] == [];
    assert WalkSteps([s]) == WalkAll([]) + WalkSteps([]);
  }

  lemma NestedUntitled(b: Block, s: Step)
    requires b == OneUntitledStep() && s == Step([], []) && RepairStep(s).Some?
    ensures RepairEntry(b).Some?
  {
    assert [s][1..] == [] && [s] + [] == [s];
    assert RepairNestedSteps([s][1..]) == Some([]);
    assert RepairNestedSteps([s]) == Some([s]);
    assert RepairNested(b) == Some(b);
    assert RepairSteps([s]).Some?;
  }

  lemma OneStepsBlockFails(paper: Paper, b: Block)
    requires paper.description != [] && paper.blocks == [b] && HasStuckStep(b)
    requires RepairEntry(b).Some? && Below(b) == [] && ShowsItsText(b)
    ensures Repair(paper).Ok? && Any(HasEmptyStep, WalkAll(Repair(paper).value))
  {
    OneLeafPasses(paper, b);
    StepGateFailsIff(paper);
  }

  // --------------------------------------------------------------------- the density --

  lemma ViewOfBody(title: Prose, description: Prose, bs: seq<Block>, placed: seq<Block>)
    requires placed == [NewH1(title)] + bs && forall i :: 0 <= i < |bs| ==> IsBody(bs[i])
    ensures View(title, description, bs) == InView(CompleteOpening(placed, description))
  {
    NewH1InFront(bs, title);
    CompletedIsPlain(placed, description);
    NothingToFold(CompleteOpening(placed, description));
  }

  /** A body block under a new h1 stays in view unless it is dense. */
  lemma OneInView(title: Prose, description: Prose, bs: seq<Block>, b: Block)
    requires forall i :: 0 <= i < |bs| ==> IsBody(bs[i])
    requires b in bs && IsBody(b) && !IsDense(b)
    ensures b in View(title, description, bs)
  {
    var placed := [NewH1(title)] + bs;
    ViewOfBody(title, description, bs, placed);
    CompletedIsThere(placed, description, b);
    InViewIff(CompleteOpening(placed, description), b);
  }

  function Nesting(b: Block): (c: Block)
    ensures c.Block? && c.kind == Callout
  {
    var c := Blank(Callout);
    c.(blocks := [b])
  }

  lemma NestingIsUnrepaired(p: Block)
    requires IsBare(p)
    ensures IsUnrepaired(Nesting(p)) && Below(Nesting(p)) == [p]
  {
    var c := Nesting(p);
    BareIsUnrepaired(p);
    BareHasNothingBelow(p);
    UnrepairedStay([p]);
    assert RepairNested(c) == Some(c);
    WalkOfOne(p);
    assert Below(c) == WalkAll([p]) + WalkAll([]) + WalkSteps([]) == [p];
  }

  /** A paragraph too long to read in passing is not folded when it stands in a callout. */
  lemma NestedParagraphWarns(title: Prose, description: Prose, words: Prose)
    requires description != [] && |words| > MAX_PARAGRAPH_WORDS
    ensures var paper := Paper(title, description, [Nesting(TextParagraph(words))]);
            Repair(paper).Ok? && Any(IsLongParagraph, WalkAll(FirstPass(Repair(paper).value)))
  {
    var p := TextParagraph(words);
    ParagraphIsBare(words);
    NestingIsUnrepaired(p);
    OneNesting(Paper(title, description, [Nesting(p)]), Nesting(p), p);
  }

  lemma OneNesting(paper: Paper, c: Block, p: Block)
    requires paper.description != [] && paper.blocks == [c] && IsKind(c, Callout) && c.title == []
    requires IsUnrepaired(c) && Below(c) == [p] && IsBare(p) && IsLongParagraph(p)
    ensures Repair(paper).Ok? && Any(IsLongParagraph, WalkAll(FirstPass(Repair(paper).value)))
  {
    var bs := [c];
    UnrepairedStay(bs);
    NestingPasses(c, p);
    OneInView(paper.title, paper.description, bs, c);
    LongBelow(View(paper.title, paper.description, bs), c, p);
    PassesAndWarns(paper, bs);
  }

  lemma PassesAndWarns(paper: Paper, bs: seq<Block>)
    requires paper.description != [] && paper.blocks == bs && RepairSeq(bs) == Some(bs) && KeepsEveryLeaf(bs)
    requires AnyBelow(IsLongParagraph, View(paper.title, paper.description, bs))
    ensures Repair(paper).Ok? && Any(IsLongParagraph, WalkAll(FirstPass(Repair(paper).value)))
  {
    LeafCheckPasses(paper);
    DensityIff(paper);
  }

  lemma NestingPasses(c: Block, p: Block)
    requires IsKind(c, Callout) && Below(c) == [p] && IsBare(p)
    ensures KeepsEveryLeaf([c])
  {
    WalkOfOne(c);
    assert Walk(c) == [c] + Below(c);
    BareShowsItsText(p);
    assert Holds(KeepsItsText, [p]);
  }

  lemma LongBelow(view: seq<Block>, c: Block, p: Block)
    requires c in view && c.Block? && p in Below(c) && IsLongParagraph(p)
    ensures AnyBelow(IsLongParagraph, view)
  {
  }

  // ------------------------------------------------------------ words counted unseen --

  /** A closed expandable that carries a title, which nobody is shown. */
  function Titled(words: Prose): (e: Block)
    ensures e.Block? && e.kind == Expandable
  {
    var e := Blank(Expandable);
    e.(title := words, summary := ["More"])
  }

  function Holding(e: Block): (p: Block)
    ensures p.Block? && p.kind == Paragraph
  {
    var p := Blank(Paragraph);
    p.(content := [["See"]], blocks := [e])
  }

  /** A paragraph of two words that hides many more. */
  ghost predicate HidesWords(p: Block, words: Prose) {
    && IsUnrepaired(p) && IsKind(p, Paragraph) && Visible(p) == ["More", "See"] && PlainCount(p) == |words| + 2
    && forall leaf :: leaf in LeavesOf(p) ==> leaf == [] || leaf == ["See"] || leaf == ["More"] || leaf == words
  }

  ghost predicate SaysWords(q: Block, words: Prose) {
    && IsUnrepaired(q) && IsKind(q, Paragraph) && Visible(q) == words
    && forall leaf :: leaf in LeavesOf(q) ==> leaf == [] || leaf == words
  }

  lemma TitledFacts(words: Prose)
    ensures var e := Titled(words);
            && IsUnrepaired(e) && Visible(e) == ["More"] && PlainCount(e) == |words| + 1
            && forall leaf :: leaf in LeavesOf(e) ==> leaf == [] || leaf == ["More"] || leaf == words
  {
    ExpandableIsUnrepaired(Titled(words));
    assert ["More"] + [] == ["More"];
  }

  lemma HoldingIsUnrepaired(e: Block, p: Block)
    requires p == Holding(e) && IsUnrepaired(e)
    ensures IsUnrepaired(p)
  {
    UnrepairedStay([e]);
    assert RepairNested(p) == Some(p);
  }

  lemma HoldingCounts(e: Block, p: Block)
    requires p == Holding(e)
    ensures PlainCount(p) == PlainCount(e) + 1
  {
    assert Join([["See"]]) == ["See"];
    assert [e][1..] == [];
    assert PlainCountAll([e]) == PlainCount(e) + PlainCountAll([]);
  }

  lemma HoldingLeaf(e: Block, p: Block, leaf: Prose)
    requires p == Holding(e) && leaf in LeavesOf(p)
    ensures leaf in LeavesOf(e) || leaf == [] || leaf == ["See"]
  {
    LeafIff(p, leaf);
    assert [e][1..] == [];
    assert LeavesOfAll([e]) == LeavesOf(e) + LeavesOfAll([]);
  }

  lemma HoldingFacts(e: Block, p: Block, words: Prose)
    requires p == Holding(e) && IsUnrepaired(e) && Visible(e) == ["More"] && PlainCount(e) == |words| + 1
    requires forall leaf :: leaf in LeavesOf(e) ==> leaf == [] || leaf == ["More"] || leaf == words
    ensures HidesWords(p, words)
  {
    HoldingIsUnrepaired(e, p);
    HoldingCounts(e, p);
    VisibleOfOne(e);
    HoldingShows(e, p);
    forall leaf | leaf in LeavesOf(p)
      ensures leaf == [] || leaf == ["See"] || leaf == ["More"] || leaf == words
    {
      HoldingLeaf(e, p, leaf);
    }
  }

  lemma HoldingShows(e: Block, p: Block)
    requires p == Holding(e) && VisibleAll([e]) == ["More"]
    ensures Visible(p) == ["More", "See"]
  {
    assert Join([["See"]]) == ["See"];
    VisibleParts(p);
    assert OwnParts(p).0 == ["More"] + ["See"];
  }

  lemma ParagraphSays(words: Prose)
    requires words != []
    ensures SaysWords(TextParagraph(words), words)
  {
    ParagraphIsBare(words);
    BareIsUnrepaired(TextParagraph(words));
  }

  /** The audit counts that title; the leaf check lets it pass, for another paragraph
      shows the same words. */
  lemma UnseenWordsWarn(title: Prose, description: Prose, words: Prose)
    requires description != [] && |words| > MAX_PARAGRAPH_WORDS
    ensures var paper := TwoPaper(title, description, Holding(Titled(words)), TextParagraph(words));
            Repair(paper).Ok? && Any(IsLongParagraph, WalkAll(FirstPass(Repair(paper).value)))
  {
    TitledFacts(words);
    HoldingFacts(Titled(words), Holding(Titled(words)), words);
    ParagraphSays(words);
    TwoParagraphs(title, description, Holding(Titled(words)), TextParagraph(words), words);
  }

  function TwoPaper(title: Prose, description: Prose, p: Block, q: Block): Paper {
    Paper(title, description, [p, q])
  }

  lemma TwoParagraphs(title: Prose, description: Prose, p: Block, q: Block, words: Prose)
    requires description != [] && |words| > MAX_PARAGRAPH_WORDS && HidesWords(p, words) && SaysWords(q, words)
    ensures var paper := TwoPaper(title, description, p, q);
            Repair(paper).Ok? && Any(IsLongParagraph, WalkAll(FirstPass(Repair(paper).value)))
  {
    UnrepairedStay([p, q]);
    TwoSurvive(title, description, p, q, words);
    TwoUnseen(title, description, p, q, words);
    ShowsAllAndWarns(TwoPaper(title, description, p, q), [p, q]);
  }

  lemma TwoUnseen(title: Prose, description: Prose, p: Block, q: Block, words: Prose)
    requires |words| > MAX_PARAGRAPH_WORDS && HidesWords(p, words) && SaysWords(q, words)
    ensures AnyAt(CountsUnseenWords, View(title, description, [p, q]))
  {
    OneInView(title, description, [p, q], p);
    UnseenInView(View(title, description, [p, q]), p);
  }

  lemma ShowsAllAndWarns(paper: Paper, bs: seq<Block>)
    requires paper.description != [] && paper.blocks == bs && RepairSeq(bs) == Some(bs)
    requires forall leaf :: leaf in LeavesOfAll(bs) ==> Inside(leaf, VisibleAll(Arrange(paper.title, paper.description, bs)))
    requires AnyAt(CountsUnseenWords, View(paper.title, paper.description, bs))
    ensures Repair(paper).Ok? && Any(IsLongParagraph, WalkAll(FirstPass(Repair(paper).value)))
  {
    AllShownPasses(paper);
    DensityIff(paper);
  }

  lemma UnseenInView(view: seq<Block>, p: Block)
    requires p in view && CountsUnseenWords(p)
    ensures AnyAt(CountsUnseenWords, view)
  {
  }

  lemma TwoSurvive(title: Prose, description: Prose, p: Block, q: Block, words: Prose)
    requires HidesWords(p, words) && SaysWords(q, words)
    ensures forall leaf :: leaf in LeavesOfAll([p, q]) ==> Inside(leaf, VisibleAll(Arrange(title, description, [p, q])))
  {
    forall leaf | leaf in LeavesOfAll([p, q])
      ensures Inside(leaf, VisibleAll(Arrange(title, description, [p, q])))
    {
      TwoShow(p, q, words, leaf);
      TwoShowBeside(p, q, leaf);
      ShownSurvives(title, description, [p, q], leaf);
    }
  }

  lemma TwoShow(p: Block, q: Block, words: Prose, leaf: Prose)
    requires HidesWords(p, words) && SaysWords(q, words) && leaf in LeavesOfAll([p, q])
    ensures ShownBy([p, q], leaf)
  {
    assert [p, q][1..] == [q] && [q][1..] == [];
    assert LeavesOfAll([q]) == LeavesOf(q) + LeavesOfAll([]);
    assert leaf in LeavesOf(p) || leaf in LeavesOf(q);
    InsideSelf(words);
    InsideSelf(["See"]);
    InsideLeft(["More"], ["More"], ["See"]);
    InsideRight(["See"], ["More"], ["See"]);
    assert ["More"] + ["See"] == ["More", "See"];
    assert p in [p, q] && q in [p, q];
  }

  lemma TwoShowBeside(p: Block, q: Block, leaf: Prose)
    requires ShownBy([p, q], leaf) && !IsOrientation(p) && !IsOrientation(q)
    requires !IsGeneratedAppendix(p) && !IsGeneratedAppendix(q)
    ensures ShownBeside([p, q], leaf)
  {
    var o :| o in [p, q] && Inside(leaf, Visible(o));
    assert o == p || o == q;
    assert Opened(o) == [o];
    assert o in Opened(o);
  }

  /** When every leaf reads in the result the Paper is repaired. */
  lemma AllShownPasses(paper: Paper)
    requires paper.description != [] && RepairSeq(paper.blocks).Some?
    requires forall leaf :: leaf in LeavesOfAll(paper.blocks) ==>
               Inside(leaf, VisibleAll(Arrange(paper.title, paper.description, RepairSeq(paper.blocks).value)))
    ensures Repair(paper) == Ok(Arrange(paper.title, paper.description, RepairSeq(paper.blocks).value))
  {
    var out := Arrange(paper.title, paper.description, RepairSeq(paper.blocks).value);
    forall leaf: Prose
      ensures leaf !in MissingLeaves(paper.blocks, out)
    {
      MissingIff(paper.blocks, out, leaf);
      if leaf in LeavesOfAll(paper.blocks) {
        SpacedInside(leaf, VisibleAll(out));
      }
    }
    NothingIn(MissingLeaves(paper.blocks, out));
    ReturnsUnlessMissing(paper, out);
  }
}
