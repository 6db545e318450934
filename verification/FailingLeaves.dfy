/** Papers the leaf check refuses, and one it lets pass with a word gone. */
module FailingLeaves {
  import opened Wrappers
  import opened Subsequences
  import opened Words
  import opened PaperBlocks
  import opened QualityGates
  import opened BlockRepair
  import opened Appendices
  import opened DenseBlocks
  import opened BlockIds
  import opened SourceLeaves
  import opened EpicRepair
  import opened RepairTheorems
  import opened LeafTheorems
  import opened SmallPapers

  ghost predicate AllWords(ws: Prose, ok: string -> bool) {
    forall i :: 0 <= i < |ws| ==> ok(ws[i])
  }

  lemma AllWordsConcat(a: Prose, b: Prose, ok: string -> bool)
    requires AllWords(a, ok) && AllWords(b, ok)
    ensures AllWords(a + b, ok)
  {
  }

  lemma {:induction false} AllWordsShown(bs: seq<Block>, ok: string -> bool)
    requires forall i :: 0 <= i < |bs| ==> AllWords(Visible(bs[i]), ok)
    ensures AllWords(VisibleAll(bs), ok)
  {
    if bs != [] {
      AllWordsShown(bs[1..], ok);
      AllWordsConcat(Visible(bs[0]), VisibleAll(bs[1..]), ok);
    }
  }

  /** Words of the headings the orientation line falls back on. */
  ghost predicate FallbacksPass(ok: string -> bool) {
    AllWords(FALLBACKS[0], ok) && AllWords(FALLBACKS[1], ok) && AllWords(FALLBACKS[2], ok)
  }

  lemma NoHeadingsNoItems(started: seq<Block>)
    requires forall h :: h in HeadingsAll(started) ==> h.Block? && IsLevelOne(h.level)
    ensures OrientationItems(started) == FALLBACKS
  {
    OnesAreSkipped(HeadingsAll(started));
    FallbacksDiffer();
    assert FALLBACKS[1..] == [FALLBACKS[1], FALLBACKS[2]] && FALLBACKS[1..][1..] == [FALLBACKS[2]];
    var one, two := [FALLBACKS[0]], [FALLBACKS[0], FALLBACKS[1]];
    assert [] + [FALLBACKS[0]] == one && one + [FALLBACKS[1]] == two && two + [FALLBACKS[2]] == FALLBACKS;
    assert FALLBACKS[1] !in one && FALLBACKS[2] !in two;
    assert TopUp([FALLBACKS[2]], two) == FALLBACKS;
    assert TopUp([FALLBACKS[1], FALLBACKS[2]], one) == FALLBACKS;
  }

  lemma {:induction false} OnesAreSkipped(headings: seq<Block>)
    requires forall h :: h in headings ==> h.Block? && IsLevelOne(h.level)
    ensures Collect(headings, []) == []
  {
    if headings != [] {
      OnesAreSkipped(headings[1..]);
    }
  }

  lemma {:induction false} HeadingsMember(bs: seq<Block>, h: Block)
    requires h in HeadingsAll(bs)
    ensures exists x :: x in bs && h in Headings(x)
  {
    if h in Headings(bs[0]) {
      assert bs[0] in bs;
    } else {
      HeadingsMember(bs[1..], h);
      var x :| x in bs[1..] && h in Headings(x);
      assert x in bs;
    }
  }

  lemma {:induction false} NoneOfNone(bs: seq<Block>, x: Block)
    requires HeadingsAll(bs) == [] && x in bs
    ensures Headings(x) == []
  {
    if x != bs[0] {
      NoneOfNone(bs[1..], x);
    }
  }

  lemma HeadingsOfLeaf(b: Block)
    requires b.Block? && b.children == [] && b.blocks == []
    ensures Headings(b) == if b.kind == Heading then [b] else []
  {
    assert HeadingsAll([]) == [];
  }

  /** Under a new h1 a Paper without headings gets the three fallbacks. */
  lemma FallbackLine(title: Prose, description: Prose, bs: seq<Block>)
    requires HeadingsAll(bs) == []
    ensures OrientationItems(WithIngress([NewH1(title)] + bs, description)) == FALLBACKS
  {
    var placed := [NewH1(title)] + bs;
    var started := WithIngress(placed, description);
    InsertedMembers(placed, 1, NewIngress(description));
    HeadingsOfLeaf(NewH1(title));
    HeadingsOfLeaf(NewIngress(description));
    forall h | h in HeadingsAll(started)
      ensures h.Block? && IsLevelOne(h.level)
    {
      HeadingsMember(started, h);
      var x :| x in started && h in Headings(x);
      assert x == NewH1(title) || x == NewIngress(description) || x in bs;
      if x in bs {
        NoneOfNone(bs, x);
      }
    }
    NoHeadingsNoItems(started);
  }

  lemma LineWords(ok: string -> bool)
    requires FallbacksPass(ok)
    ensures Says(NewOrientation(FALLBACKS), ok)
  {
    var items := AsItems(FALLBACKS);
    ThreeItems(items);
    LineShowsItems(items);
  }

  lemma ThreeItems(items: seq<Item>)
    requires |items| == 3
    ensures ItemsWords(items) == ItemWords(items[0]) + (ItemWords(items[1]) + (ItemWords(items[2]) + []))
  {
    assert items[1..][1..][1..] == [];
    assert ItemsWords(items[1..][1..]) == ItemWords(items[2]) + ItemsWords([]);
    assert ItemsWords(items[1..]) == ItemWords(items[1]) + ItemsWords(items[1..][1..]);
  }

  lemma LineShowsItems(items: seq<Item>)
    requires |items| == |FALLBACKS| && items == AsItems(FALLBACKS)
    ensures Visible(NewOrientation(FALLBACKS)) == ItemsWords(items)
  {
    VisibleParts(NewOrientation(FALLBACKS));
  }

  lemma NewBlockWords(words: Prose, ok: string -> bool)
    requires AllWords(words, ok)
    ensures Says(NewH1(words), ok) && Says(NewIngress(words), ok)
  {
    VisibleParts(NewH1(words));
    VisibleParts(NewIngress(words));
    assert Join([words]) == words;
    assert Visible(NewH1(words)) == words && Visible(NewIngress(words)) == words;
  }

  /** Left in place by the dense stage, and saying only such words. */
  ghost predicate Says(b: Block, ok: string -> bool) {
    !IsDense(b) && AllWords(Visible(b), ok)
  }

  lemma NothingDense(bs: seq<Block>)
    requires forall i :: 0 <= i < |bs| ==> !IsDense(bs[i])
    ensures CollapseDense(bs) == bs
  {
  }

  lemma SmallIsReady(title: Prose, description: Prose, bs: seq<Block>, placed: seq<Block>)
    requires placed == [NewH1(title)] + bs && forall i :: 0 <= i < |bs| ==> IsBody(bs[i])
    ensures Arrange(title, description, bs) == UniquifyBlockIds(CollapseDense(CompleteOpening(placed, description)))
  {
    NewH1InFront(bs, title);
    CompletedIsPlain(placed, description);
    NothingToFold(CompleteOpening(placed, description));
  }

  lemma SaidWords(ready: seq<Block>, ok: string -> bool)
    requires forall i :: 0 <= i < |ready| ==> Says(ready[i], ok)
    ensures AllWords(VisibleAll(UniquifyBlockIds(CollapseDense(ready))), ok)
  {
    NothingDense(ready);
    AllWordsShown(ready, ok);
    RenamingKeepsAllWords(ready, START);
  }

  /** What a small Paper says before it is folded: its own words, the title, the
      description and the fallbacks. */
  lemma ReadySays(title: Prose, description: Prose, bs: seq<Block>, placed: seq<Block>, ready: seq<Block>, ok: string -> bool)
    requires placed == [NewH1(title)] + bs && ready == CompleteOpening(placed, description)
    requires forall i :: 0 <= i < |bs| ==> Says(bs[i], ok)
    requires HeadingsAll(bs) == [] && AllWords(title, ok) && AllWords(description, ok) && FallbacksPass(ok)
    ensures forall i :: 0 <= i < |ready| ==> Says(ready[i], ok)
  {
    PlacedSays(title, description, bs, placed, ok);
    CompletedSays(placed, description, ok);
  }

  lemma SmallWords(title: Prose, description: Prose, bs: seq<Block>, placed: seq<Block>, ready: seq<Block>, ok: string -> bool)
    requires placed == [NewH1(title)] + bs && ready == CompleteOpening(placed, description)
    requires forall i :: 0 <= i < |bs| ==> IsBody(bs[i])
    requires forall i :: 0 <= i < |ready| ==> Says(ready[i], ok)
    ensures AllWords(VisibleAll(Arrange(title, description, bs)), ok)
  {
    SmallIsReady(title, description, bs, placed);
    SaidWords(ready, ok);
  }

  lemma PlacedSays(title: Prose, description: Prose, bs: seq<Block>, placed: seq<Block>, ok: string -> bool)
    requires placed == [NewH1(title)] + bs && forall i :: 0 <= i < |bs| ==> Says(bs[i], ok)
    requires HeadingsAll(bs) == [] && AllWords(title, ok) && AllWords(description, ok) && FallbacksPass(ok)
    ensures placed != [] && forall i :: 0 <= i < |placed| ==> Says(placed[i], ok)
    ensures Says(NewIngress(description), ok)
    ensures Says(NewOrientation(OrientationItems(WithIngress(placed, description))), ok)
  {
    NewBlockWords(title, ok);
    NewBlockWords(description, ok);
    FallbackLine(title, description, bs);
    LineWords(ok);
    AllSay(NewH1(title), bs, ok);
  }

  lemma AllSay(h: Block, bs: seq<Block>, ok: string -> bool)
    requires Says(h, ok) && forall i :: 0 <= i < |bs| ==> Says(bs[i], ok)
    ensures forall i :: 0 <= i < |[h] + bs| ==> Says(([h] + bs)[i], ok)
  {
  }

  lemma CompletedSays(placed: seq<Block>, description: Prose, ok: string -> bool)
    requires placed != [] && forall i :: 0 <= i < |placed| ==> Says(placed[i], ok)
    requires Says(NewIngress(description), ok)
    requires Says(NewOrientation(OrientationItems(WithIngress(placed, description))), ok)
    ensures var ready := CompleteOpening(placed, description);
            forall i :: 0 <= i < |ready| ==> Says(ready[i], ok)
  {
    var ready := CompleteOpening(placed, description);
    forall i | 0 <= i < |ready|
      ensures Says(ready[i], ok)
    {
      CompletedFrom(placed, description, ready[i]);
      if ready[i] in placed {
        var j :| 0 <= j < |placed| && placed[j] == ready[i];
      }
    }
  }

  // --------------------------------------------------------------------- the refusals --

  predicate NoQ(word: string) {
    'Q' !in word
  }

  lemma FallbacksHaveNoQ()
    ensures FallbacksPass(NoQ)
  {
    assert NoQ("Decision") && NoQ("record") && NoQ("Evidence") && NoQ("and") && NoQ("implications");
    assert NoQ("Next") && NoQ("action");
  }

  lemma {:induction false} SpacedHasNoQ(ws: Prose)
    requires AllWords(ws, NoQ)
    ensures 'Q' !in Spaced(ws)
  {
    if ws != [] {
      assert NoQ(ws[0]);
      SpacedHasNoQ(ws[1..]);
    }
  }

  const Q: Prose := ["Q"]

  /** A text that is nowhere in the result makes the repair raise. */
  lemma LostTextRaises(paper: Paper, repaired: seq<Block>)
    requires paper.description != [] && RepairSeq(paper.blocks) == Some(repaired)
    requires Q in LeavesOfAll(paper.blocks) && Q !in Waived(paper.blocks)
    requires AllWords(VisibleAll(Arrange(paper.title, paper.description, repaired)), NoQ)
    ensures Repair(paper) == Err(SourceTextLost)
  {
    var out := Arrange(paper.title, paper.description, repaired);
    SpacedHasNoQ(VisibleAll(out));
    assert Spaced(Q) == "Q" && 'Q' in Spaced(Q);
    if Inside(Spaced(Q), Spaced(VisibleAll(out))) {
      InsideHas(Spaced(Q), Spaced(VisibleAll(out)), 'Q');
    }
    MissingIff(paper.blocks, out, Q);
    ReturnsUnlessMissing(paper, out);
  }

  /** The Paper around the block knows no Q. */
  ghost predicate IsAround(title: Prose, description: Prose) {
    AllWords(title, NoQ) && AllWords(description, NoQ) && description != []
  }

  lemma OnlyBlock(b: Block, left: seq<Block>)
    requires RepairEntry(b) == Some(left)
    ensures RepairSeq([b]) == Some(left) && LeavesOfAll([b]) == LeavesOf(b)
    ensures !IsGeneratedAppendix(b) && !TitleIsRedundant(b) ==> Waived([b]) == []
  {
    assert [b][1..] == [] && left + [] == left;
    assert LeavesOf(b) + [] == LeavesOf(b);
    assert LeavesOfAll([b]) == LeavesOf(b) + LeavesOfAll([]) && Waived([b][1..]) == [];
  }

  /** The block holds the Q, and comes out as another that does not. */
  ghost predicate LosesQ(b: Block, x: Block) {
    && RepairEntry(b) == Some([x]) && Headings(x) == [] && IsBody(x) && Says(x, NoQ)
    && Q in LeavesOf(b) && !IsGeneratedAppendix(b) && !TitleIsRedundant(b)
  }

  lemma OneLeftIsReady(title: Prose, description: Prose, x: Block, placed: seq<Block>, ready: seq<Block>)
    requires placed == [NewH1(title)] + [x] && ready == CompleteOpening(placed, description)
    requires IsAround(title, description) && Headings(x) == [] && Says(x, NoQ)
    ensures forall i :: 0 <= i < |ready| ==> Says(ready[i], NoQ)
  {
    assert [x][1..] == [];
    FallbacksHaveNoQ();
    ReadySays(title, description, [x], placed, ready, NoQ);
  }

  lemma OneLeftWords(title: Prose, description: Prose, x: Block)
    requires IsAround(title, description) && Headings(x) == [] && IsBody(x) && Says(x, NoQ)
    ensures AllWords(VisibleAll(Arrange(title, description, [x])), NoQ)
  {
    var placed := [NewH1(title)] + [x];
    OneLeftIsReady(title, description, x, placed, CompleteOpening(placed, description));
    SmallWords(title, description, [x], placed, CompleteOpening(placed, description), NoQ);
  }

  lemma OneLeftRaises(title: Prose, description: Prose, b: Block, x: Block)
    requires IsAround(title, description) && LosesQ(b, x)
    ensures Repair(Paper(title, description, [b])) == Err(SourceTextLost)
  {
    OnlyBlock(b, [x]);
    OneLeftWords(title, description, x);
    LostTextRaises(Paper(title, description, [b]), [x]);
  }

  lemma NoneLeftIsReady(title: Prose, description: Prose, placed: seq<Block>, ready: seq<Block>)
    requires placed == [NewH1(title)] + [] && ready == CompleteOpening(placed, description)
    requires IsAround(title, description)
    ensures forall i :: 0 <= i < |ready| ==> Says(ready[i], NoQ)
  {
    FallbacksHaveNoQ();
    ReadySays(title, description, [], placed, ready, NoQ);
  }

  lemma NoneLeftRaises(title: Prose, description: Prose, b: Block)
    requires IsAround(title, description) && RepairEntry(b) == Some([]) && Q in LeavesOf(b)
    requires !IsGeneratedAppendix(b) && !TitleIsRedundant(b)
    ensures Repair(Paper(title, description, [b])) == Err(SourceTextLost)
  {
    var placed := [NewH1(title)] + [];
    OnlyBlock(b, []);
    NoneLeftIsReady(title, description, placed, CompleteOpening(placed, description));
    SmallWords(title, description, [], placed, CompleteOpening(placed, description), NoQ);
    LostTextRaises(Paper(title, description, [b]), []);
  }

  function TitledSpacer(): (b: Block)
    ensures b.Block?
  {
    var b := Blank(Paragraph);
    b.(title := Q)
  }

  /** A spacer with a title is dropped, and the repair raises. */
  lemma TitledSpacerRaises(title: Prose, description: Prose)
    requires IsAround(title, description)
    ensures Repair(Paper(title, description, [TitledSpacer()])) == Err(SourceTextLost)
  {
    LeafIff(TitledSpacer(), Q);
    NoneLeftRaises(title, description, TitledSpacer());
  }

  function StringHead(): (b: Block)
    ensures b.Block?
  {
    var b := Blank(Table);
    b.(head := NotCells(Q), rows := [Cells([["a"]])])
  }

  function RowHead(): (b: Block)
    ensures b.Block?
  {
    var b := Blank(Table);
    b.(head := Cells([["a"]]))
  }

  /** A table whose head is a string loses it to the first row, and the repair raises. */
  lemma StringHeadRaises(title: Prose, description: Prose)
    requires IsAround(title, description)
    ensures Repair(Paper(title, description, [StringHead()])) == Err(SourceTextLost)
  {
    StringHeadIsReplaced(StringHead());
    StringHeadLosesQ(StringHead(), RowHead());
    OneLeftRaises(title, description, StringHead(), RowHead());
  }

  lemma StringHeadIsReplaced(b: Block)
    requires b == StringHead()
    ensures RepairEntry(b) == Some([RowHead()])
  {
    assert RepairNested(b) == Some(b);
    assert b.rows[1..] == [];
  }

  lemma StringHeadLosesQ(b: Block, x: Block)
    requires b == StringHead() && x == RowHead() && RepairEntry(b) == Some([x])
    ensures LosesQ(b, x)
  {
    StringHeadCarriesQ(b);
    RowHeadShows(x);
  }

  lemma StringHeadCarriesQ(b: Block)
    requires b == StringHead()
    ensures Q in LeavesOf(b) && !IsGeneratedAppendix(b) && !TitleIsRedundant(b)
  {
    LeafIff(b, Q);
  }

  lemma RowHeadShows(x: Block)
    requires x == RowHead()
    ensures Headings(x) == [] && IsBody(x) && Says(x, NoQ)
  {
    HeadingsOfLeaf(x);
    VisibleParts(x);
    assert RowWords(x.head) == ["a"];
    assert Visible(x) == ["a"];
    assert NoQ("a");
  }

  function TitledSteps(): (b: Block)
    ensures b.Block?
  {
    var b := Blank(StepsBlock);
    b.(title := Q)
  }

  /** A steps block shows only its steps: one with a title of its own raises. */
  lemma TitledStepsRaise(title: Prose, description: Prose)
    requires IsAround(title, description)
    ensures Repair(Paper(title, description, [TitledSteps()])) == Err(SourceTextLost)
  {
    TitledStepsLoseQ(TitledSteps());
    OneLeftRaises(title, description, TitledSteps(), TitledSteps());
  }

  lemma TitledStepsLoseQ(b: Block)
    requires b == TitledSteps()
    ensures LosesQ(b, b)
  {
    LeafIff(b, Q);
    assert RepairNested(b) == Some(b);
    HeadingsOfLeaf(b);
  }

  /** A callout whose body repeats its title in another case. */
  function Echo(): (b: Block)
    ensures b.Block? && b.kind == Callout
  {
    var b := Blank(Callout);
    b.(title := Q, content := [["q"]])
  }

  function Quiet(): (b: Block)
    ensures b.Block? && b.kind == Callout
  {
    var b := Blank(Callout);
    b.(content := [["q"]])
  }

  lemma EchoFacts()
    ensures TitleIsRedundant(Echo()) && RepairEntry(Echo()) == Some([Quiet()])
    ensures Visible(Quiet()) == ["q"] && Visible(Echo()) == ["q", "Q"]
  {
    assert Join([["q"]]) == ["q"];
    assert FoldAll("Q") == "q" == FoldAll("q");
    assert RepairNested(Echo()) == Some(Echo());
    assert ["q"] + ["Q"] == ["q", "Q"];
    VisibleParts(Quiet());
    VisibleParts(Echo());
  }

  function Section(b: Block): (s: Block)
    ensures s.Block? && s.kind == OtherKind("section")
  {
    var s := Blank(OtherKind("section"));
    s.(blocks := [b])
  }

  /** Below the top level the title is dropped and not waived, so the repair raises. */
  lemma NestedEchoRaises(title: Prose, description: Prose)
    requires IsAround(title, description)
    ensures Repair(Paper(title, description, [Section(Echo())])) == Err(SourceTextLost)
  {
    EchoFacts();
    LeafIff(Echo(), Q);
    SectionIsRepaired(Echo(), Quiet());
    SectionHolds(Echo());
    SectionShows(Quiet());
    OneLeftRaises(title, description, Section(Echo()), Section(Quiet()));
  }

  lemma SectionIsRepaired(b: Block, c: Block)
    requires RepairEntry(b) == Some([c])
    ensures RepairEntry(Section(b)) == Some([Section(c)])
  {
    OnlyBlock(b, [c]);
    assert RepairNested(Section(b)) == Some(Section(c));
  }

  lemma SectionHolds(b: Block)
    requires Q in LeavesOf(b)
    ensures Q in LeavesOf(Section(b))
  {
    assert [b][1..] == [];
    assert LeavesOfAll([b]) == LeavesOf(b) + LeavesOfAll([]);
    LeafIff(Section(b), Q);
  }

  lemma SectionShows(c: Block)
    requires IsKind(c, Callout) && Visible(c) == ["q"] && c.blocks == [] && c.children == []
    ensures Headings(Section(c)) == [] && Says(Section(c), NoQ)
  {
    assert [c][1..] == [];
    HeadingsOfLeaf(c);
    assert HeadingsAll([c]) == [];
    VisibleOfOne(c);
    VisibleParts(Section(c));
    assert Visible(Section(c)) == ["q"];
    assert NoQ("q");
  }

  predicate NotQ(word: string) {
    word != "Q"
  }

  /** At the top level the title is waived: the repair returns, and the word is gone. */
  lemma EchoLosesWord(title: Prose, description: Prose)
    requires AllWords(title, NotQ) && AllWords(description, NotQ) && description != []
    ensures var paper := Paper(title, description, [Echo()]);
            "Q" in VisibleAll(paper.blocks) && Repair(paper).Ok? && "Q" !in VisibleAll(Repair(paper).value)
  {
    EchoFacts();
    EchoIsShown(Echo());
    OneEcho(Paper(title, description, [Echo()]), Echo(), Quiet());
  }

  lemma EchoIsShown(b: Block)
    requires Visible(b) == ["q", "Q"]
    ensures "Q" in VisibleAll([b])
  {
    VisibleOfOne(b);
    assert ["q", "Q"][1] == "Q";
  }

  lemma OneEcho(paper: Paper, b: Block, c: Block)
    requires paper.description != [] && paper.blocks == [b] && RepairEntry(b) == Some([c])
    requires IsKind(b, Callout) && b.blocks == [] && b.children == [] && b.steps == []
    requires IsKind(c, Callout) && c.blocks == [] && c.children == [] && Visible(c) == ["q"]
    requires AllWords(paper.title, NotQ) && AllWords(paper.description, NotQ)
    ensures Repair(paper).Ok? && "Q" !in VisibleAll(Repair(paper).value)
  {
    OnlyBlock(b, [c]);
    EchoPasses(b);
    QuietWords(paper.title, paper.description, c);
    ReturnsWithout(paper, [b], [c]);
  }

  lemma QuietIsReady(title: Prose, description: Prose, c: Block, placed: seq<Block>, ready: seq<Block>)
    requires placed == [NewH1(title)] + [c] && ready == CompleteOpening(placed, description)
    requires IsKind(c, Callout) && c.blocks == [] && c.children == [] && Visible(c) == ["q"]
    requires AllWords(title, NotQ) && AllWords(description, NotQ)
    ensures forall i :: 0 <= i < |ready| ==> Says(ready[i], NotQ)
  {
    HeadingsOfLeaf(c);
    assert [c][1..] == [];
    FallbacksAreNotQ();
    assert Says(c, NotQ);
    ReadySays(title, description, [c], placed, ready, NotQ);
  }

  lemma QuietWords(title: Prose, description: Prose, c: Block)
    requires IsKind(c, Callout) && c.blocks == [] && c.children == [] && Visible(c) == ["q"]
    requires AllWords(title, NotQ) && AllWords(description, NotQ)
    ensures AllWords(VisibleAll(Arrange(title, description, [c])), NotQ)
  {
    var placed := [NewH1(title)] + [c];
    QuietIsReady(title, description, c, placed, CompleteOpening(placed, description));
    SmallWords(title, description, [c], placed, CompleteOpening(placed, description), NotQ);
  }

  lemma FallbacksAreNotQ()
    ensures FallbacksPass(NotQ) && AllWords(["q"], NotQ)
  {
    assert NotQ("q");
  }

  lemma EchoPasses(b: Block)
    requires IsKind(b, Callout) && b.blocks == [] && b.children == [] && b.steps == []
    ensures KeepsEveryLeaf([b])
  {
    WalkOfOne(b);
    assert Below(b) == [] && Walk(b) == [b] + Below(b);
  }

  lemma ReturnsWithout(paper: Paper, bs: seq<Block>, repaired: seq<Block>)
    requires paper.description != [] && paper.blocks == bs && RepairSeq(bs) == Some(repaired) && KeepsEveryLeaf(bs)
    requires AllWords(VisibleAll(Arrange(paper.title, paper.description, repaired)), NotQ)
    ensures Repair(paper).Ok? && "Q" !in VisibleAll(Repair(paper).value)
  {
    LeafCheckPasses(paper);
    NoneIsQ(VisibleAll(Arrange(paper.title, paper.description, repaired)));
  }

  lemma NoneIsQ(ws: Prose)
    requires AllWords(ws, NotQ)
    ensures "Q" !in ws
  {
  }
}
