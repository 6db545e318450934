/** What the repair does to Papers it has little to do with. */
module SmallPapers {
  import opened Wrappers
  import opened Words
  import opened PaperBlocks
  import opened QualityGates
  import opened BlockRepair
  import opened Appendices
  import opened DenseBlocks
  import opened EpicRepair
  import opened RepairTheorems
  import opened LeafTheorems
  import opened OpeningTheorems

  // ---------------------------------------------------------------- small Papers --

  /** A block the repair of single blocks leaves as it is. */
  predicate IsUnrepaired(b: Block) {
    b.Block? && RepairEntry(b) == Some([b])
  }

  lemma {:induction false} UnrepairedStay(bs: seq<Block>)
    requires forall i :: 0 <= i < |bs| ==> IsUnrepaired(bs[i])
    ensures RepairSeq(bs) == Some(bs)
  {
    if bs != [] {
      UnrepairedStay(bs[1..]);
      assert IsUnrepaired(bs[0]);
      assert [bs[0]] + bs[1..] == bs;
    }
  }

  /** A block with nothing nested in it, of a kind the repair does not rewrite. */
  predicate IsBare(b: Block) {
    && b.Block? && b.blocks == [] && b.children == [] && b.steps == [] && b.child == []
    && !IsEmptyParagraph(b) && b.kind !in {Table, Callout, ListBlock, StepsBlock, Expandable}
    && (b.kind == Heading ==> !b.level.TextLevel?) && !IsOrientation(b)
  }

  lemma BareIsUnrepaired(b: Block)
    requires IsBare(b)
    ensures IsUnrepaired(b)
  {
    assert RepairNested(b) == Some(b);
  }

  lemma BareHasNothingBelow(b: Block)
    requires IsBare(b)
    ensures Below(b) == [] && Walk(b) == [b]
  {
    assert Walk(b) == [b] + WalkAll([]) + WalkAll([]) + WalkSteps([]);
  }

  lemma BareShowsItsText(b: Block)
    requires IsBare(b)
    ensures ShowsItsText(b)
  {
  }

  /** Without appendices and section heads nothing is folded. */
  lemma NothingToFold(bs: seq<Block>)
    requires forall i :: 0 <= i < |bs| ==> !IsGeneratedAppendix(bs[i]) && !IsSectionHead(bs[i])
    ensures CollapseEvidenceAppendices(bs) == bs
  {
    assert NoneGenerated(bs);
    UnwrapPlain(bs);
    CollapseCases(bs);
    NoSectionsNoPlan(bs);
  }

  /** A Paper without an h1 gets one in front. */
  lemma NewH1InFront(bs: seq<Block>, title: Prose)
    requires forall i :: 0 <= i < |bs| ==> !IsH1(bs[i]) && !IsOrientation(bs[i])
    ensures RefreshOrientation(PlaceH1(bs, title)) == [NewH1(title)] + bs
  {
    var placed := [NewH1(title)] + bs;
    assert PlaceH1(bs, title) == placed;
    assert forall b :: b in placed ==> !IsOrientation(b);
    NothingToRefresh(placed, OrientationItems(placed));
  }

  lemma {:induction false} WalksAre(bs: seq<Block>, gate: Block -> bool)
    requires forall i :: 0 <= i < |bs| ==> Holds(gate, Walk(bs[i]))
    ensures Holds(gate, WalkAll(bs))
  {
    if bs != [] {
      assert Holds(gate, Walk(bs[0]));
      WalksAre(bs[1..], gate);
    }
  }

  lemma BarePassesLeafCheck(bs: seq<Block>)
    requires forall i :: 0 <= i < |bs| ==> IsBare(bs[i])
    ensures KeepsEveryLeaf(bs)
  {
    forall i | 0 <= i < |bs|
      ensures Holds(ShowsItsText, Walk(bs[i])) && Below(bs[i]) == []
    {
      BareHasNothingBelow(bs[i]);
      BareShowsItsText(bs[i]);
    }
    WalksAre(bs, ShowsItsText);
    forall b | b in bs && b.Block?
      ensures Below(b) == [] && !IsOrientation(b)
    {
      var i :| 0 <= i < |bs| && bs[i] == b;
    }
  }

  /** A Paper of bare blocks is arranged as it is. */
  lemma BarePaper(paper: Paper)
    requires paper.description != [] && forall i :: 0 <= i < |paper.blocks| ==> IsBare(paper.blocks[i])
    ensures RepairSeq(paper.blocks) == Some(paper.blocks)
    ensures Repair(paper) == Ok(Arrange(paper.title, paper.description, paper.blocks))
  {
    forall i | 0 <= i < |paper.blocks|
      ensures IsUnrepaired(paper.blocks[i])
    {
      BareIsUnrepaired(paper.blocks[i]);
    }
    UnrepairedStay(paper.blocks);
    BarePassesLeafCheck(paper.blocks);
    LeafCheckPasses(paper);
  }

  /** A Paper of bare blocks without an h1 is repaired under a new one. */
  lemma BareUnderNewH1(paper: Paper)
    requires paper.description != []
    requires forall i :: 0 <= i < |paper.blocks| ==> IsBare(paper.blocks[i]) && !IsH1(paper.blocks[i])
    ensures RepairSeq(paper.blocks) == Some(paper.blocks) && Repair(paper).Ok?
    ensures |Placed(paper)| == |paper.blocks| + 1 && Placed(paper)[0] == NewH1(paper.title)
    ensures forall i :: 0 < i < |Placed(paper)| ==> Placed(paper)[i] == paper.blocks[i - 1]
  {
    BarePaper(paper);
    NewH1InFront(paper.blocks, paper.title);
  }

  lemma ParagraphIsBare(words: Prose)
    requires words != []
    ensures var p := TextParagraph(words); IsBare(p) && IsMeaningful(p) && IsKind(p, Paragraph) && Visible(p) == words
  {
    var p := TextParagraph(words);
    assert Join([words]) == words;
    assert PlainCount(p) == |words|;
  }

  /** Of a kind the opening stages and the fold have no eye for. */
  predicate IsBody(b: Block) {
    b.Block? && b.kind != Heading && b.kind != Byline && b.kind != Expandable
  }

  lemma CompletedIsPlain(placed: seq<Block>, description: Prose)
    requires placed != [] && forall i :: 0 <= i < |placed| ==> !IsGeneratedAppendix(placed[i]) && !IsSectionHead(placed[i])
    ensures var ready := CompleteOpening(placed, description);
            forall i :: 0 <= i < |ready| ==> !IsGeneratedAppendix(ready[i]) && !IsSectionHead(ready[i])
  {
    var ready := CompleteOpening(placed, description);
    forall i | 0 <= i < |ready|
      ensures !IsGeneratedAppendix(ready[i]) && !IsSectionHead(ready[i])
    {
      CompletedFrom(placed, description, ready[i]);
    }
  }

  lemma CompletedFrom(placed: seq<Block>, description: Prose, b: Block)
    requires placed != [] && b in CompleteOpening(placed, description)
    ensures b in placed || b == NewIngress(description) || b == NewOrientation(OrientationItems(WithIngress(placed, description)))
  {
    var started := WithIngress(placed, description);
    InsertedMembers(placed, 1, NewIngress(description));
    InsertedMembers(started, OrientationIndex(placed), NewOrientation(OrientationItems(started)));
  }

  // ------------------------------------------------------------- small appendices --

  /** A generated appendix over bare blocks, or over nothing. */
  ghost predicate IsSmallAppendix(b: Block) {
    && IsUnrepaired(b) && IsGeneratedAppendix(b) && ShowsItsText(b)
    && Holds(IsBare, Below(b)) && Walk(b) == [b] + Below(b)
  }

  lemma AppendixShowsItsText(index: nat, children: seq<Block>)
    ensures ShowsItsText(Appendix(index, children)) && IsGeneratedAppendix(Appendix(index, children))
  {
    AppendixIsGenerated(index, children);
    assert IsSilent(Appendix(index, children).(summary := [], children := []));
  }

  lemma ExpandableIsUnrepaired(b: Block)
    requires IsKind(b, Expandable) && b.blocks == [] && b.steps == [] && b.child == []
    requires RepairSeq(b.children) == Some(b.children)
    ensures IsUnrepaired(b) && Below(b) == WalkAll(b.children) && Walk(b) == [b] + Below(b)
  {
    ExpandableBelow(b);
    assert RepairNested(b) == Some(b);
  }

  lemma ExpandableBelow(b: Block)
    requires b.Block? && b.blocks == [] && b.steps == []
    ensures Below(b) == WalkAll(b.children) && Walk(b) == [b] + Below(b)
  {
    var c := WalkAll(b.children);
    assert Below(b) == [] + c + [];
  }

  lemma EmptyAppendixIsSmall(index: nat)
    ensures IsSmallAppendix(Appendix(index, [])) && IsLight(Appendix(index, []))
  {
    AppendixShowsItsText(index, []);
    ExpandableIsUnrepaired(Appendix(index, []));
  }

  lemma AppendixOfOneIsSmall(index: nat, p: Block)
    requires IsBare(p)
    ensures IsSmallAppendix(Appendix(index, [p])) && VisibleAll(Appendix(index, [p]).children) == Visible(p)
  {
    BareIsUnrepaired(p);
    BareHasNothingBelow(p);
    UnrepairedStay([p]);
    WalkOfOne(p);
    VisibleOfOne(p);
    AppendixShowsItsText(index, [p]);
    ExpandableIsUnrepaired(Appendix(index, [p]));
  }

  lemma AppendixOfTwoIsSmall(index: nat, p: Block)
    requires IsBare(p)
    ensures IsSmallAppendix(Appendix(index, [p, p])) && VisibleAll(Appendix(index, [p, p]).children) == Visible(p) + Visible(p)
  {
    var two := [p, p];
    BareIsUnrepaired(p);
    BareHasNothingBelow(p);
    UnrepairedStay(two);
    assert two[1..] == [p];
    WalkOfOne(p);
    VisibleOfOne(p);
    assert WalkAll(two) == Walk(p) + WalkAll([p]) == [p, p];
    AppendixShowsItsText(index, two);
    ExpandableIsUnrepaired(Appendix(index, two));
  }

  lemma SmallAppendixIsFine(b: Block)
    requires IsSmallAppendix(b)
    ensures Holds(ShowsItsText, Walk(b)) && Holds(KeepsItsText, Below(b)) && Holds(IsUnnumbered, Below(b))
  {
    forall x | x in Below(b)
      ensures ShowsItsText(x) && KeepsItsText(x) && IsUnnumbered(x)
    {
      assert IsBare(x);
      BareShowsItsText(x);
    }
  }

  /** A bare block or a small appendix. */
  ghost predicate IsSmall(b: Block) {
    IsBare(b) || IsSmallAppendix(b)
  }

  lemma SmallIsFine(b: Block)
    requires IsSmall(b)
    ensures IsUnrepaired(b) && Holds(ShowsItsText, Walk(b)) && Holds(KeepsItsText, Below(b)) && !IsOrientation(b)
  {
    if IsBare(b) {
      BareIsUnrepaired(b);
      BareHasNothingBelow(b);
      BareShowsItsText(b);
    } else {
      SmallAppendixIsFine(b);
    }
  }

  lemma SmallPass(bs: seq<Block>)
    requires forall i :: 0 <= i < |bs| ==> IsSmall(bs[i])
    ensures RepairSeq(bs) == Some(bs) && KeepsEveryLeaf(bs)
  {
    forall i | 0 <= i < |bs|
      ensures IsUnrepaired(bs[i]) && Holds(ShowsItsText, Walk(bs[i]))
    {
      SmallIsFine(bs[i]);
    }
    UnrepairedStay(bs);
    WalksAre(bs, ShowsItsText);
    forall b | b in bs && b.Block?
      ensures Holds(KeepsItsText, Below(b)) && !IsOrientation(b)
    {
      var i :| 0 <= i < |bs| && bs[i] == b;
      SmallIsFine(b);
    }
  }

  /** A Paper of small blocks without an h1 is repaired under a new one. */
  lemma SmallUnderNewH1(paper: Paper)
    requires paper.description != []
    requires forall i :: 0 <= i < |paper.blocks| ==> IsSmall(paper.blocks[i]) && !IsH1(paper.blocks[i])
    ensures RepairSeq(paper.blocks) == Some(paper.blocks) && Repair(paper).Ok?
    ensures Placed(paper) == [NewH1(paper.title)] + paper.blocks
  {
    SmallPass(paper.blocks);
    LeafCheckPasses(paper);
    forall i | 0 <= i < |paper.blocks|
      ensures !IsOrientation(paper.blocks[i])
    {
      SmallIsFine(paper.blocks[i]);
    }
    NewH1InFront(paper.blocks, paper.title);
  }
}
