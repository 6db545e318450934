/** Headerless tables and untitled steps, which the repair cannot always mend. */
module TreeTheorems {
  import opened Wrappers
  import opened Subsequences
  import opened Words
  import opened PaperBlocks
  import opened StepRepair
  import opened QualityGates
  import opened BlockRepair
  import opened Appendices
  import opened DenseBlocks
  import opened BlockIds
  import opened EpicRepair
  import opened RepairTheorems
  import opened SourceWalk

  // ------------------------------------------------- the later stages find the same --

  /** A finding about tables, steps and the like: read off the block without its id or
      what is nested in it, and never about the kinds the later stages touch or make. */
  ghost predicate IsBodyGate(gate: Block -> bool) {
    && (forall a: Block, b: Block :: Shape(a) == Shape(b) ==> gate(a) == gate(b))
    && (forall b: Block :: b.Block? && b.kind in {Heading, Byline, Ingress, Expandable} ==> !gate(b))
  }

  lemma ShapesDecideAny(gate: Block -> bool, a: seq<Block>, b: seq<Block>)
    requires IsBodyGate(gate) && Shapes(a) == Shapes(b) && Any(gate, a)
    ensures Any(gate, b)
  {
    var x :| x in a && gate(x);
    var i :| 0 <= i < |a| && a[i] == x;
    assert |a| == |Shapes(a)| == |b|;
    assert Shape(a[i]) == Shapes(a)[i] == Shapes(b)[i] == Shape(b[i]);
    assert b[i] in b;
  }

  lemma RenamingFinds(gate: Block -> bool, bs: seq<Block>)
    requires IsBodyGate(gate)
    ensures Any(gate, WalkAll(UniquifyBlockIds(bs))) <==> Any(gate, WalkAll(bs))
  {
    var out := UniquifyBlockIds(bs);
    RenamingKeepsAllShapes(bs, START);
    if Any(gate, WalkAll(out)) {
      ShapesDecideAny(gate, WalkAll(out), WalkAll(bs));
    }
    if Any(gate, WalkAll(bs)) {
      ShapesDecideAny(gate, WalkAll(bs), WalkAll(out));
    }
  }

  lemma {:induction false} DenseFinds(gate: Block -> bool, bs: seq<Block>, index: nat)
    requires IsBodyGate(gate)
    ensures Any(gate, WalkAll(CollapseFrom(bs, index))) <==> Any(gate, WalkAll(bs))
  {
    if bs != [] {
      var out := CollapseFrom(bs, index);
      DenseFinds(gate, bs[1..], index + 1);
      assert out == [out[0]] + CollapseFrom(bs[1..], index + 1) && bs == [bs[0]] + bs[1..];
      FindsInFirst(gate, out[0], CollapseFrom(bs[1..], index + 1));
      FindsInFirst(gate, bs[0], bs[1..]);
      if IsDense(bs[0]) {
        WrappedNumbers(bs[0], index);
        AnyConcat(gate, [out[0]], Walk(bs[0]));
      }
    }
  }

  /** Generated appendices hold nothing but their children. */
  ghost predicate HoldOnlyChildren(bs: seq<Block>) {
    forall b :: b in bs && IsGeneratedAppendix(b) ==> b.blocks == [] && b.steps == []
  }

  lemma AppendixFinds(gate: Block -> bool, b: Block)
    requires IsBodyGate(gate) && b.Block? && b.kind == Expandable && b.blocks == [] && b.steps == []
    ensures Any(gate, Walk(b)) <==> Any(gate, WalkAll(b.children))
  {
    AnyWalk(gate, b);
    assert !Any(gate, WalkAll([])) && !Any(gate, WalkSteps([]));
  }

  lemma {:induction false} UnwrapFinds(gate: Block -> bool, bs: seq<Block>)
    requires IsBodyGate(gate) && HoldOnlyChildren(bs)
    ensures Any(gate, WalkAll(Unwrap(bs))) <==> Any(gate, WalkAll(bs))
  {
    if bs != [] {
      UnwrapFinds(gate, bs[1..]);
      assert bs == [bs[0]] + bs[1..];
      FindsInFirst(gate, bs[0], bs[1..]);
      FindsInBoth(gate, Opened(bs[0]), Unwrap(bs[1..]));
      if IsGeneratedAppendix(bs[0]) {
        AppendixFinds(gate, bs[0]);
      } else {
        WalkOfOne(bs[0]);
      }
    }
  }

  lemma FoldFinds(gate: Block -> bool, bs: seq<Block>)
    requires IsBodyGate(gate) && NoneGenerated(bs)
    ensures Any(gate, WalkAll(FoldTail(bs))) <==> Any(gate, WalkAll(bs))
  {
    forall b | b in FoldTail(bs) && IsGeneratedAppendix(b)
      ensures b.blocks == [] && b.steps == []
    {
      FoldedBlock(bs, b);
    }
    UnwrapFinds(gate, FoldTail(bs));
    FoldConserves(bs);
  }

  /** What the repair finds once appendices are opened or kept; a fold finds the same. */
  ghost predicate FindsHealed(gate: Block -> bool, bs: seq<Block>, index: nat, unwrap: bool) {
    Any(gate, WalkAll(Renumber(bs, index, unwrap)))
  }

  lemma CollapseFinds(gate: Block -> bool, bs: seq<Block>)
    requires IsBodyGate(gate)
    ensures Any(gate, WalkAll(CollapseEvidenceAppendices(bs))) <==> FindsHealed(gate, bs, 0, HasArtifact(Generated(bs)))
  {
    CollapseCases(bs);
    if Generated(bs) == [] {
      FoldFinds(gate, bs);
      RenumberPlain(bs, 0, HasArtifact(Generated(bs)));
    }
  }

  lemma HealedInBoth(gate: Block -> bool, a: seq<Block>, b: seq<Block>, index: nat, unwrap: bool)
    ensures FindsHealed(gate, a + b, index, unwrap) <==>
              FindsHealed(gate, a, index, unwrap) || FindsHealed(gate, b, index + |Generated(a)|, unwrap)
  {
    RenumberConcat(a, b, index, unwrap);
    FindsInBoth(gate, Renumber(a, index, unwrap), Renumber(b, index + |Generated(a)|, unwrap));
  }

  lemma HealedInFirst(gate: Block -> bool, b: Block, rest: seq<Block>, index: nat, unwrap: bool)
    requires !IsGeneratedAppendix(b)
    ensures FindsHealed(gate, [b] + rest, index, unwrap) <==> Any(gate, Walk(b)) || FindsHealed(gate, rest, index, unwrap)
  {
    assert ([b] + rest)[1..] == rest;
    FindsInFirst(gate, b, Renumber(rest, index, unwrap));
  }

  /** Touching up a heading or a byline changes no finding. */
  lemma TouchedFinds(gate: Block -> bool, o: Block, b: Block)
    requires IsBodyGate(gate) && (o == b || IsRetouched(o, b))
    ensures Any(gate, Walk(o)) <==> Any(gate, Walk(b))
  {
    if o != b {
      AnyWalk(gate, o);
      AnyWalk(gate, b);
    }
  }

  lemma {:induction false} TouchedUpFinds(gate: Block -> bool, a: seq<Block>, b: seq<Block>, index: nat, unwrap: bool)
    requires IsBodyGate(gate) && |a| == |b| && forall i :: 0 <= i < |a| ==> a[i] == b[i] || IsRetouched(a[i], b[i])
    ensures FindsHealed(gate, a, index, unwrap) <==> FindsHealed(gate, b, index, unwrap)
  {
    if a != [] {
      var next := if IsGeneratedAppendix(a[0]) then index + 1 else index;
      TouchedUpFinds(gate, a[1..], b[1..], next, unwrap);
      assert a[0] == b[0] || IsRetouched(a[0], b[0]);
      FirstHealed(gate, a, index, unwrap);
      FirstHealed(gate, b, index, unwrap);
      TouchedFinds(gate, a[0], b[0]);
    }
  }

  lemma FirstHealed(gate: Block -> bool, bs: seq<Block>, index: nat, unwrap: bool)
    requires bs != []
    ensures var next := if IsGeneratedAppendix(bs[0]) then index + 1 else index;
            FindsHealed(gate, bs, index, unwrap) <==>
              || (if IsGeneratedAppendix(bs[0]) then Any(gate, WalkAll(HealedHead(bs[0], index, unwrap))) else Any(gate, Walk(bs[0])))
              || FindsHealed(gate, bs[1..], next, unwrap)
  {
    var next := if IsGeneratedAppendix(bs[0]) then index + 1 else index;
    RenumberHead(bs, index, unwrap);
    FindsInBoth(gate, HealedHead(bs[0], index, unwrap), Renumber(bs[1..], next, unwrap));
    WalkOfOne(bs[0]);
  }

  lemma NewBlockFinds(gate: Block -> bool, b: Block)
    requires IsBodyGate(gate) && b.Block? && b.kind in {Heading, Byline, Ingress}
    requires b.blocks == [] && b.children == [] && b.steps == []
    ensures !Any(gate, Walk(b))
  {
    AnyWalk(gate, b);
    assert !Any(gate, WalkAll([])) && !Any(gate, WalkSteps([]));
  }

  lemma InsertFinds(gate: Block -> bool, bs: seq<Block>, at: nat, b: Block, unwrap: bool)
    requires IsBodyGate(gate) && at <= |bs| && b.Block? && b.kind in {Heading, Byline, Ingress}
    requires b.blocks == [] && b.children == [] && b.steps == []
    ensures FindsHealed(gate, InsertAt(bs, at, b), 0, unwrap) <==> FindsHealed(gate, bs, 0, unwrap)
  {
    var front, back := bs[..at], bs[at..];
    assert bs == front + back && InsertAt(bs, at, b) == front + ([b] + back);
    HealedInBoth(gate, front, back, 0, unwrap);
    HealedInBoth(gate, front, [b] + back, 0, unwrap);
    HealedInFirst(gate, b, back, |Generated(front)|, unwrap);
    NewBlockFinds(gate, b);
  }

  lemma {:induction false} PlaceH1Finds(gate: Block -> bool, bs: seq<Block>, title: Prose, unwrap: bool)
    requires IsBodyGate(gate)
    ensures FindsHealed(gate, PlaceH1(bs, title), 0, unwrap) <==> FindsHealed(gate, bs, 0, unwrap)
  {
    var k := FirstH1(bs, 0);
    if k == |bs| {
      HealedInFirst(gate, NewH1(title), bs, 0, unwrap);
      NewBlockFinds(gate, NewH1(title));
    } else {
      var front, after := bs[..k], bs[k + 1..];
      assert bs == front + ([bs[k]] + after);
      MovedFinds(gate, front, bs[k], after, DemoteAll(after), unwrap);
      Assoc([bs[k]], front, DemoteAll(after));
    }
  }

  lemma MovedFinds(gate: Block -> bool, front: seq<Block>, h: Block, after: seq<Block>, demoted: seq<Block>, unwrap: bool)
    requires IsBodyGate(gate) && !IsGeneratedAppendix(h) && |demoted| == |after|
    requires forall i :: 0 <= i < |after| ==> demoted[i] == Demote(after[i])
    ensures FindsHealed(gate, [h] + (front + demoted), 0, unwrap) <==> FindsHealed(gate, front + ([h] + after), 0, unwrap)
  {
    var g := |Generated(front)|;
    HealedInBoth(gate, front, [h] + after, 0, unwrap);
    HealedInFirst(gate, h, after, g, unwrap);
    HealedInFirst(gate, h, front + demoted, 0, unwrap);
    HealedInBoth(gate, front, demoted, 0, unwrap);
    TouchedUpFinds(gate, after, demoted, g, unwrap);
  }

  lemma {:induction false} RefreshRetouches(bs: seq<Block>, items: seq<Prose>)
    ensures var out := RefreshFrom(bs, items);
            forall i :: 0 <= i < |bs| ==> bs[i] == out[i] || IsRetouched(bs[i], out[i])
  {
    if bs != [] && !IsOrientation(bs[0]) {
      RefreshRetouches(bs[1..], items);
    }
  }

  lemma PrepareFinds(gate: Block -> bool, title: Prose, description: Prose, bs: seq<Block>, unwrap: bool)
    requires IsBodyGate(gate)
    ensures FindsHealed(gate, Prepare(title, description, bs), 0, unwrap) <==> FindsHealed(gate, bs, 0, unwrap)
  {
    var placed := PlaceH1(bs, title);
    var renewed := RefreshOrientation(placed);
    var started := WithIngress(renewed, description);
    PlaceH1Finds(gate, bs, title, unwrap);
    RefreshRetouches(placed, OrientationItems(placed));
    TouchedUpFinds(gate, placed, renewed, 0, unwrap);
    InsertFinds(gate, renewed, 1, NewIngress(description), unwrap);
    InsertFinds(gate, started, OrientationIndex(renewed), NewOrientation(OrientationItems(started)), unwrap);
  }

  /** After the repair of single blocks only the opening of appendices removes a
      finding, and no stage adds one. */
  lemma ArrangedFinds(gate: Block -> bool, title: Prose, description: Prose, repaired: seq<Block>)
    requires IsBodyGate(gate)
    ensures Any(gate, WalkAll(Arrange(title, description, repaired))) <==>
              FindsHealed(gate, repaired, 0, HasArtifact(Generated(repaired)))
  {
    var ready := Prepare(title, description, repaired);
    var folded := CollapseEvidenceAppendices(ready);
    PrepareFinds(gate, title, description, repaired, HasArtifact(Generated(repaired)));
    PrepareKeepsGenerated(title, description, repaired);
    CollapseFinds(gate, ready);
    DenseFinds(gate, folded, 1);
    RenamingFinds(gate, CollapseDense(folded));
  }

  /** A finding is on the result exactly when the source had its cause on a block that
      remains. */
  lemma RepairFinds(paper: Paper, from: Block -> bool, to: Block -> bool)
    requires Repair(paper).Ok? && IsBodyGate(to) && Transfers(from, to)
    ensures Any(to, WalkAll(Repair(paper).value)) <==> Any(from, RemainingOf(paper.blocks))
  {
    ReturnsArranged(paper);
    ArrangedFinds(to, paper.title, paper.description, RepairSeq(paper.blocks).value);
    RepairKeepsArtifact(paper.blocks);
    BodyGateIsUnlabelled(to);
    TopFinds(paper.blocks, 0, HasArtifact(Generated(paper.blocks)), from, to);
  }

  lemma BodyGateIsUnlabelled(gate: Block -> bool)
    requires IsBodyGate(gate)
    ensures IsUnlabelled(gate)
  {
  }

  // ----------------------------------------------------------------------- tables --

  /** A table the promotion leaves without a header. */
  predicate LosesHeader(b: Block) {
    b.Block? && b.kind == Table && !HasHead(b) && |b.rows| > 1 && !(b.rows[0].Cells? && b.rows[0].cells != [])
  }

  lemma OneIsHeaded(b: Block, x: Block)
    requires b.Block? && RepairOne(b).Some? && x in RepairOne(b).value
    ensures LosesHeader(b) <==> IsHeaderless(x)
  {
    var promoted := PromoteTableHead(FixLevel(b));
    var noted := ListAsNotes(DedupeCalloutTitle(RepairStepsBlock(promoted).value));
    if b.kind == Table {
      PromotionLeavesHeaderlessIff(b);
      assert noted == promoted == PromoteTableHead(b);
      if IsOversizedTable(noted) {
        ChunksPartitionRows(noted, noted.rows, 1);
      }
    } else {
      RepairOneMakes(b);
    }
  }

  lemma HeadersTransfer()
    ensures Transfers(LosesHeader, IsHeaderless)
  {
    forall b: Block, x: Block | b.Block? && RepairEntry(b).Some? && x in RepairEntry(b).value
      ensures LosesHeader(b) == IsHeaderless(x)
    {
      OneIsHeaded(RepairNested(b).value, x);
    }
  }

  lemma HeaderlessIsBodyGate()
    ensures IsBodyGate(IsHeaderless)
  {
    forall a: Block, b: Block | Shape(a) == Shape(b)
      ensures IsHeaderless(a) == IsHeaderless(b)
    {
      assert a.Block? ==> a.kind == Shape(a).kind && a.rows == Shape(a).rows && a.head == Shape(a).head;
    }
  }

  /** When the missing-header gate fails on the result: exactly when some table of the
      source that promotion cannot give a header remains. */
  lemma HeaderGateFailsIff(paper: Paper)
    requires Repair(paper).Ok?
    ensures Any(IsHeaderless, WalkAll(Repair(paper).value)) <==> Any(LosesHeader, RemainingOf(paper.blocks))
  {
    HeaderlessIsBodyGate();
    HeadersTransfer();
    RepairFinds(paper, LosesHeader, IsHeaderless);
  }

  // ------------------------------------------------------------------------ steps --

  predicate HasUntitledStep(b: Block) {
    b.Block? && b.kind == StepsBlock && exists step | step in b.steps :: step.Step? && step.title == []
  }

  /** A step without a title that its body does not continue. */
  predicate HasStuckStep(b: Block) {
    b.Block? && b.kind == StepsBlock && exists step | step in b.steps :: step.Step? && step.title == [] && !IsContinued(step)
  }

  /** Where step titles are short the audit asks only for a title. */
  lemma ShortStepsNeedTitles(b: Block)
    requires !HasOverloadedTitle(b)
    ensures HasEmptyStep(b) <==> HasUntitledStep(b)
  {
  }

  lemma CutsTitle(ws: Prose, force: bool)
    requires ws != []
    ensures SplitCompactLead(ws, force).0 != []
  {
    CompactCutIsPositive(ws, force);
  }

  lemma CompactCutIsPositive(ws: Prose, force: bool)
    requires ws != []
    ensures CompactCut(ws, force) > 0
  {
    assert SplitLead(ws).0 != [];
  }

  /** A step is left untitled exactly when it had no title and its body does not
      continue one. */
  lemma UntitledStaysIff(s: Step)
    requires s.Step? && RepairStep(s).Some?
    ensures RepairStep(s).value.Step?
    ensures RepairStep(s).value.title == [] <==> s.title == [] && !Continues(s)
  {
    if |Source(s)| > LEAD_LIMIT || Continues(s) {
      CutsTitle(Source(s), Continues(s));
    }
  }

  lemma {:induction false} NestedStepAt(ss: seq<Step>, i: nat)
    requires RepairNestedSteps(ss).Some? && i < |ss|
    ensures |RepairNestedSteps(ss).value| == |ss|
    ensures var s, n := ss[i], RepairNestedSteps(ss).value[i];
            && n.Step? == s.Step?
            && (s.Step? ==> RepairSeq(s.blocks).Some? && n == Step(s.title, RepairSeq(s.blocks).value))
  {
    if i > 0 {
      NestedStepAt(ss[1..], i - 1);
    } else if |ss| > 1 {
      NestedStepAt(ss[1..], 0);
    }
  }

  /** A step comes out untitled exactly when it was stuck. */
  lemma StuckStepAt(ss: seq<Step>, i: nat)
    requires RepairNestedSteps(ss).Some? && i < |ss| && |RepairNestedSteps(ss).value| == |ss|
    requires RepairSteps(RepairNestedSteps(ss).value).Some?
    ensures var out := RepairSteps(RepairNestedSteps(ss).value).value;
            out[i].Step? && out[i].title == [] <==> ss[i].Step? && ss[i].title == [] && !IsContinued(ss[i])
  {
    NestedStepAt(ss, i);
    var n := RepairNestedSteps(ss).value[i];
    if ss[i].Step? {
      UntitledStaysIff(n);
    }
  }

  lemma StuckSteps(ss: seq<Step>, out: seq<Step>)
    requires RepairNestedSteps(ss).Some? && RepairSteps(RepairNestedSteps(ss).value) == Some(out)
    ensures (exists s :: s in ss && s.Step? && s.title == [] && !IsContinued(s)) <==>
            (exists s :: s in out && s.Step? && s.title == [])
  {
    if ss != [] {
      NestedStepAt(ss, 0);
    }
    assert |out| == |RepairNestedSteps(ss).value| == |ss|;
    if s :| s in ss && s.Step? && s.title == [] && !IsContinued(s) {
      var i :| 0 <= i < |ss| && ss[i] == s;
      StuckStepAt(ss, i);
      assert out[i] in out;
    }
    if s :| s in out && s.Step? && s.title == [] {
      var i :| 0 <= i < |out| && out[i] == s;
      StuckStepAt(ss, i);
      assert ss[i] in ss;
    }
  }

  lemma StuckStepsTransfer()
    ensures Transfers(HasStuckStep, HasUntitledStep)
  {
    forall b: Block, x: Block | b.Block? && RepairEntry(b).Some? && x in RepairEntry(b).value
      ensures HasStuckStep(b) == HasUntitledStep(x)
    {
      var n := RepairNested(b).value;
      RepairOneMakes(n);
      if b.kind == StepsBlock {
        RepairOneBelow(n, x);
        StuckSteps(b.steps, x.steps);
      }
    }
  }

  lemma SameTitlesSameGates(a: Block, b: Block)
    requires a.Block? && b.Block? && a.kind == b.kind && Titles(a.steps) == Titles(b.steps)
    ensures HasUntitledStep(a) ==> HasUntitledStep(b)
    ensures HasOverloadedTitle(a) ==> HasOverloadedTitle(b)
  {
    assert |a.steps| == |Titles(a.steps)| == |b.steps|;
    forall i | 0 <= i < |a.steps|
      ensures a.steps[i].Step? == b.steps[i].Step? && (a.steps[i].Step? ==> a.steps[i].title == b.steps[i].title)
    {
      assert Titles(a.steps)[i] == Titles(b.steps)[i];
    }
    if step :| step in a.steps && HasUntitledStep(a) && step.Step? && step.title == [] {
      var i :| 0 <= i < |a.steps| && a.steps[i] == step;
      assert b.steps[i] in b.steps;
    }
    if step :| step in a.steps && HasOverloadedTitle(a) && step.Step? && |step.title| > MAX_STEP_TITLE_WORDS {
      var i :| 0 <= i < |a.steps| && a.steps[i] == step;
      assert b.steps[i] in b.steps;
    }
  }

  lemma TitleGatesAreBodyGates()
    ensures IsBodyGate(HasUntitledStep) && IsBodyGate(HasOverloadedTitle)
  {
    forall a: Block, b: Block | Shape(a) == Shape(b)
      ensures HasUntitledStep(a) == HasUntitledStep(b) && HasOverloadedTitle(a) == HasOverloadedTitle(b)
    {
      if a.Block? {
        assert a.kind == Shape(a).kind && Titles(a.steps) == Shape(a).steps;
        SameTitlesSameGates(a, b);
        SameTitlesSameGates(b, a);
      }
    }
  }

  predicate Never(b: Block) {
    false
  }

  lemma NoTitleStaysLong()
    ensures Transfers(Never, HasOverloadedTitle)
  {
    forall b: Block, x: Block | b.Block? && RepairEntry(b).Some? && x in RepairEntry(b).value
      ensures !HasOverloadedTitle(x)
    {
      if !IsEmptyParagraph(b) {
        RepairOneWalk(RepairNested(b).value);
      }
    }
  }

  lemma NoLongTitles(paper: Paper)
    requires Repair(paper).Ok?
    ensures !Any(HasOverloadedTitle, WalkAll(Repair(paper).value))
  {
    TitleGatesAreBodyGates();
    NoTitleStaysLong();
    RepairFinds(paper, Never, HasOverloadedTitle);
  }

  lemma SameFindings(p: Block -> bool, q: Block -> bool, walked: seq<Block>)
    requires forall b :: b in walked ==> p(b) == q(b)
    ensures Any(p, walked) <==> Any(q, walked)
  {
  }

  /** When the empty-step gate fails on the result: exactly when some steps block that
      remains has a step without a title that its body does not continue. */
  lemma StepGateFailsIff(paper: Paper)
    requires Repair(paper).Ok?
    ensures Any(HasEmptyStep, WalkAll(Repair(paper).value)) <==> Any(HasStuckStep, RemainingOf(paper.blocks))
  {
    var out := Repair(paper).value;
    NoLongTitles(paper);
    forall b | b in WalkAll(out)
      ensures HasEmptyStep(b) == HasUntitledStep(b)
    {
      ShortStepsNeedTitles(b);
    }
    SameFindings(HasEmptyStep, HasUntitledStep, WalkAll(out));
    TitleGatesAreBodyGates();
    StuckStepsTransfer();
    RepairFinds(paper, HasStuckStep, HasUntitledStep);
  }
}
