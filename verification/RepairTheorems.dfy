/** The repair held to the independent audit, for every Paper. */
module RepairTheorems {
  import opened Wrappers
  import opened Subsequences
  import opened Words
  import opened PaperBlocks
  import opened QualityGates
  import opened BlockRepair
  import opened Appendices
  import opened DenseBlocks
  import opened BlockIds
  import opened EpicRepair

  // ------------------------------------------------- gates survive the block repair --

  /** What the repair of a block may make of it, as far as the gates here look. */
  predicate IsMadeFrom(b: Block, n: Block) {
    && b.Block? && n.Block? && n.summary == b.summary
    && (n.kind == b.kind || (b.kind == ListBlock && n.kind == Notes))
    && (n.kind == Expandable ==> n.id == b.id)
    && (n.steps == [] <==> b.steps == [])
  }

  /** The repair of single blocks keeps the gate, and inserted paragraphs pass it. */
  ghost predicate IsKept(gate: Block -> bool) {
    && (forall words: Prose :: gate(TextParagraph(words)))
    && (forall b: Block, n: Block :: IsMadeFrom(b, n) && gate(b) ==> gate(n))
  }

  lemma RepairOneMakes(b: Block)
    requires b.Block? && RepairOne(b).Some?
    ensures forall x :: x in RepairOne(b).value ==> IsMadeFrom(b, x)
  {
    var promoted := PromoteTableHead(FixLevel(b));
    var stepped := RepairStepsBlock(promoted).value;
    var noted := ListAsNotes(DedupeCalloutTitle(stepped));
    assert IsMadeFrom(b, noted);
    if IsOversizedTable(noted) {
      ChunksPartitionRows(noted, noted.rows, 1);
    }
  }

  /** The gate holds of everything below the blocks of a sequence. */
  ghost predicate HoldsBelow(gate: Block -> bool, bs: seq<Block>) {
    forall b :: b in bs && b.Block? ==> Holds(gate, Below(b))
  }

  lemma {:induction false} RepairSeqKeeps(bs: seq<Block>, gate: Block -> bool)
    requires RepairSeq(bs).Some? && IsKept(gate) && Holds(gate, WalkAll(bs))
    ensures Holds(gate, WalkAll(RepairSeq(bs).value))
  {
    if bs != [] {
      var first := RepairEntry(bs[0]).value;
      RepairSeqKeeps(bs[1..], gate);
      WalkAllConcat(first, RepairSeq(bs[1..]).value);
      if bs[0].Block? {
        assert Walk(bs[0]) == [bs[0]] + Below(bs[0]);
        assert gate(bs[0]);
      }
      RepairEntryKeeps(bs[0], gate);
      HoldsThroughout(first, gate);
    }
  }

  lemma {:induction false} RepairEntryKeeps(b: Block, gate: Block -> bool)
    requires RepairEntry(b).Some? && IsKept(gate) && (b.Block? ==> Holds(gate, Below(b)))
    ensures HoldsBelow(gate, RepairEntry(b).value)
    ensures forall x :: x in RepairEntry(b).value && x.Block? ==> IsMadeFrom(b, x)
    decreases b, 1
  {
    if b.Block? && !IsEmptyParagraph(b) {
      var nested := RepairNested(b).value;
      RepairNestedKeeps(b, gate);
      RepairOneMakes(nested);
      RepairOneWalk(nested);
      assert forall words: Prose :: gate(TextParagraph(words));
    }
  }

  lemma {:induction false} RepairNestedKeeps(b: Block, gate: Block -> bool)
    requires b.Block? && RepairNested(b).Some? && IsKept(gate) && Holds(gate, Below(b))
    ensures Holds(gate, Below(RepairNested(b).value)) && IsMadeFrom(b, RepairNested(b).value)
    ensures IsEmptyParagraph(RepairNested(b).value) <==> IsEmptyParagraph(b)
    decreases b, 0
  {
    RepairSeqKeeps(b.blocks, gate);
    RepairSeqKeeps(b.children, gate);
    RepairNestedStepsKeep(b.steps, gate);
  }

  lemma {:induction false} RepairNestedStepsKeep(ss: seq<Step>, gate: Block -> bool)
    requires RepairNestedSteps(ss).Some? && IsKept(gate) && Holds(gate, WalkSteps(ss))
    ensures Holds(gate, WalkSteps(RepairNestedSteps(ss).value))
    ensures |RepairNestedSteps(ss).value| == |ss|
  {
    if ss != [] {
      RepairNestedStepsKeep(ss[1..], gate);
      if ss[0].Step? {
        RepairSeqKeeps(ss[0].blocks, gate);
      }
    }
  }

  lemma {:induction false} RepairSeqKeepsBelow(bs: seq<Block>, gate: Block -> bool)
    requires RepairSeq(bs).Some? && IsKept(gate) && HoldsBelow(gate, bs)
    ensures HoldsBelow(gate, RepairSeq(bs).value)
  {
    if bs != [] {
      RepairSeqKeepsBelow(bs[1..], gate);
      RepairEntryKeeps(bs[0], gate);
    }
  }

  /** The gates that hold at every depth of a repaired Paper. */
  predicate IsSettled(b: Block) {
    Tidy(b) && StepsInPlace(b)
  }

  predicate IsUnnumbered(b: Block) {
    AppendixNumberOf(b) == []
  }

  lemma RepairSeqSettles(bs: seq<Block>)
    requires RepairSeq(bs).Some? && Holds(StepsInPlace, WalkAll(bs))
    ensures Holds(IsSettled, WalkAll(RepairSeq(bs).value))
  {
    RepairSeqIsTidy(bs);
    assert IsKept(StepsInPlace);
    RepairSeqKeeps(bs, StepsInPlace);
  }

  lemma RepairSeqStaysUnnumbered(bs: seq<Block>)
    requires RepairSeq(bs).Some? && HoldsBelow(IsUnnumbered, bs)
    ensures HoldsBelow(IsUnnumbered, RepairSeq(bs).value)
  {
    assert IsKept(IsUnnumbered);
    RepairSeqKeepsBelow(bs, IsUnnumbered);
  }

  // ------------------------------------------------------ the opening stages --

  /** A block the opening stages may put at the top level: one of the source, one of
      the source with its level or byline items touched up, or a new leaf. */
  ghost predicate IsTouchUp(b: Block, bs: seq<Block>) {
    || b in bs
    || (exists o :: o in bs && IsRetouched(o, b))
    || (b.Block? && b.kind in {Heading, Ingress, Byline} && b.blocks == [] && b.children == [] && b.steps == [])
  }

  predicate IsRetouched(o: Block, b: Block) {
    && o.Block? && b.Block? && o.kind in {Heading, Byline}
    && b == o.(level := b.level, items := b.items)
  }

  /** An expandable given another id and summary. */
  predicate IsRelabelled(o: Block, b: Block) {
    o.Block? && b.Block? && o.kind == Expandable && b == o.(id := b.id, summary := b.summary)
  }

  /** A gate the later stages cannot fail: it survives their touches and passes the
      blocks they make. */
  ghost predicate IsStable(gate: Block -> bool) {
    && (forall o: Block, b: Block :: IsRetouched(o, b) && gate(o) ==> gate(b))
    && (forall o: Block, b: Block :: IsRelabelled(o, b) && gate(o) ==> gate(b))
    && (forall b: Block :: b.Block? && b.kind in {Heading, Ingress, Byline, Expandable} && b.blocks == [] && b.steps == []
          ==> gate(b))
  }

  lemma SettledIsStable()
    ensures IsStable(IsSettled) && IsStable(Tidy)
  {
  }

  lemma TouchUpsStaySettled(bs: seq<Block>, out: seq<Block>, gate: Block -> bool)
    requires IsStable(gate) && Holds(gate, WalkAll(bs)) && forall b :: b in out ==> IsTouchUp(b, bs)
    ensures Holds(gate, WalkAll(out))
  {
    forall b | b in out && b.Block?
      ensures gate(b) && Holds(gate, Below(b))
    {
      if b in bs {
        MemberHolds(bs, b, gate);
      } else if o :| o in bs && IsRetouched(o, b) {
        MemberHolds(bs, o, gate);
        assert Below(b) == Below(o);
      } else {
        assert Below(b) == [];
      }
    }
    HoldsThroughout(out, gate);
  }

  lemma TouchUpsKeepBelow(bs: seq<Block>, out: seq<Block>, gate: Block -> bool)
    requires HoldsBelow(gate, bs) && forall b :: b in out ==> IsTouchUp(b, bs)
    ensures HoldsBelow(gate, out)
  {
    forall b | b in out && b.Block?
      ensures Holds(gate, Below(b))
    {
      if b !in bs {
        if o :| o in bs && IsRetouched(o, b) {
          assert Below(b) == Below(o);
        } else {
          assert Below(b) == [];
        }
      }
    }
  }

  lemma MemberHolds(bs: seq<Block>, b: Block, gate: Block -> bool)
    requires Holds(gate, WalkAll(bs)) && b in bs && b.Block?
    ensures gate(b) && Holds(gate, Below(b))
  {
    var i :| 0 <= i < |bs| && bs[i] == b;
    WalkAllContains(bs, i);
    assert Walk(b) == [b] + Below(b);
  }

  lemma {:induction false} DemotedMember(bs: seq<Block>, b: Block)
    requires b in DemoteAll(bs)
    ensures exists o :: o in bs && b == Demote(o)
  {
    if b != Demote(bs[0]) {
      DemotedMember(bs[1..], b);
      var o :| o in bs[1..] && b == Demote(o);
      assert o in bs;
    }
  }

  /** A block that `PlaceH1` leaves is one of the source, one demoted, or the new h1. */
  lemma PlacedMember(bs: seq<Block>, title: Prose, b: Block)
    requires b in PlaceH1(bs, title)
    ensures b in bs || b == NewH1(title) || exists o :: o in bs && b == Demote(o)
  {
    var k := FirstH1(bs, 0);
    if k < |bs| && b in DemoteAll(bs[k + 1..]) {
      DemotedMember(bs[k + 1..], b);
      var o :| o in bs[k + 1..] && b == Demote(o);
      assert o in bs;
    }
  }

  lemma PlaceH1TouchesUp(bs: seq<Block>, title: Prose)
    ensures forall b :: b in PlaceH1(bs, title) ==> IsTouchUp(b, bs)
  {
    forall b | b in PlaceH1(bs, title)
      ensures IsTouchUp(b, bs)
    {
      PlacedMember(bs, title, b);
      if b !in bs && b != NewH1(title) {
        var o :| o in bs && b == Demote(o);
        assert IsRetouched(o, b);
      }
    }
  }

  lemma {:induction false} RefreshTouchesUp(bs: seq<Block>, items: seq<Prose>)
    ensures forall b :: b in RefreshFrom(bs, items) ==> IsTouchUp(b, bs)
  {
    if bs != [] {
      if IsOrientation(bs[0]) {
        assert IsRetouched(bs[0], bs[0].(items := AsItems(items)));
      } else {
        RefreshTouchesUp(bs[1..], items);
      }
    }
  }

  lemma InsertedMembers(bs: seq<Block>, at: nat, added: Block)
    requires at <= |bs|
    ensures forall b :: b in InsertAt(bs, at, added) ==> b == added || b in bs
  {
  }

  lemma CompleteTouchesUp(bs: seq<Block>, description: Prose)
    requires bs != []
    ensures forall b :: b in CompleteOpening(bs, description) ==> IsTouchUp(b, bs)
  {
    var started := WithIngress(bs, description);
    InsertedMembers(bs, 1, NewIngress(description));
    InsertedMembers(started, OrientationIndex(bs), NewOrientation(OrientationItems(started)));
  }

  lemma PrepareTouches(title: Prose, description: Prose, bs: seq<Block>)
    ensures var placed := PlaceH1(bs, title);
            var renewed := RefreshOrientation(placed);
            && (forall b :: b in placed ==> IsTouchUp(b, bs))
            && (forall b :: b in renewed ==> IsTouchUp(b, placed))
            && (forall b :: b in Prepare(title, description, bs) ==> IsTouchUp(b, renewed))
  {
    var placed := PlaceH1(bs, title);
    PlaceH1TouchesUp(bs, title);
    RefreshTouchesUp(placed, OrientationItems(placed));
    CompleteTouchesUp(RefreshOrientation(placed), description);
  }

  lemma PrepareStaysSettled(title: Prose, description: Prose, bs: seq<Block>, gate: Block -> bool)
    requires IsStable(gate) && Holds(gate, WalkAll(bs))
    ensures Holds(gate, WalkAll(Prepare(title, description, bs)))
  {
    var placed := PlaceH1(bs, title);
    var renewed := RefreshOrientation(placed);
    PrepareTouches(title, description, bs);
    TouchUpsStaySettled(bs, placed, gate);
    TouchUpsStaySettled(placed, renewed, gate);
    TouchUpsStaySettled(renewed, Prepare(title, description, bs), gate);
  }

  lemma PrepareStaysUnnumbered(title: Prose, description: Prose, bs: seq<Block>)
    requires HoldsBelow(IsUnnumbered, bs)
    ensures HoldsBelow(IsUnnumbered, Prepare(title, description, bs))
  {
    var placed := PlaceH1(bs, title);
    var renewed := RefreshOrientation(placed);
    PrepareTouches(title, description, bs);
    TouchUpsKeepBelow(bs, placed, IsUnnumbered);
    TouchUpsKeepBelow(placed, renewed, IsUnnumbered);
    TouchUpsKeepBelow(renewed, Prepare(title, description, bs), IsUnnumbered);
  }

  lemma {:induction false} DemoteKeepsGenerated(bs: seq<Block>)
    ensures Generated(DemoteAll(bs)) == Generated(bs)
  {
    if bs != [] {
      DemoteKeepsGenerated(bs[1..]);
      GeneratedAfter(Demote(bs[0]), DemoteAll(bs[1..]));
    }
  }

  lemma PlaceH1KeepsGenerated(bs: seq<Block>, title: Prose)
    ensures Generated(PlaceH1(bs, title)) == Generated(bs)
  {
    var k := FirstH1(bs, 0);
    if k == |bs| {
      GeneratedAfter(NewH1(title), bs);
    } else {
      var front, after := bs[..k], bs[k + 1..];
      assert bs == front + ([bs[k]] + after);
      GeneratedConcat(front, [bs[k]] + after);
      GeneratedAfter(bs[k], after);
      GeneratedAfter(bs[k], front);
      GeneratedConcat([bs[k]] + front, DemoteAll(after));
      DemoteKeepsGenerated(after);
    }
  }

  lemma {:induction false} RefreshKeepsGenerated(bs: seq<Block>, items: seq<Prose>)
    ensures Generated(RefreshFrom(bs, items)) == Generated(bs)
  {
    if bs != [] {
      if IsOrientation(bs[0]) {
        GeneratedAfter(bs[0].(items := AsItems(items)), bs[1..]);
      } else {
        RefreshKeepsGenerated(bs[1..], items);
        GeneratedAfter(bs[0], RefreshFrom(bs[1..], items));
      }
    }
  }

  lemma PutBetween(front: seq<Block>, b: Block, back: seq<Block>)
    requires !IsGeneratedAppendix(b)
    ensures Generated(front + ([b] + back)) == Generated(front + back)
  {
    GeneratedConcat(front, back);
    GeneratedConcat(front, [b] + back);
    GeneratedAfter(b, back);
    assert [] + Generated(back) == Generated(back);
  }

  lemma InsertKeepsGenerated(bs: seq<Block>, at: nat, b: Block)
    requires at <= |bs| && !IsGeneratedAppendix(b)
    ensures Generated(InsertAt(bs, at, b)) == Generated(bs)
  {
    PutBetween(bs[..at], b, bs[at..]);
    Assoc(bs[..at], [b], bs[at..]);
    assert bs[..at] + bs[at..] == bs;
  }

  /** The opening stages leave the generated appendices alone. */
  lemma PrepareKeepsGenerated(title: Prose, description: Prose, bs: seq<Block>)
    ensures Generated(Prepare(title, description, bs)) == Generated(bs)
  {
    var placed := PlaceH1(bs, title);
    var renewed := RefreshOrientation(placed);
    PlaceH1KeepsGenerated(bs, title);
    RefreshKeepsGenerated(placed, OrientationItems(placed));
    CompleteKeepsGenerated(renewed, description);
  }

  lemma CompleteKeepsGenerated(bs: seq<Block>, description: Prose)
    requires bs != []
    ensures Generated(CompleteOpening(bs, description)) == Generated(bs)
  {
    var started := WithIngress(bs, description);
    InsertKeepsGenerated(bs, 1, NewIngress(description));
    InsertKeepsGenerated(started, OrientationIndex(bs), NewOrientation(OrientationItems(started)));
  }

  // ------------------------------------------------------------ the collapses --

  lemma {:induction false} RenumberStaysSettled(bs: seq<Block>, index: nat, unwrap: bool, gate: Block -> bool)
    requires IsStable(gate) && Holds(gate, WalkAll(bs))
    ensures Holds(gate, WalkAll(Renumber(bs, index, unwrap)))
  {
    if bs != [] {
      var b := bs[0];
      var next := if IsGeneratedAppendix(b) then index + 1 else index;
      RenumberStaysSettled(bs[1..], next, unwrap, gate);
      if b.Block? {
        MemberHolds(bs, b, gate);
      }
      var first := if !IsGeneratedAppendix(b) then [b]
                   else if IsDropped(b, index, unwrap) then b.children
                   else [Normalised(b, index + 1)];
      HealedStaysSettled(b, index, first, gate);
      WalkAllConcat(first, Renumber(bs[1..], next, unwrap));
      assert Renumber(bs, index, unwrap) == first + Renumber(bs[1..], next, unwrap);
    }
  }

  lemma HealedStaysSettled(b: Block, index: nat, first: seq<Block>, gate: Block -> bool)
    requires IsStable(gate) && (b.Block? ==> gate(b) && Holds(gate, Below(b)))
    requires first == [b] || (b.Block? && b.kind == Expandable && (first == b.children || first == [Normalised(b, index + 1)]))
    ensures Holds(gate, WalkAll(first))
  {
    if first == [b] {
      WalkOfOne(b);
      if b.Block? {
        assert Walk(b) == [b] + Below(b);
      }
    } else if first == [Normalised(b, index + 1)] {
      var n := Normalised(b, index + 1);
      assert IsRelabelled(b, n);
      WalkOfOne(n);
      assert Walk(n) == [n] + Below(n) && Below(n) == Below(b);
    }
  }

  lemma FoldStaysSettled(bs: seq<Block>, gate: Block -> bool)
    requires IsStable(gate) && NoneGenerated(bs) && Holds(gate, WalkAll(bs))
    ensures Holds(gate, WalkAll(FoldTail(bs)))
  {
    var out := FoldTail(bs);
    forall b | b in out && b.Block?
      ensures gate(b) && Holds(gate, Below(b))
    {
      FoldedBlock(bs, b);
      if b in bs {
        MemberHolds(bs, b, gate);
      } else {
        var index :| IsAppendix(b, index);
        AppendixBelow(b, index);
        forall c | c in b.children && c.Block?
          ensures gate(c) && Holds(gate, Below(c))
        {
          MemberHolds(bs, c, gate);
        }
        HoldsThroughout(b.children, gate);
      }
    }
    HoldsThroughout(out, gate);
  }

  lemma AppendixBelow(b: Block, index: nat)
    requires IsAppendix(b, index)
    ensures Below(b) == WalkAll(b.children) && b.blocks == [] && b.steps == []
  {
    assert b.blocks == [] && b.steps == [];
    assert Below(b) == WalkAll([]) + WalkAll(b.children) + WalkSteps([]);
  }

  lemma CollapseStaysSettled(bs: seq<Block>, gate: Block -> bool)
    requires IsStable(gate) && Holds(gate, WalkAll(bs))
    ensures Holds(gate, WalkAll(CollapseEvidenceAppendices(bs)))
  {
    CollapseCases(bs);
    if Generated(bs) != [] {
      RenumberStaysSettled(bs, 0, HasArtifact(Generated(bs)), gate);
    } else {
      FoldStaysSettled(bs, gate);
    }
  }

  // ------------------------------------------------------------- the numbers --

  /** A child of a generated appendix, and what is below it, are below the appendix. */
  lemma ChildIsBelow(b: Block, c: Block)
    requires b.Block? && c in b.children && c.Block?
    ensures forall x :: x in [c] + Below(c) ==> x in Below(b)
  {
    var i :| 0 <= i < |b.children| && b.children[i] == c;
    WalkAllContains(b.children, i);
    assert Walk(c) == [c] + Below(c);
  }

  lemma {:induction false} RenumberStaysUnnumbered(bs: seq<Block>, index: nat, unwrap: bool)
    requires HoldsBelow(IsUnnumbered, bs)
    ensures HoldsBelow(IsUnnumbered, Renumber(bs, index, unwrap))
  {
    if bs != [] {
      var b := bs[0];
      RenumberStaysUnnumbered(bs[1..], if IsGeneratedAppendix(b) then index + 1 else index, unwrap);
      if IsGeneratedAppendix(b) {
        forall c | c in b.children && c.Block?
          ensures Holds(IsUnnumbered, Below(c))
        {
          ChildIsBelow(b, c);
        }
        assert Below(Normalised(b, index + 1)) == Below(b);
      }
    }
  }

  lemma FoldStaysUnnumbered(bs: seq<Block>)
    requires NoneGenerated(bs) && HoldsBelow(IsUnnumbered, bs)
    ensures HoldsBelow(IsUnnumbered, FoldTail(bs))
  {
    forall b | b in FoldTail(bs) && b.Block?
      ensures Holds(IsUnnumbered, Below(b))
    {
      FoldedBlock(bs, b);
      if b !in bs {
        var index :| IsAppendix(b, index);
        AppendixBelow(b, index);
        forall c | c in b.children && c.Block?
          ensures IsUnnumbered(c) && Holds(IsUnnumbered, Below(c))
        {
          assert c in bs && !IsGeneratedAppendix(c);
        }
        HoldsThroughout(b.children, IsUnnumbered);
      }
    }
  }

  lemma UnnumberedBelowMeansPlainChildren(bs: seq<Block>)
    requires HoldsBelow(IsUnnumbered, bs)
    ensures HasPlainChildren(bs)
  {
    forall b | b in bs && IsGeneratedAppendix(b)
      ensures AppendixNumbers(b.children) == []
    {
      forall c | c in b.children
        ensures AppendixNumberOf(c) == []
      {
        if c.Block? {
          ChildIsBelow(b, c);
          assert c in Below(b) && IsUnnumbered(c);
        }
      }
      UnnumberedWalk(b.children);
    }
  }

  lemma NumbersOfWalk(b: Block)
    requires b.Block? && AppendixNumbers(Below(b)) == []
    ensures AppendixNumbers(Walk(b)) == AppendixNumberOf(b)
  {
    assert Walk(b) == [b] + Below(b);
    FirstNumber(b, Below(b));
  }

  lemma FirstNumber(b: Block, rest: seq<Block>)
    requires AppendixNumbers(rest) == []
    ensures AppendixNumbers([b] + rest) == AppendixNumberOf(b)
  {
    AppendixNumbersCons([b] + rest);
    assert ([b] + rest)[1..] == rest;
  }

  lemma WalkedNumbersAreTopLevel(bs: seq<Block>)
    requires HoldsBelow(IsUnnumbered, bs)
    ensures AppendixNumbers(WalkAll(bs)) == AppendixNumbers(bs)
  {
    forall b | b in bs && b.Block?
      ensures AppendixNumbers(Walk(b)) == AppendixNumberOf(b)
    {
      assert forall x :: x in Below(b) ==> IsUnnumbered(x);
      UnnumberedWalk(Below(b));
      NumbersOfWalk(b);
    }
    NumbersAreTopLevel(bs);
  }

  /** The appendix numbers the audit meets after the collapse. */
  lemma CollapseNumbersTheWalk(bs: seq<Block>)
    requires HoldsBelow(IsUnnumbered, bs)
    ensures var numbers := AppendixNumbers(WalkAll(CollapseEvidenceAppendices(bs)));
            && (numbers == UpTo(|numbers|) <==> !HasGap(Generated(bs)))
            && (|Generated(bs)| <= MAX_APPENDICES ==> |numbers| <= MAX_APPENDICES)
  {
    CollapseCases(bs);
    if Generated(bs) != [] {
      RenumberStaysUnnumbered(bs, 0, HasArtifact(Generated(bs)));
    } else {
      FoldStaysUnnumbered(bs);
    }
    WalkedNumbersAreTopLevel(CollapseEvidenceAppendices(bs));
    UnnumberedBelowMeansPlainChildren(bs);
    CollapseNumbersIff(bs);
  }

  lemma DenseStaysSettled(bs: seq<Block>)
    requires Holds(IsSettled, WalkAll(bs))
    ensures Holds(IsSettled, WalkAll(CollapseDense(bs)))
  {
    DenseWalk(bs, 1);
    assert forall x :: IsWrapper(x) ==> IsSettled(x);
  }

  // ------------------------------------------------------------ the id repair --

  lemma ShapeDecidesGates(a: Block, b: Block)
    requires Shape(a) == Shape(b)
    ensures AppendixNumberOf(a) == AppendixNumberOf(b)
    ensures Tidy(a) <==> Tidy(b)
    ensures StepsInPlace(a) <==> StepsInPlace(b)
  {
    if a.Block? {
      SameTitles(a, b);
      SameTitles(b, a);
      assert |a.steps| == |Titles(a.steps)| == |b.steps|;
    }
  }

  lemma SameTitles(a: Block, b: Block)
    requires a.Block? && b.Block? && Shape(a) == Shape(b)
    ensures HasOverloadedTitle(a) ==> HasOverloadedTitle(b)
  {
    if HasOverloadedTitle(a) {
      var s :| s in a.steps && s.Step? && |s.title| > MAX_STEP_TITLE_WORDS;
      var i :| 0 <= i < |a.steps| && a.steps[i] == s;
      assert Titles(a.steps) == Titles(b.steps);
      assert Titles(a.steps)[i] == Titles(b.steps)[i];
      assert b.steps[i] in b.steps;
    }
  }

  lemma {:induction false} ShapesDecideNumbers(a: seq<Block>, b: seq<Block>)
    requires Shapes(a) == Shapes(b)
    ensures AppendixNumbers(a) == AppendixNumbers(b)
  {
    assert |a| == |Shapes(a)| == |b|;
    if a != [] {
      assert Shape(a[0]) == Shapes(a)[0] == Shapes(b)[0] == Shape(b[0]);
      ShapeDecidesGates(a[0], b[0]);
      assert Shapes(a[1..]) == Shapes(a)[1..] && Shapes(b[1..]) == Shapes(b)[1..];
      ShapesDecideNumbers(a[1..], b[1..]);
    }
  }

  lemma RenamingKeepsNumbers(bs: seq<Block>)
    ensures AppendixNumbers(WalkAll(UniquifyBlockIds(bs))) == AppendixNumbers(WalkAll(bs))
  {
    RenamingKeepsAllShapes(bs, START);
    ShapesDecideNumbers(WalkAll(bs), WalkAll(UniquifyBlockIds(bs)));
  }

  lemma RenamingStaysSettled(bs: seq<Block>)
    requires Holds(IsSettled, WalkAll(bs))
    ensures Holds(IsSettled, WalkAll(UniquifyBlockIds(bs)))
  {
    var a, b := WalkAll(bs), WalkAll(UniquifyBlockIds(bs));
    RenamingKeepsAllShapes(bs, START);
    assert |a| == |Shapes(a)| == |Shapes(b)| == |b|;
    forall x | x in b
      ensures IsSettled(x)
    {
      var i :| 0 <= i < |b| && b[i] == x;
      assert Shape(a[i]) == Shapes(a)[i] == Shapes(b)[i] == Shape(b[i]);
      assert a[i] in a && IsSettled(a[i]);
      ShapeDecidesGates(a[i], b[i]);
    }
  }

  /** The final ids are distinct as the audit counts them. */
  lemma AuditedIdsAreDistinct(bs: seq<Block>)
    requires Holds(IsSettled, WalkAll(bs))
    ensures Distinct(IdsOf(WalkAll(UniquifyBlockIds(bs))))
  {
    var out := UniquifyBlockIds(bs);
    RenamingStaysSettled(bs);
    IdsAreDistinct(bs);
    AuditedIdsAreVisitedIn(out);
    FewerThanDistinct(IdsOf(WalkAll(out)), IdsAll(out));
  }

  // -------------------------------------------------------------- the theorems --

  lemma ArrangedIsSettled(title: Prose, description: Prose, repaired: seq<Block>)
    requires Holds(IsSettled, WalkAll(repaired))
    ensures var out := Arrange(title, description, repaired);
            Holds(IsSettled, WalkAll(out)) && Distinct(IdsOf(WalkAll(out)))
  {
    var ready := Prepare(title, description, repaired);
    var folded := CollapseEvidenceAppendices(ready);
    var light := CollapseDense(folded);
    SettledIsStable();
    PrepareStaysSettled(title, description, repaired, IsSettled);
    CollapseStaysSettled(ready, IsSettled);
    DenseStaysSettled(folded);
    RenamingStaysSettled(light);
    AuditedIdsAreDistinct(light);
  }

  /** What the repair returns, when it returns. */
  lemma ReturnsArranged(paper: Paper)
    requires Repair(paper).Ok?
    ensures RepairSeq(paper.blocks).Some?
    ensures Repair(paper).value == Arrange(paper.title, paper.description, RepairSeq(paper.blocks).value)
  {
  }

  /** The repair establishes the structural gates: on every Paper whose steps sit on
      steps blocks, whatever the repair returns has distinct ids, and at every depth no
      overloaded step title, no table over twelve rows, no paragraph-sized list item
      and no empty paragraph. */
  lemma RepairEstablishesGates(paper: Paper)
    requires Repair(paper).Ok? && Holds(StepsInPlace, WalkAll(paper.blocks))
    ensures var out := Repair(paper).value;
            Distinct(IdsOf(WalkAll(out))) && Holds(Tidy, WalkAll(out))
  {
    ReturnsArranged(paper);
    RepairSeqSettles(paper.blocks);
    ArrangedIsSettled(paper.title, paper.description, RepairSeq(paper.blocks).value);
    SettledIsTidy(WalkAll(Repair(paper).value));
  }

  lemma SettledIsTidy(walked: seq<Block>)
    requires Holds(IsSettled, walked)
    ensures Holds(Tidy, walked)
  {
    forall b | b in walked
      ensures Tidy(b)
    {
      assert IsSettled(b);
    }
  }

  /** The appendices of the result are numbered 1..k exactly when the Paper did not come
      with a light appendix past the fourth before a longer one, and k is at most four
      unless it came with more. */
  lemma AppendixNumberingIff(paper: Paper)
    requires Repair(paper).Ok? && HoldsBelow(IsUnnumbered, paper.blocks)
    ensures var made, numbers := Generated(RepairSeq(paper.blocks).value), AppendixNumbers(WalkAll(Repair(paper).value));
            && (numbers == UpTo(|numbers|) <==> !HasGap(made))
            && (|made| <= MAX_APPENDICES ==> |numbers| <= MAX_APPENDICES)
  {
    ReturnsArranged(paper);
    RepairSeqStaysUnnumbered(paper.blocks);
    ArrangedNumbers(paper.title, paper.description, RepairSeq(paper.blocks).value);
  }

  lemma ArrangedNumbers(title: Prose, description: Prose, repaired: seq<Block>)
    requires HoldsBelow(IsUnnumbered, repaired)
    ensures var made, numbers := Generated(repaired), AppendixNumbers(WalkAll(Arrange(title, description, repaired)));
            && (numbers == UpTo(|numbers|) <==> !HasGap(made))
            && (|made| <= MAX_APPENDICES ==> |numbers| <= MAX_APPENDICES)
  {
    var ready := Prepare(title, description, repaired);
    var folded := CollapseEvidenceAppendices(ready);
    PrepareStaysUnnumbered(title, description, repaired);
    PrepareKeepsGenerated(title, description, repaired);
    CollapseNumbersTheWalk(ready);
    DenseKeepsNumbers(folded, 1);
    RenamingKeepsNumbers(CollapseDense(folded));
  }

  lemma {:induction false} RepairKeepsGenerated(bs: seq<Block>)
    requires RepairSeq(bs).Some?
    ensures |Generated(RepairSeq(bs).value)| == |Generated(bs)|
  {
    if bs != [] {
      RepairKeepsGenerated(bs[1..]);
      RepairEntryKeepsGenerated(bs[0]);
      GeneratedConcat(RepairEntry(bs[0]).value, RepairSeq(bs[1..]).value);
    }
  }

  /** The block repair keeps an expandable, but for what is inside it. */
  lemma RepairEntryKeepsGenerated(b: Block)
    requires RepairEntry(b).Some?
    ensures IsGeneratedAppendix(b) ==> RepairNested(b).Some? && RepairEntry(b).value == [RepairNested(b).value]
    ensures IsGeneratedAppendix(b) ==> IsGeneratedAppendix(RepairNested(b).value)
    ensures !IsGeneratedAppendix(b) ==> NoneGenerated(RepairEntry(b).value)
    ensures |Generated(RepairEntry(b).value)| == if IsGeneratedAppendix(b) then 1 else 0
  {
    var out := RepairEntry(b).value;
    if IsGeneratedAppendix(b) {
      var n := RepairNested(b).value;
      assert out == [n] && out[1..] == [];
    } else {
      if b.Block? && !IsEmptyParagraph(b) {
        RepairOneMakes(RepairNested(b).value);
      }
      UnwrapPlain(out);
    }
  }

  /** So a Paper with at most four generated appendices passes the numbering gate. */
  lemma FewAppendicesAreNumbered(paper: Paper)
    requires Repair(paper).Ok? && HoldsBelow(IsUnnumbered, paper.blocks) && |Generated(paper.blocks)| <= MAX_APPENDICES
    ensures var numbers := AppendixNumbers(WalkAll(Repair(paper).value));
            numbers == UpTo(|numbers|) && |numbers| <= MAX_APPENDICES
  {
    AppendixNumberingIff(paper);
    RepairKeepsGenerated(paper.blocks);
  }

  /** The same, in the audit's own words: the reports on the repaired blocks do not
      contain these findings, and the numbering is reported exactly for a gap. */
  method AuditRepaired(paper: Paper)
    returns (r: Result<seq<Block>, Refusal>, failures: seq<Failure>, warnings: seq<Warning>)
    requires Holds(StepsInPlace, WalkAll(paper.blocks)) && HoldsBelow(IsUnnumbered, paper.blocks)
    ensures r == Repair(paper)
    ensures r.Ok? ==> DuplicateBlockId !in failures && OverloadedStepTitle !in failures
    ensures r.Ok? ==> (EvidenceAppendixNumbering in failures <==> HasGap(Generated(RepairSeq(paper.blocks).value)))
    ensures r.Ok? ==> OversizedTable !in warnings && ParagraphSizedListItem !in warnings
    ensures r.Err? ==> failures == [] && warnings == []
  {
    failures, warnings := [], [];
    r := RepairCanonicalEpic(paper);
    if r.Ok? {
      RepairEstablishesGates(paper);
      AppendixNumberingIff(paper);
      failures := CompositionFailures(r.value);
      warnings := DensityWarnings(r.value);
      assert forall b :: b in WalkAll(r.value) ==> Tidy(b);
    }
  }

  // ----------------------------------------------------------------- the outline --

  ghost predicate OneH1First(bs: seq<Block>) {
    bs != [] && IsH1(bs[0]) && forall i :: 0 < i < |bs| ==> !IsH1(bs[i])
  }

  lemma MovedToFront<T>(b: T, front: seq<T>, back: seq<T>, i: nat)
    requires i < 1 + |front| + |back|
    ensures ([b] + front + back)[i]
              == if i == 0 then b else if i <= |front| then front[i - 1] else back[i - 1 - |front|]
  {
  }

  lemma PlaceH1Places(bs: seq<Block>, title: Prose)
    ensures OneH1First(PlaceH1(bs, title))
    ensures PlaceH1(bs, title)[0].level == if FirstH1(bs, 0) == |bs| then IntLevel(1) else bs[FirstH1(bs, 0)].level
  {
    var k := FirstH1(bs, 0);
    var out := PlaceH1(bs, title);
    forall i | 0 < i < |out|
      ensures !IsH1(out[i])
    {
      if k == |bs| {
        assert out[i] == bs[i - 1];
      } else {
        MovedToFront(bs[k], bs[..k], DemoteAll(bs[k + 1..]), i);
        if i > k {
          DemotedIsNotH1(bs[i]);
        }
      }
    }
  }

  lemma DemotedIsNotH1(b: Block)
    ensures !IsH1(Demote(b))
  {
  }

  lemma {:induction false} RefreshKeepsHeadings(bs: seq<Block>, items: seq<Prose>, i: nat)
    requires i < |bs|
    ensures var r := RefreshFrom(bs, items)[i];
            (IsH1(r) <==> IsH1(bs[i])) && (IsH1(r) ==> r == bs[i])
  {
    if i > 0 && !IsOrientation(bs[0]) {
      RefreshKeepsHeadings(bs[1..], items, i - 1);
    }
  }

  lemma InsertKeepsFirst(bs: seq<Block>, at: nat, b: Block)
    requires OneH1First(bs) && 0 < at <= |bs| && !IsH1(b)
    ensures OneH1First(InsertAt(bs, at, b)) && InsertAt(bs, at, b)[0] == bs[0]
  {
    var out := InsertAt(bs, at, b);
    forall i | 0 < i < |out|
      ensures !IsH1(out[i])
    {
      assert out[i] == if i < at then bs[i] else if i == at then b else bs[i - 1];
    }
  }

  lemma RefreshKeepsOneH1(bs: seq<Block>)
    requires OneH1First(bs)
    ensures OneH1First(RefreshOrientation(bs)) && RefreshOrientation(bs)[0] == bs[0]
  {
    var out := RefreshOrientation(bs);
    forall i | 0 <= i < |bs|
      ensures (IsH1(out[i]) <==> IsH1(bs[i])) && (IsH1(out[i]) ==> out[i] == bs[i])
    {
      RefreshKeepsHeadings(bs, OrientationItems(bs), i);
    }
  }

  lemma CompleteKeepsOneH1(bs: seq<Block>, description: Prose)
    requires OneH1First(bs)
    ensures OneH1First(CompleteOpening(bs, description)) && CompleteOpening(bs, description)[0] == bs[0]
  {
    var withIngress := WithIngress(bs, description);
    InsertKeepsFirst(bs, 1, NewIngress(description));
    InsertKeepsFirst(withIngress, OrientationIndex(bs), NewOrientation(OrientationItems(withIngress)));
  }

  lemma PrepareHasOneH1(title: Prose, description: Prose, bs: seq<Block>)
    ensures OneH1First(Prepare(title, description, bs))
    ensures Prepare(title, description, bs)[0].level
              == if FirstH1(bs, 0) == |bs| then IntLevel(1) else bs[FirstH1(bs, 0)].level
  {
    var placed := PlaceH1(bs, title);
    PlaceH1Places(bs, title);
    RefreshKeepsOneH1(placed);
    CompleteKeepsOneH1(RefreshOrientation(placed), description);
  }

  /** Top-level headings the audit counts as h1. */
  function CountH1(bs: seq<Block>): nat {
    if bs == [] then 0 else (if IsHeading(bs[0]) && bs[0].level == IntLevel(1) then 1 else 0) + CountH1(bs[1..])
  }

  lemma {:induction false} CountH1IsAudited(bs: seq<Block>)
    ensures multiset(OutlineLevels(bs))[1] == CountH1(bs)
  {
    if bs != [] {
      CountH1IsAudited(bs[1..]);
      var rest := OutlineLevels(bs[1..]);
      if IsHeading(bs[0]) && bs[0].level.IntLevel? {
        assert OutlineLevels(bs) == [bs[0].level.n] + rest;
      } else {
        assert OutlineLevels(bs) == rest;
      }
    }
  }

  lemma {:induction false} CountH1Concat(a: seq<Block>, b: seq<Block>)
    ensures CountH1(a + b) == CountH1(a) + CountH1(b)
  {
    if a == [] {
      assert a + b == b;
    } else {
      Peel(a, b);
      CountH1Concat(a[1..], b);
    }
  }

  lemma {:induction false} SameHeadingsCount(a: seq<Block>, b: seq<Block>)
    requires |a| == |b|
    requires forall i :: 0 <= i < |a| ==> (IsHeading(a[i]) <==> IsHeading(b[i])) && (IsHeading(a[i]) ==> a[i].level == b[i].level)
    ensures CountH1(a) == CountH1(b)
  {
    if a != [] {
      SameHeadingsCount(a[1..], b[1..]);
    }
  }

  lemma {:induction false} NoH1NoneCounted(bs: seq<Block>)
    requires forall i :: 0 <= i < |bs| ==> !IsH1(bs[i])
    ensures CountH1(bs) == 0
  {
    if bs != [] {
      assert !IsH1(bs[0]);
      NoH1NoneCounted(bs[1..]);
    }
  }

  lemma OneH1Counted(bs: seq<Block>)
    requires OneH1First(bs)
    ensures CountH1(bs) == if bs[0].level.IntLevel? then 1 else 0
  {
    assert forall i :: 0 <= i < |bs[1..]| ==> bs[1..][i] == bs[i + 1];
    NoH1NoneCounted(bs[1..]);
  }

  /** What the dropped appendices put at the top level. */
  function Exposed(gs: seq<Block>, index: nat, unwrap: bool): seq<Block> {
    if gs == [] then []
    else (if gs[0].Block? && IsDropped(gs[0], index, unwrap) then gs[0].children else []) + Exposed(gs[1..], index + 1, unwrap)
  }

  function ExposedBy(bs: seq<Block>): seq<Block> {
    Exposed(Generated(bs), 0, HasArtifact(Generated(bs)))
  }

  lemma {:induction false} RenumberCountsH1(bs: seq<Block>, index: nat, unwrap: bool)
    ensures CountH1(Renumber(bs, index, unwrap)) == CountH1(bs) + CountH1(Exposed(Generated(bs), index, unwrap))
  {
    if bs != [] {
      if !IsGeneratedAppendix(bs[0]) {
        RenumberCountsH1(bs[1..], index, unwrap);
        assert Generated(bs) == Generated(bs[1..]);
        assert Renumber(bs, index, unwrap)[1..] == Renumber(bs[1..], index, unwrap);
      } else {
        var rest := Renumber(bs[1..], index + 1, unwrap);
        RenumberCountsH1(bs[1..], index + 1, unwrap);
        GeneratedCons(bs);
        if IsDropped(bs[0], index, unwrap) {
          CountH1Concat(bs[0].children, rest);
          CountH1Concat(bs[0].children, Exposed(Generated(bs[1..]), index + 1, unwrap));
        } else {
          assert Renumber(bs, index, unwrap)[1..] == rest;
          assert Exposed(Generated(bs), index, unwrap) == Exposed(Generated(bs[1..]), index + 1, unwrap);
        }
      }
    }
  }

  lemma FoldCountsH1(bs: seq<Block>)
    requires OneH1First(bs) && NoneGenerated(bs)
    ensures CountH1(FoldTail(bs)) == CountH1(bs)
  {
    var out := FoldTail(bs);
    FoldKeepsFirst(bs);
    forall i | 0 < i < |out|
      ensures !IsH1(out[i])
    {
      assert out[i] == out[1..][i - 1];
      if out[i] in bs[1..] {
        var j :| 0 <= j < |bs[1..]| && bs[1..][j] == out[i];
        assert bs[j + 1] == out[i];
      }
    }
    OneH1Counted(bs);
    OneH1Counted(out);
  }

  lemma CollapseCountsH1(bs: seq<Block>)
    requires OneH1First(bs)
    ensures CountH1(CollapseEvidenceAppendices(bs)) == CountH1(bs) + CountH1(ExposedBy(bs))
  {
    CollapseCases(bs);
    if Generated(bs) != [] {
      RenumberCountsH1(bs, 0, HasArtifact(Generated(bs)));
    } else {
      FoldCountsH1(bs);
    }
  }

  lemma TouchUpsKeepH1s(bs: seq<Block>)
    ensures CountH1(UniquifyBlockIds(CollapseDense(bs))) == CountH1(bs)
  {
    var light := CollapseDense(bs);
    SameHeadingsCount(light, bs);
    forall i | 0 <= i < |light|
      ensures Shape(UniquifyBlockIds(light)[i]) == Shape(light[i])
    {
      RenamingKeepsTopShapes(light, START, i);
    }
    SameHeadingsCount(UniquifyBlockIds(light), light);
  }

  /** Levels of the top-level headings, string levels read as integers. */
  function TopLevels(bs: seq<Block>): seq<Level> {
    if bs == [] then [] else TopLevelOf(bs[0]) + TopLevels(bs[1..])
  }

  function TopLevelOf(b: Block): seq<Level> {
    if IsHeading(b) then [FixLevel(b).level] else []
  }

  lemma {:induction false} TopLevelsConcat(a: seq<Block>, b: seq<Block>)
    ensures TopLevels(a + b) == TopLevels(a) + TopLevels(b)
  {
    if a == [] {
      assert a + b == b;
    } else {
      TopLevelsConcat(a[1..], b);
      assert (a + b)[1..] == a[1..] + b;
      Assoc(TopLevelOf(a[0]), TopLevels(a[1..]), TopLevels(b));
    }
  }

  function FirstLevelOne(levels: seq<Level>): Option<Level> {
    if levels == [] then None
    else if IsLevelOne(levels[0]) then Some(levels[0])
    else FirstLevelOne(levels[1..])
  }

  /** The sequence repair neither adds, drops nor reorders top-level headings. */
  lemma {:induction false} RepairKeepsTopLevels(bs: seq<Block>)
    requires RepairSeq(bs).Some?
    ensures TopLevels(RepairSeq(bs).value) == TopLevels(bs)
    ensures forall b :: b in RepairSeq(bs).value && IsHeading(b) ==> FixLevel(b) == b
  {
    if bs != [] {
      RepairKeepsTopLevels(bs[1..]);
      TopLevelsConcat(RepairEntry(bs[0]).value, RepairSeq(bs[1..]).value);
      RepairEntryKeepsLevel(bs[0]);
    }
  }

  lemma RepairEntryKeepsLevel(b: Block)
    requires RepairEntry(b).Some?
    ensures TopLevels(RepairEntry(b).value) == if IsHeading(b) then [FixLevel(b).level] else []
    ensures forall x :: x in RepairEntry(b).value && IsHeading(x) ==> FixLevel(x) == x
  {
    var out := RepairEntry(b).value;
    if b.Block? && !IsEmptyParagraph(b) {
      var nested := RepairNested(b).value;
      if IsHeading(b) {
        assert out == [FixLevel(nested)];
        assert out[1..] == [];
      } else {
        var noted := ListAsNotes(DedupeCalloutTitle(RepairStepsBlock(PromoteTableHead(FixLevel(nested))).value));
        if IsOversizedTable(noted) {
          ChunksPartitionRows(noted, noted.rows, 1);
        }
        NoHeadingsNoLevels(out);
      }
    } else {
      NoHeadingsNoLevels(out);
    }
  }

  lemma {:induction false} NoHeadingsNoLevels(bs: seq<Block>)
    requires forall b :: b in bs ==> !IsHeading(b)
    ensures TopLevels(bs) == []
  {
    if bs != [] {
      NoHeadingsNoLevels(bs[1..]);
    }
  }

  lemma {:induction false} FirstH1IsFirstLevelOne(bs: seq<Block>, from: nat)
    requires from <= |bs| && forall b :: b in bs && IsHeading(b) ==> FixLevel(b) == b
    ensures FirstLevelOne(TopLevels(bs[from..]))
              == if FirstH1(bs, from) == |bs| then None else Some(bs[FirstH1(bs, from)].level)
    decreases |bs| - from
  {
    if from < |bs| {
      var b := bs[from];
      assert b in bs;
      assert bs[from..][1..] == bs[from + 1..];
      FirstH1IsFirstLevelOne(bs, from + 1);
      var rest := TopLevels(bs[from + 1..]);
      if IsHeading(b) {
        assert TopLevels(bs[from..]) == [b.level] + rest;
        assert ([b.level] + rest)[1..] == rest;
      } else {
        assert TopLevels(bs[from..]) == rest;
      }
    }
  }

  /** When the one-h1 gate fails on the result.  The h1 the repair placed counts unless
      it carries the JSON float 1.0, which the repair takes for level one (1.0 == 1)
      while the audit counts only integers; to it come the h1s inside appendices that
      were opened for good. */
  lemma OutlineGateFailsIff(paper: Paper)
    requires Repair(paper).Ok?
    ensures OutlineRequiresOneH1 in OutlineFailures(Repair(paper).value) <==>
            (if FirstLevelOne(TopLevels(paper.blocks)) == Some(FloatLevel(1.0)) then 0 else 1)
            + CountH1(ExposedBy(RepairSeq(paper.blocks).value)) != 1
  {
    ReturnsArranged(paper);
    PlacedH1Counts(paper.blocks);
    ArrangedH1s(paper.title, paper.description, RepairSeq(paper.blocks).value);
    CountH1IsAudited(Repair(paper).value);
  }

  /** The placed h1, as the audit counts it. */
  function PlacedH1(repaired: seq<Block>): nat {
    var k := FirstH1(repaired, 0);
    if k == |repaired| || repaired[k].level.IntLevel? then 1 else 0
  }

  lemma PlacedH1Counts(bs: seq<Block>)
    requires RepairSeq(bs).Some?
    ensures PlacedH1(RepairSeq(bs).value) == if FirstLevelOne(TopLevels(bs)) == Some(FloatLevel(1.0)) then 0 else 1
  {
    var repaired := RepairSeq(bs).value;
    RepairKeepsTopLevels(bs);
    FirstH1IsFirstLevelOne(repaired, 0);
    assert repaired[0..] == repaired;
  }

  lemma ArrangedH1s(title: Prose, description: Prose, repaired: seq<Block>)
    ensures CountH1(Arrange(title, description, repaired)) == PlacedH1(repaired) + CountH1(ExposedBy(repaired))
  {
    var ready := Prepare(title, description, repaired);
    PrepareHasOneH1(title, description, repaired);
    PrepareKeepsGenerated(title, description, repaired);
    OneH1Counted(ready);
    CollapseCountsH1(ready);
    TouchUpsKeepH1s(CollapseEvidenceAppendices(ready));
  }

  /** Nothing is opened for good in a Paper with at most four generated appendices. */
  lemma {:induction false} FewExposeNothing(gs: seq<Block>, index: nat, unwrap: bool)
    requires index + |gs| <= MAX_APPENDICES
    ensures Exposed(gs, index, unwrap) == []
  {
    if gs != [] {
      FewExposeNothing(gs[1..], index + 1, unwrap);
    }
  }

  /** So there the gate fails exactly for the float. */
  lemma OutlineGateFailsIffFloatH1(paper: Paper)
    requires Repair(paper).Ok? && |Generated(paper.blocks)| <= MAX_APPENDICES
    ensures OutlineRequiresOneH1 in OutlineFailures(Repair(paper).value) <==>
            FirstLevelOne(TopLevels(paper.blocks)) == Some(FloatLevel(1.0))
  {
    var made := Generated(RepairSeq(paper.blocks).value);
    OutlineGateFailsIff(paper);
    RepairKeepsGenerated(paper.blocks);
    FewExposeNothing(made, 0, HasArtifact(made));
  }

  // ----------------------------------------------------------------- the words --

  lemma {:induction false} VisibleOfPermuted(bs: seq<Block>, k: nat)
    requires k < |bs|
    ensures multiset(VisibleAll([bs[k]] + bs[..k] + bs[k + 1..])) == multiset(VisibleAll(bs))
  {
    var before, b, after := bs[..k], bs[k], bs[k + 1..];
    assert bs == before + ([b] + after);
    VisibleAllConcat(before, [b] + after);
    VisibleAllConcat([b], after);
    VisibleAllConcat([b] + before, after);
    VisibleAllConcat([b], before);
  }

  lemma {:induction false} DemotionKeepsWords(bs: seq<Block>)
    ensures VisibleAll(DemoteAll(bs)) == VisibleAll(bs)
  {
    if bs != [] {
      DemotionKeepsWords(bs[1..]);
    }
  }

  /** Moving a block to the front and demoting the headings after it. */
  lemma MovedKeepsWords(bs: seq<Block>, k: nat)
    requires k < |bs|
    ensures multiset(VisibleAll([bs[k]] + bs[..k] + DemoteAll(bs[k + 1..]))) == multiset(VisibleAll(bs))
  {
    var front, after := [bs[k]] + bs[..k], bs[k + 1..];
    VisibleOfPermuted(bs, k);
    VisibleAllConcat(front, after);
    VisibleAllConcat(front, DemoteAll(after));
    DemotionKeepsWords(after);
  }

  lemma PlaceH1KeepsWords(bs: seq<Block>, title: Prose)
    ensures multiset(VisibleAll(bs)) <= multiset(VisibleAll(PlaceH1(bs, title)))
  {
    var k := FirstH1(bs, 0);
    if k == |bs| {
      VisibleAllConcat([NewH1(title)], bs);
    } else {
      MovedKeepsWords(bs, k);
    }
  }

  lemma InsertKeepsWords(bs: seq<Block>, at: nat, b: Block)
    requires at <= |bs|
    ensures multiset(VisibleAll(bs)) <= multiset(VisibleAll(InsertAt(bs, at, b)))
  {
    assert bs == bs[..at] + bs[at..];
    VisibleAllConcat(bs[..at], bs[at..]);
    VisibleAllConcat(bs[..at] + [b], bs[at..]);
    VisibleAllConcat(bs[..at], [b]);
  }

  lemma {:induction false} NothingToRefresh(bs: seq<Block>, items: seq<Prose>)
    requires forall b :: b in bs ==> !IsOrientation(b)
    ensures RefreshFrom(bs, items) == bs
  {
    if bs != [] {
      NothingToRefresh(bs[1..], items);
    }
  }

  lemma PlaceH1MakesNoOrientation(bs: seq<Block>, title: Prose)
    requires forall b :: b in bs ==> !IsOrientation(b)
    ensures forall b :: b in PlaceH1(bs, title) ==> !IsOrientation(b)
  {
    forall b | b in PlaceH1(bs, title)
      ensures !IsOrientation(b)
    {
      PlacedMember(bs, title, b);
    }
  }

  lemma PrepareKeepsWords(title: Prose, description: Prose, bs: seq<Block>)
    requires forall b :: b in bs ==> !IsOrientation(b)
    ensures multiset(VisibleAll(bs)) <= multiset(VisibleAll(Prepare(title, description, bs)))
  {
    var placed := PlaceH1(bs, title);
    PlaceH1KeepsWords(bs, title);
    PlaceH1MakesNoOrientation(bs, title);
    NothingToRefresh(placed, OrientationItems(placed));
    var withIngress := WithIngress(placed, description);
    InsertKeepsWords(placed, 1, NewIngress(description));
    InsertKeepsWords(withIngress, OrientationIndex(placed), NewOrientation(OrientationItems(withIngress)));
  }

  lemma {:induction false} RepairMakesNoOrientation(bs: seq<Block>)
    requires RepairSeq(bs).Some? && forall b :: b in bs ==> !IsOrientation(b)
    ensures forall b :: b in RepairSeq(bs).value ==> !IsOrientation(b)
  {
    if bs != [] {
      RepairMakesNoOrientation(bs[1..]);
      RepairEntryMakesNoOrientation(bs[0]);
    }
  }

  lemma RepairEntryMakesNoOrientation(b: Block)
    requires RepairEntry(b).Some? && !IsOrientation(b)
    ensures forall x :: x in RepairEntry(b).value ==> !IsOrientation(x)
  {
    if b.Block? && !IsEmptyParagraph(b) {
      var nested := RepairNested(b).value;
      var noted := ListAsNotes(DedupeCalloutTitle(RepairStepsBlock(PromoteTableHead(FixLevel(nested))).value));
      if IsOversizedTable(noted) {
        ChunksPartitionRows(noted, noted.rows, 1);
      }
    }
  }

  /** Words of the summaries of generated appendices. */
  function SummaryWords(gs: seq<Block>): Prose {
    if gs == [] then [] else (if gs[0].Block? then gs[0].summary else []) + SummaryWords(gs[1..])
  }

  /** What a Paper shows is what it shows with its generated appendices opened, and
      their summaries. */
  lemma {:induction false} SummariesAside(bs: seq<Block>)
    ensures multiset(VisibleAll(bs)) == multiset(VisibleAll(Unwrap(bs))) + multiset(SummaryWords(Generated(bs)))
  {
    if bs != [] {
      SummariesAside(bs[1..]);
      VisibleAllConcat(Opened(bs[0]), Unwrap(bs[1..]));
      if IsGeneratedAppendix(bs[0]) {
        GeneratedCons(bs);
        assert VisibleAll(bs) == bs[0].summary + VisibleAll(bs[0].children) + VisibleAll(bs[1..]);
      } else {
        assert Generated(bs) == Generated(bs[1..]);
        VisibleOfOne(bs[0]);
      }
    }
  }

  lemma {:induction false} RepairKeepsSummaries(bs: seq<Block>)
    requires RepairSeq(bs).Some?
    ensures SummaryWords(Generated(RepairSeq(bs).value)) == SummaryWords(Generated(bs))
  {
    if bs != [] {
      var first, rest := RepairEntry(bs[0]).value, RepairSeq(bs[1..]).value;
      RepairKeepsSummaries(bs[1..]);
      RepairEntryKeepsGenerated(bs[0]);
      if IsGeneratedAppendix(bs[0]) {
        GeneratedCons(bs);
        GeneratedAfter(first[0], rest);
        assert Generated(first + rest)[1..] == Generated(rest);
      } else {
        assert Generated(bs) == Generated(bs[1..]);
        UnwrapPlain(first);
        GeneratedConcat(first, rest);
        assert [] + Generated(rest) == Generated(rest);
      }
    }
  }

  lemma CountsSubtract<T>(a: multiset<T>, b: multiset<T>, c: multiset<T>)
    requires a + c <= b + c
    ensures a <= b
  {
    forall x: T
      ensures a[x] <= b[x]
    {
      assert (a + c)[x] <= (b + c)[x];
    }
  }

  /** The repair never loses a word: every word the source shows, the summaries of its
      generated appendices aside, occurs in the result at least as often.  The
      exceptions are the shapes `LosesNothing` names, at any depth, and a generated
      orientation line, which is rewritten. */
  lemma RepairLosesNoWord(paper: Paper)
    requires Repair(paper).Ok? && Holds(LosesNothing, WalkAll(paper.blocks))
    requires forall b :: b in paper.blocks ==> !IsOrientation(b)
    ensures multiset(VisibleAll(Unwrap(paper.blocks))) <= multiset(VisibleAll(Repair(paper).value))
  {
    ReturnsArranged(paper);
    var repaired := RepairSeq(paper.blocks).value;
    RepairSeqKeepsWords(paper.blocks);
    WithinKeepsCounts(VisibleAll(paper.blocks), VisibleAll(repaired));
    RepairMakesNoOrientation(paper.blocks);
    PrepareKeepsWords(paper.title, paper.description, repaired);
    UnwrappedCounts(paper, repaired, Prepare(paper.title, paper.description, repaired));
    CollapsesKeepCounts(Prepare(paper.title, paper.description, repaired));
  }

  lemma CollapsesKeepCounts(ready: seq<Block>)
    ensures multiset(VisibleAll(Unwrap(ready)))
              <= multiset(VisibleAll(UniquifyBlockIds(CollapseDense(CollapseEvidenceAppendices(ready)))))
  {
    var folded := CollapseEvidenceAppendices(ready);
    var light := CollapseDense(folded);
    CollapseKeepsWords(ready);
    WithinKeepsCounts(VisibleAll(Unwrap(ready)), VisibleAll(folded));
    DenseKeepsWords(folded, 1);
    WithinKeepsCounts(VisibleAll(folded), VisibleAll(light));
    RenamingKeepsAllWords(light, START);
  }

  /** The first stages change no summary of a generated appendix. */
  lemma UnwrappedCounts(paper: Paper, repaired: seq<Block>, ready: seq<Block>)
    requires RepairSeq(paper.blocks) == Some(repaired) && ready == Prepare(paper.title, paper.description, repaired)
    requires multiset(VisibleAll(paper.blocks)) <= multiset(VisibleAll(ready))
    ensures multiset(VisibleAll(Unwrap(paper.blocks))) <= multiset(VisibleAll(Unwrap(ready)))
  {
    SummariesAside(paper.blocks);
    SummariesAside(ready);
    RepairKeepsSummaries(paper.blocks);
    PrepareKeepsGenerated(paper.title, paper.description, repaired);
    CountsSubtract(multiset(VisibleAll(Unwrap(paper.blocks))), multiset(VisibleAll(Unwrap(ready))),
                   multiset(SummaryWords(Generated(ready))));
  }
}
