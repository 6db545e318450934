/** When the opening checks of the audit fail on a repaired Paper. */
module OpeningTheorems {
  import opened Wrappers
  import opened Subsequences
  import opened Words
  import opened PaperBlocks
  import opened QualityGates
  import opened BlockRepair
  import opened Appendices
  import opened DenseBlocks
  import opened BlockIds
  import opened EpicRepair
  import opened RepairTheorems

  // ------------------------------------------------- among the first meaningful blocks --

  /** A block of this role stands among the first `room` meaningful ones. */
  predicate Early(bs: seq<Block>, room: nat, role: Block -> bool) {
    if bs == [] || room == 0 then false
    else if IsMeaningful(bs[0]) then role(bs[0]) || Early(bs[1..], room - 1, role)
    else Early(bs[1..], room, role)
  }

  function Take(bs: seq<Block>, room: nat): seq<Block> {
    if |bs| <= room then bs else bs[..room]
  }

  lemma TakeCons(b: Block, rest: seq<Block>, room: nat, role: Block -> bool)
    requires room > 0
    ensures Has(Take([b] + rest, room), role) <==> role(b) || Has(Take(rest, room - 1), role)
  {
    var all, tail := Take([b] + rest, room), Take(rest, room - 1);
    assert all == [b] + tail;
    assert forall x :: x in all <==> x == b || x in tail;
  }

  lemma {:induction false} EarlyIsTaken(bs: seq<Block>, room: nat, role: Block -> bool)
    ensures Has(Take(Meaningful(bs), room), role) <==> Early(bs, room, role)
  {
    if bs != [] && room > 0 {
      if IsMeaningful(bs[0]) {
        EarlyIsTaken(bs[1..], room - 1, role);
        TakeCons(bs[0], Meaningful(bs[1..]), room, role);
      } else {
        EarlyIsTaken(bs[1..], room, role);
        assert Meaningful(bs) == Meaningful(bs[1..]);
      }
    } else {
      assert Take(Meaningful(bs), room) == [];
    }
  }

  lemma EarlyIsOpening(bs: seq<Block>, role: Block -> bool)
    ensures Has(Opening(Meaningful(bs)), role) <==> Early(bs, OPENING_WINDOW, role)
  {
    EarlyIsTaken(bs, OPENING_WINDOW, role);
  }

  lemma {:induction false} EarlyConcat(a: seq<Block>, b: seq<Block>, room: nat, role: Block -> bool)
    ensures Early(a + b, room, role) <==>
              Early(a, room, role) || (|Meaningful(a)| < room && Early(b, room - |Meaningful(a)|, role))
  {
    if a == [] {
      assert a + b == b;
    } else {
      Peel(a, b);
      if room > 0 {
        EarlyConcat(a[1..], b, if IsMeaningful(a[0]) then room - 1 else room, role);
      }
    }
  }

  /** Sequences whose blocks agree one by one open alike. */
  lemma {:induction false} SameOpening(a: seq<Block>, b: seq<Block>, room: nat, role: Block -> bool)
    requires |a| == |b|
    requires forall i :: 0 <= i < |a| ==> IsMeaningful(a[i]) == IsMeaningful(b[i]) && role(a[i]) == role(b[i])
    ensures Early(a, room, role) == Early(b, room, role)
  {
    if a != [] && room > 0 {
      SameOpening(a[1..], b[1..], if IsMeaningful(a[0]) then room - 1 else room, role);
    }
  }

  /** A meaningful block among the first `room` blocks is early. */
  lemma {:induction false} EarlyAt(bs: seq<Block>, room: nat, role: Block -> bool, i: nat)
    requires i < |bs| && i < room && IsMeaningful(bs[i]) && role(bs[i])
    ensures Early(bs, room, role)
  {
    if i > 0 {
      EarlyAt(bs[1..], if IsMeaningful(bs[0]) then room - 1 else room, role, i - 1);
    }
  }

  lemma {:induction false} EarlyIsThere(bs: seq<Block>, room: nat, role: Block -> bool)
    requires Early(bs, room, role)
    ensures exists b :: b in bs && IsMeaningful(b) && role(b)
  {
    if IsMeaningful(bs[0]) && role(bs[0]) {
      assert bs[0] in bs;
    } else {
      EarlyIsThere(bs[1..], if IsMeaningful(bs[0]) then room - 1 else room, role);
      var b :| b in bs[1..] && IsMeaningful(b) && role(b);
      assert b in bs;
    }
  }

  lemma NoneEarly(bs: seq<Block>, room: nat, role: Block -> bool)
    requires forall b :: b in bs ==> !role(b)
    ensures !Early(bs, room, role)
  {
    if Early(bs, room, role) {
      EarlyIsThere(bs, room, role);
    }
  }

  // --------------------------------------------------- the last stages change nothing --

  /** A role read off the block's own fields, and never played by what the collapses
      fold or make. */
  ghost predicate IsRole(role: Block -> bool) {
    && (forall a: Block, b: Block :: Shape(a) == Shape(b) ==> role(a) == role(b))
    && (forall b: Block :: b.Block? && b.kind in {Paragraph, Notes, Table, Expandable} ==> !role(b))
  }

  lemma RolesAreRoles()
    ensures IsRole(IsH1) && IsRole(IsIngress) && IsRole(Orients)
  {
    H1IsRole();
    IngressIsRole();
    OrientsIsRole();
  }

  lemma H1IsRole()
    ensures IsRole(IsH1)
  {
    KindsDecide(IsH1);
  }

  lemma IngressIsRole()
    ensures IsRole(IsIngress)
  {
    KindsDecide(IsIngress);
  }

  lemma OrientsIsRole()
    ensures IsRole(Orients)
  {
    KindsDecide(Orients);
  }

  /** A role that depends on the kind and the level only. */
  lemma KindsDecide(role: Block -> bool)
    requires forall a: Block, b: Block ::
               a.Block? && b.Block? && a.kind == b.kind && a.level == b.level ==> role(a) == role(b)
    requires forall b: Block :: b.NotBlock? || b.kind in {Paragraph, Notes, Table, Expandable} ==> !role(b)
    ensures IsRole(role)
  {
    forall a: Block, b: Block | Shape(a) == Shape(b)
      ensures role(a) == role(b)
    {
      SameKind(a, b);
    }
  }

  lemma SameKind(a: Block, b: Block)
    requires Shape(a) == Shape(b)
    ensures a.Block? == b.Block? && (a.Block? ==> a.kind == b.kind && a.level == b.level)
  {
    assert a.Block? ==> a.kind == Shape(a).kind == b.kind && a.level == Shape(a).level == b.level;
  }

  lemma {:induction false} ShownIsCounted(b: Block)
    ensures |Visible(b)| <= PlainCount(b)
    decreases b
  {
    if b.Block? {
      ShownIsCountedIn(b.blocks);
      ShownIsCountedIn(b.children);
      ShownIsCountedInSteps(b.steps);
    }
  }

  lemma {:induction false} ShownIsCountedIn(bs: seq<Block>)
    ensures |VisibleAll(bs)| <= PlainCountAll(bs)
  {
    if bs != [] {
      ShownIsCounted(bs[0]);
      ShownIsCountedIn(bs[1..]);
    }
  }

  lemma {:induction false} ShownIsCountedInSteps(ss: seq<Step>)
    ensures |VisibleSteps(ss)| <= PlainCountSteps(ss) && |VisibleStrays(ss)| <= PlainCountSteps(ss)
  {
    if ss != [] {
      ShownIsCountedInSteps(ss[1..]);
      if ss[0].Step? {
        ShownIsCountedIn(ss[0].blocks);
      }
    }
  }

  lemma {:induction false} ItemIsCounted(items: seq<Item>, item: Item)
    requires item in items
    ensures |ItemWords(item)| <= |ItemsWords(items)|
  {
    if item != items[0] {
      ItemIsCounted(items[1..], item);
    }
  }

  lemma {:induction false} CellIsCounted(cells: seq<Prose>, cell: Prose)
    requires cell in cells
    ensures |cell| <= |Join(cells)|
  {
    if cell != cells[0] {
      CellIsCounted(cells[1..], cell);
    }
  }

  lemma {:induction false} RowIsCounted(rows: seq<Row>, row: Row)
    requires row in rows
    ensures |RowWords(row)| <= |RowsWords(rows)|
  {
    if row != rows[0] {
      RowIsCounted(rows[1..], row);
    }
  }

  lemma DenseIsMeaningful(b: Block)
    requires IsDense(b) && !IsEmptyParagraph(b)
    ensures IsMeaningful(b)
  {
    if b.kind == Paragraph {
      ShownIsCounted(b);
    } else if b.kind == Notes {
      var item :| item in b.items && |ItemWords(item)| > 80;
      ItemIsCounted(b.items, item);
    } else {
      var row :| row in b.rows && row.Cells? && exists cell | cell in row.cells :: |cell| > 60;
      var cell :| cell in row.cells && |cell| > 60;
      CellIsCounted(row.cells, cell);
      RowIsCounted(b.rows, row);
    }
  }

  lemma WrapperIsMeaningful(b: Block, index: nat)
    requires b.Block?
    ensures IsMeaningful(Wrapped(b, index))
  {
    assert |DenseSummary(b, index)| > 0;
  }

  ghost predicate NoSpacers(bs: seq<Block>) {
    forall b :: b in bs ==> !IsEmptyParagraph(b)
  }

  lemma DenseOpensAlike(bs: seq<Block>, role: Block -> bool)
    requires IsRole(role) && NoSpacers(bs)
    ensures Early(CollapseDense(bs), OPENING_WINDOW, role) == Early(bs, OPENING_WINDOW, role)
  {
    var out := CollapseDense(bs);
    forall i | 0 <= i < |bs|
      ensures IsMeaningful(out[i]) == IsMeaningful(bs[i]) && role(out[i]) == role(bs[i])
    {
      assert bs[i] in bs;
      if IsDense(bs[i]) {
        DenseIsMeaningful(bs[i]);
        WrapperIsMeaningful(bs[i], 1 + i);
      }
    }
    SameOpening(out, bs, OPENING_WINDOW, role);
  }

  lemma {:induction false} AnonymousAt(bs: seq<Block>, i: nat)
    requires i < |bs|
    ensures |AnonymousAll(bs)| == |bs| && AnonymousAll(bs)[i] == Anonymous(bs[i])
  {
    if i > 0 {
      AnonymousAt(bs[1..], i - 1);
    } else if |bs| > 1 {
      AnonymousAt(bs[1..], 0);
    }
  }

  lemma RenamedIsMeaningful(a: Block, b: Block)
    requires Shape(a) == Shape(b) && Anonymous(a) == Anonymous(b)
    ensures IsMeaningful(a) == IsMeaningful(b)
  {
    CountIsBlind(a);
    CountIsBlind(b);
    if a.Block? {
      assert a.kind == Shape(a).kind && a.content == Shape(a).content && a.text == Shape(a).text;
    }
  }

  lemma RenamedOpensAlike(bs: seq<Block>, role: Block -> bool)
    requires IsRole(role)
    ensures Early(UniquifyBlockIds(bs), OPENING_WINDOW, role) == Early(bs, OPENING_WINDOW, role)
  {
    var out := UniquifyBlockIds(bs);
    OnlyIdsChange(bs);
    forall i | 0 <= i < |bs|
      ensures IsMeaningful(out[i]) == IsMeaningful(bs[i]) && role(out[i]) == role(bs[i])
    {
      RenamingKeepsTopShapes(bs, START, i);
      AnonymousAt(bs, i);
      AnonymousAt(out, i);
      RenamedIsMeaningful(out[i], bs[i]);
    }
    SameOpening(out, bs, OPENING_WINDOW, role);
  }

  lemma CollapsedHasNoSpacers(title: Prose, description: Prose, bs: seq<Block>)
    requires RepairSeq(bs).Some?
    ensures NoSpacers(CollapseEvidenceAppendices(Prepare(title, description, RepairSeq(bs).value)))
  {
    var repaired := RepairSeq(bs).value;
    var ready := Prepare(title, description, repaired);
    var folded := CollapseEvidenceAppendices(ready);
    SettledIsStable();
    RepairSeqIsTidy(bs);
    PrepareStaysSettled(title, description, repaired, Tidy);
    CollapseStaysSettled(ready, Tidy);
    forall b | b in folded
      ensures !IsEmptyParagraph(b)
    {
      if b.Block? {
        MemberHolds(folded, b, Tidy);
      }
    }
  }

  /** The Paper as it is when the appendices have been folded or healed. */
  function Collapsed(paper: Paper): seq<Block>
    requires RepairSeq(paper.blocks).Some?
  {
    CollapseEvidenceAppendices(Ready(paper))
  }

  function Ready(paper: Paper): seq<Block>
    requires RepairSeq(paper.blocks).Some?
  {
    Prepare(paper.title, paper.description, RepairSeq(paper.blocks).value)
  }

  /** The opening of the result is decided when the appendices are in place. */
  lemma OpeningIsCollapsed(paper: Paper, role: Block -> bool)
    requires Repair(paper).Ok? && IsRole(role)
    ensures Has(Opening(Meaningful(Repair(paper).value)), role) <==> Early(Collapsed(paper), OPENING_WINDOW, role)
  {
    ReturnsArranged(paper);
    EarlyIsOpening(Repair(paper).value, role);
    CollapsedHasNoSpacers(paper.title, paper.description, paper.blocks);
    DenseOpensAlike(Collapsed(paper), role);
    RenamedOpensAlike(CollapseDense(Collapsed(paper)), role);
  }

  // ------------------------------------------------------------------- after folding --

  /** Blocks at the front that neither open a section nor are appendices stay there. */
  lemma CollapseKeepsStart(bs: seq<Block>, k: nat)
    requires k <= |bs| && forall i :: 0 <= i < k ==> !IsSectionHead(bs[i]) && !IsGeneratedAppendix(bs[i])
    ensures bs[..k] <= CollapseEvidenceAppendices(bs)
  {
    CollapseCases(bs);
    if Generated(bs) != [] {
      RenumberKeepsStart(bs, 0, HasArtifact(Generated(bs)), k);
    } else {
      FoldKeepsStart(bs, k);
    }
  }

  lemma FoldKeepsStart(bs: seq<Block>, k: nat)
    requires k <= |bs| && forall i :: 0 <= i < k ==> !IsSectionHead(bs[i])
    ensures bs[..k] <= FoldTail(bs)
  {
    if FoldPlan(bs).Some? {
      assert k <= NextSection(bs, 0);
      assert bs[..k] <= FoldPlan(bs).value.front;
    }
  }

  lemma {:induction false} RenumberKeepsStart(bs: seq<Block>, index: nat, unwrap: bool, k: nat)
    requires k <= |bs| && forall i :: 0 <= i < k ==> !IsGeneratedAppendix(bs[i])
    ensures bs[..k] <= Renumber(bs, index, unwrap)
  {
    if k > 0 {
      RenumberKeepsStart(bs[1..], index, unwrap, k - 1);
      assert bs[..k] == [bs[0]] + bs[1..][..k - 1];
    }
  }

  lemma {:induction false} AppendicesAreMeaningful(folded: seq<Block>, index: nat, role: Block -> bool, room: nat)
    requires AreAppendices(folded, index) && IsRole(role)
    ensures |Meaningful(folded)| == |folded| && !Early(folded, room, role)
  {
    if folded != [] {
      assert IsAppendix(folded[0], index + 0);
      AppendixIsGenerated(index, folded[0].children);
      assert folded[0].summary != [] && IsMeaningful(folded[0]);
      AppendicesTail(folded, index);
      AppendicesAreMeaningful(folded[1..], index + 1, role, if room > 0 then room - 1 else 0);
    }
  }

  /** What stays early when a Paper is folded: in front, or at the end when front and
      appendices leave room. */
  predicate StaysInSight(plan: Plan, role: Block -> bool)
    requires plan.hidden != []
  {
    var before := |Meaningful(plan.front)| + |AppendicesOf(plan)|;
    || Early(plan.front, OPENING_WINDOW, role)
    || (before < OPENING_WINDOW && Early(plan.back, OPENING_WINDOW - before, role))
  }

  lemma FoldedOpening(bs: seq<Block>, role: Block -> bool)
    requires IsRole(role) && FoldPlan(bs).Some?
    ensures Early(FoldTail(bs), OPENING_WINDOW, role) <==> StaysInSight(FoldPlan(bs).value, role)
  {
    var plan := FoldPlan(bs).value;
    PlanMakesAppendices(bs);
    OpeningOfThree(plan.front, AppendicesOf(plan), plan.back, role);
  }

  lemma PlanMakesAppendices(bs: seq<Block>)
    requires FoldPlan(bs).Some?
    ensures AreAppendices(AppendicesOf(FoldPlan(bs).value), 1)
  {
    PlanParts(bs);
  }

  lemma OpeningOfThree(front: seq<Block>, folded: seq<Block>, back: seq<Block>, role: Block -> bool)
    requires IsRole(role) && AreAppendices(folded, 1)
    ensures var before := |Meaningful(front)| + |folded|;
            Early(front + folded + back, OPENING_WINDOW, role) <==>
              || Early(front, OPENING_WINDOW, role)
              || (before < OPENING_WINDOW && Early(back, OPENING_WINDOW - before, role))
  {
    var n := |Meaningful(front)|;
    EarlyConcat(front + folded, back, OPENING_WINDOW, role);
    EarlyConcat(front, folded, OPENING_WINDOW, role);
    MeaningfulConcat(front, folded);
    AppendicesAreMeaningful(folded, 1, role, if n < OPENING_WINDOW then OPENING_WINDOW - n else 0);
  }

  lemma {:induction false} MeaningfulConcat(a: seq<Block>, b: seq<Block>)
    ensures |Meaningful(a + b)| == |Meaningful(a)| + |Meaningful(b)|
  {
    if a == [] {
      assert a + b == b;
    } else {
      Peel(a, b);
      MeaningfulConcat(a[1..], b);
    }
  }

  // ------------------------------------------------------------------- after healing --

  /** What is early once the appendices are healed: one that is kept is a block with
      words, one that is opened brings what it holds. */
  predicate Surfaces(bs: seq<Block>, index: nat, unwrap: bool, room: nat, role: Block -> bool) {
    if bs == [] || room == 0 then false
    else if !IsGeneratedAppendix(bs[0]) then
      if IsMeaningful(bs[0]) then role(bs[0]) || Surfaces(bs[1..], index, unwrap, room - 1, role)
      else Surfaces(bs[1..], index, unwrap, room, role)
    else if IsDropped(bs[0], index, unwrap) then
      var brought := bs[0].children;
      || Early(brought, room, role)
      || (|Meaningful(brought)| < room && Surfaces(bs[1..], index + 1, unwrap, room - |Meaningful(brought)|, role))
    else Surfaces(bs[1..], index + 1, unwrap, room - 1, role)
  }

  lemma NormalisedIsMeaningful(b: Block, index: nat, role: Block -> bool)
    requires IsGeneratedAppendix(b) && NoAppendixPlays(role)
    ensures IsMeaningful(Normalised(b, index)) && !role(Normalised(b, index))
  {
    NormalisedIsGenerated(b, index);
    assert AppendixSummary(index, b.children)[0] == "Evidence";
  }

  /** An appendix does not play the role. */
  ghost predicate NoAppendixPlays(role: Block -> bool) {
    forall b :: IsGeneratedAppendix(b) ==> !role(b)
  }

  lemma {:induction false} HealedOpening(bs: seq<Block>, index: nat, unwrap: bool, room: nat, role: Block -> bool)
    requires NoAppendixPlays(role)
    ensures Early(Renumber(bs, index, unwrap), room, role) <==> Surfaces(bs, index, unwrap, room, role)
  {
    if bs != [] && room > 0 {
      var next := if IsGeneratedAppendix(bs[0]) then index + 1 else index;
      var left := RoomBehind(bs[0], index, unwrap, room);
      HealedOpening(bs[1..], next, unwrap, left, role);
      if !IsGeneratedAppendix(bs[0]) {
        NoAppendix(bs, index, unwrap, room, role);
      } else if IsDropped(bs[0], index, unwrap) {
        OpenedAppendix(bs, index, unwrap, room, role);
      } else {
        KeptAppendix(bs, index, unwrap, room, role);
      }
    }
  }

  /** Places left behind a block of a Paper that is healed. */
  function RoomBehind(b: Block, index: nat, unwrap: bool, room: nat): nat
    requires room > 0
  {
    if !IsGeneratedAppendix(b) then if IsMeaningful(b) then room - 1 else room
    else if IsDropped(b, index, unwrap) then RoomAfter(b.children, room)
    else room - 1
  }

  function RoomAfter(bs: seq<Block>, room: nat): nat {
    if |Meaningful(bs)| < room then room - |Meaningful(bs)| else 0
  }

  lemma {:induction false} NoAppendix(bs: seq<Block>, index: nat, unwrap: bool, room: nat, role: Block -> bool)
    requires bs != [] && room > 0 && !IsGeneratedAppendix(bs[0])
    ensures var rest := Renumber(bs[1..], index, unwrap);
            Early(Renumber(bs, index, unwrap), room, role) <==>
              if IsMeaningful(bs[0]) then role(bs[0]) || Early(rest, room - 1, role) else Early(rest, room, role)
  {
    EarlyCons(bs[0], Renumber(bs[1..], index, unwrap), room, role);
  }

  lemma {:induction false} OpenedAppendix(bs: seq<Block>, index: nat, unwrap: bool, room: nat, role: Block -> bool)
    requires bs != [] && room > 0 && IsGeneratedAppendix(bs[0]) && IsDropped(bs[0], index, unwrap)
    ensures var brought, rest := bs[0].children, Renumber(bs[1..], index + 1, unwrap);
            Early(Renumber(bs, index, unwrap), room, role) <==>
              || Early(brought, room, role)
              || (|Meaningful(brought)| < room && Early(rest, room - |Meaningful(brought)|, role))
  {
    EarlyConcat(bs[0].children, Renumber(bs[1..], index + 1, unwrap), room, role);
  }

  lemma {:induction false} KeptAppendix(bs: seq<Block>, index: nat, unwrap: bool, room: nat, role: Block -> bool)
    requires NoAppendixPlays(role) && bs != [] && room > 0
    requires IsGeneratedAppendix(bs[0]) && !IsDropped(bs[0], index, unwrap)
    ensures Early(Renumber(bs, index, unwrap), room, role) <==>
              Early(Renumber(bs[1..], index + 1, unwrap), room - 1, role)
  {
    NormalisedIsMeaningful(bs[0], index + 1, role);
    EarlyCons(Normalised(bs[0], index + 1), Renumber(bs[1..], index + 1, unwrap), room, role);
  }

  lemma EarlyCons(b: Block, rest: seq<Block>, room: nat, role: Block -> bool)
    requires room > 0
    ensures Early([b] + rest, room, role) <==>
              if IsMeaningful(b) then role(b) || Early(rest, room - 1, role) else Early(rest, room, role)
  {
    assert ([b] + rest)[1..] == rest;
  }

  /** Whether the role is out of sight of the audit when the appendices are in place;
      `unseen` answers for a Paper that is neither healed nor folded. */
  predicate IsOutOfSight(ready: seq<Block>, role: Block -> bool, unseen: bool) {
    if Generated(ready) != [] then !Surfaces(ready, 0, HasArtifact(Generated(ready)), OPENING_WINDOW, role)
    else if FoldPlan(ready).Some? then !StaysInSight(FoldPlan(ready).value, role)
    else unseen
  }

  lemma OutOfSightIff(ready: seq<Block>, role: Block -> bool, unseen: bool)
    requires IsRole(role)
    requires Generated(ready) == [] && FoldPlan(ready).None? ==> unseen == !Early(ready, OPENING_WINDOW, role)
    ensures IsOutOfSight(ready, role, unseen) <==> !Early(CollapseEvidenceAppendices(ready), OPENING_WINDOW, role)
  {
    CollapseCases(ready);
    if Generated(ready) != [] {
      HealedOpening(ready, 0, HasArtifact(Generated(ready)), OPENING_WINDOW, role);
    } else if FoldPlan(ready).Some? {
      FoldedOpening(ready, role);
    }
  }

  // ------------------------------------------------------------------------- the h1 --

  /** The block the repair makes the h1. */
  function PlacedHeading(repaired: seq<Block>, title: Prose): Block {
    var k := FirstH1(repaired, 0);
    if k == |repaired| then NewH1(title) else repaired[k]
  }

  lemma ReadyStartsWithH1(title: Prose, description: Prose, bs: seq<Block>)
    ensures OneH1First(Prepare(title, description, bs))
    ensures Prepare(title, description, bs)[0] == PlacedHeading(bs, title)
  {
    var placed := PlaceH1(bs, title);
    PlaceH1Places(bs, title);
    RefreshKeepsOneH1(placed);
    CompleteKeepsOneH1(RefreshOrientation(placed), description);
  }

  lemma {:induction false} FewAreRelabelled(bs: seq<Block>, index: nat, unwrap: bool, b: Block)
    requires index + |Generated(bs)| <= MAX_APPENDICES && b in Renumber(bs, index, unwrap)
    ensures b in bs || IsKind(b, Expandable)
  {
    if !IsGeneratedAppendix(bs[0]) {
      if b != bs[0] {
        assert Generated(bs) == Generated(bs[1..]);
        FewAreRelabelled(bs[1..], index, unwrap, b);
      }
    } else {
      GeneratedCons(bs);
      if b != Normalised(bs[0], index + 1) {
        FewAreRelabelled(bs[1..], index + 1, unwrap, b);
      }
    }
  }

  lemma CollapsedMember(bs: seq<Block>, b: Block)
    requires |Generated(bs)| <= MAX_APPENDICES && b in CollapseEvidenceAppendices(bs)
    ensures b in bs || IsKind(b, Expandable)
  {
    CollapseCases(bs);
    if Generated(bs) != [] {
      FewAreRelabelled(bs, 0, HasArtifact(Generated(bs)), b);
    } else {
      FoldedBlock(bs, b);
    }
  }

  /** The missing-h1 check fails exactly when the h1 has no words, the one made from an
      empty title included, unless an opened appendix brings an h1 with words. */
  lemma H1CheckFailsIff(paper: Paper)
    requires Repair(paper).Ok?
    ensures var wordless := PlainCount(PlacedHeading(RepairSeq(paper.blocks).value, paper.title)) == 0;
            && (OpeningMissingH1 in OpeningFailures(Repair(paper).value) <==>
                  wordless && IsOutOfSight(Ready(paper), IsH1, true))
            && (|Generated(paper.blocks)| <= MAX_APPENDICES ==>
                  (OpeningMissingH1 in OpeningFailures(Repair(paper).value) <==> wordless))
  {
    var repaired := RepairSeq(paper.blocks).value;
    RolesAreRoles();
    OpeningIsCollapsed(paper, IsH1);
    ReadyStartsWithH1(paper.title, paper.description, repaired);
    RepairKeepsGenerated(paper.blocks);
    PrepareKeepsGenerated(paper.title, paper.description, repaired);
    if PlainCount(Ready(paper)[0]) > 0 {
      WordedH1IsEarly(Ready(paper));
    } else {
      WordlessH1IsLate(Ready(paper));
      OutOfSightIff(Ready(paper), IsH1, true);
      if |Generated(paper.blocks)| <= MAX_APPENDICES {
        OnlyFirstIsH1(Ready(paper));
      }
    }
  }

  lemma WordlessH1IsLate(ready: seq<Block>)
    requires OneH1First(ready) && PlainCount(ready[0]) == 0
    ensures !Early(ready, OPENING_WINDOW, IsH1)
  {
    if Early(ready, OPENING_WINDOW, IsH1) {
      EarlyIsThere(ready, OPENING_WINDOW, IsH1);
    }
  }

  lemma WordedH1IsEarly(ready: seq<Block>)
    requires OneH1First(ready) && PlainCount(ready[0]) > 0
    ensures Early(CollapseEvidenceAppendices(ready), OPENING_WINDOW, IsH1)
  {
    CollapseKeepsFirst(ready);
    EarlyAt(CollapseEvidenceAppendices(ready), OPENING_WINDOW, IsH1, 0);
  }

  /** With few appendices nothing is opened, so no h1 but the first comes up. */
  lemma {:induction false} OnlyFirstIsH1(ready: seq<Block>)
    requires OneH1First(ready) && |Generated(ready)| <= MAX_APPENDICES && PlainCount(ready[0]) == 0
    ensures !Early(CollapseEvidenceAppendices(ready), OPENING_WINDOW, IsH1)
  {
    NoWordedH1(ready);
    if Early(CollapseEvidenceAppendices(ready), OPENING_WINDOW, IsH1) {
      EarlyIsThere(CollapseEvidenceAppendices(ready), OPENING_WINDOW, IsH1);
    }
  }

  lemma {:induction false} NoWordedH1(ready: seq<Block>)
    requires OneH1First(ready) && |Generated(ready)| <= MAX_APPENDICES && PlainCount(ready[0]) == 0
    ensures forall b :: b in CollapseEvidenceAppendices(ready) && IsH1(b) ==> !IsMeaningful(b)
  {
    forall b | b in CollapseEvidenceAppendices(ready) && IsH1(b)
      ensures !IsMeaningful(b)
    {
      CollapsedH1IsFirst(ready, b);
    }
  }

  lemma {:induction false} CollapsedH1IsFirst(ready: seq<Block>, b: Block)
    requires OneH1First(ready) && |Generated(ready)| <= MAX_APPENDICES
    requires b in CollapseEvidenceAppendices(ready) && IsH1(b)
    ensures b == ready[0]
  {
    CollapsedMember(ready, b);
    FirstIsOnlyH1(ready, b);
  }

  lemma FirstIsOnlyH1(ready: seq<Block>, b: Block)
    requires OneH1First(ready) && IsH1(b)
    ensures b in ready ==> b == ready[0]
  {
  }

  lemma NewH1Counts(title: Prose)
    ensures PlainCount(NewH1(title)) == |title|
  {
  }

  // ------------------------------------------------------------------- ingress, byline --

  /** The Paper when its h1 is placed and an earlier orientation line is refreshed. */
  function Placed(paper: Paper): seq<Block>
    requires RepairSeq(paper.blocks).Some?
  {
    RefreshOrientation(PlaceH1(RepairSeq(paper.blocks).value, paper.title))
  }

  lemma {:induction false} SuppliedIngressIsEarly(placed: seq<Block>, description: Prose)
    requires OneH1First(placed) && description != [] && !Has(Opening(placed), IsIngress)
    ensures Early(CollapseEvidenceAppendices(CompleteOpening(placed, description)), OPENING_WINDOW, IsIngress)
  {
    var ready := CompleteOpening(placed, description);
    assert ready[0] == placed[0] && ready[1] == NewIngress(description);
    assert Join([description]) == description;
    assert IsMeaningful(ready[1]);
    CollapseKeepsStart(ready, 2);
    EarlyAt(CollapseEvidenceAppendices(ready), OPENING_WINDOW, IsIngress, 1);
  }

  /** A block put in takes one place from what follows it. */
  lemma EarlyInserted(bs: seq<Block>, at: nat, b: Block, room: nat, role: Block -> bool)
    requires at <= |bs| && IsMeaningful(b)
    ensures var before := |Meaningful(bs[..at])|;
            Early(InsertAt(bs, at, b), room, role) <==>
              || Early(bs[..at], room, role)
              || (before < room && (role(b) || Early(bs[at..], room - before - 1, role)))
  {
    var front, back := bs[..at], bs[at..];
    assert InsertAt(bs, at, b) == front + ([b] + back);
    EarlyConcat(front, [b] + back, room, role);
    if |Meaningful(front)| < room {
      EarlyCons(b, back, room - |Meaningful(front)|, role);
    }
  }

  lemma {:induction false} MeaningfulIsPart(bs: seq<Block>)
    ensures |Meaningful(bs)| <= |bs|
    ensures |Meaningful(bs)| < |bs| <==> exists b :: b in bs && !IsMeaningful(b)
  {
    if bs != [] {
      MeaningfulIsPart(bs[1..]);
      assert forall b :: b in bs <==> b == bs[0] || b in bs[1..];
    }
  }

  lemma NewLineIsMeaningful(bs: seq<Block>)
    ensures IsMeaningful(NewOrientation(OrientationItems(bs)))
  {
    var items := OrientationItems(bs);
    OrientationHasThreeItems(bs);
    var i := if items[0] != [] then 0 else 1;
    assert items[i] != [];
    ItemIsCounted(AsItems(items), AsItems(items)[i]);
  }

  /** Places left for what follows the first ingress and the line put behind it. */
  function RoomAfterIngress(placed: seq<Block>): nat
    requires placed != [] && Has(Opening(placed), IsIngress)
  {
    var taken := |Meaningful(placed[..OrientationIndex(placed)])| + if Has(Opening(placed), Orients) then 0 else 1;
    if taken < OPENING_WINDOW then OPENING_WINDOW - taken else 0
  }

  /** The ingress that kept the repair from supplying one has no words, and no other
      follows in time. */
  predicate IngressIsWordless(placed: seq<Block>)
    requires placed != [] && Has(Opening(placed), IsIngress)
  {
    var at := OrientationIndex(placed);
    !IsMeaningful(placed[at - 1]) && !Early(placed[at..], RoomAfterIngress(placed), IsIngress)
  }

  /** Nothing stands before the first ingress that is one. */
  lemma UpToIngress(placed: seq<Block>)
    requires placed != [] && Has(Opening(placed), IsIngress)
    ensures var at := OrientationIndex(placed);
            && 0 < at <= |placed| && at <= OPENING_WINDOW
            && (Early(placed[..at], OPENING_WINDOW, IsIngress) <==> IsMeaningful(placed[at - 1]))
            && (!IsMeaningful(placed[at - 1]) ==> |Meaningful(placed[..at])| < OPENING_WINDOW)
  {
    var at := OrientationIndex(placed);
    var start := placed[..at];
    StartedHasIngress(placed, []);
    MeaningfulIsPart(start);
    if IsMeaningful(start[at - 1]) {
      EarlyAt(start, OPENING_WINDOW, IsIngress, at - 1);
    } else {
      assert start[at - 1] in start;
      if Early(start, OPENING_WINDOW, IsIngress) {
        EarlyIsThere(start, OPENING_WINDOW, IsIngress);
        var b :| b in start && IsMeaningful(b) && IsIngress(b);
        FirstIngressIsFirst(placed, b);
      }
    }
  }

  lemma FirstIngressIsFirst(placed: seq<Block>, b: Block)
    requires placed != [] && Has(Opening(placed), IsIngress)
    requires OrientationIndex(placed) <= |placed| && b in placed[..OrientationIndex(placed)] && IsIngress(b)
    ensures b == placed[OrientationIndex(placed) - 1]
  {
    var at := OrientationIndex(placed);
    var i :| 0 <= i < at && placed[i] == b;
    StartedHasIngress(placed, []);
    assert Opening(placed)[i] == b;
  }

  /** Unfolded, the ingress is out of sight exactly when it is wordless. */
  lemma WordlessIngressIff(placed: seq<Block>, description: Prose)
    requires placed != [] && Has(Opening(placed), IsIngress)
    ensures IngressIsWordless(placed) <==> !Early(CompleteOpening(placed, description), OPENING_WINDOW, IsIngress)
  {
    var at := OrientationIndex(placed);
    UpToIngress(placed);
    if Has(Opening(placed), Orients) {
      assert placed == placed[..at] + placed[at..];
      EarlyConcat(placed[..at], placed[at..], OPENING_WINDOW, IsIngress);
    } else {
      NewLineIsMeaningful(placed);
      EarlyInserted(placed, at, NewOrientation(OrientationItems(placed)), OPENING_WINDOW, IsIngress);
    }
  }

  /** When the missing-ingress check fails.  An ingress the repair supplies is always
      seen; one the Paper brought among its first eight blocks is not when it has no
      words, is folded away, or no place is left for it. */
  lemma IngressCheckFailsIff(paper: Paper)
    requires Repair(paper).Ok?
    ensures Placed(paper) != []
    ensures OpeningMissingIngress in OpeningFailures(Repair(paper).value) <==>
              && Has(Opening(Placed(paper)), IsIngress)
              && IsOutOfSight(Ready(paper), IsIngress, IngressIsWordless(Placed(paper)))
  {
    RolesAreRoles();
    OpeningIsCollapsed(paper, IsIngress);
    var repaired := RepairSeq(paper.blocks).value;
    PlaceH1Places(repaired, paper.title);
    RefreshKeepsOneH1(PlaceH1(repaired, paper.title));
    if Has(Opening(Placed(paper)), IsIngress) {
      WordlessIngressIff(Placed(paper), paper.description);
      OutOfSightIff(Ready(paper), IsIngress, IngressIsWordless(Placed(paper)));
    } else {
      SuppliedIngressIsEarly(Placed(paper), paper.description);
    }
  }

  /** What there is to find the way by has no words and kept the repair from supplying a
      line, or the line supplied comes ninth. */
  predicate NothingOrients(started: seq<Block>, at: nat)
    requires at <= |started|
  {
    if Has(Opening(started), Orients) then !Early(started, OPENING_WINDOW, Orients)
    else |Meaningful(started[..at])| >= OPENING_WINDOW
  }

  lemma NothingOrientsIff(placed: seq<Block>, description: Prose)
    requires placed != []
    ensures OrientationIndex(placed) <= |WithIngress(placed, description)|
    ensures NothingOrients(WithIngress(placed, description), OrientationIndex(placed))
            <==> !Early(CompleteOpening(placed, description), OPENING_WINDOW, Orients)
  {
    var started, at := WithIngress(placed, description), OrientationIndex(placed);
    StartedHasIngress(placed, description);
    if !Has(Opening(started), Orients) {
      NewLineIsMeaningful(started);
      EarlyInserted(started, at, NewOrientation(OrientationItems(started)), OPENING_WINDOW, Orients);
      NoneEarlyInOpening(started, at);
    }
  }

  lemma NoneEarlyInOpening(started: seq<Block>, at: nat)
    requires at <= |started| && at <= OPENING_WINDOW && !Has(Opening(started), Orients)
    ensures !Early(started[..at], OPENING_WINDOW, Orients)
  {
    forall b | b in started[..at]
      ensures !Orients(b)
    {
      assert b in Opening(started);
    }
    NoneEarly(started[..at], OPENING_WINDOW, Orients);
  }

  /** When the missing-orientation check fails: what there is to find the way by is
      wordless, or ninth, or folded away. */
  lemma OrientationCheckFailsIff(paper: Paper)
    requires Repair(paper).Ok?
    ensures Placed(paper) != []
    ensures var started, at := WithIngress(Placed(paper), paper.description), OrientationIndex(Placed(paper));
            && at <= |started|
            && (OpeningMissingOrientation in OpeningFailures(Repair(paper).value) <==>
                  IsOutOfSight(Ready(paper), Orients, NothingOrients(started, at)))
  {
    RolesAreRoles();
    OpeningIsCollapsed(paper, Orients);
    var repaired := RepairSeq(paper.blocks).value;
    PlaceH1Places(repaired, paper.title);
    RefreshKeepsOneH1(PlaceH1(repaired, paper.title));
    NothingOrientsIff(Placed(paper), paper.description);
    var started, at := WithIngress(Placed(paper), paper.description), OrientationIndex(Placed(paper));
    OutOfSightIff(Ready(paper), Orients, NothingOrients(started, at));
  }
}
