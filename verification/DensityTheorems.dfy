/** When the audit still finds the first reading of a repaired Paper too dense. */
module DensityTheorems {
  import opened Wrappers
  import opened Subsequences
  import opened Words
  import opened PaperBlocks
  import opened QualityGates
  import opened BlockRepair
  import opened Appendices
  import opened DenseBlocks
  import opened BlockIds
  import opened SourceLeaves
  import opened EpicRepair
  import opened RepairTheorems
  import opened LeafTheorems

  // -------------------------------------------------------------- what stays in view --

  predicate IsClosed(b: Block) {
    b.Block? && b.kind == Expandable && !b.open
  }

  /** Top-level blocks the dense stage leaves to be read in passing. */
  function InView(bs: seq<Block>): seq<Block> {
    if bs == [] then [] else (if IsDense(bs[0]) || IsClosed(bs[0]) then [] else [bs[0]]) + InView(bs[1..])
  }

  lemma {:induction false} InViewIff(bs: seq<Block>, b: Block)
    ensures b in InView(bs) <==> b in bs && !IsDense(b) && !IsClosed(b)
  {
    if bs != [] {
      InViewIff(bs[1..], b);
    }
  }

  lemma {:induction false} FirstPassOfDense(bs: seq<Block>, index: nat)
    ensures FirstPass(CollapseFrom(bs, index)) == InView(bs)
  {
    if bs != [] {
      FirstPassOfDense(bs[1..], index + 1);
      assert CollapseFrom(bs, index)[1..] == CollapseFrom(bs[1..], index + 1);
    }
  }

  lemma {:induction false} FirstPassIsBlind(bs: seq<Block>)
    ensures FirstPass(AnonymousAll(bs)) == AnonymousAll(FirstPass(bs))
  {
    if bs != [] {
      FirstPassIsBlind(bs[1..]);
      var rest := AnonymousAll(bs)[1..];
      assert rest == AnonymousAll(bs[1..]);
      if IsClosed(bs[0]) {
        assert FirstPass(bs) == FirstPass(bs[1..]);
        assert FirstPass(AnonymousAll(bs)) == FirstPass(rest);
      } else {
        assert FirstPass(bs)[1..] == FirstPass(bs[1..]);
      }
    }
  }

  lemma FirstPassRenamed(gate: Block -> bool, bs: seq<Block>)
    requires IsBlind(gate)
    ensures Any(gate, WalkAll(FirstPass(UniquifyBlockIds(bs)))) <==> Any(gate, WalkAll(FirstPass(bs)))
  {
    var out := UniquifyBlockIds(bs);
    OnlyIdsChange(bs);
    FirstPassIsBlind(out);
    FirstPassIsBlind(bs);
    BlindInAll(gate, FirstPass(out));
    BlindInAll(gate, FirstPass(bs));
  }

  lemma GatesAreBlind()
    ensures IsBlind(IsLongParagraph) && IsBlind(HasLongNote) && IsBlind(HasLongCell)
  {
    forall b: Block
      ensures IsLongParagraph(Anonymous(b)) == IsLongParagraph(b)
    {
      CountIsBlind(b);
    }
    assert forall b :: HasLongNote(Anonymous(b)) == HasLongNote(b);
    assert forall b :: HasLongCell(Anonymous(b)) == HasLongCell(b);
  }

  /** The blocks of a repaired Paper that are read in passing, ids aside. */
  function View(title: Prose, description: Prose, repaired: seq<Block>): seq<Block> {
    InView(CollapseEvidenceAppendices(Prepare(title, description, repaired)))
  }

  lemma {:induction false} InViewConcat(a: seq<Block>, b: seq<Block>)
    ensures InView(a + b) == InView(a) + InView(b)
  {
    if a == [] {
      assert a + b == b;
    } else {
      Peel(a, b);
      InViewConcat(a[1..], b);
      Assoc(if IsDense(a[0]) || IsClosed(a[0]) then [] else [a[0]], InView(a[1..]), InView(b));
    }
  }

  lemma {:induction false} AppendicesAreClosed(folded: seq<Block>, index: nat)
    requires AreAppendices(folded, index)
    ensures InView(folded) == []
  {
    if folded != [] {
      assert IsAppendix(folded[0], index + 0);
      AppendicesTail(folded, index);
      AppendicesAreClosed(folded[1..], index + 1);
    }
  }

  /** What is read in passing of a Paper without appendices: all of it that is neither
      dense nor closed, or so much of it as a fold leaves in front and at the end. */
  lemma ViewOfPlain(title: Prose, description: Prose, repaired: seq<Block>)
    requires Generated(repaired) == []
    ensures var ready := Prepare(title, description, repaired);
            View(title, description, repaired) ==
              match FoldPlan(ready) case None => InView(ready) case Some(plan) => InView(plan.front) + InView(plan.back)
  {
    var ready := Prepare(title, description, repaired);
    PrepareKeepsGenerated(title, description, repaired);
    CollapseCases(ready);
    if FoldPlan(ready).Some? {
      var plan := FoldPlan(ready).value;
      PlanParts(ready);
      InViewConcat(plan.front + AppendicesOf(plan), plan.back);
      InViewConcat(plan.front, AppendicesOf(plan));
      AppendicesAreClosed(AppendicesOf(plan), 1);
      assert InView(plan.front) + [] == InView(plan.front);
    }
  }

  lemma FirstPassIsView(gate: Block -> bool, title: Prose, description: Prose, repaired: seq<Block>)
    requires IsBlind(gate)
    ensures Any(gate, WalkAll(FirstPass(Arrange(title, description, repaired))))
            <==> Any(gate, WalkAll(View(title, description, repaired)))
  {
    var folded := CollapseEvidenceAppendices(Prepare(title, description, repaired));
    FirstPassRenamed(gate, CollapseDense(folded));
    FirstPassOfDense(folded, 1);
  }

  /** Some block of the sequence has a finding below it. */
  ghost predicate AnyBelow(gate: Block -> bool, bs: seq<Block>) {
    exists b :: b in bs && b.Block? && Any(gate, Below(b))
  }

  ghost predicate AnyAt(gate: Block -> bool, bs: seq<Block>) {
    exists b :: b in bs && b.Block? && gate(b)
  }

  lemma AnyInBlock(gate: Block -> bool, b: Block)
    requires b.Block?
    ensures Any(gate, Walk(b)) <==> gate(b) || Any(gate, Below(b))
  {
    assert Walk(b) == [b] + Below(b);
    AnyConcat(gate, [b], Below(b));
    assert Any(gate, [b]) <==> gate(b) by {
      assert b in [b];
    }
  }

  lemma {:induction false} AnyInWalk(gate: Block -> bool, bs: seq<Block>)
    ensures Any(gate, WalkAll(bs)) <==> AnyAt(gate, bs) || AnyBelow(gate, bs)
  {
    if bs != [] {
      AnyInWalk(gate, bs[1..]);
      AnyConcat(gate, Walk(bs[0]), WalkAll(bs[1..]));
      AnyInRest(gate, bs);
      if bs[0].Block? {
        AnyInBlock(gate, bs[0]);
      }
    }
  }

  lemma AnyInRest(gate: Block -> bool, bs: seq<Block>)
    requires bs != []
    ensures AnyAt(gate, bs) <==> (bs[0].Block? && gate(bs[0])) || AnyAt(gate, bs[1..])
    ensures AnyBelow(gate, bs) <==> (bs[0].Block? && Any(gate, Below(bs[0]))) || AnyBelow(gate, bs[1..])
  {
    assert forall b :: b in bs <==> b == bs[0] || b in bs[1..];
  }

  // --------------------------------------------------------------------- the warnings --

  /** Exactly when the density warnings about the first reading are raised on a repaired
      Paper.  A notes item or table cell is found only below a top-level block, never in
      one; a paragraph is found at the top level only where it counts words it does not
      show. */
  lemma DensityIff(paper: Paper)
    requires Repair(paper).Ok?
    ensures var view, walked := View(paper.title, paper.description, RepairSeq(paper.blocks).value),
                                WalkAll(FirstPass(Repair(paper).value));
            && (Any(HasLongNote, walked) <==> AnyBelow(HasLongNote, view))
            && (Any(HasLongCell, walked) <==> AnyBelow(HasLongCell, view))
            && (Any(IsLongParagraph, walked) <==> AnyBelow(IsLongParagraph, view) || AnyAt(CountsUnseenWords, view))
  {
    ReturnsArranged(paper);
    var repaired := RepairSeq(paper.blocks).value;
    var view := View(paper.title, paper.description, repaired);
    GatesAreBlind();
    FirstPassIsView(HasLongNote, paper.title, paper.description, repaired);
    FirstPassIsView(HasLongCell, paper.title, paper.description, repaired);
    FirstPassIsView(IsLongParagraph, paper.title, paper.description, repaired);
    AnyInWalk(HasLongNote, view);
    AnyInWalk(HasLongCell, view);
    AnyInWalk(IsLongParagraph, view);
    NothingDenseInView(CollapseEvidenceAppendices(Prepare(paper.title, paper.description, repaired)));
  }

  /** A paragraph short enough to the repair and too long to the audit. */
  predicate CountsUnseenWords(b: Block) {
    IsLongParagraph(b) && |Visible(b)| <= MAX_PARAGRAPH_WORDS
  }

  lemma NothingDenseInView(bs: seq<Block>)
    ensures !AnyAt(HasLongNote, InView(bs)) && !AnyAt(HasLongCell, InView(bs))
    ensures AnyAt(IsLongParagraph, InView(bs)) <==> AnyAt(CountsUnseenWords, InView(bs))
  {
    forall b | b in InView(bs) && b.Block?
      ensures !HasLongNote(b) && !HasLongCell(b) && (IsLongParagraph(b) <==> CountsUnseenWords(b))
    {
      InViewIff(bs, b);
    }
  }

  // ------------------------------------------------------- the two counts of a block --

  function LeafCount(leaves: seq<Prose>): nat {
    if leaves == [] then 0 else |leaves[0]| + LeafCount(leaves[1..])
  }

  lemma {:induction false} LeafCountConcat(a: seq<Prose>, b: seq<Prose>)
    ensures LeafCount(a + b) == LeafCount(a) + LeafCount(b)
  {
    if a == [] {
      assert a + b == b;
    } else {
      Peel(a, b);
      LeafCountConcat(a[1..], b);
    }
  }

  lemma {:induction false} JoinCount(parts: seq<Prose>)
    ensures |Join(parts)| == LeafCount(parts)
  {
    if parts != [] {
      JoinCount(parts[1..]);
    }
  }

  lemma {:induction false} RowsCount(rows: seq<Row>)
    ensures |RowsWords(rows)| == LeafCount(RowsLeaves(rows))
  {
    if rows != [] {
      RowsCount(rows[1..]);
      RowCount(rows[0]);
      LeafCountConcat(RowLeaves(rows[0]), RowsLeaves(rows[1..]));
    }
  }

  lemma OneLeaf(leaf: Prose)
    ensures LeafCount([leaf]) == |leaf|
  {
    assert [leaf][1..] == [];
  }

  lemma RowCount(row: Row)
    ensures |RowWords(row)| == LeafCount(RowLeaves(row))
  {
    match row
    case Cells(cells) => JoinCount(cells);
    case NotCells(words) => OneLeaf(words);
  }

  lemma ItemCount(item: Item)
    ensures |ItemWords(item)| == LeafCount(ItemLeaves(item))
  {
    match item
    case Inline(words) => OneLeaf(words);
    case Note(tag, lead, text) =>
      assert [tag, lead, text] == [tag] + ([lead] + [text]);
      LeafCountConcat([tag], [lead] + [text]);
      LeafCountConcat([lead], [text]);
      OneLeaf(tag);
      OneLeaf(lead);
      OneLeaf(text);
  }

  lemma {:induction false} ItemsCount(items: seq<Item>)
    ensures |ItemsWords(items)| == LeafCount(ItemsLeaves(items))
  {
    if items != [] {
      ItemsCount(items[1..]);
      ItemCount(items[0]);
      LeafCountConcat(ItemLeaves(items[0]), ItemsLeaves(items[1..]));
    }
  }

  lemma LeafCountOf4(a: seq<Prose>, b: seq<Prose>, c: seq<Prose>, d: seq<Prose>)
    ensures LeafCount(a + b + c + d) == LeafCount(a) + LeafCount(b) + LeafCount(c) + LeafCount(d)
  {
    LeafCountConcat(a + b + c, d);
    LeafCountConcat(a + b, c);
    LeafCountConcat(a, b);
  }

  /** The audit counts the words of exactly the leaves the repair must keep. */
  lemma {:induction false} CountIsLeaves(b: Block)
    ensures PlainCount(b) == LeafCount(LeavesOf(b))
    decreases b
  {
    match b
    case NotBlock(words) => OneLeaf(words);
    case Block(_, _, _, title, text, content, summary, extra, head, rows, items, steps, blocks, children, _, _, _) =>
      CountAllIsLeaves(blocks);
      CountAllIsLeaves(children);
      CountStepsIsLeaves(steps);
      JoinCount(extra);
      JoinCount(content);
      RowCount(head);
      ItemsCount(items);
      RowsCount(rows);
      OneLeaf(summary);
      OneLeaf(text);
      OneLeaf(title);
      var first := extra + LeavesOfAll(blocks) + LeavesOfAll(children) + content;
      LeafCountOf4(extra, LeavesOfAll(blocks), LeavesOfAll(children), content);
      LeafCountOf4(first, RowLeaves(head), ItemsLeaves(items), RowsLeaves(rows));
      var second := first + RowLeaves(head) + ItemsLeaves(items) + RowsLeaves(rows);
      LeafCountOf4(second + LeavesOfSteps(steps), [summary], [text], [title]);
      LeafCountConcat(second, LeavesOfSteps(steps));
      assert LeavesOf(b) == second + LeavesOfSteps(steps) + [summary] + [text] + [title];
  }

  lemma {:induction false} CountAllIsLeaves(bs: seq<Block>)
    ensures PlainCountAll(bs) == LeafCount(LeavesOfAll(bs))
  {
    if bs != [] {
      CountIsLeaves(bs[0]);
      CountAllIsLeaves(bs[1..]);
      LeafCountConcat(LeavesOf(bs[0]), LeavesOfAll(bs[1..]));
    }
  }

  lemma {:induction false} CountStepsIsLeaves(ss: seq<Step>)
    ensures PlainCountSteps(ss) == LeafCount(LeavesOfSteps(ss))
  {
    if ss != [] {
      CountStepsIsLeaves(ss[1..]);
      if ss[0].Step? {
        var blocks := ss[0].blocks;
        CountAllIsLeaves(blocks);
        OneLeaf(ss[0].title);
        LeafCountConcat(LeavesOfAll(blocks), [ss[0].title]);
        LeafCountConcat(LeavesOfAll(blocks) + [ss[0].title], LeavesOfSteps(ss[1..]));
      } else {
        assert LeavesOfSteps(ss) == LeavesOfSteps(ss[1..]);
      }
    }
  }

  lemma {:induction false} EmptyLeavesCountNothing(leaves: seq<Prose>)
    requires forall i :: 0 <= i < |leaves| ==> leaves[i] == []
    ensures LeafCount(leaves) == 0
  {
    if leaves != [] {
      EmptyLeavesCountNothing(leaves[1..]);
    }
  }

  lemma SilentCountsNothing(b: Block)
    requires IsSilent(b)
    ensures PlainCount(b) == 0
  {
    var leaves := LeavesOf(b);
    forall i | 0 <= i < |leaves|
      ensures leaves[i] == []
    {
      assert leaves[i] in leaves;
    }
    EmptyLeavesCountNothing(leaves);
    CountIsLeaves(b);
  }

  /** A steps block or expandable with text outside the parts it shows. */
  predicate HidesText(b: Block) {
    b.Block?
    && ((b.kind == StepsBlock && !IsSilent(b.(steps := [])))
        || (b.kind == Expandable && !IsSilent(b.(summary := [], children := []))))
  }

  predicate HidesNothing(b: Block) {
    !HidesText(b)
  }

  /** Where nothing is hidden the audit and the repair count the same words. */
  lemma {:induction false} CountsAgree(b: Block)
    requires Holds(HidesNothing, Walk(b))
    ensures PlainCount(b) == |Visible(b)|
    decreases b
  {
    if b.Block? {
      assert Walk(b) == [b] + Below(b);
      assert b in Walk(b) && HidesNothing(b);
      CountsAgreeAll(b.blocks);
      CountsAgreeAll(b.children);
      CountsAgreeSteps(b.steps);
      if b.kind == StepsBlock {
        SilentCountsNothing(b.(steps := []));
      } else if b.kind == Expandable {
        SilentCountsNothing(b.(summary := [], children := []));
      }
    }
  }

  lemma {:induction false} CountsAgreeAll(bs: seq<Block>)
    requires Holds(HidesNothing, WalkAll(bs))
    ensures PlainCountAll(bs) == |VisibleAll(bs)|
  {
    if bs != [] {
      CountsAgree(bs[0]);
      CountsAgreeAll(bs[1..]);
    }
  }

  lemma {:induction false} CountsAgreeSteps(ss: seq<Step>)
    requires Holds(HidesNothing, WalkSteps(ss))
    ensures PlainCountSteps(ss) == |VisibleSteps(ss)| == |VisibleStrays(ss)|
  {
    if ss != [] {
      CountsAgreeSteps(ss[1..]);
      if ss[0].Step? {
        CountsAgreeAll(ss[0].blocks);
      }
    }
  }

  /** A paragraph counts words it does not show only when something nested in it hides
      them. */
  lemma UnseenWordsAreHidden(b: Block)
    requires CountsUnseenWords(b)
    ensures Any(HidesText, Below(b))
  {
    if !Any(HidesText, Below(b)) {
      assert Walk(b) == [b] + Below(b);
      forall x | x in Walk(b)
        ensures HidesNothing(x)
      {
        assert x == b || x in Below(b);
      }
      CountsAgree(b);
    }
  }

  /** A Paper with nothing nested in what is read in passing has none of the three. */
  lemma FlatPapersAreLight(paper: Paper)
    requires Repair(paper).Ok?
    requires forall b :: b in View(paper.title, paper.description, RepairSeq(paper.blocks).value) && b.Block? ==> Below(b) == []
    ensures var walked := WalkAll(FirstPass(Repair(paper).value));
            !Any(HasLongNote, walked) && !Any(HasLongCell, walked) && !Any(IsLongParagraph, walked)
  {
    DensityIff(paper);
    var view := View(paper.title, paper.description, RepairSeq(paper.blocks).value);
    if AnyAt(CountsUnseenWords, view) {
      var b :| b in view && b.Block? && CountsUnseenWords(b);
      UnseenWordsAreHidden(b);
    }
  }

  /** The same in the audit's own words. */
  method AuditDensity(paper: Paper) returns (r: Result<seq<Block>, Refusal>, warnings: seq<Warning>)
    ensures r == Repair(paper)
    ensures r.Ok? ==>
              var view := View(paper.title, paper.description, RepairSeq(paper.blocks).value);
              && (OverloadedPrimaryNoteItem in warnings <==> AnyBelow(HasLongNote, view))
              && (OverloadedPrimaryTableCell in warnings <==> AnyBelow(HasLongCell, view))
              && (OverloadedPrimaryParagraph in warnings <==>
                    AnyBelow(IsLongParagraph, view) || AnyAt(CountsUnseenWords, view))
  {
    warnings := [];
    r := RepairCanonicalEpic(paper);
    if r.Ok? {
      DensityIff(paper);
      warnings := DensityWarnings(r.value);
    }
  }
}
