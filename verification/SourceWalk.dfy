/** What of a source tree is still a block of its own after the repair: the walk leaves
    out spacers, and the blocks that were merged into a step title. */
module SourceWalk {
  import opened Wrappers
  import opened Subsequences
  import opened Words
  import opened PaperBlocks
  import opened StepRepair
  import opened QualityGates
  import opened BlockRepair
  import opened Appendices
  import opened BlockIds
  import opened RepairTheorems

  // -------------------------------------------------------------------- the walk --

  /** The first block under the step, once repaired, continues its title. */
  predicate IsContinued(s: Step) {
    s.Step? && RepairSeq(s.blocks).Some? && Continues(Step(s.title, RepairSeq(s.blocks).value))
  }

  /** A table that is split has more than its first part to give. */
  predicate ComesInParts(b: Block) {
    b.Block? && IsOversizedTable(PromoteTableHead(b))
  }

  /** Leading entries that are gone once the first repaired block has joined the title:
      the spacers, and the block itself unless it came in parts. */
  function Taken(bs: seq<Block>): (n: nat)
    ensures n <= |bs|
  {
    if bs == [] then 0
    else if IsEmptyParagraph(bs[0]) then 1 + Taken(bs[1..])
    else if ComesInParts(bs[0]) then 0
    else 1
  }

  function Remaining(b: Block): seq<Block>
    decreases b, 1
  {
    match b
    case NotBlock(_) => []
    case Block(kind, _, _, _, _, _, _, _, _, _, _, steps, blocks, children, _, _, _) =>
      if IsEmptyParagraph(b) then []
      else [b] + RemainingAll(blocks) + RemainingAll(children) + RemainingSteps(steps, kind == StepsBlock)
  }

  function RemainingAll(bs: seq<Block>): seq<Block>
    decreases bs, 0
  {
    if bs == [] then [] else Remaining(bs[0]) + RemainingAll(bs[1..])
  }

  /** `cut` says that the steps sit on a steps block, whose titles are repaired. */
  function RemainingSteps(ss: seq<Step>, cut: bool): seq<Block>
    decreases ss, 0
  {
    if ss == [] then []
    else
      (match ss[0]
       case NotStep => []
       case Step(_, blocks) =>
         if cut && IsContinued(ss[0]) then RemainingAll(blocks[Taken(blocks)..]) else RemainingAll(blocks))
      + RemainingSteps(ss[1..], cut)
  }

  // ------------------------------------------------------- the repair meets the same --

  /** A finding on the blocks the repair makes of an entry is decided by the entry. */
  ghost predicate Transfers(from: Block -> bool, to: Block -> bool) {
    && (forall words: Prose :: !to(TextParagraph(words)))
    && (forall b: Block, x: Block :: b.Block? && RepairEntry(b).Some? && x in RepairEntry(b).value ==> from(b) == to(x))
  }

  lemma FindsInFirst(gate: Block -> bool, b: Block, rest: seq<Block>)
    ensures Any(gate, WalkAll([b] + rest)) <==> Any(gate, Walk(b)) || Any(gate, WalkAll(rest))
  {
    assert ([b] + rest)[1..] == rest;
    AnyConcat(gate, Walk(b), WalkAll(rest));
  }

  lemma FindsInBoth(gate: Block -> bool, a: seq<Block>, b: seq<Block>)
    ensures Any(gate, WalkAll(a + b)) <==> Any(gate, WalkAll(a)) || Any(gate, WalkAll(b))
  {
    WalkAllConcat(a, b);
    AnyConcat(gate, WalkAll(a), WalkAll(b));
  }

  /** Where every block finds the same, so does the sequence. */
  lemma {:induction false} FindsAlike(gate: Block -> bool, bs: seq<Block>, found: bool)
    requires bs != [] && forall b :: b in bs ==> (Any(gate, Walk(b)) <==> found)
    ensures Any(gate, WalkAll(bs)) <==> found
  {
    assert bs == [bs[0]] + bs[1..];
    FindsInFirst(gate, bs[0], bs[1..]);
    if |bs| > 1 {
      FindsAlike(gate, bs[1..], found);
    } else {
      assert !Any(gate, WalkAll(bs[1..]));
    }
  }

  lemma AnyRemaining(gate: Block -> bool, b: Block)
    requires b.Block? && !IsEmptyParagraph(b)
    ensures Any(gate, Remaining(b)) <==>
              || gate(b) || Any(gate, RemainingAll(b.blocks)) || Any(gate, RemainingAll(b.children))
              || Any(gate, RemainingSteps(b.steps, b.kind == StepsBlock))
  {
    var steps := RemainingSteps(b.steps, b.kind == StepsBlock);
    AnyConcat(gate, [b] + RemainingAll(b.blocks) + RemainingAll(b.children), steps);
    AnyConcat(gate, [b] + RemainingAll(b.blocks), RemainingAll(b.children));
    AnyConcat(gate, [b], RemainingAll(b.blocks));
    assert Any(gate, [b]) <==> gate(b) by {
      assert b in [b];
    }
  }

  /** What the repair of one block does to the blocks below it: nothing, but for steps. */
  lemma RepairOneBelow(n: Block, x: Block)
    requires n.Block? && RepairOne(n).Some? && x in RepairOne(n).value
    ensures x.Block? && x.blocks == n.blocks && x.children == n.children
    ensures n.kind != StepsBlock ==> x.steps == n.steps
    ensures n.kind == StepsBlock ==> RepairSteps(n.steps).Some? && x.steps == RepairSteps(n.steps).value
  {
    var promoted := PromoteTableHead(FixLevel(n));
    var noted := ListAsNotes(DedupeCalloutTitle(RepairStepsBlock(promoted).value));
    if IsOversizedTable(noted) {
      ChunksPartitionRows(noted, noted.rows, 1);
    }
  }

  /** How many blocks an entry becomes. */
  lemma EntryParts(b: Block)
    requires RepairEntry(b).Some?
    ensures RepairEntry(b).value == [] <==> IsEmptyParagraph(b)
    ensures !IsEmptyParagraph(b) ==> (|RepairEntry(b).value| == 1 <==> !ComesInParts(b))
  {
    if b.Block? && !IsEmptyParagraph(b) {
      var n := RepairNested(b).value;
      var promoted := PromoteTableHead(FixLevel(n));
      var noted := ListAsNotes(DedupeCalloutTitle(RepairStepsBlock(promoted).value));
      assert noted.kind == Table <==> b.kind == Table;
      if b.kind == Table {
        assert noted.rows == PromoteTableHead(b).rows;
      }
      if IsOversizedTable(noted) {
        ChunksPartitionRows(noted, noted.rows, 1);
      }
    }
  }

  lemma {:induction false} SeqFinds(bs: seq<Block>, from: Block -> bool, to: Block -> bool)
    requires RepairSeq(bs).Some? && Transfers(from, to)
    ensures Any(to, WalkAll(RepairSeq(bs).value)) <==> Any(from, RemainingAll(bs))
    decreases bs, 0
  {
    if bs != [] {
      var first, rest := RepairEntry(bs[0]).value, RepairSeq(bs[1..]).value;
      SeqFinds(bs[1..], from, to);
      EntryFinds(bs[0], from, to);
      FindsInBoth(to, first, rest);
      AnyConcat(from, Remaining(bs[0]), RemainingAll(bs[1..]));
      EntryFindsAll(bs[0], first, from, to);
    }
  }

  lemma EntryFindsAll(b: Block, out: seq<Block>, from: Block -> bool, to: Block -> bool)
    requires RepairEntry(b) == Some(out)
    requires forall x :: x in out ==> (Any(to, Walk(x)) <==> Any(from, Remaining(b)))
    ensures Any(to, WalkAll(out)) <==> Any(from, Remaining(b))
  {
    EntryParts(b);
    if out != [] {
      FindsAlike(to, out, Any(from, Remaining(b)));
    }
  }

  lemma {:induction false} EntryFinds(b: Block, from: Block -> bool, to: Block -> bool)
    requires RepairEntry(b).Some? && Transfers(from, to)
    ensures forall x :: x in RepairEntry(b).value ==> (Any(to, Walk(x)) <==> Any(from, Remaining(b)))
    decreases b, 1
  {
    if b.Block? && !IsEmptyParagraph(b) {
      var n := RepairNested(b).value;
      SeqFinds(b.blocks, from, to);
      SeqFinds(b.children, from, to);
      if b.kind == StepsBlock {
        CutStepsFind(b.steps, from, to);
      } else {
        OtherStepsFind(b.steps, from, to);
      }
      AnyRemaining(from, b);
      forall x | x in RepairEntry(b).value
        ensures Any(to, Walk(x)) <==> Any(from, Remaining(b))
      {
        RepairOneBelow(n, x);
        AnyWalk(to, x);
      }
    }
  }

  lemma {:induction false} OtherStepsFind(ss: seq<Step>, from: Block -> bool, to: Block -> bool)
    requires RepairNestedSteps(ss).Some? && Transfers(from, to)
    ensures Any(to, WalkSteps(RepairNestedSteps(ss).value)) <==> Any(from, RemainingSteps(ss, false))
    decreases ss, 0
  {
    if ss != [] {
      var out := RepairNestedSteps(ss).value;
      OtherStepsFind(ss[1..], from, to);
      assert out[1..] == RepairNestedSteps(ss[1..]).value;
      if ss[0].Step? {
        SeqFinds(ss[0].blocks, from, to);
        AnyConcat(to, WalkAll(out[0].blocks), WalkSteps(out[1..]));
        AnyConcat(from, RemainingAll(ss[0].blocks), RemainingSteps(ss[1..], false));
      } else {
        assert RemainingSteps(ss, false) == RemainingSteps(ss[1..], false);
        assert WalkSteps(out) == WalkSteps(out[1..]);
      }
    }
  }

  lemma {:induction false} CutStepsFind(ss: seq<Step>, from: Block -> bool, to: Block -> bool)
    requires RepairNestedSteps(ss).Some? && RepairSteps(RepairNestedSteps(ss).value).Some? && Transfers(from, to)
    ensures Any(to, WalkSteps(RepairSteps(RepairNestedSteps(ss).value).value)) <==> Any(from, RemainingSteps(ss, true))
    decreases ss, 0
  {
    if ss != [] {
      var nested := RepairNestedSteps(ss).value;
      var out := RepairSteps(nested).value;
      assert nested[1..] == RepairNestedSteps(ss[1..]).value && out[1..] == RepairSteps(nested[1..]).value;
      CutStepsFind(ss[1..], from, to);
      if ss[0].Step? {
        var blocks := if IsContinued(ss[0]) then ss[0].blocks[Taken(ss[0].blocks)..] else ss[0].blocks;
        SeqFinds(ss[0].blocks, from, to);
        if IsContinued(ss[0]) {
          TakenFinds(ss[0].blocks, from, to);
        }
        CutStepFinds(nested[0], to);
        AnyConcat(to, WalkAll(out[0].blocks), WalkSteps(out[1..]));
        AnyConcat(from, RemainingAll(blocks), RemainingSteps(ss[1..], true));
      } else {
        assert RemainingSteps(ss, true) == RemainingSteps(ss[1..], true);
        assert WalkSteps(out) == WalkSteps(out[1..]);
      }
    }
  }

  /** Cutting a step loses at most its first block, and adds a plain paragraph. */
  lemma CutStepFinds(s: Step, to: Block -> bool)
    requires s.Step? && RepairStep(s).Some? && forall words: Prose :: !to(TextParagraph(words))
    ensures RepairStep(s).value.Step?
    ensures Any(to, WalkAll(RepairStep(s).value.blocks)) <==> Any(to, WalkAll(Rest(s)))
  {
    if |Source(s)| > LEAD_LIMIT || Continues(s) {
      var (_, body) := SplitCompactLead(Source(s), Continues(s));
      if body != [] {
        FindsInFirst(to, TextParagraph(body), Rest(s));
        InsertedWalk(body);
        WalkOfInserted(body);
        assert !to(TextParagraph(body));
      }
    }
  }

  lemma WalkOfInserted(words: Prose)
    ensures Walk(TextParagraph(words)) == [TextParagraph(words)]
  {
    var p := TextParagraph(words);
    assert Walk(p) == [p] + WalkAll([]) + WalkAll([]) + WalkSteps([]);
  }

  /** Without its first block the repaired sequence finds what the source finds without
      the entries taken. */
  lemma {:induction false} TakenFinds(bs: seq<Block>, from: Block -> bool, to: Block -> bool)
    requires RepairSeq(bs).Some? && RepairSeq(bs).value != [] && Transfers(from, to)
    ensures Any(to, WalkAll(RepairSeq(bs).value[1..])) <==> Any(from, RemainingAll(bs[Taken(bs)..]))
    decreases bs, 1
  {
    if IsEmptyParagraph(bs[0]) {
      assert RepairSeq(bs).value == RepairSeq(bs[1..]).value;
      TakenFinds(bs[1..], from, to);
      assert bs[Taken(bs)..] == bs[1..][Taken(bs[1..])..];
    } else {
      SeqFinds(bs[1..], from, to);
      EntryFinds(bs[0], from, to);
      FirstTakenFinds(bs, RepairEntry(bs[0]).value, RepairSeq(bs[1..]).value, from, to);
    }
  }

  lemma {:induction false} FirstTakenFinds(bs: seq<Block>, first: seq<Block>, rest: seq<Block>, from: Block -> bool, to: Block -> bool)
    requires bs != [] && !IsEmptyParagraph(bs[0]) && RepairEntry(bs[0]) == Some(first)
    requires forall x :: x in first ==> (Any(to, Walk(x)) <==> Any(from, Remaining(bs[0])))
    requires Any(to, WalkAll(rest)) <==> Any(from, RemainingAll(bs[1..]))
    ensures first != [] && (Any(to, WalkAll((first + rest)[1..])) <==> Any(from, RemainingAll(bs[Taken(bs)..])))
  {
    EntryParts(bs[0]);
    assert (first + rest)[1..] == first[1..] + rest;
    if ComesInParts(bs[0]) {
      LaterPartsFind(bs[0], first, from, to);
      FindsInBoth(to, first[1..], rest);
      AnyConcat(from, Remaining(bs[0]), RemainingAll(bs[1..]));
      assert bs[0..] == bs;
    } else {
      assert first[1..] + rest == rest;
    }
  }

  lemma LaterPartsFind(b: Block, out: seq<Block>, from: Block -> bool, to: Block -> bool)
    requires |out| > 1 && forall x :: x in out ==> (Any(to, Walk(x)) <==> Any(from, Remaining(b)))
    ensures Any(to, WalkAll(out[1..])) <==> Any(from, Remaining(b))
  {
    assert forall x :: x in out[1..] ==> x in out;
    FindsAlike(to, out[1..], Any(from, Remaining(b)));
  }

  // ------------------------------------------------------- appendices opened for good --

  /** A generated appendix of the source the repair opens. */
  predicate IsOpenedForGood(b: Block, index: nat, unwrap: bool) {
    RepairNested(b).Some? && IsDropped(RepairNested(b).value, index, unwrap)
  }

  function RemainingHead(b: Block, index: nat, unwrap: bool): seq<Block> {
    if IsGeneratedAppendix(b) && IsOpenedForGood(b, index, unwrap) then RemainingAll(b.children) else Remaining(b)
  }

  /** The same walk over a whole Paper: of an appendix that is opened only the children
      remain. */
  function RemainingTop(bs: seq<Block>, index: nat, unwrap: bool): seq<Block> {
    if bs == [] then []
    else
      RemainingHead(bs[0], index, unwrap)
      + RemainingTop(bs[1..], if IsGeneratedAppendix(bs[0]) then index + 1 else index, unwrap)
  }

  function RemainingOf(paper: seq<Block>): seq<Block> {
    RemainingTop(paper, 0, HasArtifact(Generated(paper)))
  }

  lemma {:induction false} RenumberConcat(a: seq<Block>, b: seq<Block>, index: nat, unwrap: bool)
    ensures Renumber(a + b, index, unwrap) == Renumber(a, index, unwrap) + Renumber(b, index + |Generated(a)|, unwrap)
  {
    if a == [] {
      assert a + b == b;
    } else {
      var next := if IsGeneratedAppendix(a[0]) then index + 1 else index;
      Peel(a, b);
      RenumberConcat(a[1..], b, next, unwrap);
      RenumberHead(a, index, unwrap);
      RenumberHead(a + b, index, unwrap);
      Assoc(HealedHead(a[0], index, unwrap), Renumber(a[1..], next, unwrap), Renumber(b, index + |Generated(a)|, unwrap));
    }
  }

  function HealedHead(b: Block, index: nat, unwrap: bool): seq<Block> {
    if !IsGeneratedAppendix(b) then [b]
    else if IsDropped(b, index, unwrap) then b.children
    else [Normalised(b, index + 1)]
  }

  lemma RenumberHead(bs: seq<Block>, index: nat, unwrap: bool)
    requires bs != []
    ensures Renumber(bs, index, unwrap) == HealedHead(bs[0], index, unwrap)
              + Renumber(bs[1..], if IsGeneratedAppendix(bs[0]) then index + 1 else index, unwrap)
  {
  }

  lemma {:induction false} RenumberPlain(bs: seq<Block>, index: nat, unwrap: bool)
    requires NoneGenerated(bs)
    ensures Renumber(bs, index, unwrap) == bs
  {
    if bs != [] {
      RenumberPlain(bs[1..], index, unwrap);
    }
  }

  /** A finding not read off the id or the summary of an expandable. */
  ghost predicate IsUnlabelled(gate: Block -> bool) {
    forall b: Block, index: nat :: IsGeneratedAppendix(b) ==> gate(Normalised(b, index)) == gate(b)
  }

  lemma TopEntryFinds(b: Block, index: nat, unwrap: bool, from: Block -> bool, to: Block -> bool)
    requires IsGeneratedAppendix(b) && RepairEntry(b).Some? && Transfers(from, to) && IsUnlabelled(to)
    ensures RepairNested(b).Some? && IsGeneratedAppendix(RepairNested(b).value)
    ensures Any(to, WalkAll(HealedHead(RepairNested(b).value, index, unwrap))) <==>
              Any(from, if IsOpenedForGood(b, index, unwrap) then RemainingAll(b.children) else Remaining(b))
  {
    RepairEntryKeepsGenerated(b);
    var n := RepairNested(b).value;
    EntryFinds(b, from, to);
    assert n in RepairEntry(b).value;
    if IsOpenedForGood(b, index, unwrap) {
      SeqFinds(b.children, from, to);
    } else {
      var r := Normalised(n, index + 1);
      assert [r] == [r] + [];
      FindsInFirst(to, r, []);
      AnyWalk(to, r);
      AnyWalk(to, n);
    }
  }

  lemma {:induction false} HeadFinds(b: Block, index: nat, unwrap: bool, from: Block -> bool, to: Block -> bool)
    requires RepairEntry(b).Some? && Transfers(from, to) && IsUnlabelled(to)
    ensures Any(to, WalkAll(Renumber(RepairEntry(b).value, index, unwrap))) <==> Any(from, RemainingHead(b, index, unwrap))
  {
    var first := RepairEntry(b).value;
    RepairEntryKeepsGenerated(b);
    if IsGeneratedAppendix(b) {
      TopEntryFinds(b, index, unwrap, from, to);
      RenumberHead(first, index, unwrap);
      assert first[1..] == [];
      assert HealedHead(first[0], index, unwrap) + [] == HealedHead(first[0], index, unwrap);
    } else {
      RenumberPlain(first, index, unwrap);
      EntryFinds(b, from, to);
      EntryFindsAll(b, first, from, to);
    }
  }

  lemma {:induction false} TopFinds(bs: seq<Block>, index: nat, unwrap: bool, from: Block -> bool, to: Block -> bool)
    requires RepairSeq(bs).Some? && Transfers(from, to) && IsUnlabelled(to)
    ensures Any(to, WalkAll(Renumber(RepairSeq(bs).value, index, unwrap))) <==> Any(from, RemainingTop(bs, index, unwrap))
  {
    if bs != [] {
      var next := if IsGeneratedAppendix(bs[0]) then index + 1 else index;
      TopFinds(bs[1..], next, unwrap, from, to);
      HeadFinds(bs[0], index, unwrap, from, to);
      TopCons(bs, index, next, unwrap, to);
      AnyConcat(from, RemainingHead(bs[0], index, unwrap), RemainingTop(bs[1..], next, unwrap));
    }
  }

  lemma {:induction false} TopCons(bs: seq<Block>, index: nat, next: nat, unwrap: bool, to: Block -> bool)
    requires RepairSeq(bs).Some? && bs != [] && next == if IsGeneratedAppendix(bs[0]) then index + 1 else index
    ensures Any(to, WalkAll(Renumber(RepairSeq(bs).value, index, unwrap))) <==>
              || Any(to, WalkAll(Renumber(RepairEntry(bs[0]).value, index, unwrap)))
              || Any(to, WalkAll(Renumber(RepairSeq(bs[1..]).value, next, unwrap)))
  {
    var first, rest := RepairEntry(bs[0]).value, RepairSeq(bs[1..]).value;
    RepairEntryKeepsGenerated(bs[0]);
    RenumberConcat(first, rest, index, unwrap);
    FindsInBoth(to, Renumber(first, index, unwrap), Renumber(rest, next, unwrap));
  }

  /** The repair of single blocks leaves ids and summaries of appendices, so the
      artifacts of earlier passes are those of the source. */
  lemma RepairKeepsArtifact(bs: seq<Block>)
    requires RepairSeq(bs).Some?
    ensures HasArtifact(Generated(RepairSeq(bs).value)) == HasArtifact(Generated(bs))
  {
    RepairKeepsLabels(bs);
    SameLabelsSameArtifact(Generated(bs), Generated(RepairSeq(bs).value));
  }

  ghost predicate SameLabels(a: seq<Block>, b: seq<Block>) {
    |a| == |b| && forall i :: 0 <= i < |a| ==> SameLabel(a[i], b[i])
  }

  predicate SameLabel(a: Block, b: Block) {
    a.Block? && b.Block? && a.kind == b.kind && a.id == b.id && a.summary == b.summary
  }

  lemma {:induction false} RepairKeepsLabels(bs: seq<Block>)
    requires RepairSeq(bs).Some?
    ensures SameLabels(Generated(bs), Generated(RepairSeq(bs).value))
  {
    if bs != [] {
      RepairKeepsLabels(bs[1..]);
      RepairEntryKeepsGenerated(bs[0]);
      var first, rest := RepairEntry(bs[0]).value, RepairSeq(bs[1..]).value;
      GeneratedConcat(first, rest);
      if IsGeneratedAppendix(bs[0]) {
        var n := RepairNested(bs[0]).value;
        assert SameLabel(bs[0], n);
        GeneratedAfter(n, []);
        assert Generated(first) == [n];
        LabelsCons(bs[0], n, Generated(bs[1..]), Generated(rest));
      } else {
        UnwrapPlain(first);
        assert Generated(bs) == Generated(bs[1..]);
      }
    }
  }

  lemma LabelsCons(x: Block, y: Block, a: seq<Block>, b: seq<Block>)
    requires SameLabel(x, y) && SameLabels(a, b)
    ensures SameLabels([x] + a, [y] + b)
  {
  }

  lemma {:induction false} SameLabelsSameNumbers(a: seq<Block>, b: seq<Block>)
    requires SameLabels(a, b)
    ensures AppendixNumbers(a) == AppendixNumbers(b)
  {
    if a != [] {
      assert SameLabel(a[0], b[0]);
      SameLabelsSameNumbers(a[1..], b[1..]);
    }
  }

  lemma SameLabelsSameArtifact(a: seq<Block>, b: seq<Block>)
    requires SameLabels(a, b)
    ensures HasArtifact(a) == HasArtifact(b)
  {
    SameLabelsSameNumbers(a, b);
    assert seq(|a|, i requires 0 <= i < |a| => IdText(a[i])) == seq(|b|, i requires 0 <= i < |b| => IdText(b[i]));
  }
}
