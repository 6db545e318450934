/** `repair_canonical_epic` on canonical blocks, and what the audit says of its result. */
module EpicRepair {
  import opened Subsequences
  import opened Wrappers
  import opened Words
  import opened PaperBlocks
  import opened QualityGates
  import opened BlockRepair
  import opened Appendices
  import opened DenseBlocks
  import opened BlockIds
  import opened SourceLeaves

  const H1_ID := "epb-cohort-h1"
  const INGRESS_ID := "epb-cohort-ingress"
  const ORIENTATION_ID := "epb-cohort-orientation"

  datatype Paper = Paper(title: Prose, description: Prose, blocks: seq<Block>)
  datatype Refusal = NoDescription | StepTextChanged | SourceTextLost

  // --------------------------------------------------------------- the outline --

  function FirstH1(bs: seq<Block>, from: nat): (k: nat)
    requires from <= |bs|
    ensures from <= k <= |bs|
    ensures forall i :: from <= i < k ==> !IsH1(bs[i])
    ensures k < |bs| ==> IsH1(bs[k])
    decreases |bs| - from
  {
    if from == |bs| || IsH1(bs[from]) then from else FirstH1(bs, from + 1)
  }

  function NewH1(title: Prose): (b: Block)
    ensures b.Block?
  {
    var b := Blank(Heading);
    b.(id := Some(H1_ID), level := IntLevel(1), text := title)
  }

  function Demote(b: Block): Block {
    if IsH1(b) then b.(level := IntLevel(2)) else b
  }

  function DemoteAll(bs: seq<Block>): (r: seq<Block>)
    ensures |r| == |bs|
    ensures forall i :: 0 <= i < |bs| ==> r[i] == Demote(bs[i])
  {
    if bs == [] then [] else [Demote(bs[0])] + DemoteAll(bs[1..])
  }

  /** One h1, and it comes first. */
  function PlaceH1(bs: seq<Block>, title: Prose): seq<Block> {
    var k := FirstH1(bs, 0);
    if k == |bs| then [NewH1(title)] + bs
    else [bs[k]] + bs[..k] + DemoteAll(bs[k + 1..])
  }

  /** The first h1, at `k`, moves to the front; those before it move back one place, and
      every later h1 becomes an h2. */
  ghost predicate IsMovedFrom(bs: seq<Block>, placed: seq<Block>, k: nat) {
    && k < |bs| == |placed| && IsH1(bs[k]) && placed[0] == bs[k]
    && (forall i :: 0 <= i < k ==> !IsH1(bs[i]) && placed[i + 1] == bs[i])
    && (forall i :: k < i < |bs| ==> placed[i] == if IsH1(bs[i]) then bs[i].(level := IntLevel(2)) else bs[i])
  }

  lemma PlacedOutline(bs: seq<Block>, title: Prose)
    ensures if exists i: nat :: i < |bs| && IsH1(bs[i]) then exists k: nat :: IsMovedFrom(bs, PlaceH1(bs, title), k)
            else PlaceH1(bs, title) == [NewH1(title)] + bs
  {
    var k := FirstH1(bs, 0);
    if k < |bs| {
      assert IsMovedFrom(bs, PlaceH1(bs, title), k);
    }
  }

  // --------------------------------------------------------------- the opening --

  /** Headings in reading order, found through `children` and then `blocks`. */
  function Headings(b: Block): seq<Block> {
    match b
    case NotBlock(_) => []
    case Block(kind, _, _, _, _, _, _, _, _, _, _, _, blocks, children, _, _, _) =>
      (if kind == Heading then [b] else []) + HeadingsAll(children) + HeadingsAll(blocks)
  }

  function HeadingsAll(bs: seq<Block>): seq<Block> {
    if bs == [] then [] else Headings(bs[0]) + HeadingsAll(bs[1..])
  }

  /** Distinct texts of the headings that are not h1, up to three in all. */
  function Collect(headings: seq<Block>, items: seq<Prose>): (r: seq<Prose>)
    requires |items| <= 3 && Distinct(items)
    ensures |items| <= |r| <= 3 && Distinct(r)
    decreases |headings|
  {
    if headings == [] || |items| == 3 then items
    else
      var h := headings[0];
      if h.NotBlock? || IsLevelOne(h.level) then Collect(headings[1..], items)
      else
        var text := HeadingText(h);
        Collect(headings[1..], if text != [] && text !in items then items + [text] else items)
  }

  const FALLBACKS: seq<Prose> :=
    [["Decision", "record"], ["Evidence", "and", "implications"], ["Next", "action"]]

  function TopUp(fallbacks: seq<Prose>, items: seq<Prose>): (r: seq<Prose>)
    requires |items| <= 3 && Distinct(items)
    ensures |items| <= |r| <= 3 && Distinct(r) && items <= r
    ensures |r| == 3 || forall f :: f in fallbacks ==> f in r
    decreases |fallbacks|
  {
    if fallbacks == [] || |items| == 3 then items
    else
      var more := if fallbacks[0] !in items then items + [fallbacks[0]] else items;
      assert fallbacks[0] in more;
      assert forall f :: f in fallbacks <==> f == fallbacks[0] || f in fallbacks[1..];
      TopUp(fallbacks[1..], more)
  }

  /** `_opening_orientation_items`. */
  function OrientationItems(bs: seq<Block>): seq<Prose> {
    TopUp(FALLBACKS, Collect(HeadingsAll(bs), []))
  }

  function AsItems(texts: seq<Prose>): seq<Item> {
    seq(|texts|, i requires 0 <= i < |texts| => Inline(texts[i]))
  }

  lemma FallbacksDiffer()
    ensures Distinct(FALLBACKS)
  {
    assert FALLBACKS[0][0] == "Decision" && FALLBACKS[1][0] == "Evidence" && FALLBACKS[2][0] == "Next";
    assert "Decision"[0] == 'D' && "Evidence"[0] == 'E' && "Next"[0] == 'N';
  }

  /** The orientation line always offers exactly three different entries. */
  lemma OrientationHasThreeItems(bs: seq<Block>)
    ensures |OrientationItems(bs)| == 3 && Distinct(OrientationItems(bs))
  {
    FallbacksDiffer();
  }

  predicate IsOrientation(b: Block) {
    b.Block? && b.kind == Byline && b.id == Some(ORIENTATION_ID)
  }

  /** A byline an earlier pass generated is brought up to date; only the first. */
  function RefreshFrom(bs: seq<Block>, items: seq<Prose>): (r: seq<Block>)
    ensures |r| == |bs|
  {
    if bs == [] then []
    else if IsOrientation(bs[0]) then [bs[0].(items := AsItems(items))] + bs[1..]
    else [bs[0]] + RefreshFrom(bs[1..], items)
  }

  function RefreshOrientation(bs: seq<Block>): seq<Block> {
    RefreshFrom(bs, OrientationItems(bs))
  }

  function FirstIngress(bs: seq<Block>, from: nat): (k: nat)
    requires from <= |bs|
    ensures from <= k <= |bs|
    ensures forall i :: from <= i < k ==> !IsIngress(bs[i])
    ensures k < |bs| ==> IsIngress(bs[k])
    decreases |bs| - from
  {
    if from == |bs| || IsIngress(bs[from]) then from else FirstIngress(bs, from + 1)
  }

  function InsertAt(bs: seq<Block>, at: nat, b: Block): seq<Block>
    requires at <= |bs|
  {
    bs[..at] + [b] + bs[at..]
  }

  function NewIngress(description: Prose): (b: Block)
    ensures b.Block?
  {
    var b := Blank(Ingress);
    b.(id := Some(INGRESS_ID), content := [description])
  }

  function NewOrientation(items: seq<Prose>): (b: Block)
    ensures b.Block?
  {
    var b := Blank(Byline);
    b.(id := Some(ORIENTATION_ID), items := AsItems(items))
  }

  /** An ingress is supplied when the first eight blocks lack one. */
  function WithIngress(bs: seq<Block>, description: Prose): seq<Block>
    requires bs != []
  {
    if Has(Opening(bs), IsIngress) then bs else InsertAt(bs, 1, NewIngress(description))
  }

  /** Where an orientation line would go: after the ingress, else after the h1. */
  function OrientationIndex(bs: seq<Block>): (at: nat)
    requires bs != []
    ensures 0 < at <= |bs| + 1
    ensures Has(Opening(bs), IsIngress) ==> at <= |bs|
  {
    if !Has(Opening(bs), IsIngress) then 2
    else FirstIngress(Opening(bs), 0) + 1
  }

  function WithOrientation(bs: seq<Block>, at: nat): seq<Block>
    requires at <= |bs|
  {
    if Has(Opening(bs), Orients) then bs else InsertAt(bs, at, NewOrientation(OrientationItems(bs)))
  }

  /** Ingress and orientation are supplied when the first eight blocks lack them. */
  function CompleteOpening(bs: seq<Block>, description: Prose): seq<Block>
    requires bs != []
  {
    WithOrientation(WithIngress(bs, description), OrientationIndex(bs))
  }

  /** What the opening stage achieves, before anything is folded: an ingress among the
      first eight blocks, and an orientation unless its place is the ninth. */
  lemma CompletedOpening(placed: seq<Block>, description: Prose)
    requires placed != []
    ensures var ready := CompleteOpening(placed, description);
            && Has(Opening(ready), IsIngress)
            && (Has(Opening(ready), Orients) <==>
                  Has(Opening(WithIngress(placed, description)), Orients) || OrientationIndex(placed) < OPENING_WINDOW)
            && OrientationIndex(placed) <= OPENING_WINDOW
  {
    var started := WithIngress(placed, description);
    var at := OrientationIndex(placed);
    var ready := CompleteOpening(placed, description);
    StartedHasIngress(placed, description);
    if Has(Opening(started), Orients) {
      assert ready == started;
      InOpening(started, at - 1, IsIngress);
    } else {
      assert ready[at - 1] == started[at - 1];
      InOpening(ready, at - 1, IsIngress);
      if at < OPENING_WINDOW {
        assert ready[at] == NewOrientation(OrientationItems(started));
        InOpening(ready, at, Orients);
      } else {
        assert Opening(ready) == Opening(started);
      }
    }
  }

  lemma InOpening(bs: seq<Block>, i: nat, role: Block -> bool)
    requires i < |bs| && i < OPENING_WINDOW && role(bs[i])
    ensures Has(Opening(bs), role)
  {
    assert Opening(bs)[i] == bs[i];
    assert Opening(bs)[i] in Opening(bs);
  }

  /** The ingress stands right before the place of the orientation line. */
  lemma StartedHasIngress(placed: seq<Block>, description: Prose)
    requires placed != []
    ensures var started, at := WithIngress(placed, description), OrientationIndex(placed);
            0 < at <= OPENING_WINDOW && at <= |started| && IsIngress(started[at - 1])
  {
    if Has(Opening(placed), IsIngress) {
      var opening := Opening(placed);
      var b :| b in opening && IsIngress(b);
      var i :| 0 <= i < |opening| && opening[i] == b;
      assert FirstIngress(opening, 0) < |opening|;
    }
  }

  // --------------------------------------------------------------- the pipeline --

  /** Everything up to the collapse of the tail. */
  function Prepare(title: Prose, description: Prose, repaired: seq<Block>): seq<Block> {
    CompleteOpening(RefreshOrientation(PlaceH1(repaired, title)), description)
  }

  /** Everything after the repair of the single blocks. */
  function Arrange(title: Prose, description: Prose, repaired: seq<Block>): seq<Block> {
    UniquifyBlockIds(CollapseDense(CollapseEvidenceAppendices(Prepare(title, description, repaired))))
  }

  /** `repair_canonical_epic`. */
  function Repair(paper: Paper): Result<seq<Block>, Refusal> {
    if paper.description == [] then Err(NoDescription)
    else
      match RepairSeq(paper.blocks)
      case None => Err(StepTextChanged)
      case Some(repaired) =>
        var out := Arrange(paper.title, paper.description, repaired);
        if MissingLeaves(paper.blocks, out) != [] then Err(SourceTextLost) else Ok(out)
  }

  /** Moving the first h1 to the front, or inserting one. */
  method MoveH1First(blocks: seq<Block>, title: Prose) returns (repaired: seq<Block>)
    ensures repaired == PlaceH1(blocks, title)
  {
    repaired := blocks;
    var k := FirstH1(repaired, 0);
    if k == |repaired| {
      repaired := [NewH1(title)] + repaired;
    } else {
      var i := k + 1;
      while i < |repaired|
        invariant k < i <= |repaired| == |blocks|
        invariant forall j :: 0 <= j <= k ==> repaired[j] == blocks[j]
        invariant forall j :: k < j < i ==> repaired[j] == Demote(blocks[j])
        invariant forall j :: i <= j < |blocks| ==> repaired[j] == blocks[j]
      {
        repaired := repaired[i := Demote(repaired[i])];
        i := i + 1;
      }
      TailIsDemoted(blocks, repaired, k);
      var h1 := repaired[k];
      repaired := [h1] + (repaired[..k] + repaired[k + 1..]);
    }
  }

  lemma TailIsDemoted(before: seq<Block>, after: seq<Block>, k: nat)
    requires k < |before| == |after| && forall j :: 0 <= j <= k ==> after[j] == before[j]
    requires forall j :: k < j < |before| ==> after[j] == Demote(before[j])
    ensures [after[k]] + (after[..k] + after[k + 1..]) == [before[k]] + before[..k] + DemoteAll(before[k + 1..])
  {
    var tail := before[k + 1..];
    assert after[..k] == before[..k];
    forall j | 0 <= j < |tail|
      ensures after[k + 1..][j] == DemoteAll(tail)[j]
    {
      assert after[k + 1 + j] == Demote(before[k + 1 + j]);
    }
    assert after[k + 1..] == DemoteAll(tail);
    Assoc([before[k]], before[..k], DemoteAll(tail));
  }

  /** The insertions at the running index `insert_at`. */
  method InsertOpening(blocks: seq<Block>, description: Prose) returns (repaired: seq<Block>)
    requires blocks != []
    ensures repaired == CompleteOpening(blocks, description)
    ensures Has(Opening(repaired), IsIngress)
    ensures Has(Opening(repaired), Orients) <==>
              Has(Opening(WithIngress(blocks, description)), Orients) || OrientationIndex(blocks) < OPENING_WINDOW
  {
    CompletedOpening(blocks, description);
    repaired := blocks;
    var at := 1;
    if !Has(Opening(repaired), IsIngress) {
      repaired := InsertAt(repaired, at, NewIngress(description));
      at := at + 1;
    } else {
      var i := FirstIngress(Opening(repaired), 0);
      if i < |Opening(repaired)| {
        at := i + 1;
      }
    }
    if !Has(Opening(repaired), Orients) {
      repaired := InsertAt(repaired, at, NewOrientation(OrientationItems(repaired)));
    }
  }

  /** `repair_canonical_epic` on a list that is edited in place. */
  method RepairCanonicalEpic(paper: Paper) returns (r: Result<seq<Block>, Refusal>)
    ensures r == Repair(paper)
  {
    if paper.description == [] {
      return Err(NoDescription);
    }
    var sequence := RepairSeq(paper.blocks);
    if sequence.None? {
      return Err(StepTextChanged);
    }
    var repaired := MoveH1First(sequence.value, paper.title);
    repaired := RefreshOrientation(repaired);
    repaired := InsertOpening(repaired, paper.description);
    repaired := CollapseAppendices(repaired);
    repaired := CollapseDenseLoop(repaired);
    var registry := new IdRegistry();
    repaired := registry.VisitMany(repaired);
    if MissingLeaves(paper.blocks, repaired) != [] {
      return Err(SourceTextLost);
    }
    r := Ok(repaired);
  }
}
