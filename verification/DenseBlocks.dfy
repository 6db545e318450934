/** `_collapse_dense_primary_blocks`: top-level blocks too dense to read in passing
    are folded into expandables. */
module DenseBlocks {
  import opened Wrappers
  import opened Subsequences
  import opened Words
  import opened PaperBlocks
  import opened QualityGates
  import Numerals

  predicate IsDense(b: Block) {
    b.Block? &&
    match b.kind
    case Paragraph => |Visible(b)| > 140
    case Notes => exists item | item in b.items :: |ItemWords(item)| > 80
    case Table => exists row | row in b.rows :: row.Cells? && exists cell | cell in row.cells :: |cell| > 60
    case _ => false
  }

  function HeadLabels(head: Row): seq<Prose> {
    match head
    case Cells(cells) => NonEmpty(cells)
    case NotCells(_) => []
  }

  function NonEmpty(cells: seq<Prose>): seq<Prose> {
    if cells == [] then [] else (if cells[0] == [] then [] else [cells[0]]) + NonEmpty(cells[1..])
  }

  /** Labels separated by a middle dot. */
  function Dotted(labels: seq<Prose>): Prose {
    if labels == [] then []
    else if |labels| == 1 then labels[0]
    else labels[0] + ["\U{00B7}"] + Dotted(labels[1..])
  }

  function DenseSummary(b: Block, index: nat): (s: Prose)
    requires b.Block?
    ensures AppendixNumber(s).None?
  {
    match b.kind
    case Paragraph =>
      var words := Visible(b);
      if |words| > 12 then ["Detail", "\U{2014}"] + words[..11] + [words[11] + "\U{2026}"]
      else ["Detail", "\U{2014}"] + words
    case Notes =>
      var tag := if b.items != [] && b.items[0].Note? then b.items[0].tag else [];
      ["Evidence", "notes"] + (if tag != [] then ["\U{2014}"] + tag else [])
    case Table =>
      var labels := HeadLabels(b.head);
      var shown := Dotted(if |labels| > 3 then labels[..3] else labels);
      ["Evidence", "table"] + (if labels != [] then ["\U{2014}"] + shown else [])
    case _ => ["Evidence", "detail", Numerals.Decimal(index)]
  }

  function Wrapped(b: Block, index: nat): (r: Block)
    requires b.Block?
    ensures r.Block? && r.kind == Expandable && r.children == [b]
  {
    var r := Blank(Expandable);
    r.(id := Some("epb-dense-detail-" + Numerals.Decimal(index)), summary := DenseSummary(b, index), children := [b],
       childless := false)
  }

  function Lightened(b: Block, index: nat): Block {
    if IsDense(b) then Wrapped(b, index) else b
  }

  function CollapseFrom(bs: seq<Block>, index: nat): (r: seq<Block>)
    ensures |r| == |bs|
    ensures forall i :: 0 <= i < |bs| ==> r[i] == Lightened(bs[i], index + i)
  {
    if bs == [] then [] else [Lightened(bs[0], index)] + CollapseFrom(bs[1..], index + 1)
  }

  /** `_collapse_dense_primary_blocks`. */
  function CollapseDense(bs: seq<Block>): seq<Block> {
    CollapseFrom(bs, 1)
  }

  method CollapseDenseLoop(blocks: seq<Block>) returns (repaired: seq<Block>)
    ensures repaired == CollapseDense(blocks)
  {
    repaired := [];
    for i := 0 to |blocks|
      invariant |repaired| == i
      invariant forall j :: 0 <= j < i ==> repaired[j] == CollapseDense(blocks)[j]
    {
      repaired := repaired + [if IsDense(blocks[i]) then Wrapped(blocks[i], i + 1) else blocks[i]];
    }
  }

  /** No top-level block of the result is denser than the audit's limits allow; a
      paragraph is measured as the audit measures it when nothing is nested in it. */
  lemma NothingDenseIsLeft(bs: seq<Block>, b: Block)
    requires b in CollapseDense(bs)
    ensures !HasLongNote(b) && !HasLongCell(b)
    ensures b.Block? && b.kind == Paragraph ==> |Visible(b)| <= MAX_PARAGRAPH_WORDS
    ensures b.Block? && b.blocks == [] && b.children == [] && b.steps == [] ==> !IsLongParagraph(b)
  {
    var i :| 0 <= i < |bs| && CollapseDense(bs)[i] == b;
    if !IsDense(bs[i]) && b.Block? {
      if b.kind == Paragraph && b.blocks == [] && b.children == [] && b.steps == [] {
        LeafCountsAgree(b);
      }
    }
  }

  /** Exactly the blocks over one of the three limits are folded into an expandable. */
  lemma DenseIsWrappedIff(bs: seq<Block>, i: nat)
    requires i < |bs|
    ensures CollapseDense(bs)[i] != bs[i] <==>
              || HasLongNote(bs[i]) || HasLongCell(bs[i])
              || (bs[i].Block? && bs[i].kind == Paragraph && |Visible(bs[i])| > MAX_PARAGRAPH_WORDS)
  {
    var b := bs[i];
    if IsDense(b) {
      assert Wrapped(b, i + 1).children[0] == b;
    }
    if HasLongCell(b) {
      var row :| row in b.rows && RowHasLongCell(row);
      assert row.Cells?;
    }
  }

  /** What names the detail of a paragraph: its first words, the twelfth of more than
      twelve with an ellipsis. */
  lemma ParagraphSummaryReads(b: Block, index: nat)
    requires b.Block? && b.kind == Paragraph
    ensures var s, ws := DenseSummary(b, index), Visible(b);
            && |s| == (if |ws| <= 12 then |ws| else 12) + 2 && s[0] == "Detail"
            && (forall k :: 2 <= k < |s| && (k < 13 || |ws| <= 12) ==> s[k] == ws[k - 2])
            && (|ws| > 12 ==> s[13] == ws[11] + ['\U{2026}'])
  {
  }

  /** Opening the new expandables gives back the input. */
  lemma DenseConserves(bs: seq<Block>, i: nat)
    requires i < |bs|
    ensures CollapseDense(bs)[i] == bs[i] || (CollapseDense(bs)[i].Block? && CollapseDense(bs)[i].children == [bs[i]])
  {
  }

  lemma {:induction false} DenseKeepsWords(bs: seq<Block>, index: nat)
    ensures Within(VisibleAll(bs), VisibleAll(CollapseFrom(bs, index)))
  {
    if bs != [] {
      var b := bs[0];
      DenseKeepsWords(bs[1..], index + 1);
      WithinSelf(Visible(b));
      if IsDense(b) {
        VisibleOfOne(b);
        var summary := DenseSummary(b, index);
        NothingWithin(summary);
        WithinJoin([], summary, Visible(b), Visible(b));
        assert [] + Visible(b) == Visible(b);
        assert Visible(Wrapped(b, index)) == summary + Visible(b);
        WithinJoin(Visible(b), summary + Visible(b), VisibleAll(bs[1..]), VisibleAll(CollapseFrom(bs[1..], index + 1)));
      } else {
        WithinJoin(Visible(b), Visible(b), VisibleAll(bs[1..]), VisibleAll(CollapseFrom(bs[1..], index + 1)));
      }
    }
  }

  lemma WalkOfOne(b: Block)
    ensures WalkAll([b]) == Walk(b)
  {
    assert [b][1..] == [];
    assert Walk(b) + [] == Walk(b);
  }

  /** The walk over the result meets the walk over the source with unnumbered
      expandables between. */
  lemma {:induction false} DenseKeepsNumbers(bs: seq<Block>, index: nat)
    ensures AppendixNumbers(WalkAll(CollapseFrom(bs, index))) == AppendixNumbers(WalkAll(bs))
  {
    if bs != [] {
      var out := CollapseFrom(bs, index);
      DenseKeepsNumbers(bs[1..], index + 1);
      AppendixNumbersConcat(Walk(bs[0]), WalkAll(bs[1..]));
      AppendixNumbersConcat(Walk(out[0]), WalkAll(out[1..]));
      assert out[1..] == CollapseFrom(bs[1..], index + 1);
      if IsDense(bs[0]) {
        WrappedNumbers(bs[0], index);
      }
    }
  }

  lemma WrappedNumbers(b: Block, index: nat)
    requires b.Block?
    ensures Walk(Wrapped(b, index)) == [Wrapped(b, index)] + Walk(b)
    ensures AppendixNumbers(Walk(Wrapped(b, index))) == AppendixNumbers(Walk(b))
  {
    var w := Wrapped(b, index);
    WalkOfOne(b);
    assert Walk(w) == [w] + (WalkAll([]) + WalkAll([b]) + WalkSteps([]));
    var all := [w] + Walk(b);
    assert all[0] == w && all[1..] == Walk(b);
    assert AppendixNumberOf(w) == [];
    assert AppendixNumbers(all) == AppendixNumberOf(w) + AppendixNumbers(Walk(b));
  }

  ghost predicate IsWrapper(x: Block) {
    exists b: Block, i: nat :: b.Block? && x == Wrapped(b, i)
  }

  lemma {:induction false} DenseWalk(bs: seq<Block>, index: nat)
    ensures forall x :: x in WalkAll(CollapseFrom(bs, index)) ==>
              x in WalkAll(bs) || IsWrapper(x)
  {
    if bs != [] {
      DenseWalk(bs[1..], index + 1);
      var out := CollapseFrom(bs, index);
      assert out[1..] == CollapseFrom(bs[1..], index + 1);
      if IsDense(bs[0]) {
        WrappedNumbers(bs[0], index);
      }
    }
  }
}
