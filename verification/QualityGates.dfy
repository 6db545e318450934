/**
 The independent audit: what `paper_quality.py` reports about a block tree.  It
 shares no code with the repair; it is the specification the repair is held to.
 */
module QualityGates {
  import opened Subsequences
  import opened Wrappers
  import opened Words
  import opened PaperBlocks
  import Numerals

  const OPENING_WINDOW: nat := 8
  const MAX_PRIMARY_WORDS: nat := 5_000
  const MAX_TOP_LEVEL_BLOCKS: nat := 80
  const MAX_TOP_LEVEL_HEADINGS: nat := 16
  const MAX_STEP_TITLE_WORDS: nat := 16
  const MAX_LIST_ITEM_WORDS: nat := 40
  const MAX_TABLE_ROWS: nat := 12
  const MAX_PARAGRAPH_WORDS: nat := 140
  const MAX_NOTE_ITEM_WORDS: nat := 80
  const MAX_TABLE_CELL_WORDS: nat := 60

  datatype Failure =
    | PrimaryReadingLoadExceeded
    | TopLevelBlockOverload
    | TopLevelHeadingOverload
    | EmptyStepBody
    | OverloadedStepTitle
    | TableMissingHeader
    | DuplicateBlockId
    | EvidenceAppendixNumbering
    | OutlineRequiresOneH1
    | OutlineHeadingLevelJump
    | OpeningMissingH1
    | OpeningMissingIngress
    | OpeningMissingOrientation

  datatype Warning =
    | ParagraphSizedListItem
    | OversizedTable
    | OverloadedPrimaryParagraph
    | OverloadedPrimaryNoteItem
    | OverloadedPrimaryTableCell

  // ------------------------------------------------------------ word counts --

  /** `_word_count`: unlike the repair's text, every text field counts. */
  function PlainCount(b: Block): nat {
    match b
    case NotBlock(words) => |words|
    case Block(_, _, _, title, text, content, summary, extra, head, rows, items, steps, blocks, children, _, _, _) =>
      |title| + |text| + |Join(content)| + |summary| + |Join(extra)| + |RowWords(head)| + |RowsWords(rows)|
      + |ItemsWords(items)| + PlainCountSteps(steps) + PlainCountAll(blocks) + PlainCountAll(children)
  }

  function PlainCountAll(bs: seq<Block>): nat {
    if bs == [] then 0 else PlainCount(bs[0]) + PlainCountAll(bs[1..])
  }

  function PlainCountSteps(ss: seq<Step>): nat {
    if ss == [] then 0
    else (match ss[0] case Step(title, blocks) => |title| + PlainCountAll(blocks) case NotStep => 0)
         + PlainCountSteps(ss[1..])
  }

  /** The audit and the repair count the same words in a block with nothing nested
      in it, unless it is of a kind whose text the repair reads selectively. */
  lemma LeafCountsAgree(b: Block)
    requires b.Block? && b.kind != StepsBlock && b.kind != Expandable
    requires b.blocks == [] && b.children == [] && b.steps == []
    ensures PlainCount(b) == |Visible(b)|
  {
  }

  // -------------------------------------------------------- per-block gates --

  predicate HasLongItem(b: Block) {
    b.Block? && b.kind == ListBlock && exists item | item in b.items :: |ItemWords(item)| > MAX_LIST_ITEM_WORDS
  }

  predicate HasOverloadedTitle(b: Block) {
    b.Block? && b.kind == StepsBlock
    && exists step | step in b.steps :: step.Step? && |step.title| > MAX_STEP_TITLE_WORDS
  }

  predicate IsOversizedTable(b: Block) {
    b.Block? && b.kind == Table && |b.rows| > MAX_TABLE_ROWS
  }

  predicate IsHeaderless(b: Block) {
    b.Block? && b.kind == Table && b.rows != [] && (b.head.NotCells? || b.head.cells == [])
  }

  predicate HasLongNote(b: Block) {
    b.Block? && b.kind == Notes && exists item | item in b.items :: |ItemWords(item)| > MAX_NOTE_ITEM_WORDS
  }

  predicate RowHasLongCell(row: Row) {
    row.Cells? && exists cell | cell in row.cells :: |cell| > MAX_TABLE_CELL_WORDS
  }

  predicate HasLongCell(b: Block) {
    b.Block? && b.kind == Table && exists row | row in b.rows :: RowHasLongCell(row)
  }

  predicate IsLongParagraph(b: Block) {
    b.Block? && b.kind == Paragraph && PlainCount(b) > MAX_PARAGRAPH_WORDS
  }

  const SELF_EVIDENT: set<Kind> := {
    OtherKind("audio"), Callout, OtherKind("code"), OtherKind("divider"), OtherKind("embed"),
    OtherKind("figure"), OtherKind("gallery"), OtherKind("image"), OtherKind("quote"),
    OtherKind("sheet"), OtherKind("video")
  }

  predicate IsMeaningful(b: Block) {
    b.Block? && !IsEmptyParagraph(b) && (PlainCount(b) > 0 || b.kind in SELF_EVIDENT)
  }

  predicate StepLacksBody(step: Step) {
    step.Step?
    && (step.title == []
        || (|step.title| > MAX_STEP_TITLE_WORDS && !exists child | child in step.blocks :: IsMeaningful(child)))
  }

  predicate HasEmptyStep(b: Block) {
    b.Block? && b.kind == StepsBlock && exists step | step in b.steps :: StepLacksBody(step)
  }

  // -------------------------------------------------------------- appendices --

  /** Length of the leading run of digits. */
  function DigitRun(s: string): (n: nat)
    ensures n <= |s|
    ensures forall i :: 0 <= i < n ==> IsDigit(s[i])
    ensures n < |s| ==> !IsDigit(s[n])
  {
    if s != [] && IsDigit(s[0]) then 1 + DigitRun(s[1..]) else 0
  }

  /** The number matched by `^Evidence appendix (\d+)\b`, if the summary matches. */
  function AppendixNumber(summary: Prose): Option<nat> {
    if |summary| >= 3 && summary[0] == "Evidence" && summary[1] == "appendix" then
      var n := DigitRun(summary[2]);
      if n > 0 && (n == |summary[2]| || !IsWordChar(summary[2][n])) then Some(Numerals.Value(summary[2][..n]))
      else None
    else None
  }

  function AppendixNumberOf(b: Block): seq<nat> {
    if b.Block? && b.kind == Expandable && AppendixNumber(b.summary).Some? then [AppendixNumber(b.summary).value]
    else []
  }

  function AppendixNumbers(walked: seq<Block>): seq<nat> {
    if walked == [] then [] else AppendixNumberOf(walked[0]) + AppendixNumbers(walked[1..])
  }

  lemma AppendixNumbersSnoc(walked: seq<Block>, b: Block)
    ensures AppendixNumbers(walked + [b]) == AppendixNumbers(walked) + AppendixNumberOf(b)
  {
    AppendixNumbersConcat(walked, [b]);
    assert AppendixNumbers([b][1..]) == [];
  }

  lemma {:induction false} AppendixNumbersConcat(a: seq<Block>, b: seq<Block>)
    ensures AppendixNumbers(a + b) == AppendixNumbers(a) + AppendixNumbers(b)
  {
    if a == [] {
      assert a + b == b;
    } else {
      Peel(a, b);
      AppendixNumbersConcat(a[1..], b);
      Assoc(AppendixNumberOf(a[0]), AppendixNumbers(a[1..]), AppendixNumbers(b));
    }
  }

  function UpTo(n: nat): (s: seq<nat>)
    ensures |s| == n && forall i :: 0 <= i < n ==> s[i] == i + 1
  {
    seq(n, i => i + 1)
  }

  // ---------------------------------------------------------------- block ids --

  function IdOf(b: Block): seq<string> {
    if b.Block? && b.id.Some? && b.id.value != "" then [b.id.value] else []
  }

  function IdsOf(walked: seq<Block>): seq<string> {
    if walked == [] then [] else IdOf(walked[0]) + IdsOf(walked[1..])
  }

  // ------------------------------------------------------------------ outline --

  /** Integer levels of the top-level headings; floats and strings are skipped. */
  function OutlineLevels(blocks: seq<Block>): seq<int> {
    if blocks == [] then []
    else
      (if IsHeading(blocks[0]) && blocks[0].level.IntLevel? then [blocks[0].level.n] else [])
      + OutlineLevels(blocks[1..])
  }

  function OutlineFailures(blocks: seq<Block>): (r: seq<Failure>)
    ensures OutlineRequiresOneH1 in r <==> multiset(OutlineLevels(blocks))[1] != 1
  {
    var levels := OutlineLevels(blocks);
    (if multiset(levels)[1] != 1 then [OutlineRequiresOneH1] else [])
    + (if exists i | 0 <= i < |levels| - 1 :: levels[i + 1] > levels[i] + 1 then [OutlineHeadingLevelJump] else [])
  }

  // ------------------------------------------------------------------ opening --

  predicate IsH1(b: Block) {
    IsHeading(b) && IsLevelOne(b.level)
  }

  predicate IsKind(b: Block, kind: Kind) {
    b.Block? && b.kind == kind
  }

  predicate IsIngress(b: Block) {
    IsKind(b, Ingress)
  }

  /** A block a reader can find the way by. */
  predicate Orients(b: Block) {
    IsKind(b, Byline) || IsKind(b, Stats) || IsKind(b, Toc) || IsKind(b, ListBlock) || IsKind(b, StepsBlock)
  }

  predicate Has(bs: seq<Block>, role: Block -> bool) {
    exists b | b in bs :: role(b)
  }

  function Opening(bs: seq<Block>): seq<Block> {
    if |bs| <= OPENING_WINDOW then bs else bs[..OPENING_WINDOW]
  }

  function Meaningful(blocks: seq<Block>): seq<Block> {
    if blocks == [] then []
    else (if IsMeaningful(blocks[0]) then [blocks[0]] else []) + Meaningful(blocks[1..])
  }

  /** The opening checks of `_audit_one`, on the first eight meaningful blocks. */
  function OpeningFailures(blocks: seq<Block>): (r: seq<Failure>)
    ensures OpeningMissingH1 in r <==> !Has(Opening(Meaningful(blocks)), IsH1)
    ensures OpeningMissingIngress in r <==> !Has(Opening(Meaningful(blocks)), IsIngress)
    ensures OpeningMissingOrientation in r <==> !Has(Opening(Meaningful(blocks)), Orients)
  {
    var opening := Opening(Meaningful(blocks));
    Flag(!Has(opening, IsH1), OpeningMissingH1) + Flag(!Has(opening, IsIngress), OpeningMissingIngress)
    + Flag(!Has(opening, Orients), OpeningMissingOrientation)
  }

  // ------------------------------------------------------------- the audits --

  /** What a reader must absorb before opening any disclosure. */
  function FirstPass(blocks: seq<Block>): seq<Block> {
    if blocks == [] then []
    else
      (if blocks[0].Block? && blocks[0].kind == Expandable && !blocks[0].open then [] else [blocks[0]])
      + FirstPass(blocks[1..])
  }

  function CountHeadings(blocks: seq<Block>): nat {
    if blocks == [] then 0 else (if IsHeading(blocks[0]) then 1 else 0) + CountHeadings(blocks[1..])
  }

  lemma {:induction false} CountHeadingsConcat(a: seq<Block>, b: seq<Block>)
    ensures CountHeadings(a + b) == CountHeadings(a) + CountHeadings(b)
  {
    if a == [] {
      assert a + b == b;
    } else {
      CountHeadingsConcat(a[1..], b);
      assert (a + b)[1..] == a[1..] + b;
    }
  }

  lemma IdsOfSnoc(walked: seq<Block>, b: Block)
    ensures IdsOf(walked + [b]) == IdsOf(walked) + IdOf(b)
  {
    if walked == [] {
      assert walked + [b] == [b];
    } else {
      IdsOfSnoc(walked[1..], b);
      assert (walked + [b])[1..] == walked[1..] + [b];
    }
  }

  ghost predicate Any(gate: Block -> bool, walked: seq<Block>) {
    exists b :: b in walked && gate(b)
  }

  lemma AnySnoc(gate: Block -> bool, walked: seq<Block>, b: Block)
    ensures Any(gate, walked + [b]) <==> Any(gate, walked) || gate(b)
  {
    if Any(gate, walked) {
      var x :| x in walked && gate(x);
      assert x in walked + [b];
    }
    assert b in walked + [b];
  }

  function Flag<T(!new)>(raised: bool, flag: T): (r: seq<T>)
    ensures forall x :: x in r <==> raised && x == flag
  {
    if raised then [flag] else []
  }

  /** The single walk of `_composition_failures`, with its running counters. */
  method TallyComposition(walked: seq<Block>)
    returns (emptySteps: nat, overloadedTitles: nat, headerless: nat, ids: seq<string>, numbers: seq<nat>)
    ensures emptySteps > 0 <==> Any(HasEmptyStep, walked)
    ensures overloadedTitles > 0 <==> Any(HasOverloadedTitle, walked)
    ensures headerless > 0 <==> Any(IsHeaderless, walked)
    ensures ids == IdsOf(walked)
    ensures numbers == AppendixNumbers(walked)
  {
    emptySteps, overloadedTitles, headerless, ids, numbers := 0, 0, 0, [], [];
    for i := 0 to |walked|
      invariant emptySteps > 0 <==> Any(HasEmptyStep, walked[..i])
      invariant overloadedTitles > 0 <==> Any(HasOverloadedTitle, walked[..i])
      invariant headerless > 0 <==> Any(IsHeaderless, walked[..i])
      invariant ids == IdsOf(walked[..i])
      invariant numbers == AppendixNumbers(walked[..i])
    {
      ghost var before := walked[..i];
      var b := walked[i];
      assert walked[..i + 1] == before + [b];
      AnySnoc(HasEmptyStep, before, b);
      AnySnoc(HasOverloadedTitle, before, b);
      AnySnoc(IsHeaderless, before, b);
      IdsOfSnoc(before, b);
      AppendixNumbersSnoc(before, b);
      ids := ids + IdOf(b);
      numbers := numbers + AppendixNumberOf(b);
      if HasEmptyStep(b) { emptySteps := emptySteps + 1; }
      if HasOverloadedTitle(b) { overloadedTitles := overloadedTitles + 1; }
      if IsHeaderless(b) { headerless := headerless + 1; }
    }
    assert walked[..|walked|] == walked;
  }

  function LoadFailures(words: nat, blocks: nat, headings: nat): (r: seq<Failure>)
    ensures PrimaryReadingLoadExceeded in r <==> words > MAX_PRIMARY_WORDS
    ensures TopLevelBlockOverload in r <==> blocks > MAX_TOP_LEVEL_BLOCKS
    ensures TopLevelHeadingOverload in r <==> headings > MAX_TOP_LEVEL_HEADINGS
    ensures forall f :: f in r ==> f in {PrimaryReadingLoadExceeded, TopLevelBlockOverload, TopLevelHeadingOverload}
  {
    Flag(words > MAX_PRIMARY_WORDS, PrimaryReadingLoadExceeded)
    + Flag(blocks > MAX_TOP_LEVEL_BLOCKS, TopLevelBlockOverload)
    + Flag(headings > MAX_TOP_LEVEL_HEADINGS, TopLevelHeadingOverload)
  }

  function StepFailures(emptyStep: bool, longTitle: bool, headerless: bool): (r: seq<Failure>)
    ensures EmptyStepBody in r <==> emptyStep
    ensures OverloadedStepTitle in r <==> longTitle
    ensures TableMissingHeader in r <==> headerless
    ensures forall f :: f in r ==> f in {EmptyStepBody, OverloadedStepTitle, TableMissingHeader}
  {
    Flag(emptyStep, EmptyStepBody) + Flag(longTitle, OverloadedStepTitle) + Flag(headerless, TableMissingHeader)
  }

  function TreeFailures(emptyStep: bool, longTitle: bool, headerless: bool, duplicate: bool, numbering: bool)
    : (r: seq<Failure>)
    ensures EmptyStepBody in r <==> emptyStep
    ensures OverloadedStepTitle in r <==> longTitle
    ensures TableMissingHeader in r <==> headerless
    ensures DuplicateBlockId in r <==> duplicate
    ensures EvidenceAppendixNumbering in r <==> numbering
    ensures forall f :: f in r ==>
      f !in {PrimaryReadingLoadExceeded, TopLevelBlockOverload, TopLevelHeadingOverload}
  {
    StepFailures(emptyStep, longTitle, headerless)
    + Flag(duplicate, DuplicateBlockId)
    + Flag(numbering, EvidenceAppendixNumbering)
  }

  lemma MisnumberedIff(numbers: seq<nat>)
    ensures numbers != [] && numbers != UpTo(|numbers|) <==> numbers != UpTo(|numbers|)
  {
    assert UpTo(0) == [];
  }

  function CompositionFlags(load: seq<Failure>, tree: seq<Failure>): (r: seq<Failure>)
    ensures forall f :: f in r <==> f in load || f in tree
  {
    load + tree
  }

  /** The findings about the blocks walked. */
  method WalkFailures(walked: seq<Block>) returns (tree: seq<Failure>)
    ensures EmptyStepBody in tree <==> Any(HasEmptyStep, walked)
    ensures OverloadedStepTitle in tree <==> Any(HasOverloadedTitle, walked)
    ensures TableMissingHeader in tree <==> Any(IsHeaderless, walked)
    ensures DuplicateBlockId in tree <==> !Distinct(IdsOf(walked))
    ensures EvidenceAppendixNumbering in tree <==> AppendixNumbers(walked) != UpTo(|AppendixNumbers(walked)|)
    ensures forall f :: f in tree ==>
              f !in {PrimaryReadingLoadExceeded, TopLevelBlockOverload, TopLevelHeadingOverload}
  {
    var emptySteps, overloadedTitles, headerless, ids, numbers := TallyComposition(walked);
    DistinctAsSet(ids);
    MisnumberedIff(numbers);
    tree := TreeFailures(emptySteps > 0, overloadedTitles > 0, headerless > 0, |ids| != |set id | id in ids|,
                         numbers != [] && numbers != UpTo(|numbers|));
  }

  /** `_composition_failures`. */
  method CompositionFailures(blocks: seq<Block>) returns (failures: seq<Failure>)
    ensures PrimaryReadingLoadExceeded in failures <==> PlainCountAll(FirstPass(blocks)) > MAX_PRIMARY_WORDS
    ensures TopLevelBlockOverload in failures <==> |blocks| > MAX_TOP_LEVEL_BLOCKS
    ensures TopLevelHeadingOverload in failures <==> CountHeadings(blocks) > MAX_TOP_LEVEL_HEADINGS
    ensures EmptyStepBody in failures <==> Any(HasEmptyStep, WalkAll(blocks))
    ensures OverloadedStepTitle in failures <==> Any(HasOverloadedTitle, WalkAll(blocks))
    ensures TableMissingHeader in failures <==> Any(IsHeaderless, WalkAll(blocks))
    ensures DuplicateBlockId in failures <==> !Distinct(IdsOf(WalkAll(blocks)))
    ensures EvidenceAppendixNumbering in failures <==>
              AppendixNumbers(WalkAll(blocks)) != UpTo(|AppendixNumbers(WalkAll(blocks))|)
  {
    var load := LoadFailures(PlainCountAll(FirstPass(blocks)), |blocks|, CountHeadings(blocks));
    var tree := WalkFailures(WalkAll(blocks));
    failures := CompositionFlags(load, tree);
  }

  function LongestItem(items: seq<Item>): (n: nat)
    ensures forall item :: item in items ==> |ItemWords(item)| <= n
    ensures n > 0 ==> exists item :: item in items && |ItemWords(item)| == n
  {
    if items == [] then 0
    else
      var rest := LongestItem(items[1..]);
      if |ItemWords(items[0])| >= rest then |ItemWords(items[0])| else rest
  }

  function LongestCell(cells: seq<Prose>): (n: nat)
    ensures forall cell :: cell in cells ==> |cell| <= n
    ensures n > 0 ==> exists cell :: cell in cells && |cell| == n
  {
    if cells == [] then 0
    else
      var rest := LongestCell(cells[1..]);
      if |cells[0]| >= rest then |cells[0]| else rest
  }

  function LongestRowCell(rows: seq<Row>): (n: nat)
    ensures n > MAX_TABLE_CELL_WORDS <==> exists row :: row in rows && RowHasLongCell(row)
  {
    if rows == [] then 0
    else
      var rest := LongestRowCell(rows[1..]);
      var here := if rows[0].Cells? then LongestCell(rows[0].cells) else 0;
      assert here > MAX_TABLE_CELL_WORDS <==> RowHasLongCell(rows[0]);
      assert forall row :: row in rows <==> row == rows[0] || row in rows[1..];
      if here >= rest then here else rest
  }

  function Max(a: nat, b: nat): nat {
    if a >= b then a else b
  }

  /** The walk over the whole tree: longest list item, tallest table. */
  method TallyTree(walked: seq<Block>) returns (item: nat, rows: nat)
    ensures item > MAX_LIST_ITEM_WORDS <==> Any(HasLongItem, walked)
    ensures rows > MAX_TABLE_ROWS <==> Any(IsOversizedTable, walked)
  {
    item, rows := 0, 0;
    for i := 0 to |walked|
      invariant item > MAX_LIST_ITEM_WORDS <==> Any(HasLongItem, walked[..i])
      invariant rows > MAX_TABLE_ROWS <==> Any(IsOversizedTable, walked[..i])
    {
      var b := walked[i];
      assert walked[..i + 1] == walked[..i] + [b];
      AnySnoc(HasLongItem, walked[..i], b);
      AnySnoc(IsOversizedTable, walked[..i], b);
      if b.Block? && b.kind == ListBlock { item := Max(item, LongestItem(b.items)); }
      if b.Block? && b.kind == Table { rows := Max(rows, |b.rows|); }
    }
    assert walked[..|walked|] == walked;
  }

  /** The walk over the first pass: longest paragraph, notes item and table cell. */
  method TallyPrimary(walked: seq<Block>) returns (paragraph: nat, note: nat, cell: nat)
    ensures paragraph > MAX_PARAGRAPH_WORDS <==> Any(IsLongParagraph, walked)
    ensures note > MAX_NOTE_ITEM_WORDS <==> Any(HasLongNote, walked)
    ensures cell > MAX_TABLE_CELL_WORDS <==> Any(HasLongCell, walked)
  {
    paragraph, note, cell := 0, 0, 0;
    for i := 0 to |walked|
      invariant paragraph > MAX_PARAGRAPH_WORDS <==> Any(IsLongParagraph, walked[..i])
      invariant note > MAX_NOTE_ITEM_WORDS <==> Any(HasLongNote, walked[..i])
      invariant cell > MAX_TABLE_CELL_WORDS <==> Any(HasLongCell, walked[..i])
    {
      var b := walked[i];
      assert walked[..i + 1] == walked[..i] + [b];
      AnySnoc(IsLongParagraph, walked[..i], b);
      AnySnoc(HasLongNote, walked[..i], b);
      AnySnoc(HasLongCell, walked[..i], b);
      if b.Block? && b.kind == Paragraph { paragraph := Max(paragraph, PlainCount(b)); }
      else if b.Block? && b.kind == Notes { note := Max(note, LongestItem(b.items)); }
      else if b.Block? && b.kind == Table { cell := Max(cell, LongestRowCell(b.rows)); }
    }
    assert walked[..|walked|] == walked;
  }

  function DensityFlags(item: bool, rows: bool, paragraph: bool, note: bool, cell: bool): (r: seq<Warning>)
    ensures ParagraphSizedListItem in r <==> item
    ensures OversizedTable in r <==> rows
    ensures OverloadedPrimaryParagraph in r <==> paragraph
    ensures OverloadedPrimaryNoteItem in r <==> note
    ensures OverloadedPrimaryTableCell in r <==> cell
  {
    Flag(item, ParagraphSizedListItem) + Flag(rows, OversizedTable) + Flag(paragraph, OverloadedPrimaryParagraph)
    + Flag(note, OverloadedPrimaryNoteItem) + Flag(cell, OverloadedPrimaryTableCell)
  }

  /** `_density_warnings`. */
  method DensityWarnings(blocks: seq<Block>) returns (warnings: seq<Warning>)
    ensures ParagraphSizedListItem in warnings <==> Any(HasLongItem, WalkAll(blocks))
    ensures OversizedTable in warnings <==> Any(IsOversizedTable, WalkAll(blocks))
    ensures OverloadedPrimaryParagraph in warnings <==> Any(IsLongParagraph, WalkAll(FirstPass(blocks)))
    ensures OverloadedPrimaryNoteItem in warnings <==> Any(HasLongNote, WalkAll(FirstPass(blocks)))
    ensures OverloadedPrimaryTableCell in warnings <==> Any(HasLongCell, WalkAll(FirstPass(blocks)))
  {
    var item, rows := TallyTree(WalkAll(blocks));
    var paragraph, note, cell := TallyPrimary(WalkAll(FirstPass(blocks)));
    warnings := DensityFlags(item > MAX_LIST_ITEM_WORDS, rows > MAX_TABLE_ROWS, paragraph > MAX_PARAGRAPH_WORDS,
                             note > MAX_NOTE_ITEM_WORDS, cell > MAX_TABLE_CELL_WORDS);
  }
}
