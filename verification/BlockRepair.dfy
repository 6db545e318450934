/** `_repair_block_sequence` and `_repair_nested_blocks`: the repair of every block
    at every depth. */
module BlockRepair {
  import opened Wrappers
  import opened Subsequences
  import opened Words
  import opened PaperBlocks
  import opened StepRepair
  import opened QualityGates
  import Numerals

  // ---------------------------------------------------------- single blocks --

  predicate AllDigits(s: string) {
    forall i | 0 <= i < |s| :: IsDigit(s[i])
  }

  /** A heading level written as a string of digits becomes an integer. */
  function FixLevel(b: Block): (r: Block)
    requires b.Block?
    ensures r.Block?
  {
    if b.kind == Heading && b.level.TextLevel? && b.level.s != "" && AllDigits(b.level.s) then
      b.(level := IntLevel(Numerals.Value(b.level.s)))
    else b
  }

  predicate HasHead(b: Block)
    requires b.Block?
  {
    b.head.Cells? && b.head.cells != []
  }

  /** The first row of a headless table becomes its head. */
  function PromoteTableHead(b: Block): (r: Block)
    requires b.Block?
    ensures r.Block?
  {
    if b.kind == Table && b.rows != [] && !HasHead(b) then b.(head := b.rows[0], rows := b.rows[1..]) else b
  }

  function RepairStepsBlock(b: Block): Option<Block>
    requires b.Block?
  {
    if b.kind == StepsBlock then
      match RepairSteps(b.steps)
      case None => None
      case Some(steps) => Some(b.(steps := steps))
    else Some(b)
  }

  /** Words separated by single spaces. */
  function Spaced(ws: Prose): string {
    if ws == [] then ""
    else if |ws| == 1 then ws[0]
    else ws[0] + " " + Spaced(ws[1..])
  }

  /** The callout's body already opens with its title, ignoring case. */
  predicate TitleIsRedundant(b: Block) {
    b.Block? && b.kind == Callout && b.title != []
    && FoldAll(Spaced(b.title)) <= FoldAll(Spaced(Join(b.content)))
  }

  /** `t` opens `s`, whatever the case of the letters. */
  ghost predicate OpensWith(s: string, t: string) {
    |t| <= |s| && forall i :: 0 <= i < |t| ==>
      t[i] == s[i] || (IsUpper(t[i]) && s[i] == t[i] - 'A' + 'a') || (IsUpper(s[i]) && t[i] == s[i] - 'A' + 'a')
  }

  /** A callout's title is dropped exactly when its body opens with it. */
  lemma TitleIsDroppedIff(b: Block)
    requires b.Block?
    ensures DedupeCalloutTitle(b) != b <==>
              b.kind == Callout && b.title != [] && OpensWith(Spaced(Join(b.content)), Spaced(b.title))
    ensures DedupeCalloutTitle(b).(title := b.title) == b
  {
    var s, t := Spaced(Join(b.content)), Spaced(b.title);
    if OpensWith(s, t) {
      assert forall i :: 0 <= i < |t| ==> FoldAll(t)[i] == FoldAll(s)[i];
    } else if FoldAll(t) <= FoldAll(s) {
      forall i | 0 <= i < |t|
        ensures Fold(t[i]) == Fold(s[i])
      {
        assert FoldAll(t)[i] == FoldAll(s)[i];
      }
    }
  }

  function DedupeCalloutTitle(b: Block): (r: Block)
    requires b.Block?
    ensures r.Block?
  {
    if TitleIsRedundant(b) then b.(title := []) else b
  }

  function NoteFor(item: Item, number: nat): Item {
    var (lead, text) := SplitCompactLead(ItemWords(item), false);
    Note(["point", Numerals.Pad2(number)], lead, text)
  }

  function NotesFor(items: seq<Item>): seq<Item> {
    seq(|items|, i requires 0 <= i < |items| => NoteFor(items[i], i + 1))
  }

  /** A list with a paragraph-sized item becomes notes. */
  function ListAsNotes(b: Block): (r: Block)
    requires b.Block?
    ensures r.Block?
  {
    if HasLongItem(b) then b.(kind := Notes, items := NotesFor(b.items)) else b
  }

  /** A list with a paragraph-sized item becomes notes, item by item: each is numbered
      from one, opens with a lead of at most sixteen words, and says what it said. */
  lemma LongListBecomesNotes(b: Block)
    requires HasLongItem(b)
    ensures var r := ListAsNotes(b);
            && r.kind == Notes && |r.items| == |b.items|
            && forall i :: 0 <= i < |b.items| ==> IsNoteFor(b.items[i], r.items[i], i + 1)
  {
    forall i | 0 <= i < |b.items|
      ensures IsNoteFor(b.items[i], NotesFor(b.items)[i], i + 1)
    {
      Numerals.Pad2Facts(i + 1);
    }
  }

  ghost predicate IsNoteFor(item: Item, note: Item, number: nat) {
    && note.Note? && |note.tag| == 2 && note.tag[0] == "point"
    && |note.tag[1]| >= 2 && Numerals.Digits(note.tag[1]) && Numerals.Value(note.tag[1]) == number
    && |note.lead| <= LEAD_LIMIT && note.lead + note.text == ItemWords(item)
  }

  function ChunkId(b: Block, index: nat): string
    requires b.Block?
  {
    (if b.id.Some? then b.id.value else "table") + "-part-" + Numerals.Decimal(index)
  }

  function Chunk(b: Block, rows: seq<Row>, index: nat): (r: Block)
    requires b.Block?
    ensures r.Block?
  {
    b.(id := Some(ChunkId(b, index)), rows := rows)
  }

  function Chunks(b: Block, rows: seq<Row>, index: nat): seq<Block>
    requires b.Block?
    decreases |rows|
  {
    if |rows| <= MAX_TABLE_ROWS then [Chunk(b, rows, index)]
    else [Chunk(b, rows[..MAX_TABLE_ROWS], index)] + Chunks(b, rows[MAX_TABLE_ROWS..], index + 1)
  }

  /** An oversized table becomes consecutive tables of at most twelve rows. */
  function SplitTable(b: Block): seq<Block>
    requires b.Block?
  {
    if IsOversizedTable(b) then Chunks(b, b.rows, 1) else [b]
  }

  /** What happens to one block after the blocks under it have been repaired. */
  function RepairOne(b: Block): Option<seq<Block>>
    requires b.Block?
  {
    match RepairStepsBlock(PromoteTableHead(FixLevel(b)))
    case None => None
    case Some(stepped) => Some(SplitTable(ListAsNotes(DedupeCalloutTitle(stepped))))
  }

  lemma ShorterRows(p: Block)
    requires p.Block?
    ensures SplitTable(p) != [] && SplitTable(p)[0].Block? && |SplitTable(p)[0].rows| <= |p.rows|
  {
  }

  lemma HeaderlessChanges(b: Block)
    requires IsHeaderless(b)
    ensures RepairOne(b) != Some([b])
  {
    var p := PromoteTableHead(FixLevel(b));
    assert p.rows == b.rows[1..] && p.kind == Table;
    assert RepairOne(b) == Some(SplitTable(p));
    ShorterRows(p);
    assert [b][0].rows == b.rows;
  }

  /** One block is left as it is exactly when there is nothing to repair in it: no level
      in digits, no table without a head, no table of more than twelve rows, no step that
      changes, no title its callout repeats, no paragraph-sized list item. */
  lemma RepairOneIsIdentityIff(b: Block)
    requires b.Block?
    ensures RepairOne(b) == Some([b]) <==>
              && !(b.kind == Heading && b.level.TextLevel? && b.level.s != "" && AllDigits(b.level.s))
              && !IsHeaderless(b) && !IsOversizedTable(b)
              && (b.kind == StepsBlock ==> RepairSteps(b.steps) == Some(b.steps))
              && !(b.kind == Callout && TitleIsRedundant(b))
              && !HasLongItem(b)
  {
    if IsHeaderless(b) {
      HeaderlessChanges(b);
    } else if IsOversizedTable(b) {
      assert Chunks(b, b.rows, 1)[1..] != [];
    }
  }

  // ---------------------------------------------------------- the recursion --

  /** `_repair_nested_blocks` on a block: everything below it, not the block. */
  function RepairNested(b: Block): (r: Option<Block>)
    ensures r.Some? ==> (b.Block? <==> r.value.Block?)
    decreases b, 0
  {
    match b
    case NotBlock(_) => Some(b)
    case Block(_, _, _, _, _, _, _, _, _, _, _, steps, blocks, children, child, _, _) =>
      match (RepairSeq(blocks), RepairSeq(children), RepairNestedSteps(steps), RepairNestedChild(child))
      case (Some(bs), Some(cs), Some(ss), Some(fs)) =>
        Some(b.(blocks := bs, children := cs, steps := ss, child := fs))
      case _ => None
  }

  function RepairNestedSteps(ss: seq<Step>): Option<seq<Step>> {
    if ss == [] then Some([])
    else
      match (match ss[0]
             case NotStep => Some(NotStep)
             case Step(title, blocks) =>
               (match RepairSeq(blocks) case None => None case Some(bs) => Some(Step(title, bs))))
      case None => None
      case Some(first) =>
        match RepairNestedSteps(ss[1..])
        case None => None
        case Some(rest) => Some([first] + rest)
  }

  /** A figure's child is not itself in a block sequence: only what is below it is repaired. */
  function RepairNestedChild(child: seq<Block>): Option<seq<Block>> {
    if child == [] then Some([])
    else
      match (RepairNested(child[0]), RepairNestedChild(child[1..]))
      case (Some(first), Some(rest)) => Some([first] + rest)
      case _ => None
  }

  /** What one entry of a sequence contributes to the repaired sequence. */
  function RepairEntry(b: Block): Option<seq<Block>>
    decreases b, 1
  {
    if IsEmptyParagraph(b) then Some([])
    else if b.NotBlock? then Some([b])
    else
      match RepairNested(b)
      case None => None
      case Some(nested) => RepairOne(nested)
  }

  /** `_repair_block_sequence`; `None` when a step repair raises at any depth. */
  function RepairSeq(bs: seq<Block>): Option<seq<Block>> {
    if bs == [] then Some([])
    else
      match (RepairEntry(bs[0]), RepairSeq(bs[1..]))
      case (Some(first), Some(rest)) => Some(first + rest)
      case _ => None
  }

  // -------------------------------------------------------------- table lemmas --

  /** After promotion a table still lacks a header exactly when the promoted row was
      not a non-empty array and more rows followed it. */
  lemma PromotionLeavesHeaderlessIff(b: Block)
    requires b.Block? && b.kind == Table
    ensures IsHeaderless(PromoteTableHead(b)) <==>
              !HasHead(b) && |b.rows| > 1 && !(b.rows[0].Cells? && b.rows[0].cells != [])
  {
  }

  function RowsOf(bs: seq<Block>): seq<Row> {
    if bs == [] then [] else (if bs[0].Block? then bs[0].rows else []) + RowsOf(bs[1..])
  }

  /** Part `i` is the table with some of its rows, between one and twelve, and with the
      id for `index + i`; every part but the last is full. */
  ghost predicate ArePieces(parts: seq<Block>, b: Block, index: nat)
    requires b.Block?
  {
    forall i :: 0 <= i < |parts| ==>
      && parts[i].Block?
      && parts[i] == b.(rows := parts[i].rows, id := Some(ChunkId(b, index + i)))
      && 0 < |parts[i].rows| <= MAX_TABLE_ROWS
      && (i < |parts| - 1 ==> |parts[i].rows| == MAX_TABLE_ROWS)
  }

  lemma PiecesCons(b: Block, rows: seq<Row>, rest: seq<Block>, index: nat)
    requires b.Block? && |rows| == MAX_TABLE_ROWS
    requires ArePieces(rest, b, index + 1)
    ensures ArePieces([Chunk(b, rows, index)] + rest, b, index)
    ensures RowsOf([Chunk(b, rows, index)] + rest) == rows + RowsOf(rest)
  {
    var parts := [Chunk(b, rows, index)] + rest;
    assert parts[1..] == rest;
    forall i | 0 < i < |parts|
      ensures parts[i] == rest[i - 1] && index + 1 + (i - 1) == index + i
    {
    }
  }

  /** Splitting keeps every row once and in order, keeps every other field but the
      id, fills every part but the last, and numbers the parts from `index`. */
  lemma {:induction false} ChunksPartitionRows(b: Block, rows: seq<Row>, index: nat)
    requires b.Block? && b.kind == Table && rows != []
    ensures var parts := Chunks(b, rows, index);
            && RowsOf(parts) == rows
            && |parts| == (|rows| + MAX_TABLE_ROWS - 1) / MAX_TABLE_ROWS
            && ArePieces(parts, b, index)
    decreases |rows|
  {
    if |rows| <= MAX_TABLE_ROWS {
      assert Chunks(b, rows, index)[1..] == [];
      assert rows + [] == rows;
    } else {
      ChunksPartitionRows(b, rows[MAX_TABLE_ROWS..], index + 1);
      PiecesCons(b, rows[..MAX_TABLE_ROWS], Chunks(b, rows[MAX_TABLE_ROWS..], index + 1), index);
      assert rows == rows[..MAX_TABLE_ROWS] + rows[MAX_TABLE_ROWS..];
    }
  }

  // ---------------------------------------------------------- gates hold below --

  /** The gates a repaired block passes, wherever it sits in the tree. */
  predicate Tidy(b: Block) {
    !HasLongItem(b) && !HasOverloadedTitle(b) && !IsOversizedTable(b) && !IsEmptyParagraph(b)
  }

  /** Everything the audit walks strictly below a block. */
  function Below(b: Block): seq<Block>
    requires b.Block?
  {
    WalkAll(b.blocks) + WalkAll(b.children) + WalkSteps(b.steps)
  }

  /** A gate holds of a whole sequence when it holds of each entry and below it. */
  lemma {:induction false} HoldsThroughout(bs: seq<Block>, gate: Block -> bool)
    requires forall b :: b in bs && b.Block? ==> gate(b) && Holds(gate, Below(b))
    ensures Holds(gate, WalkAll(bs))
  {
    if bs != [] {
      HoldsThroughout(bs[1..], gate);
      if bs[0].Block? {
        assert Walk(bs[0]) == [bs[0]] + Below(bs[0]);
      }
    }
  }

  ghost predicate Holds(gate: Block -> bool, walked: seq<Block>) {
    forall b :: b in walked ==> gate(b)
  }

  /** A paragraph the step repair inserts. */
  ghost predicate IsInserted(b: Block) {
    exists words: Prose :: b == TextParagraph(words)
  }

  lemma {:induction false} RepairStepsWalk(ss: seq<Step>)
    requires RepairSteps(ss).Some?
    ensures forall b :: b in WalkSteps(RepairSteps(ss).value) ==> b in WalkSteps(ss) || IsInserted(b)
    ensures forall s :: s in RepairSteps(ss).value && s.Step? ==> |s.title| <= MAX_STEP_TITLE_WORDS
  {
    if ss != [] {
      RepairStepsWalk(ss[1..]);
      RepairStepKeepsWords(ss[0]);
      if ss[0].Step? {
        RepairStepWalk(ss[0]);
      }
    }
  }

  lemma RepairStepWalk(s: Step)
    requires s.Step? && RepairStep(s).Some?
    ensures RepairStep(s).value.Step?
    ensures forall b :: b in WalkAll(RepairStep(s).value.blocks) ==> b in WalkAll(s.blocks) || IsInserted(b)
  {
    RepairStepKeepsWords(s);
    var (_, body) := SplitCompactLead(Source(s), Continues(s));
    InsertedWalk(body);
    WalkAllConcat([TextParagraph(body)], Rest(s));
  }

  lemma InsertedWalk(words: Prose)
    ensures WalkAll([TextParagraph(words)]) == [TextParagraph(words)]
    ensures IsInserted(TextParagraph(words))
  {
    var p := TextParagraph(words);
    assert Walk(p) == [p] + WalkAll([]) + WalkAll([]) + WalkSteps([]);
    assert [p][1..] == [];
  }

  /** Nothing but inserted paragraphs was added. */
  ghost predicate Extends(before: seq<Block>, after: seq<Block>) {
    forall b :: b in after ==> b in before || IsInserted(b)
  }

  /** The stages of `RepairOne` keep what is below a block, except that step repair
      may insert paragraphs, and produce blocks that pass the gates. */
  lemma RepairOneWalk(b: Block)
    requires b.Block? && !IsEmptyParagraph(b) && RepairOne(b).Some?
    ensures forall x :: x in RepairOne(b).value ==> x.Block? && Tidy(x)
    ensures forall x :: x in RepairOne(b).value ==> Extends(Below(b), Below(x))
  {
    var promoted := PromoteTableHead(FixLevel(b));
    var stepped := RepairStepsBlock(promoted).value;
    var noted := ListAsNotes(DedupeCalloutTitle(stepped));
    if b.kind == StepsBlock {
      RepairStepsWalk(b.steps);
      assert stepped.steps == RepairSteps(b.steps).value;
    }
    assert stepped.blocks == b.blocks && stepped.children == b.children;
    assert Tidy(noted) || IsOversizedTable(noted);
    if IsOversizedTable(noted) {
      ChunksPartitionRows(noted, noted.rows, 1);
    }
  }

  /** Every block the audit walks in a repaired sequence passes the gates. */
  lemma {:induction false} RepairSeqIsTidy(bs: seq<Block>)
    requires RepairSeq(bs).Some?
    ensures Holds(Tidy, WalkAll(RepairSeq(bs).value))
  {
    if bs != [] {
      RepairEntryIsTidy(bs[0]);
      RepairSeqIsTidy(bs[1..]);
      WalkAllConcat(RepairEntry(bs[0]).value, RepairSeq(bs[1..]).value);
    }
  }

  lemma {:induction false} RepairEntryIsTidy(b: Block)
    requires RepairEntry(b).Some?
    ensures Holds(Tidy, WalkAll(RepairEntry(b).value))
    decreases b, 1
  {
    var out := RepairEntry(b).value;
    if IsEmptyParagraph(b) {
    } else if b.NotBlock? {
      assert out[1..] == [];
    } else {
      var nested := RepairNested(b).value;
      RepairNestedIsTidy(b);
      RepairOneWalk(nested);
      HoldsThroughout(out, Tidy);
    }
  }

  lemma {:induction false} RepairNestedIsTidy(b: Block)
    requires b.Block? && RepairNested(b).Some?
    ensures Holds(Tidy, Below(RepairNested(b).value))
    ensures IsEmptyParagraph(RepairNested(b).value) <==> IsEmptyParagraph(b)
    decreases b, 0
  {
    RepairSeqIsTidy(b.blocks);
    RepairSeqIsTidy(b.children);
    RepairNestedStepsTidy(b.steps);
  }

  lemma {:induction false} RepairNestedStepsTidy(ss: seq<Step>)
    requires RepairNestedSteps(ss).Some?
    ensures Holds(Tidy, WalkSteps(RepairNestedSteps(ss).value))
  {
    if ss != [] {
      RepairNestedStepsTidy(ss[1..]);
      if ss[0].Step? {
        RepairSeqIsTidy(ss[0].blocks);
      }
    }
  }

  // ------------------------------------------------------------ words are kept --

  /** The repair drops words of a block in three shapes only: a spacer paragraph
      with words in fields it does not look at, a callout whose title its body
      repeats, and a table whose head is not an array.  A table being promoted is
      read head first, so its items, if any, would move. */
  predicate LosesNothing(b: Block) {
    b.Block? ==>
      && (IsEmptyParagraph(b) ==> Visible(b) == [])
      && !TitleIsRedundant(b)
      && (b.kind == Table && b.rows != [] && !HasHead(b) ==> RowWords(b.head) == [] && b.items == [])
  }

  /** What a block other than steps and expandables shows. */
  function OwnParts(b: Block): (Prose, Prose, Prose)
    requires b.Block?
  {
    (Join(b.extra) + VisibleAll(b.blocks) + VisibleAll(b.children) + Join(b.content),
     RowWords(b.head) + ItemsWords(b.items) + RowsWords(b.rows),
     VisibleStrays(b.steps) + b.summary + b.text + b.title)
  }

  lemma VisibleParts(b: Block)
    requires b.Block? && b.kind != StepsBlock && b.kind != Expandable
    ensures Visible(b) == OwnParts(b).0 + OwnParts(b).1 + OwnParts(b).2
  {
    Regroup(Join(b.extra), VisibleAll(b.blocks), VisibleAll(b.children), Join(b.content), RowWords(b.head),
            ItemsWords(b.items), RowsWords(b.rows), VisibleStrays(b.steps), b.summary, b.text, b.title);
  }

  lemma Regroup<T>(a: seq<T>, b: seq<T>, c: seq<T>, d: seq<T>, e: seq<T>, f: seq<T>, g: seq<T>, h: seq<T>,
                   i: seq<T>, j: seq<T>, k: seq<T>)
    ensures a + b + c + d + e + f + g + h + i + j + k == (a + b + c + d) + (e + f + g) + (h + i + j + k)
  {
    var x := a + b + c + d;
    AssocThree(x, e, f, g);
    AssocFour(x + (e + f + g), h, i, j, k);
  }

  lemma AssocThree<T>(x: seq<T>, a: seq<T>, b: seq<T>, c: seq<T>)
    ensures x + a + b + c == x + (a + b + c)
  {
    Assoc(x, a, b);
    Assoc(x, a + b, c);
  }

  lemma AssocFour<T>(x: seq<T>, a: seq<T>, b: seq<T>, c: seq<T>, d: seq<T>)
    ensures x + a + b + c + d == x + (a + b + c + d)
  {
    AssocThree(x, a, b, c);
    Assoc(x, a + b + c, d);
  }

  /** The row that becomes the head is read where it was. */
  lemma PromotionKeepsParts(b: Block)
    requires b.Block? && LosesNothing(b) && b.kind == Table && b.rows != [] && !HasHead(b)
    ensures var p := PromoteTableHead(b);
            OwnParts(p).0 == OwnParts(b).0 && OwnParts(p).1 == OwnParts(b).1 && OwnParts(p).2 == OwnParts(b).2
  {
    var p := PromoteTableHead(b);
    assert RowWords(b.head) == [] && ItemsWords(b.items) == [];
    assert RowsWords(b.rows) == RowWords(p.head) + RowsWords(p.rows);
    assert OwnParts(b).1 == RowsWords(b.rows);
  }

  lemma PromotionKeepsWords(b: Block)
    requires b.Block? && LosesNothing(b)
    ensures Visible(PromoteTableHead(b)) == Visible(b)
  {
    if b.kind == Table && b.rows != [] && !HasHead(b) {
      PromotionKeepsParts(b);
      VisibleParts(b);
      VisibleParts(PromoteTableHead(b));
    }
  }

  lemma NoteKeepsWords(item: Item, number: nat)
    ensures Within(ItemWords(item), ItemWords(NoteFor(item, number)))
  {
    var (lead, text) := SplitCompactLead(ItemWords(item), false);
    var tag := ["point", Numerals.Pad2(number)];
    WithinSelf(ItemWords(item));
    WithinPadded(ItemWords(item), tag, ItemWords(item), []);
    assert tag + ItemWords(item) + [] == tag + lead + text;
  }

  lemma {:induction false} ItemsWithin(before: seq<Item>, after: seq<Item>)
    requires |before| == |after|
    requires forall i :: 0 <= i < |before| ==> Within(ItemWords(before[i]), ItemWords(after[i]))
    ensures Within(ItemsWords(before), ItemsWords(after))
  {
    if before != [] {
      ItemsWithin(before[1..], after[1..]);
      WithinJoin(ItemWords(before[0]), ItemWords(after[0]), ItemsWords(before[1..]), ItemsWords(after[1..]));
    }
  }

  lemma NotesKeepWords(b: Block)
    requires b.Block?
    ensures Within(Visible(b), Visible(ListAsNotes(b)))
  {
    var n := ListAsNotes(b);
    if n == b {
      WithinSelf(Visible(b));
    } else {
      forall i | 0 <= i < |b.items|
        ensures Within(ItemWords(b.items[i]), ItemWords(n.items[i]))
      {
        NoteKeepsWords(b.items[i], i + 1);
      }
      ItemsWithin(b.items, n.items);
      VisibleParts(b);
      VisibleParts(n);
      MiddleGrows(b, n);
    }
  }

  /** Only the table and list part of a block changed, and it grew. */
  lemma MiddleGrows(b: Block, n: Block)
    requires b.Block? && n.Block? && n == b.(kind := n.kind, items := n.items)
    requires Within(ItemsWords(b.items), ItemsWords(n.items))
    ensures Within(OwnParts(b).0 + OwnParts(b).1 + OwnParts(b).2, OwnParts(n).0 + OwnParts(n).1 + OwnParts(n).2)
  {
    var (x, _, z) := OwnParts(b);
    var head, rows := RowWords(b.head), RowsWords(b.rows);
    WithinSelf(head);
    WithinSelf(rows);
    WithinJoin(head, head, ItemsWords(b.items), ItemsWords(n.items));
    WithinJoin(head + ItemsWords(b.items), head + ItemsWords(n.items), rows, rows);
    WithinSelf(x);
    WithinSelf(z);
    WithinJoin(x, x, OwnParts(b).1, OwnParts(n).1);
    WithinJoin(x + OwnParts(b).1, x + OwnParts(n).1, z, z);
  }

  lemma RowsWordsConcat(a: seq<Row>, b: seq<Row>)
    ensures RowsWords(a + b) == RowsWords(a) + RowsWords(b)
  {
    if a == [] {
      assert a + b == b;
    } else {
      Peel(a, b);
      RowsWordsConcat(a[1..], b);
      Assoc(RowWords(a[0]), RowsWords(a[1..]), RowsWords(b));
    }
  }

  /** What a table shows around its rows. */
  lemma ChunkWords(b: Block, rows: seq<Row>, index: nat)
    requires b.Block? && b.kind == Table
    ensures Visible(Chunk(b, rows, index))
              == OwnParts(b).0 + RowWords(b.head) + ItemsWords(b.items) + RowsWords(rows) + OwnParts(b).2
  {
    var c := Chunk(b, rows, index);
    VisibleParts(c);
    assert OwnParts(c).0 == OwnParts(b).0 && OwnParts(c).2 == OwnParts(b).2;
  }

  lemma {:induction false} ChunksKeepWords(b: Block, rows: seq<Row>, index: nat)
    requires b.Block? && b.kind == Table
    ensures Within(Visible(Chunk(b, rows, index)), VisibleAll(Chunks(b, rows, index)))
    decreases |rows|
  {
    var whole := Chunk(b, rows, index);
    var parts := Chunks(b, rows, index);
    if |rows| <= MAX_TABLE_ROWS {
      VisibleOfOne(whole);
      WithinSelf(Visible(whole));
    } else {
      var here, later := rows[..MAX_TABLE_ROWS], rows[MAX_TABLE_ROWS..];
      var tail := Chunk(b, later, index + 1);
      var before := OwnParts(b).0 + RowWords(b.head) + ItemsWords(b.items);
      var after := OwnParts(b).2;
      ChunksKeepWords(b, later, index + 1);
      ChunkWords(b, rows, index);
      ChunkWords(b, here, index);
      ChunkWords(b, later, index + 1);
      assert rows == here + later;
      RowsWordsConcat(here, later);
      InterleaveChunk(before, RowsWords(here), RowsWords(later), after);
      WithinTail(Visible(parts[0]), Visible(tail), VisibleAll(parts[1..]));
      WithinTransitive(Visible(whole), Visible(parts[0]) + Visible(tail), VisibleAll(parts));
    }
  }

  lemma WithinTail(a: Prose, b: Prose, c: Prose)
    requires Within(b, c)
    ensures Within(a + b, a + c)
  {
    WithinSelf(a);
    WithinJoin(a, a, b, c);
  }

  lemma RegroupChunk(before: Prose, here: Prose, later: Prose, after: Prose)
    ensures before + (here + later) + after == (before + here) + (later + after)
    ensures (before + here + after) + (before + later + after) == (before + here) + (after + before + (later + after))
  {
  }

  lemma InterleaveChunk(before: Prose, here: Prose, later: Prose, after: Prose)
    ensures Within(before + (here + later) + after, (before + here + after) + (before + later + after))
  {
    var start, end := before + here, later + after;
    WithinSelf(start);
    WithinSelf(end);
    NothingWithin(after + before);
    WithinJoin([], after + before, end, end);
    assert [] + end == end;
    WithinTail(start, end, after + before + end);
    RegroupChunk(before, here, later, after);
  }

  lemma RepairOneKeepsWords(b: Block)
    requires b.Block? && LosesNothing(b) && RepairOne(b).Some?
    ensures Within(Visible(b), VisibleAll(RepairOne(b).value))
  {
    var leveled := FixLevel(b);
    var promoted := PromoteTableHead(leveled);
    var stepped := RepairStepsBlock(promoted).value;
    var titled := DedupeCalloutTitle(stepped);
    var noted := ListAsNotes(titled);
    assert Visible(leveled) == Visible(b);
    PromotionKeepsWords(leveled);
    if promoted.kind == StepsBlock {
      RepairStepsKeepsWords(promoted.steps);
    }
    assert Visible(stepped) == Visible(promoted);
    assert titled == stepped;
    NotesKeepWords(titled);
    SplitKeepsWords(noted);
    WithinTransitive(Visible(b), Visible(noted), VisibleAll(SplitTable(noted)));
  }

  lemma SplitKeepsWords(b: Block)
    requires b.Block?
    ensures Within(Visible(b), VisibleAll(SplitTable(b)))
  {
    if IsOversizedTable(b) {
      ChunksKeepWords(b, b.rows, 1);
      VisibleParts(b);
      VisibleParts(Chunk(b, b.rows, 1));
    } else {
      VisibleOfOne(b);
      WithinSelf(Visible(b));
    }
  }

  /** The words of the source occur in the repaired sequence, all of them and in
      the same order, unless a block is of a shape that loses words. */
  lemma {:induction false} RepairSeqKeepsWords(bs: seq<Block>)
    requires RepairSeq(bs).Some? && Holds(LosesNothing, WalkAll(bs))
    ensures Within(VisibleAll(bs), VisibleAll(RepairSeq(bs).value))
  {
    if bs != [] {
      var first, rest := RepairEntry(bs[0]).value, RepairSeq(bs[1..]).value;
      RepairEntryKeepsWords(bs[0]);
      RepairSeqKeepsWords(bs[1..]);
      VisibleAllConcat(first, rest);
      WithinJoin(Visible(bs[0]), VisibleAll(first), VisibleAll(bs[1..]), VisibleAll(rest));
    }
  }

  lemma {:induction false} RepairEntryKeepsWords(b: Block)
    requires RepairEntry(b).Some? && Holds(LosesNothing, Walk(b))
    ensures Within(Visible(b), VisibleAll(RepairEntry(b).value))
    decreases b, 1
  {
    if IsEmptyParagraph(b) {
      assert b in Walk(b);
    } else if b.NotBlock? {
      VisibleOfOne(b);
      WithinSelf(Visible(b));
    } else {
      var nested := RepairNested(b).value;
      assert b in Walk(b);
      RepairNestedKeepsWords(b);
      RepairOneKeepsWords(nested);
      WithinTransitive(Visible(b), Visible(nested), VisibleAll(RepairOne(nested).value));
    }
  }

  lemma {:induction false} RepairNestedKeepsWords(b: Block)
    requires b.Block? && RepairNested(b).Some? && !IsEmptyParagraph(b)
    requires LosesNothing(b) && Holds(LosesNothing, Below(b))
    ensures LosesNothing(RepairNested(b).value)
    ensures Within(Visible(b), Visible(RepairNested(b).value))
    decreases b, 0
  {
    var n := RepairNested(b).value;
    RepairSeqKeepsWords(b.blocks);
    RepairSeqKeepsWords(b.children);
    NestedStepsKeepWords(b.steps);
    if b.kind == StepsBlock {
    } else if b.kind == Expandable {
      WithinTail(b.summary, VisibleAll(b.children), VisibleAll(n.children));
    } else {
      VisibleParts(b);
      VisibleParts(n);
      PartsGrow(b, n);
    }
  }

  lemma FirstPartGrows(b: Block, n: Block)
    requires b.Block? && n.Block? && n.extra == b.extra && n.content == b.content
    requires Within(VisibleAll(b.blocks), VisibleAll(n.blocks))
    requires Within(VisibleAll(b.children), VisibleAll(n.children))
    ensures Within(OwnParts(b).0, OwnParts(n).0)
  {
    var x, y := Join(b.extra), Join(b.content);
    WithinTail(x, VisibleAll(b.blocks), VisibleAll(n.blocks));
    WithinJoin(x + VisibleAll(b.blocks), x + VisibleAll(n.blocks), VisibleAll(b.children), VisibleAll(n.children));
    WithinSelf(y);
    WithinJoin(x + VisibleAll(b.blocks) + VisibleAll(b.children), x + VisibleAll(n.blocks) + VisibleAll(n.children), y, y);
  }

  lemma GrowsBefore(small: Prose, large: Prose, tail: Prose)
    requires Within(small, large)
    ensures Within(small + tail, large + tail)
  {
    WithinSelf(tail);
    WithinJoin(small, large, tail, tail);
  }

  lemma LastPartGrows(b: Block, n: Block)
    requires b.Block? && n.Block? && n.summary == b.summary && n.text == b.text && n.title == b.title
    requires Within(VisibleStrays(b.steps), VisibleStrays(n.steps))
    ensures Within(OwnParts(b).2, OwnParts(n).2)
  {
    GrowsBefore(VisibleStrays(b.steps), VisibleStrays(n.steps), b.summary);
    GrowsBefore(VisibleStrays(b.steps) + b.summary, VisibleStrays(n.steps) + b.summary, b.text);
    GrowsBefore(VisibleStrays(b.steps) + b.summary + b.text, VisibleStrays(n.steps) + b.summary + b.text, b.title);
  }

  lemma PartsGrow(b: Block, n: Block)
    requires b.Block? && n.Block?
    requires n == b.(blocks := n.blocks, children := n.children, steps := n.steps, child := n.child)
    requires Within(VisibleAll(b.blocks), VisibleAll(n.blocks))
    requires Within(VisibleAll(b.children), VisibleAll(n.children))
    requires Within(VisibleStrays(b.steps), VisibleStrays(n.steps))
    ensures Within(OwnParts(b).0 + OwnParts(b).1 + OwnParts(b).2, OwnParts(n).0 + OwnParts(n).1 + OwnParts(n).2)
  {
    FirstPartGrows(b, n);
    LastPartGrows(b, n);
    WithinSelf(OwnParts(b).1);
    WithinJoin(OwnParts(b).0, OwnParts(n).0, OwnParts(b).1, OwnParts(n).1);
    WithinJoin(OwnParts(b).0 + OwnParts(b).1, OwnParts(n).0 + OwnParts(n).1, OwnParts(b).2, OwnParts(n).2);
  }

  lemma {:induction false} NestedStepsKeepWords(ss: seq<Step>)
    requires RepairNestedSteps(ss).Some? && Holds(LosesNothing, WalkSteps(ss))
    ensures Within(VisibleSteps(ss), VisibleSteps(RepairNestedSteps(ss).value))
    ensures Within(VisibleStrays(ss), VisibleStrays(RepairNestedSteps(ss).value))
  {
    if ss != [] {
      var out := RepairNestedSteps(ss).value;
      NestedStepsKeepWords(ss[1..]);
      if ss[0].Step? {
        var t, before, after := ss[0].title, VisibleAll(ss[0].blocks), VisibleAll(out[0].blocks);
        RepairSeqKeepsWords(ss[0].blocks);
        WithinTail(t, before, after);
        WithinJoin(t + before, t + after, VisibleSteps(ss[1..]), VisibleSteps(out[1..]));
        WithinSelf(t);
        WithinJoin(before, after, t, t);
        WithinJoin(before + t, after + t, VisibleStrays(ss[1..]), VisibleStrays(out[1..]));
      } else {
        assert VisibleSteps(ss) == VisibleSteps(ss[1..]) && VisibleSteps(out) == VisibleSteps(out[1..]);
        assert VisibleStrays(ss) == VisibleStrays(ss[1..]) && VisibleStrays(out) == VisibleStrays(out[1..]);
      }
    }
  }
}
