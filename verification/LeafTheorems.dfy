/** Which Papers pass the final leaf check. */
module LeafTheorems {
  import opened Wrappers
  import opened Subsequences
  import opened Words
  import opened PaperBlocks
  import opened StepRepair
  import opened QualityGates
  import opened BlockRepair
  import opened Appendices
  import opened DenseBlocks
  import opened BlockIds
  import opened SourceLeaves
  import opened EpicRepair
  import opened RepairTheorems

  // ------------------------------------------------------------- text inside text --

  lemma InsideSelf<T>(a: seq<T>)
    ensures Inside(a, a)
  {
    assert a <= a;
  }

  lemma InsideMiddle<T>(a: seq<T>, before: seq<T>, b: seq<T>, after: seq<T>)
    requires Inside(a, b)
    ensures Inside(a, before + b + after)
  {
    InsideRight(a, before, b);
    InsideLeft(a, before + b, after);
  }

  lemma {:induction false} SpacedPrefix(a: Prose, b: Prose)
    requires a <= b
    ensures Spaced(a) <= Spaced(b)
  {
    if |a| > 1 {
      assert a[1..] <= b[1..];
      SpacedPrefix(a[1..], b[1..]);
    }
  }

  lemma {:induction false} SpacedInside(a: Prose, b: Prose)
    requires Inside(a, b)
    ensures Inside(Spaced(a), Spaced(b))
    decreases |b|
  {
    if a <= b {
      SpacedPrefix(a, b);
    } else {
      SpacedInside(a, b[1..]);
      if |b| > 1 {
        InsideRight(Spaced(a), b[0] + " ", Spaced(b[1..]));
      }
    }
  }

  lemma {:induction false} JoinContains(parts: seq<Prose>, part: Prose)
    requires part in parts
    ensures Inside(part, Join(parts))
  {
    if part == parts[0] {
      InsideSelf(part);
      InsideLeft(part, parts[0], Join(parts[1..]));
    } else {
      JoinContains(parts[1..], part);
      InsideRight(part, parts[0], Join(parts[1..]));
    }
  }

  /** Some block of the sequence shows the text. */
  ghost predicate ShownBy(bs: seq<Block>, leaf: Prose) {
    exists x :: x in bs && Inside(leaf, Visible(x))
  }

  lemma {:induction false} ShownInAll(bs: seq<Block>, leaf: Prose)
    requires ShownBy(bs, leaf)
    ensures Inside(leaf, VisibleAll(bs))
  {
    var x :| x in bs && Inside(leaf, Visible(x));
    if x == bs[0] {
      InsideLeft(leaf, Visible(bs[0]), VisibleAll(bs[1..]));
    } else {
      assert x in bs[1..];
      ShownInAll(bs[1..], leaf);
      InsideRight(leaf, Visible(bs[0]), VisibleAll(bs[1..]));
    }
  }

  // --------------------------------------------------- text a block does not show --

  predicate IsSilent(b: Block) {
    forall leaf | leaf in LeavesOf(b) :: leaf == []
  }

  /** Every text the block carries is one it shows, and one the repair of it keeps: no
      spacer with words in other fields, no string for a table head, and nothing on a
      steps block or an expandable outside the parts these show. */
  predicate ShowsItsText(b: Block) {
    b.Block? ==>
      && (IsEmptyParagraph(b) ==> IsSilent(b))
      && (b.kind == Table && b.rows != [] && !HasHead(b) ==> RowWords(b.head) == [])
      && (b.kind == StepsBlock ==> IsSilent(b.(steps := [])))
      && (b.kind == Expandable ==> IsSilent(b.(summary := [], children := [])))
  }

  predicate KeepsItsText(b: Block) {
    ShowsItsText(b) && !TitleIsRedundant(b)
  }

  /** Texts in a place the repair may drop or does not show: anything on a spacer, a
      head that is no array where a row is promoted, a callout title its body repeats,
      and what steps blocks and expandables carry outside the parts they show. */
  function AtRisk(b: Block): seq<Prose> {
    match b
    case NotBlock(_) => []
    case Block(kind, _, _, _, _, _, _, _, _, _, _, steps, blocks, children, _, _, _) =>
      if IsEmptyParagraph(b) then LeavesOf(b)
      else if kind == StepsBlock then LeavesOf(b.(steps := [])) + AtRiskSteps(steps)
      else if kind == Expandable then LeavesOf(b.(summary := [], children := [])) + AtRiskAll(children)
      else OwnAtRisk(b) + AtRiskAll(blocks) + AtRiskAll(children) + AtRiskSteps(steps)
  }

  function OwnAtRisk(b: Block): seq<Prose>
    requires b.Block?
  {
    (if b.kind == Table && b.rows != [] && !HasHead(b) then RowLeaves(b.head) else [])
    + (if TitleIsRedundant(b) then [b.title] else [])
  }

  function AtRiskAll(bs: seq<Block>): seq<Prose> {
    if bs == [] then [] else AtRisk(bs[0]) + AtRiskAll(bs[1..])
  }

  function AtRiskSteps(ss: seq<Step>): seq<Prose> {
    if ss == [] then []
    else (match ss[0] case Step(_, blocks) => AtRiskAll(blocks) case NotStep => []) + AtRiskSteps(ss[1..])
  }

  /** At the top level an orientation line of an earlier pass is rewritten. */
  function AtRiskIn(bs: seq<Block>): seq<Prose> {
    if bs == [] then [] else (if IsOrientation(bs[0]) then LeavesOf(bs[0]) else AtRisk(bs[0])) + AtRiskIn(bs[1..])
  }

  lemma LeafIff(b: Block, leaf: Prose)
    requires b.Block?
    ensures leaf in LeavesOf(b) <==>
              || leaf in b.extra || leaf in LeavesOfAll(b.blocks) || leaf in LeavesOfAll(b.children) || leaf in b.content
              || leaf in RowLeaves(b.head) || leaf in ItemsLeaves(b.items) || leaf in RowsLeaves(b.rows)
              || leaf in LeavesOfSteps(b.steps) || leaf == b.summary || leaf == b.text || leaf == b.title
  {
  }

  /** The block carries the text in a field, or shows it further down. */
  ghost predicate Carries(n: Block, leaf: Prose)
    requires n.Block?
  {
    if n.kind == StepsBlock || n.kind == Expandable then Inside(leaf, Visible(n))
    else
      || leaf in n.extra || Inside(leaf, VisibleAll(n.blocks)) || Inside(leaf, VisibleAll(n.children)) || leaf in n.content
      || leaf in RowLeaves(n.head) || InItems(n.items, leaf) || leaf in RowsLeaves(n.rows)
      || Inside(leaf, VisibleStrays(n.steps)) || leaf == n.summary || leaf == n.text || leaf == n.title
  }

  ghost predicate InItems(items: seq<Item>, leaf: Prose) {
    exists i :: 0 <= i < |items| && Inside(leaf, ItemWords(items[i]))
  }

  // ------------------------------------------------------ what is carried is shown --

  lemma {:induction false} InItemsShown(items: seq<Item>, leaf: Prose, i: nat)
    requires i < |items| && Inside(leaf, ItemWords(items[i]))
    ensures Inside(leaf, ItemsWords(items))
  {
    if i == 0 {
      InsideLeft(leaf, ItemWords(items[0]), ItemsWords(items[1..]));
    } else {
      InItemsShown(items[1..], leaf, i - 1);
      InsideRight(leaf, ItemWords(items[0]), ItemsWords(items[1..]));
    }
  }

  lemma RowLeafShown(row: Row, leaf: Prose)
    requires leaf in RowLeaves(row)
    ensures Inside(leaf, RowWords(row))
  {
    match row
    case Cells(cells) => JoinContains(cells, leaf);
    case NotCells(words) => InsideSelf(words);
  }

  lemma {:induction false} RowsLeafShown(rows: seq<Row>, leaf: Prose)
    requires leaf in RowsLeaves(rows)
    ensures Inside(leaf, RowsWords(rows))
  {
    if leaf in RowLeaves(rows[0]) {
      RowLeafShown(rows[0], leaf);
      InsideLeft(leaf, RowWords(rows[0]), RowsWords(rows[1..]));
    } else {
      RowsLeafShown(rows[1..], leaf);
      InsideRight(leaf, RowWords(rows[0]), RowsWords(rows[1..]));
    }
  }

  lemma InsideOneOf3<T>(a: seq<T>, x: seq<T>, y: seq<T>, z: seq<T>)
    requires Inside(a, x) || Inside(a, y) || Inside(a, z)
    ensures Inside(a, x + y + z)
  {
    if Inside(a, x) {
      InsideLeft(a, x, y);
      InsideLeft(a, x + y, z);
    } else if Inside(a, y) {
      InsideMiddle(a, x, y, z);
    } else {
      InsideRight(a, x + y, z);
    }
  }

  lemma InsideOneOf4<T>(a: seq<T>, w: seq<T>, x: seq<T>, y: seq<T>, z: seq<T>)
    requires Inside(a, w) || Inside(a, x) || Inside(a, y) || Inside(a, z)
    ensures Inside(a, w + x + y + z)
  {
    if Inside(a, z) {
      InsideRight(a, w + x + y, z);
    } else {
      InsideOneOf3(a, w, x, y);
      InsideLeft(a, w + x + y, z);
    }
  }

  lemma FirstPartShown(n: Block, leaf: Prose)
    requires n.Block?
    requires leaf in n.extra || Inside(leaf, VisibleAll(n.blocks)) || Inside(leaf, VisibleAll(n.children)) || leaf in n.content
    ensures Inside(leaf, OwnParts(n).0)
  {
    if leaf in n.extra {
      JoinContains(n.extra, leaf);
    }
    if leaf in n.content {
      JoinContains(n.content, leaf);
    }
    InsideOneOf4(leaf, Join(n.extra), VisibleAll(n.blocks), VisibleAll(n.children), Join(n.content));
  }

  lemma MiddlePartShown(n: Block, leaf: Prose)
    requires n.Block?
    requires leaf in RowLeaves(n.head) || InItems(n.items, leaf) || leaf in RowsLeaves(n.rows)
    ensures Inside(leaf, OwnParts(n).1)
  {
    if leaf in RowLeaves(n.head) {
      RowLeafShown(n.head, leaf);
    }
    if InItems(n.items, leaf) {
      var i :| 0 <= i < |n.items| && Inside(leaf, ItemWords(n.items[i]));
      InItemsShown(n.items, leaf, i);
    }
    if leaf in RowsLeaves(n.rows) {
      RowsLeafShown(n.rows, leaf);
    }
    InsideOneOf3(leaf, RowWords(n.head), ItemsWords(n.items), RowsWords(n.rows));
  }

  lemma LastPartShown(n: Block, leaf: Prose)
    requires n.Block?
    requires Inside(leaf, VisibleStrays(n.steps)) || leaf == n.summary || leaf == n.text || leaf == n.title
    ensures Inside(leaf, OwnParts(n).2)
  {
    InsideSelf(leaf);
    InsideOneOf4(leaf, VisibleStrays(n.steps), n.summary, n.text, n.title);
  }

  lemma CarriedIsShown(n: Block, leaf: Prose)
    requires n.Block? && Carries(n, leaf)
    ensures Inside(leaf, Visible(n))
  {
    if n.kind != StepsBlock && n.kind != Expandable {
      if leaf in RowLeaves(n.head) || InItems(n.items, leaf) || leaf in RowsLeaves(n.rows) {
        MiddlePartShown(n, leaf);
      } else if Inside(leaf, VisibleStrays(n.steps)) || leaf == n.summary || leaf == n.text || leaf == n.title {
        LastPartShown(n, leaf);
      } else {
        FirstPartShown(n, leaf);
      }
      VisibleParts(n);
      InsideOneOf3(leaf, OwnParts(n).0, OwnParts(n).1, OwnParts(n).2);
    }
  }

  // ------------------------------------------------------------ one repaired block --

  lemma PromotionCarries(b: Block, leaf: Prose)
    requires b.Block? && leaf != [] && Carries(b, leaf)
    requires b.kind == Table && b.rows != [] && !HasHead(b) ==> leaf !in RowLeaves(b.head)
    ensures Carries(PromoteTableHead(b), leaf)
  {
    if b.kind == Table && b.rows != [] && !HasHead(b) {
      assert RowsLeaves(b.rows) == RowLeaves(b.rows[0]) + RowsLeaves(b.rows[1..]);
    }
  }

  lemma NoteCarries(item: Item, number: nat, leaf: Prose)
    requires Inside(leaf, ItemWords(item))
    ensures Inside(leaf, ItemWords(NoteFor(item, number)))
  {
    var (lead, text) := SplitCompactLead(ItemWords(item), false);
    var tag := NoteFor(item, number).tag;
    InsideRight(leaf, tag, ItemWords(item));
    Assoc(tag, lead, text);
  }

  lemma NotesCarryItems(items: seq<Item>, leaf: Prose)
    requires InItems(items, leaf)
    ensures InItems(NotesFor(items), leaf)
  {
    var i :| 0 <= i < |items| && Inside(leaf, ItemWords(items[i]));
    NoteCarries(items[i], i + 1, leaf);
    assert Inside(leaf, ItemWords(NotesFor(items)[i]));
  }

  lemma NotesCarry(b: Block, leaf: Prose)
    requires b.Block? && Carries(b, leaf)
    ensures Carries(ListAsNotes(b), leaf)
  {
    if HasLongItem(b) && InItems(b.items, leaf) {
      NotesCarryItems(b.items, leaf);
    }
  }

  lemma {:induction false} RowsLeavesConcat(a: seq<Row>, b: seq<Row>)
    ensures RowsLeaves(a + b) == RowsLeaves(a) + RowsLeaves(b)
  {
    if a == [] {
      assert a + b == b;
    } else {
      Peel(a, b);
      RowsLeavesConcat(a[1..], b);
      Assoc(RowLeaves(a[0]), RowsLeaves(a[1..]), RowsLeaves(b));
    }
  }

  lemma {:induction false} ChunksCarry(b: Block, rows: seq<Row>, index: nat, leaf: Prose)
    requires b.Block? && b.kind == Table && Carries(b.(rows := rows), leaf)
    ensures ShownBy(Chunks(b, rows, index), leaf)
    decreases |rows|
  {
    var parts := Chunks(b, rows, index);
    if |rows| <= MAX_TABLE_ROWS {
      CarriedIsShown(Chunk(b, rows, index), leaf);
      assert Chunk(b, rows, index) in parts;
    } else {
      var here, later := rows[..MAX_TABLE_ROWS], rows[MAX_TABLE_ROWS..];
      assert rows == here + later;
      RowsLeavesConcat(here, later);
      if Carries(b.(rows := here), leaf) {
        CarriedIsShown(Chunk(b, here, index), leaf);
        assert Chunk(b, here, index) in parts;
      } else {
        ChunksCarry(b, later, index + 1, leaf);
        var x :| x in Chunks(b, later, index + 1) && Inside(leaf, Visible(x));
        assert x in parts;
      }
    }
  }

  lemma RepairOneShows(b: Block, leaf: Prose)
    requires b.Block? && RepairOne(b).Some? && leaf != [] && Carries(b, leaf)
    requires leaf !in OwnAtRisk(b)
    ensures ShownBy(RepairOne(b).value, leaf)
  {
    var leveled := FixLevel(b);
    var promoted := PromoteTableHead(leveled);
    var stepped := RepairStepsBlock(promoted).value;
    var titled := DedupeCalloutTitle(stepped);
    var noted := ListAsNotes(titled);
    assert Visible(leveled) == Visible(b);
    PromotionCarries(leveled, leaf);
    if promoted.kind == StepsBlock {
      RepairStepsKeepsWords(promoted.steps);
    }
    assert Carries(titled, leaf);
    NotesCarry(titled, leaf);
    SplitShows(noted, leaf);
  }

  lemma SplitShows(b: Block, leaf: Prose)
    requires b.Block? && Carries(b, leaf)
    ensures ShownBy(SplitTable(b), leaf)
  {
    if IsOversizedTable(b) {
      assert b.(rows := b.rows) == b;
      ChunksCarry(b, b.rows, 1, leaf);
    } else {
      CarriedIsShown(b, leaf);
      assert b in SplitTable(b);
    }
  }

  // ------------------------------------------------------------------ at every depth --

  lemma {:induction false} LeafShownBySeq(bs: seq<Block>, leaf: Prose)
    requires RepairSeq(bs).Some? && leaf != [] && leaf in LeavesOfAll(bs) && leaf !in AtRiskAll(bs)
    ensures ShownBy(RepairSeq(bs).value, leaf)
    decreases bs, 0
  {
    var first, rest := RepairEntry(bs[0]).value, RepairSeq(bs[1..]).value;
    if leaf in LeavesOf(bs[0]) {
      LeafShownByEntry(bs[0], leaf);
      var x :| x in first && Inside(leaf, Visible(x));
      assert x in first + rest;
    } else {
      LeafShownBySeq(bs[1..], leaf);
      var x :| x in rest && Inside(leaf, Visible(x));
      assert x in first + rest;
    }
  }

  lemma {:induction false} LeafShownByEntry(b: Block, leaf: Prose)
    requires RepairEntry(b).Some? && leaf != [] && leaf in LeavesOf(b) && leaf !in AtRisk(b)
    ensures ShownBy(RepairEntry(b).value, leaf)
    decreases b, 1
  {
    if b.NotBlock? {
      InsideSelf(leaf);
      assert b in RepairEntry(b).value;
    } else {
      assert !IsEmptyParagraph(b);
      var n := RepairNested(b).value;
      NestedCarries(b, leaf);
      RepairOneShows(n, leaf);
    }
  }

  lemma {:induction false} NestedCarries(b: Block, leaf: Prose)
    requires b.Block? && RepairNested(b).Some? && !IsEmptyParagraph(b)
    requires leaf != [] && leaf in LeavesOf(b) && leaf !in AtRisk(b)
    ensures Carries(RepairNested(b).value, leaf) && leaf !in OwnAtRisk(RepairNested(b).value)
    decreases b, 0, 1
  {
    var n := RepairNested(b).value;
    if b.kind == StepsBlock {
      NotBesideSteps(b, leaf);
      LeafShownBySteps(b.steps, leaf);
    } else if b.kind == Expandable {
      NotBesideChildren(b, leaf);
      if leaf in LeavesOfAll(b.children) {
        LeafShownBySeq(b.children, leaf);
        ShownInAll(n.children, leaf);
        InsideRight(leaf, b.summary, VisibleAll(n.children));
      } else {
        InsideSelf(leaf);
        InsideLeft(leaf, b.summary, VisibleAll(n.children));
      }
    } else {
      OrdinaryCarries(b, leaf);
    }
  }

  lemma {:induction false} OrdinaryCarries(b: Block, leaf: Prose)
    requires b.Block? && RepairNested(b).Some? && !IsEmptyParagraph(b) && b.kind != StepsBlock && b.kind != Expandable
    requires leaf != [] && leaf in LeavesOf(b) && leaf !in AtRisk(b)
    ensures Carries(RepairNested(b).value, leaf)
    decreases b, 0, 0
  {
    var n := RepairNested(b).value;
    LeafIff(b, leaf);
    if leaf in LeavesOfAll(b.blocks) {
      LeafShownBySeq(b.blocks, leaf);
      ShownInAll(n.blocks, leaf);
    } else if leaf in LeavesOfAll(b.children) {
      LeafShownBySeq(b.children, leaf);
      ShownInAll(n.children, leaf);
    } else if leaf in LeavesOfSteps(b.steps) {
      LeafShownBySteps(b.steps, leaf);
    } else if leaf in ItemsLeaves(b.items) {
      ItemLeafInItems(b.items, leaf);
    }
  }

  lemma NotBesideSteps(b: Block, leaf: Prose)
    requires b.Block? && b.kind == StepsBlock && leaf in LeavesOf(b) && leaf !in AtRisk(b)
    ensures leaf in LeavesOfSteps(b.steps) && leaf !in AtRiskSteps(b.steps)
  {
    LeafIff(b, leaf);
    LeafIff(b.(steps := []), leaf);
  }

  lemma NotBesideChildren(b: Block, leaf: Prose)
    requires b.Block? && b.kind == Expandable && leaf != [] && leaf in LeavesOf(b) && leaf !in AtRisk(b)
    ensures leaf in LeavesOfAll(b.children) || leaf == b.summary
    ensures leaf !in AtRiskAll(b.children)
  {
    LeafIff(b, leaf);
    LeafIff(b.(summary := [], children := []), leaf);
  }

  lemma {:induction false} ItemLeafInItems(items: seq<Item>, leaf: Prose)
    requires leaf in ItemsLeaves(items)
    ensures InItems(items, leaf)
  {
    if leaf in ItemLeaves(items[0]) {
      InsideSelf(leaf);
      match items[0]
      case Inline(_) =>
      case Note(tag, lead, text) => InsideOneOf3(leaf, tag, lead, text);
      assert Inside(leaf, ItemWords(items[0]));
    } else {
      ItemLeafInItems(items[1..], leaf);
      var i :| 0 <= i < |items[1..]| && Inside(leaf, ItemWords(items[1..][i]));
      assert Inside(leaf, ItemWords(items[i + 1]));
    }
  }

  lemma {:induction false} LeafShownBySteps(ss: seq<Step>, leaf: Prose)
    requires RepairNestedSteps(ss).Some?
    requires leaf != [] && leaf in LeavesOfSteps(ss) && leaf !in AtRiskSteps(ss)
    ensures Inside(leaf, VisibleSteps(RepairNestedSteps(ss).value))
    ensures Inside(leaf, VisibleStrays(RepairNestedSteps(ss).value))
    decreases ss, 0
  {
    var out := RepairNestedSteps(ss).value;
    var steps, strays := VisibleSteps(out[1..]), VisibleStrays(out[1..]);
    if ss[0].Step? && leaf in LeavesOfAll(ss[0].blocks) + [ss[0].title] {
      var t, shown := out[0].title, VisibleAll(out[0].blocks);
      if leaf in LeavesOfAll(ss[0].blocks) {
        LeafShownBySeq(ss[0].blocks, leaf);
        ShownInAll(out[0].blocks, leaf);
      } else {
        InsideSelf(leaf);
      }
      InsideOneOf3(leaf, t, shown, steps);
      InsideOneOf3(leaf, shown, t, strays);
    } else {
      LeafShownBySteps(ss[1..], leaf);
      StepsTail(out, leaf);
    }
  }

  lemma StepsTail(ss: seq<Step>, leaf: Prose)
    requires ss != [] && Inside(leaf, VisibleSteps(ss[1..])) && Inside(leaf, VisibleStrays(ss[1..]))
    ensures Inside(leaf, VisibleSteps(ss)) && Inside(leaf, VisibleStrays(ss))
  {
    if ss[0].Step? {
      InsideRight(leaf, ss[0].title + VisibleAll(ss[0].blocks), VisibleSteps(ss[1..]));
      InsideRight(leaf, VisibleAll(ss[0].blocks) + ss[0].title, VisibleStrays(ss[1..]));
    } else {
      assert VisibleSteps(ss) == VisibleSteps(ss[1..]) && VisibleStrays(ss) == VisibleStrays(ss[1..]);
    }
  }

  // --------------------------------------------------------------- through the stages --

  lemma {:induction false} OpenedMember(bs: seq<Block>, o: Block, c: Block)
    requires o in bs && c in Opened(o)
    ensures c in Unwrap(bs)
  {
    if o != bs[0] {
      OpenedMember(bs[1..], o, c);
    }
  }

  lemma {:induction false} UnwrappedMember(bs: seq<Block>, c: Block)
    requires c in Unwrap(bs)
    ensures exists o :: o in bs && c in Opened(o)
  {
    if c in Opened(bs[0]) {
      assert bs[0] in bs;
    } else {
      UnwrappedMember(bs[1..], c);
      var o :| o in bs[1..] && c in Opened(o);
      assert o in bs;
    }
  }

  /** Some top-level block that is no orientation line shows the text, or holds what
      shows it. */
  ghost predicate ShownBeside(bs: seq<Block>, leaf: Prose) {
    exists o :: o in bs && !IsOrientation(o) && ShownBy(Opened(o), leaf)
  }

  lemma {:induction false} LeafShownBeside(bs: seq<Block>, leaf: Prose)
    requires RepairSeq(bs).Some? && leaf != [] && leaf in LeavesOfAll(bs)
    requires leaf !in Waived(bs) && leaf !in AtRiskIn(bs)
    ensures ShownBeside(RepairSeq(bs).value, leaf)
  {
    var first, rest := RepairEntry(bs[0]).value, RepairSeq(bs[1..]).value;
    if leaf in LeavesOf(bs[0]) {
      LeafShownByTopEntry(bs[0], leaf);
      var o :| o in first && !IsOrientation(o) && ShownBy(Opened(o), leaf);
      assert o in first + rest;
    } else {
      LeafShownBeside(bs[1..], leaf);
      var o :| o in rest && !IsOrientation(o) && ShownBy(Opened(o), leaf);
      assert o in first + rest;
    }
  }

  lemma LeafShownByTopEntry(b: Block, leaf: Prose)
    requires RepairEntry(b).Some? && leaf != [] && leaf in LeavesOf(b) && leaf !in AtRisk(b) && !IsOrientation(b)
    requires IsGeneratedAppendix(b) ==> leaf != b.summary
    ensures ShownBeside(RepairEntry(b).value, leaf)
  {
    var out := RepairEntry(b).value;
    RepairEntryKeepsGenerated(b);
    RepairEntryMakesNoOrientation(b);
    if IsGeneratedAppendix(b) {
      var n := RepairNested(b).value;
      NotBesideChildren(b, leaf);
      LeafShownBySeq(b.children, leaf);
      assert n in out && Opened(n) == n.children;
    } else {
      LeafShownByEntry(b, leaf);
      var x :| x in out && Inside(leaf, Visible(x));
      assert Opened(x) == [x];
      assert x in Opened(x);
    }
  }

  /** The member of the source that a demotion or a move leaves in its place. */
  lemma {:induction false} DemotedIsThere(bs: seq<Block>, o: Block)
    requires o in bs
    ensures Demote(o) in DemoteAll(bs)
  {
    if o != bs[0] {
      DemotedIsThere(bs[1..], o);
    }
  }

  lemma PlacedIsThere(bs: seq<Block>, title: Prose, o: Block)
    requires o in bs
    ensures o in PlaceH1(bs, title) || Demote(o) in PlaceH1(bs, title)
  {
    var k := FirstH1(bs, 0);
    if k < |bs| && o != bs[k] && o !in bs[..k] {
      assert bs == bs[..k] + [bs[k]] + bs[k + 1..];
      DemotedIsThere(bs[k + 1..], o);
    }
  }

  lemma InsertedIsThere(bs: seq<Block>, at: nat, b: Block, o: Block)
    requires at <= |bs| && o in bs
    ensures o in InsertAt(bs, at, b)
  {
    assert bs == bs[..at] + bs[at..];
  }

  lemma {:induction false} RefreshedIsThere(bs: seq<Block>, items: seq<Prose>, o: Block)
    requires o in bs && !IsOrientation(o)
    ensures o in RefreshFrom(bs, items)
  {
    if o != bs[0] && !IsOrientation(bs[0]) {
      RefreshedIsThere(bs[1..], items, o);
    }
  }

  lemma PrepareShows(title: Prose, description: Prose, bs: seq<Block>, leaf: Prose)
    requires ShownBeside(bs, leaf)
    ensures ShownBy(Unwrap(Prepare(title, description, bs)), leaf)
  {
    var placed := PlaceH1(bs, title);
    var renewed := RefreshOrientation(placed);
    var o :| o in bs && !IsOrientation(o) && ShownBy(Opened(o), leaf);
    var c :| c in Opened(o) && Inside(leaf, Visible(c));
    PlacedIsThere(bs, title, o);
    var p, d := if o in placed then o else Demote(o), if o in placed then c else Demote(c);
    assert d in Opened(p) && Visible(d) == Visible(c);
    RefreshedIsThere(placed, OrientationItems(placed), p);
    CompletedIsThere(renewed, description, p);
    OpenedMember(CompleteOpening(renewed, description), p, d);
  }

  lemma CompletedIsThere(bs: seq<Block>, description: Prose, o: Block)
    requires bs != [] && o in bs
    ensures o in CompleteOpening(bs, description)
  {
    var started := WithIngress(bs, description);
    InsertedIsThere(bs, 1, NewIngress(description), o);
    InsertedIsThere(started, OrientationIndex(bs), NewOrientation(OrientationItems(started)), o);
  }

  lemma OpenedShows(o: Block, c: Block)
    requires c in Opened(o)
    ensures Inside(Visible(c), Visible(o))
  {
    InsideSelf(Visible(c));
    if IsGeneratedAppendix(o) {
      assert ShownBy(o.children, Visible(c));
      ShownInAll(o.children, Visible(c));
      InsideRight(Visible(c), o.summary, VisibleAll(o.children));
    }
  }

  lemma {:induction false} RenumberShows(bs: seq<Block>, index: nat, unwrap: bool, leaf: Prose)
    requires ShownBy(Unwrap(bs), leaf)
    ensures ShownBy(Renumber(bs, index, unwrap), leaf)
  {
    var c :| c in Unwrap(bs) && Inside(leaf, Visible(c));
    var b := bs[0];
    var next := if IsGeneratedAppendix(b) then index + 1 else index;
    var rest := Renumber(bs[1..], next, unwrap);
    if c in Opened(b) {
      HealedShows(b, index, unwrap, c);
      var y :| y in Renumber([b], index, unwrap) && Inside(Visible(c), Visible(y));
      InsideTransitive(leaf, Visible(c), Visible(y));
      assert y in Renumber(bs, index, unwrap);
    } else {
      assert ShownBy(Unwrap(bs[1..]), leaf);
      RenumberShows(bs[1..], next, unwrap, leaf);
      var y :| y in rest && Inside(leaf, Visible(y));
      assert y in Renumber(bs, index, unwrap);
    }
  }

  lemma HealedShows(b: Block, index: nat, unwrap: bool, c: Block)
    requires c in Opened(b)
    ensures ShownBy(Renumber([b], index, unwrap), Visible(c))
    ensures forall y :: y in Renumber([b], index, unwrap) <==>
              y in if !IsGeneratedAppendix(b) then [b]
                   else if IsDropped(b, index, unwrap) then b.children
                   else [Normalised(b, index + 1)]
  {
    assert [b][1..] == [];
    InsideSelf(Visible(c));
    if IsGeneratedAppendix(b) && !IsDropped(b, index, unwrap) {
      var n := Normalised(b, index + 1);
      NormalisedIsGenerated(b, index + 1);
      OpenedShows(n, c);
      assert n in Renumber([b], index, unwrap);
    } else {
      assert c in Renumber([b], index, unwrap);
    }
  }

  lemma CollapseShows(bs: seq<Block>, leaf: Prose)
    requires ShownBy(Unwrap(bs), leaf)
    ensures ShownBy(CollapseEvidenceAppendices(bs), leaf)
  {
    CollapseCases(bs);
    if Generated(bs) != [] {
      RenumberShows(bs, 0, HasArtifact(Generated(bs)), leaf);
    } else {
      UnwrapPlain(bs);
      FoldConserves(bs);
      var c :| c in bs && Inside(leaf, Visible(c));
      UnwrappedMember(FoldTail(bs), c);
      var o :| o in FoldTail(bs) && c in Opened(o);
      OpenedShows(o, c);
      InsideTransitive(leaf, Visible(c), Visible(o));
    }
  }

  lemma DenseShows(bs: seq<Block>, leaf: Prose)
    requires ShownBy(bs, leaf)
    ensures ShownBy(CollapseDense(bs), leaf)
  {
    var x :| x in bs && Inside(leaf, Visible(x));
    var i :| 0 <= i < |bs| && bs[i] == x;
    var out := CollapseDense(bs);
    if IsDense(x) {
      WrapperShows(x, 1 + i, leaf);
    }
    assert out[i] in out;
  }

  lemma WrapperShows(b: Block, index: nat, leaf: Prose)
    requires b.Block? && Inside(leaf, Visible(b))
    ensures Inside(leaf, Visible(Wrapped(b, index)))
  {
    var w := Wrapped(b, index);
    VisibleOfOne(b);
    InsideRight(leaf, w.summary, Visible(b));
    assert Visible(w) == w.summary + Visible(b);
  }

  // ---------------------------------------------------------------------- the theorem --

  /** Text shown after the repair of single blocks is shown in the end. */
  lemma ShownSurvives(title: Prose, description: Prose, repaired: seq<Block>, leaf: Prose)
    requires ShownBeside(repaired, leaf)
    ensures Inside(leaf, VisibleAll(Arrange(title, description, repaired)))
  {
    var ready := Prepare(title, description, repaired);
    var light := CollapseDense(CollapseEvidenceAppendices(ready));
    PrepareShows(title, description, repaired, leaf);
    CollapseShows(ready, leaf);
    DenseShows(CollapseEvidenceAppendices(ready), leaf);
    ShownInAll(light, leaf);
    RenamingKeepsAllWords(light, START);
  }

  lemma LeafSurvives(paper: Paper, leaf: Prose)
    requires RepairSeq(paper.blocks).Some?
    requires leaf in LeavesOfAll(paper.blocks) && leaf !in Waived(paper.blocks) && leaf !in AtRiskIn(paper.blocks)
    ensures Inside(leaf, VisibleAll(Arrange(paper.title, paper.description, RepairSeq(paper.blocks).value)))
  {
    if leaf != [] {
      LeafShownBeside(paper.blocks, leaf);
      ShownSurvives(paper.title, paper.description, RepairSeq(paper.blocks).value, leaf);
    }
  }

  lemma NothingIn<T>(s: seq<T>)
    ensures (forall x :: x !in s) ==> s == []
  {
    if s != [] {
      assert s[0] in s;
    }
  }

  lemma ReturnsUnlessMissing(paper: Paper, out: seq<Block>)
    requires paper.description != [] && RepairSeq(paper.blocks).Some?
    requires out == Arrange(paper.title, paper.description, RepairSeq(paper.blocks).value)
    ensures Repair(paper) == if MissingLeaves(paper.blocks, out) != [] then Err(SourceTextLost) else Ok(out)
  {
  }

  // ------------------------------------------------------- texts at risk are source texts --

  lemma {:induction false} RiskyAreLeaves(b: Block, leaf: Prose)
    requires leaf != [] && leaf in AtRisk(b)
    ensures leaf in LeavesOf(b)
    decreases b, 1
  {
    if !IsEmptyParagraph(b) {
      LeafIff(b, leaf);
      if b.kind == StepsBlock {
        LeafIff(b.(steps := []), leaf);
        if leaf in AtRiskSteps(b.steps) {
          RiskyStepsAreLeaves(b.steps, leaf);
        }
      } else if b.kind == Expandable {
        LeafIff(b.(summary := [], children := []), leaf);
        if leaf in AtRiskAll(b.children) {
          AllRiskyAreLeaves(b.children, leaf);
        }
      } else if leaf in AtRiskAll(b.blocks) {
        AllRiskyAreLeaves(b.blocks, leaf);
      } else if leaf in AtRiskAll(b.children) {
        AllRiskyAreLeaves(b.children, leaf);
      } else if leaf in AtRiskSteps(b.steps) {
        RiskyStepsAreLeaves(b.steps, leaf);
      }
    }
  }

  lemma {:induction false} AllRiskyAreLeaves(bs: seq<Block>, leaf: Prose)
    requires leaf != [] && leaf in AtRiskAll(bs)
    ensures leaf in LeavesOfAll(bs)
    decreases bs, 0
  {
    if leaf in AtRisk(bs[0]) {
      RiskyAreLeaves(bs[0], leaf);
    } else {
      AllRiskyAreLeaves(bs[1..], leaf);
    }
  }

  lemma {:induction false} RiskyStepsAreLeaves(ss: seq<Step>, leaf: Prose)
    requires leaf != [] && leaf in AtRiskSteps(ss)
    ensures leaf in LeavesOfSteps(ss)
    decreases ss, 0
  {
    if ss[0].Step? && leaf in AtRiskAll(ss[0].blocks) {
      AllRiskyAreLeaves(ss[0].blocks, leaf);
    } else {
      RiskyStepsAreLeaves(ss[1..], leaf);
    }
  }

  lemma {:induction false} RiskyInPaper(bs: seq<Block>, leaf: Prose)
    requires leaf != [] && leaf in AtRiskIn(bs)
    ensures leaf in LeavesOfAll(bs)
  {
    if leaf in LeavesOf(bs[0]) {
    } else if leaf in AtRisk(bs[0]) && !IsOrientation(bs[0]) {
      RiskyAreLeaves(bs[0], leaf);
    } else {
      RiskyInPaper(bs[1..], leaf);
    }
  }

  // ---------------------------------------------------------------------- the theorems --

  /** When the repair refuses to lose text: exactly when a text at risk is not waived and
      does not happen to read anywhere in the result. */
  lemma LeafCheckFiresIff(paper: Paper)
    requires paper.description != [] && RepairSeq(paper.blocks).Some?
    ensures var text := Spaced(VisibleAll(Arrange(paper.title, paper.description, RepairSeq(paper.blocks).value)));
            Repair(paper) == Err(SourceTextLost) <==>
              exists leaf :: leaf in AtRiskIn(paper.blocks) && leaf !in Waived(paper.blocks) && !Inside(Spaced(leaf), text)
  {
    var out := Arrange(paper.title, paper.description, RepairSeq(paper.blocks).value);
    var missing := MissingLeaves(paper.blocks, out);
    ReturnsUnlessMissing(paper, out);
    if missing != [] {
      MissingLeafIsRisky(paper, out, missing[0]);
    }
    if leaf :| leaf in AtRiskIn(paper.blocks) && leaf !in Waived(paper.blocks)
               && !Inside(Spaced(leaf), Spaced(VisibleAll(out)))
    {
      MissingLeafIsRisky(paper, out, leaf);
    }
  }

  lemma MissingLeafIsRisky(paper: Paper, out: seq<Block>, leaf: Prose)
    requires RepairSeq(paper.blocks).Some?
    requires out == Arrange(paper.title, paper.description, RepairSeq(paper.blocks).value)
    ensures leaf in MissingLeaves(paper.blocks, out) <==>
              leaf in AtRiskIn(paper.blocks) && leaf !in Waived(paper.blocks)
              && !Inside(Spaced(leaf), Spaced(VisibleAll(out)))
  {
    MissingIff(paper.blocks, out, leaf);
    if leaf == [] {
      assert "" <= Spaced(VisibleAll(out));
    } else if leaf in AtRiskIn(paper.blocks) {
      RiskyInPaper(paper.blocks, leaf);
    } else if leaf in LeavesOfAll(paper.blocks) && leaf !in Waived(paper.blocks) {
      LeafSurvives(paper, leaf);
      SpacedInside(leaf, VisibleAll(out));
    }
  }

  /** No title below the top level is one its callout's body repeats. */
  ghost predicate KeepsTitlesBelow(bs: seq<Block>) {
    forall b :: b in bs && b.Block? ==> Holds(KeepsItsText, Below(b))
  }

  /** Papers with nothing at risk: every block shows its text, no callout below the top
      level has a title its body repeats, and there is no orientation line of an earlier
      pass. */
  ghost predicate KeepsEveryLeaf(blocks: seq<Block>) {
    && Holds(ShowsItsText, WalkAll(blocks)) && KeepsTitlesBelow(blocks)
    && forall b :: b in blocks ==> !IsOrientation(b)
  }

  /** Where a block keeps its text only a repeated title of its own is at risk. */
  lemma {:induction false} SafeBlock(b: Block, leaf: Prose)
    requires b.Block? ==> ShowsItsText(b) && Holds(KeepsItsText, Below(b))
    requires leaf != [] && leaf in AtRisk(b)
    ensures TitleIsRedundant(b) && leaf == b.title
    decreases b, 1
  {
    if b.Block? && !IsEmptyParagraph(b) {
      if leaf in AtRiskAll(b.blocks) {
        SafeBlocks(b.blocks, leaf);
      }
      if leaf in AtRiskAll(b.children) {
        SafeBlocks(b.children, leaf);
      }
      if leaf in AtRiskSteps(b.steps) {
        SafeSteps(b.steps, leaf);
      }
      if leaf in RowLeaves(b.head) {
        RowLeafShown(b.head, leaf);
        InsideNothing(leaf);
      }
    }
  }

  lemma InsideNothing<T>(a: seq<T>)
    ensures Inside(a, []) ==> a == []
  {
  }

  lemma {:induction false} SafeBlocks(bs: seq<Block>, leaf: Prose)
    requires Holds(KeepsItsText, WalkAll(bs)) && leaf != []
    ensures leaf !in AtRiskAll(bs)
    decreases bs, 0
  {
    if bs != [] {
      SafeBlocks(bs[1..], leaf);
      if leaf in AtRisk(bs[0]) {
        assert bs[0].Block? ==> Walk(bs[0]) == [bs[0]] + Below(bs[0]);
        assert bs[0].Block? ==> KeepsItsText(bs[0]);
        SafeBlock(bs[0], leaf);
      }
    }
  }

  lemma {:induction false} SafeSteps(ss: seq<Step>, leaf: Prose)
    requires Holds(KeepsItsText, WalkSteps(ss)) && leaf != []
    ensures leaf !in AtRiskSteps(ss)
    decreases ss, 0
  {
    if ss != [] {
      SafeSteps(ss[1..], leaf);
      if ss[0].Step? {
        SafeBlocks(ss[0].blocks, leaf);
      }
    }
  }

  lemma {:induction false} SafePaper(bs: seq<Block>, leaf: Prose)
    requires KeepsEveryLeaf(bs) && leaf != [] && leaf in AtRiskIn(bs)
    ensures leaf in Waived(bs)
  {
    assert bs[0] in bs;
    if leaf in AtRisk(bs[0]) {
      if bs[0].Block? {
        MemberHolds(bs, bs[0], ShowsItsText);
      }
      SafeBlock(bs[0], leaf);
    } else {
      assert forall b :: b in bs[1..] ==> b in bs;
      SafePaper(bs[1..], leaf);
    }
  }

  /** On such a Paper the leaf check never fires: it is repaired whenever no step repair
      raises. */
  lemma LeafCheckPasses(paper: Paper)
    requires paper.description != [] && RepairSeq(paper.blocks).Some? && KeepsEveryLeaf(paper.blocks)
    ensures Repair(paper) == Ok(Arrange(paper.title, paper.description, RepairSeq(paper.blocks).value))
  {
    LeafCheckFiresIff(paper);
    if leaf :| leaf in AtRiskIn(paper.blocks) && leaf !in Waived(paper.blocks)
               && !Inside(Spaced(leaf), Spaced(VisibleAll(Arrange(paper.title, paper.description, RepairSeq(paper.blocks).value))))
    {
      SafePaper(paper.blocks, leaf);
    }
  }
}
