/**
 The block tree of a Paper after dialect canonicalisation.  A block is a record
 of every field the repair and the audits read.  A list field that is missing
 and one that is empty are the same value, as they are to every reader here; only
 for the children of a generated appendix the repair asks whether they are there.
 */
module PaperBlocks {
  import opened Subsequences
  import opened Wrappers
  import opened Words

  datatype Kind =
    | Heading | Paragraph | ListBlock | Table | StepsBlock | Notes | Callout
    | Expandable | Byline | Ingress | Stats | Toc | OtherKind(name: string)

  /** JSON levels: absent, an integer, a float such as 1.0, or a string. */
  datatype Level = NoLevel | IntLevel(n: int) | FloatLevel(r: real) | TextLevel(s: string)

  /** An array of cells, or any other value, of which only the words matter. */
  datatype Row = Cells(cells: seq<Prose>) | NotCells(words: Prose)

  /** A list item is prose; a notes item has three named parts. */
  datatype Item = Inline(words: Prose) | Note(tag: Prose, lead: Prose, text: Prose)

  datatype Step = Step(title: Prose, blocks: seq<Block>) | NotStep

  datatype Block =
    | NotBlock(words: Prose)
    | Block(
        kind: Kind,
        id: Option<string>,
        level: Level,
        title: Prose,
        text: Prose,
        content: seq<Prose>,   // one entry per inline node
        summary: Prose,
        extra: seq<Prose>,     // alt, caption, description, label, lead, subtitle, value: those present
        head: Row,
        rows: seq<Row>,
        items: seq<Item>,
        steps: seq<Step>,
        blocks: seq<Block>,
        children: seq<Block>,
        child: seq<Block>,     // a figure's single child: at most one
        open: bool,
        childless: bool)       // there is no array of children at all

  const NO_HEAD: Row := Cells([])

  /** A block of the given kind with nothing in it. */
  function Blank(kind: Kind): (b: Block)
    ensures b.Block? && b.kind == kind
  {
    Block(kind, None, NoLevel, [], [], [], [], [], NO_HEAD, [], [], [], [], [], [], false, true)
  }

  function TextParagraph(words: Prose): Block {
    var b := Blank(Paragraph);
    b.(content := [words])
  }

  // ---------------------------------------------------------------- words --

  function Join(parts: seq<Prose>): Prose {
    if parts == [] then [] else parts[0] + Join(parts[1..])
  }

  function RowWords(row: Row): Prose {
    match row
    case Cells(cells) => Join(cells)
    case NotCells(words) => words
  }

  function RowsWords(rows: seq<Row>): Prose {
    if rows == [] then [] else RowWords(rows[0]) + RowsWords(rows[1..])
  }

  function ItemWords(item: Item): Prose {
    match item
    case Inline(words) => words
    case Note(tag, lead, text) => tag + lead + text
  }

  function ItemsWords(items: seq<Item>): Prose {
    if items == [] then [] else ItemWords(items[0]) + ItemsWords(items[1..])
  }

  /** `_visible_text` of a block, as words.  A steps block shows only its steps and
      an expandable only its summary and children. */
  function Visible(b: Block): Prose {
    match b
    case NotBlock(words) => words
    case Block(kind, _, _, title, text, content, summary, extra, head, rows, items, steps, blocks, children, _, _, _) =>
      if kind == StepsBlock then VisibleSteps(steps)
      else if kind == Expandable then summary + VisibleAll(children)
      else
        Join(extra) + VisibleAll(blocks) + VisibleAll(children) + Join(content) + RowWords(head)
        + ItemsWords(items) + RowsWords(rows) + VisibleStrays(steps) + summary + text + title
  }

  function VisibleAll(bs: seq<Block>): Prose {
    if bs == [] then [] else Visible(bs[0]) + VisibleAll(bs[1..])
  }

  function VisibleSteps(ss: seq<Step>): Prose {
    if ss == [] then []
    else (match ss[0] case Step(title, blocks) => title + VisibleAll(blocks) case NotStep => [])
         + VisibleSteps(ss[1..])
  }

  /** Steps carried by a block that is not a steps block: keys in alphabetical order. */
  function VisibleStrays(ss: seq<Step>): Prose {
    if ss == [] then []
    else (match ss[0] case Step(title, blocks) => VisibleAll(blocks) + title case NotStep => [])
         + VisibleStrays(ss[1..])
  }

  lemma VisibleOfOne(b: Block)
    ensures VisibleAll([b]) == Visible(b)
  {
    assert [b][1..] == [];
    assert Visible(b) + [] == Visible(b);
  }

  lemma {:induction false} VisibleAllConcat(a: seq<Block>, b: seq<Block>)
    ensures VisibleAll(a + b) == VisibleAll(a) + VisibleAll(b)
  {
    if a == [] {
      assert a + b == b;
    } else {
      Peel(a, b);
      VisibleAllConcat(a[1..], b);
      Assoc(Visible(a[0]), VisibleAll(a[1..]), VisibleAll(b));
    }
  }

  // ---------------------------------------------------------------- walks --

  /** The blocks the quality audit walks: itself, then everything under `blocks`,
      `children` and the steps. */
  function Walk(b: Block): seq<Block> {
    match b
    case NotBlock(_) => []
    case Block(_, _, _, _, _, _, _, _, _, _, _, steps, blocks, children, _, _, _) =>
      [b] + WalkAll(blocks) + WalkAll(children) + WalkSteps(steps)
  }

  function WalkAll(bs: seq<Block>): seq<Block> {
    if bs == [] then [] else Walk(bs[0]) + WalkAll(bs[1..])
  }

  function WalkSteps(ss: seq<Step>): seq<Block> {
    if ss == [] then []
    else (match ss[0] case Step(_, blocks) => WalkAll(blocks) case NotStep => []) + WalkSteps(ss[1..])
  }

  lemma {:induction false} WalkAllConcat(a: seq<Block>, b: seq<Block>)
    ensures WalkAll(a + b) == WalkAll(a) + WalkAll(b)
  {
    if a == [] {
      assert a + b == b;
    } else {
      Peel(a, b);
      WalkAllConcat(a[1..], b);
      Assoc(Walk(a[0]), WalkAll(a[1..]), WalkAll(b));
    }
  }

  lemma {:induction false} WalkAllContains(bs: seq<Block>, i: nat)
    requires i < |bs|
    ensures forall b :: b in Walk(bs[i]) ==> b in WalkAll(bs)
    ensures bs[i].Block? ==> bs[i] in WalkAll(bs)
  {
    if i > 0 {
      WalkAllContains(bs[1..], i - 1);
    }
  }

  lemma {:induction false} WalkAllOnly(bs: seq<Block>, b: Block)
    requires b in WalkAll(bs)
    ensures exists i :: 0 <= i < |bs| && b in Walk(bs[i])
  {
    if b in Walk(bs[0]) {
    } else {
      WalkAllOnly(bs[1..], b);
      var i :| 0 <= i < |bs[1..]| && b in Walk(bs[1..][i]);
      assert bs[i + 1] == bs[1..][i];
    }
  }

  // ----------------------------------------------------------- predicates --

  /** An editor's spacer: a paragraph with no inline nodes and no text. */
  predicate IsEmptyParagraph(b: Block) {
    b.Block? && b.kind == Paragraph && b.content == [] && b.text == []
  }

  predicate IsHeading(b: Block) {
    b.Block? && b.kind == Heading
  }

  /** Python's `level == 1`, which also holds of the float 1.0. */
  predicate IsLevelOne(level: Level) {
    level == IntLevel(1) || level == FloatLevel(1.0)
  }

  /** Python's `level == 2`, likewise. */
  predicate IsLevelTwo(level: Level) {
    level == IntLevel(2) || level == FloatLevel(2.0)
  }
}
