/** The conservation check at the end of `repair_canonical_epic`: every text leaf of
    the source must read somewhere in the result. */
module SourceLeaves {
  import opened Subsequences
  import opened Words
  import opened PaperBlocks
  import opened BlockRepair
  import opened Appendices

  function RowLeaves(row: Row): seq<Prose> {
    match row
    case Cells(cells) => cells
    case NotCells(words) => [words]
  }

  function RowsLeaves(rows: seq<Row>): seq<Prose> {
    if rows == [] then [] else RowLeaves(rows[0]) + RowsLeaves(rows[1..])
  }

  function ItemLeaves(item: Item): seq<Prose> {
    match item
    case Inline(words) => [words]
    case Note(tag, lead, text) => [tag, lead, text]
  }

  function ItemsLeaves(items: seq<Item>): seq<Prose> {
    if items == [] then [] else ItemLeaves(items[0]) + ItemsLeaves(items[1..])
  }

  /** `_visible_leaf_texts`.  Unlike the visible text it reads every text field of a
      block, whatever its kind.  An empty leaf reads everywhere. */
  function LeavesOf(b: Block): seq<Prose> {
    match b
    case NotBlock(words) => [words]
    case Block(_, _, _, title, text, content, summary, extra, head, rows, items, steps, blocks, children, _, _, _) =>
      extra + LeavesOfAll(blocks) + LeavesOfAll(children) + content + RowLeaves(head)
      + ItemsLeaves(items) + RowsLeaves(rows) + LeavesOfSteps(steps) + [summary] + [text] + [title]
  }

  function LeavesOfAll(bs: seq<Block>): seq<Prose> {
    if bs == [] then [] else LeavesOf(bs[0]) + LeavesOfAll(bs[1..])
  }

  function LeavesOfSteps(ss: seq<Step>): seq<Prose> {
    if ss == [] then []
    else
      (match ss[0] case Step(title, blocks) => LeavesOfAll(blocks) + [title] case NotStep => [])
      + LeavesOfSteps(ss[1..])
  }

  /** Texts the check lets go: summaries of top-level generated appendices, and titles
      of top-level callouts that their own body repeats. */
  function Waived(bs: seq<Block>): seq<Prose> {
    if bs == [] then []
    else
      (if IsGeneratedAppendix(bs[0]) then [bs[0].summary] else if TitleIsRedundant(bs[0]) then [bs[0].title] else [])
      + Waived(bs[1..])
  }

  /** The leaves that do not read in the text, those waived aside. */
  function MissingFrom(leaves: seq<Prose>, waived: seq<Prose>, text: string): seq<Prose> {
    if leaves == [] then []
    else
      (if leaves[0] in waived || Inside(Spaced(leaves[0]), text) then [] else [leaves[0]])
      + MissingFrom(leaves[1..], waived, text)
  }

  lemma {:induction false} MissingFromIff(leaves: seq<Prose>, waived: seq<Prose>, text: string, leaf: Prose)
    ensures leaf in MissingFrom(leaves, waived, text) <==>
              leaf in leaves && leaf !in waived && !Inside(Spaced(leaf), text)
  {
    if leaves != [] {
      MissingFromIff(leaves[1..], waived, text, leaf);
    }
  }

  /** `missing_leaves`. */
  function MissingLeaves(source: seq<Block>, out: seq<Block>): seq<Prose> {
    MissingFrom(LeavesOfAll(source), Waived(source), Spaced(VisibleAll(out)))
  }

  lemma MissingIff(source: seq<Block>, out: seq<Block>, leaf: Prose)
    ensures leaf in MissingLeaves(source, out) <==>
              leaf in LeavesOfAll(source) && leaf !in Waived(source) && !Inside(Spaced(leaf), Spaced(VisibleAll(out)))
  {
    MissingFromIff(LeavesOfAll(source), Waived(source), Spaced(VisibleAll(out)), leaf);
  }
}
