/** What the opening blocks that the repair supplies say. */
module OrientationLine {
  import opened Subsequences
  import opened Words
  import opened PaperBlocks
  import opened QualityGates
  import opened BlockRepair
  import opened Appendices
  import opened EpicRepair

  // ------------------------------------------------------------------ what is promised --

  /** All blocks as a reader meets them, children before blocks. */
  function Reading(b: Block): seq<Block> {
    match b
    case NotBlock(_) => []
    case Block(_, _, _, _, _, _, _, _, _, _, _, _, blocks, children, _, _, _) =>
      [b] + ReadingAll(children) + ReadingAll(blocks)
  }

  function ReadingAll(bs: seq<Block>): seq<Block> {
    if bs == [] then [] else Reading(bs[0]) + ReadingAll(bs[1..])
  }

  /** What the headings below the first level say. */
  function SubheadingTexts(read: seq<Block>): seq<Prose> {
    if read == [] then []
    else
      (if IsHeading(read[0]) && !IsLevelOne(read[0].level) then [HeadingText(read[0])] else [])
      + SubheadingTexts(read[1..])
  }

  /** The non-empty texts, each where it first occurs. */
  function Firsts(texts: seq<Prose>): seq<Prose> {
    if texts == [] then []
    else
      var before, last := Firsts(texts[..|texts| - 1]), texts[|texts| - 1];
      if last != [] && last !in before then before + [last] else before
  }

  const STOCK: seq<Prose> := [["Decision", "record"], ["Evidence", "and", "implications"], ["Next", "action"]]

  /** The entries that are not taken yet, in their order. */
  function Untaken(entries: seq<Prose>, taken: seq<Prose>): seq<Prose> {
    if entries == [] then [] else (if entries[0] in taken then [] else [entries[0]]) + Untaken(entries[1..], taken)
  }

  function UpToThree(texts: seq<Prose>): seq<Prose> {
    if |texts| <= 3 then texts else texts[..3]
  }

  /** The entries offered: up to three distinct subheadings in reading order, and stock
      entries after them. */
  function Offered(bs: seq<Block>): seq<Prose> {
    var found := UpToThree(Firsts(SubheadingTexts(ReadingAll(bs))));
    UpToThree(found + Untaken(STOCK, found))
  }

  lemma {:induction false} FirstsAre(texts: seq<Prose>)
    ensures Distinct(Firsts(texts))
    ensures forall t :: t in Firsts(texts) <==> t in texts && t != []
  {
    if texts != [] {
      var front, last := texts[..|texts| - 1], texts[|texts| - 1];
      FirstsAre(front);
      assert texts == front + [last];
    }
  }

  /** Longer lists only add at the end: the order is that of first occurrence. */
  lemma {:induction false} FirstsGrow(a: seq<Prose>, b: seq<Prose>)
    ensures Firsts(a) <= Firsts(a + b)
    decreases |b|
  {
    if b == [] {
      assert a + b == a;
    } else {
      var front := b[..|b| - 1];
      FirstsGrow(a, front);
      assert (a + b)[..|a + b| - 1] == a + front;
    }
  }

  // ------------------------------------------------------------------------- the proof --

  function OnlyHeadings(read: seq<Block>): seq<Block> {
    if read == [] then [] else (if IsHeading(read[0]) then [read[0]] else []) + OnlyHeadings(read[1..])
  }

  lemma {:induction false} OnlyHeadingsConcat(a: seq<Block>, b: seq<Block>)
    ensures OnlyHeadings(a + b) == OnlyHeadings(a) + OnlyHeadings(b)
  {
    if a == [] {
      assert a + b == b;
    } else {
      Peel(a, b);
      OnlyHeadingsConcat(a[1..], b);
      Assoc(if IsHeading(a[0]) then [a[0]] else [], OnlyHeadings(a[1..]), OnlyHeadings(b));
    }
  }

  lemma {:induction false} HeadingsAreRead(b: Block)
    ensures Headings(b) == OnlyHeadings(Reading(b))
    decreases b
  {
    if b.Block? {
      AllHeadingsAreRead(b.children);
      AllHeadingsAreRead(b.blocks);
      OnlyHeadingsConcat([b] + ReadingAll(b.children), ReadingAll(b.blocks));
      OnlyHeadingsConcat([b], ReadingAll(b.children));
      assert [b][1..] == [];
      assert OnlyHeadings([b]) == if IsHeading(b) then [b] else [];
    }
  }

  lemma {:induction false} AllHeadingsAreRead(bs: seq<Block>)
    ensures HeadingsAll(bs) == OnlyHeadings(ReadingAll(bs))
  {
    if bs != [] {
      HeadingsAreRead(bs[0]);
      AllHeadingsAreRead(bs[1..]);
      OnlyHeadingsConcat(Reading(bs[0]), ReadingAll(bs[1..]));
    }
  }

  lemma {:induction false} SubheadingsOfHeadings(read: seq<Block>)
    ensures SubheadingTexts(OnlyHeadings(read)) == SubheadingTexts(read)
  {
    if read != [] {
      SubheadingsOfHeadings(read[1..]);
      if IsHeading(read[0]) {
        assert OnlyHeadings(read)[1..] == OnlyHeadings(read[1..]);
      } else {
        assert OnlyHeadings(read) == OnlyHeadings(read[1..]);
        assert SubheadingTexts(read) == SubheadingTexts(read[1..]);
      }
    }
  }

  function AddTexts(items: seq<Prose>, texts: seq<Prose>): seq<Prose>
    decreases |texts|
  {
    if texts == [] then items
    else AddTexts(if texts[0] != [] && texts[0] !in items then items + [texts[0]] else items, texts[1..])
  }

  lemma {:induction false} AddTextsGrows(items: seq<Prose>, texts: seq<Prose>)
    ensures items <= AddTexts(items, texts)
    decreases |texts|
  {
    if texts != [] {
      AddTextsGrows(if texts[0] != [] && texts[0] !in items then items + [texts[0]] else items, texts[1..]);
    }
  }

  lemma {:induction false} AddTextsIsFirsts(done: seq<Prose>, texts: seq<Prose>)
    ensures AddTexts(Firsts(done), texts) == Firsts(done + texts)
    decreases |texts|
  {
    if texts == [] {
      assert done + texts == done;
    } else {
      var more := done + [texts[0]];
      assert more[..|more| - 1] == done;
      AddTextsIsFirsts(more, texts[1..]);
      assert more + texts[1..] == done + texts;
    }
  }

  /** Collecting stops at three. */
  lemma {:induction false} CollectIs(headings: seq<Block>, items: seq<Prose>)
    requires |items| <= 3 && Distinct(items) && forall i :: 0 <= i < |headings| ==> IsHeading(headings[i])
    ensures Collect(headings, items) == UpToThree(AddTexts(items, SubheadingTexts(headings)))
    decreases |headings|
  {
    AddTextsGrows(items, SubheadingTexts(headings));
    if headings != [] && |items| < 3 {
      var h := headings[0];
      var text := HeadingText(h);
      if IsLevelOne(h.level) {
        assert SubheadingTexts(headings) == SubheadingTexts(headings[1..]);
        CollectIs(headings[1..], items);
      } else {
        assert SubheadingTexts(headings)[1..] == SubheadingTexts(headings[1..]);
        CollectIs(headings[1..], if text != [] && text !in items then items + [text] else items);
      }
    }
  }

  lemma {:induction false} OnlyHeadingsAre(read: seq<Block>)
    ensures forall i :: 0 <= i < |OnlyHeadings(read)| ==> IsHeading(OnlyHeadings(read)[i])
  {
    if read != [] {
      OnlyHeadingsAre(read[1..]);
    }
  }

  lemma {:induction false} UntakenBy(entries: seq<Prose>, taken: seq<Prose>, more: Prose)
    requires more !in entries
    ensures Untaken(entries, taken + [more]) == Untaken(entries, taken)
  {
    if entries != [] {
      UntakenBy(entries[1..], taken, more);
    }
  }

  lemma {:induction false} TopUpIs(fallbacks: seq<Prose>, items: seq<Prose>)
    requires |items| <= 3 && Distinct(items) && Distinct(fallbacks)
    ensures TopUp(fallbacks, items) == UpToThree(items + Untaken(fallbacks, items))
    decreases |fallbacks|
  {
    if fallbacks != [] && |items| < 3 {
      var first, rest := fallbacks[0], fallbacks[1..];
      if first in items {
        TopUpIs(rest, items);
        assert Untaken(fallbacks, items) == Untaken(rest, items);
      } else {
        TopUpIs(rest, items + [first]);
        UntakenBy(rest, items, first);
        Assoc(items, [first], Untaken(rest, items));
      }
    }
  }

  /** The orientation line offers exactly these entries. */
  lemma OrientationIsOffered(bs: seq<Block>)
    ensures OrientationItems(bs) == Offered(bs)
  {
    var read := ReadingAll(bs);
    AllHeadingsAreRead(bs);
    OnlyHeadingsAre(read);
    CollectIs(HeadingsAll(bs), []);
    SubheadingsOfHeadings(read);
    AddTextsIsFirsts([], SubheadingTexts(read));
    assert [] + SubheadingTexts(read) == SubheadingTexts(read);
    FallbacksDiffer();
    TopUpIs(FALLBACKS, Collect(HeadingsAll(bs), []));
  }

  // -------------------------------------------------------------------- supplied blocks --

  /** A heading says its text, or what it contains when it has none. */
  lemma HeadingSays(h: Block)
    requires IsHeading(h) && h.extra == [] && h.blocks == [] && h.children == [] && h.items == [] && h.rows == []
    requires h.steps == [] && h.summary == [] && h.title == [] && h.head == NO_HEAD
    ensures h.content == [] || h.text == [] ==> HeadingText(h) == Visible(h)
    ensures h.text != [] ==> HeadingText(h) == h.text
  {
    assert Visible(h) == Join(h.content) + h.text by {
      VisibleParts(h);
    }
  }

  lemma {:induction false} LineSays(texts: seq<Prose>)
    ensures ItemsWords(AsItems(texts)) == Join(texts)
  {
    if texts != [] {
      LineSays(texts[1..]);
      assert AsItems(texts)[1..] == AsItems(texts[1..]);
    }
  }

  lemma NewH1Says(title: Prose)
    ensures IsKind(NewH1(title), Heading) && NewH1(title).level == IntLevel(1) && Visible(NewH1(title)) == title
  {
  }

  lemma NewIngressSays(description: Prose)
    ensures IsIngress(NewIngress(description)) && Visible(NewIngress(description)) == description
  {
    assert Join([description]) == description;
  }

  lemma NewLineSays(texts: seq<Prose>)
    ensures IsKind(NewOrientation(texts), Byline) && Visible(NewOrientation(texts)) == Join(texts)
    ensures NewOrientation(texts).items == seq(|texts|, i requires 0 <= i < |texts| => Inline(texts[i]))
  {
    var b := NewOrientation(texts);
    LineSays(texts);
    VisibleParts(b);
    assert OwnParts(b).0 == [] && OwnParts(b).2 == [];
    assert OwnParts(b).1 == ItemsWords(b.items);
  }

  /** The line supplied offers the subheadings of the Paper. */
  lemma LineOffers(placed: seq<Block>, description: Prose)
    requires placed != [] && !Has(Opening(WithIngress(placed, description)), Orients)
    ensures OrientationIndex(placed) <= |WithIngress(placed, description)|
    ensures CompleteOpening(placed, description)
              == InsertAt(WithIngress(placed, description), OrientationIndex(placed), NewOrientation(Offered(placed)))
  {
    var started := WithIngress(placed, description);
    StartedHasIngress(placed, description);
    OrientationIsOffered(started);
    IngressOffersNothing(placed, description);
  }

  lemma {:induction false} ReadingConcat(a: seq<Block>, b: seq<Block>)
    ensures ReadingAll(a + b) == ReadingAll(a) + ReadingAll(b)
  {
    if a == [] {
      assert a + b == b;
    } else {
      Peel(a, b);
      ReadingConcat(a[1..], b);
      Assoc(Reading(a[0]), ReadingAll(a[1..]), ReadingAll(b));
    }
  }

  lemma {:induction false} SubheadingsConcat(a: seq<Block>, b: seq<Block>)
    ensures SubheadingTexts(a + b) == SubheadingTexts(a) + SubheadingTexts(b)
  {
    if a == [] {
      assert a + b == b;
    } else {
      Peel(a, b);
      SubheadingsConcat(a[1..], b);
      Assoc(if IsHeading(a[0]) && !IsLevelOne(a[0].level) then [HeadingText(a[0])] else [],
            SubheadingTexts(a[1..]), SubheadingTexts(b));
    }
  }

  lemma InsertedOffersNothing(front: seq<Block>, b: Block, back: seq<Block>)
    requires b.Block? && b.kind != Heading && b.children == [] && b.blocks == []
    ensures SubheadingTexts(ReadingAll(front + ([b] + back))) == SubheadingTexts(ReadingAll(front + back))
  {
    ReadingConcat(front, [b] + back);
    ReadingConcat([b], back);
    ReadingConcat(front, back);
    assert [b][1..] == [];
    assert Reading(b) == [b] && ReadingAll([b]) == [b];
    SubheadingsConcat(ReadingAll(front), [b] + ReadingAll(back));
    SubheadingsConcat([b], ReadingAll(back));
    SubheadingsConcat(ReadingAll(front), ReadingAll(back));
    assert SubheadingTexts([b]) == [];
  }

  lemma IngressOffersNothing(placed: seq<Block>, description: Prose)
    requires placed != []
    ensures Offered(WithIngress(placed, description)) == Offered(placed)
  {
    var front, back := placed[..1], placed[1..];
    assert placed == front + back;
    assert InsertAt(placed, 1, NewIngress(description)) == front + ([NewIngress(description)] + back);
    InsertedOffersNothing(front, NewIngress(description), back);
  }

  /** An earlier line is brought up to date, the first one only, and nothing else changes. */
  lemma {:induction false} RefreshedIs(bs: seq<Block>, items: seq<Prose>, i: nat)
    requires i < |bs|
    ensures RefreshFrom(bs, items)[i] ==
              if IsOrientation(bs[i]) && (forall j :: 0 <= j < i ==> !IsOrientation(bs[j]))
              then bs[i].(items := AsItems(items)) else bs[i]
  {
    if i > 0 && !IsOrientation(bs[0]) {
      RefreshedIs(bs[1..], items, i - 1);
      assert forall j :: 0 < j < i ==> bs[j] == bs[1..][j - 1];
    }
  }
}
