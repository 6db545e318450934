/** Papers on which the outline and opening gates fail after repair. */
module FailingOpenings {
  import opened Wrappers
  import opened Words
  import opened PaperBlocks
  import opened QualityGates
  import opened Appendices
  import opened EpicRepair
  import opened RepairTheorems
  import opened LeafTheorems
  import opened OpeningTheorems
  import opened SmallPapers

  // --------------------------------------------------------------------- the outline --

  function FloatH1(text: Prose): (b: Block)
    ensures b.Block?
  {
    var b := Blank(Heading);
    b.(level := FloatLevel(1.0), text := text)
  }

  /** Papers on which the outline gate fails after repair. */
  lemma FloatH1FailsOutline(title: Prose, description: Prose, text: Prose)
    requires description != []
    ensures var paper := Paper(title, description, [FloatH1(text)]);
            Repair(paper).Ok? && OutlineRequiresOneH1 in OutlineFailures(Repair(paper).value)
  {
    OneFloatHeading(Paper(title, description, [FloatH1(text)]), FloatH1(text));
  }

  lemma OneFloatHeading(paper: Paper, h: Block)
    requires paper.description != [] && paper.blocks == [h] && IsBare(h) && IsHeading(h) && h.level == FloatLevel(1.0)
    ensures Repair(paper).Ok? && OutlineRequiresOneH1 in OutlineFailures(Repair(paper).value)
  {
    BarePaper(paper);
    UnwrapPlain(paper.blocks);
    TopLevelsOfOne(h);
    OutlineGateFailsIffFloatH1(paper);
  }

  lemma TopLevelsOfOne(h: Block)
    requires IsHeading(h) && h.level == FloatLevel(1.0)
    ensures FirstLevelOne(TopLevels([h])) == Some(FloatLevel(1.0))
  {
    assert [h][1..] == [];
    assert TopLevels([h]) == [FloatLevel(1.0)] + [];
  }

  // --------------------------------------------------------------------- the opening --

  /** A Paper without an h1 and with an empty title gets an h1 with nothing in it. */
  lemma EmptyTitleFailsH1(description: Prose)
    requires description != []
    ensures var paper := Paper([], description, []);
            Repair(paper).Ok? && OpeningMissingH1 in OpeningFailures(Repair(paper).value)
  {
    var paper := Paper([], description, []);
    LeafCheckPasses(paper);
    H1CheckFailsIff(paper);
    NewH1Counts([]);
  }

  /** Neither an appendix nor the start of a section. */
  predicate IsPlain(b: Block) {
    !IsGeneratedAppendix(b) && !IsSectionHead(b)
  }

  /** A Paper of plain blocks is neither healed nor folded. */
  lemma PlainIsLeftAlone(bs: seq<Block>, role: Block -> bool, unseen: bool)
    requires forall b :: b in bs ==> IsPlain(b)
    ensures IsOutOfSight(bs, role, unseen) == unseen
  {
    UnwrapPlain(bs);
    forall i | 0 <= i < |bs|
      ensures !IsSectionHead(bs[i])
    {
      assert IsPlain(bs[i]);
    }
    NoSectionsNoPlan(bs);
  }

  lemma ReadyIsPlain(paper: Paper)
    requires Repair(paper).Ok? && Placed(paper) != [] && forall b :: b in Placed(paper) ==> IsPlain(b)
    ensures forall b :: b in Ready(paper) ==> IsPlain(b)
  {
    forall b | b in Ready(paper)
      ensures IsPlain(b)
    {
      CompletedFrom(Placed(paper), paper.description, b);
    }
  }

  lemma BlankIsWordless(kind: Kind)
    requires kind == Ingress || kind == Byline
    ensures var b := Blank(kind); IsBare(b) && IsKind(b, kind) && !IsMeaningful(b)
  {
  }

  lemma PlainIngress(paper: Paper)
    requires Repair(paper).Ok? && Placed(paper) != [] && forall b :: b in Placed(paper) ==> IsPlain(b)
    requires Has(Opening(Placed(paper)), IsIngress) && IngressIsWordless(Placed(paper))
    ensures OpeningMissingIngress in OpeningFailures(Repair(paper).value)
  {
    ReadyIsPlain(paper);
    PlainIsLeftAlone(Ready(paper), IsIngress, true);
    IngressCheckFailsIff(paper);
  }

  lemma PlainOrientation(paper: Paper, started: seq<Block>, at: nat)
    requires Repair(paper).Ok? && Placed(paper) != [] && forall b :: b in Placed(paper) ==> IsPlain(b)
    requires started == WithIngress(Placed(paper), paper.description) && at == OrientationIndex(Placed(paper))
    requires at <= |started| && NothingOrients(started, at)
    ensures OpeningMissingOrientation in OpeningFailures(Repair(paper).value)
  {
    ReadyIsPlain(paper);
    PlainIsLeftAlone(Ready(paper), Orients, true);
    OrientationCheckFailsIff(paper);
  }

  /** An ingress without words counts for the repair and not for the audit. */
  lemma WordlessIngressFails(title: Prose, description: Prose)
    requires description != []
    ensures var paper := Paper(title, description, [Blank(Ingress)]);
            Repair(paper).Ok? && OpeningMissingIngress in OpeningFailures(Repair(paper).value)
  {
    BlankIsWordless(Ingress);
    OneWordlessIngress(Paper(title, description, [Blank(Ingress)]), Blank(Ingress));
  }

  lemma OneWordlessIngress(paper: Paper, b: Block)
    requires paper.description != [] && paper.blocks == [b] && IsBare(b) && IsIngress(b) && !IsMeaningful(b)
    ensures Repair(paper).Ok? && OpeningMissingIngress in OpeningFailures(Repair(paper).value)
  {
    OneUnderNewH1(paper, b);
    LastIsWordlessIngress(Placed(paper));
    PlainIngress(paper);
  }

  lemma TwoArePlain(placed: seq<Block>)
    requires |placed| == 2 && IsPlain(placed[0]) && IsPlain(placed[1])
    ensures forall b :: b in placed ==> IsPlain(b)
  {
  }

  lemma OneUnderNewH1(paper: Paper, b: Block)
    requires paper.description != [] && paper.blocks == [b] && IsBare(b) && b.kind != Heading
    ensures Repair(paper).Ok? && |Placed(paper)| == 2
    ensures IsKind(Placed(paper)[0], Heading) && Placed(paper)[1] == b
    ensures forall x :: x in Placed(paper) ==> IsPlain(x)
  {
    BareUnderNewH1(paper);
    TwoArePlain(Placed(paper));
  }

  lemma LastIsWordlessIngress(placed: seq<Block>)
    requires |placed| == 2 && !IsIngress(placed[0]) && IsIngress(placed[1]) && !IsMeaningful(placed[1])
    ensures Has(Opening(placed), IsIngress) && IngressIsWordless(placed)
  {
    InOpening(placed, 1, IsIngress);
    assert FirstIngress(placed, 0) == 1;
    assert placed[2..] == [];
  }

  /** A byline without words keeps the repair from supplying a line, and the audit does
      not see it. */
  lemma WordlessBylineFails(title: Prose, description: Prose)
    requires description != []
    ensures var paper := Paper(title, description, [Blank(Byline)]);
            Repair(paper).Ok? && OpeningMissingOrientation in OpeningFailures(Repair(paper).value)
  {
    BlankIsWordless(Byline);
    OneWordlessByline(Paper(title, description, [Blank(Byline)]), Blank(Byline));
  }

  lemma OneWordlessByline(paper: Paper, b: Block)
    requires paper.description != [] && paper.blocks == [b] && IsBare(b) && IsKind(b, Byline) && !IsMeaningful(b)
    ensures Repair(paper).Ok? && OpeningMissingOrientation in OpeningFailures(Repair(paper).value)
  {
    OneUnderNewH1(paper, b);
    LastIsWordlessByline(Placed(paper), paper.description);
    PlainOrientation(paper, WithIngress(Placed(paper), paper.description), OrientationIndex(Placed(paper)));
  }

  lemma LastIsWordlessByline(placed: seq<Block>, description: Prose)
    requires |placed| == 2 && IsKind(placed[0], Heading) && IsKind(placed[1], Byline) && !IsMeaningful(placed[1])
    ensures OrientationIndex(placed) <= |WithIngress(placed, description)|
    ensures NothingOrients(WithIngress(placed, description), OrientationIndex(placed))
  {
    var started := WithIngress(placed, description);
    assert started == [placed[0], NewIngress(description), placed[1]];
    LastOfThree(started);
  }

  lemma LastOfThree(started: seq<Block>)
    requires |started| == 3 && IsKind(started[0], Heading) && IsIngress(started[1]) && IsKind(started[2], Byline) && !IsMeaningful(started[2])
    ensures Has(Opening(started), Orients) && !Early(started, OPENING_WINDOW, Orients)
  {
    InOpening(started, 2, Orients);
    MembersOfThree(started);
    WordlessIsNotEarly(started, Orients);
  }

  lemma MembersOfThree<T>(s: seq<T>)
    requires |s| == 3
    ensures forall x :: x in s ==> x == s[0] || x == s[1] || x == s[2]
  {
  }

  lemma WordlessIsNotEarly(bs: seq<Block>, role: Block -> bool)
    requires forall b :: b in bs && role(b) ==> !IsMeaningful(b)
    ensures !Early(bs, OPENING_WINDOW, role)
  {
    if Early(bs, OPENING_WINDOW, role) {
      EarlyIsThere(bs, OPENING_WINDOW, role);
    }
  }

  function WordedIngress(words: Prose): (b: Block)
    ensures b.Block? && b.kind == Ingress
  {
    var b := Blank(Ingress);
    b.(content := [words])
  }

  lemma IngressIsBare(words: Prose)
    ensures var b := WordedIngress(words); IsBare(b) && IsIngress(b) && (words != [] ==> IsMeaningful(b))
  {
    var b := WordedIngress(words);
    assert Join([words]) == words;
    assert PlainCount(b) == |words|;
  }

  /** The ingress is the eighth block once the h1 is in front: the orientation line
      comes ninth, out of sight of the audit. */
  lemma EighthBlockIngressFails(title: Prose, description: Prose, words: Prose, ingress: Prose)
    requires title != [] && description != [] && words != [] && ingress != []
    ensures var paper := LatePaper(title, description, TextParagraph(words), WordedIngress(ingress));
            Repair(paper).Ok? && OpeningMissingOrientation in OpeningFailures(Repair(paper).value)
  {
    ParagraphIsBare(words);
    IngressIsBare(ingress);
    LateIngressFails(title, description, TextParagraph(words), WordedIngress(ingress));
  }

  function LatePaper(title: Prose, description: Prose, p: Block, ingress: Block): Paper {
    Paper(title, description, [p, p, p, p, p, p, ingress])
  }

  lemma LateIngressFails(title: Prose, description: Prose, p: Block, b: Block)
    requires title != [] && description != [] && IsKind(p, Paragraph) && IsIngress(b)
    requires IsBare(p) && IsMeaningful(p) && IsBare(b) && IsMeaningful(b)
    ensures var paper := LatePaper(title, description, p, b);
            Repair(paper).Ok? && OpeningMissingOrientation in OpeningFailures(Repair(paper).value)
  {
    LateIngress(LatePaper(title, description, p, b), p, b);
  }

  lemma LateIngress(paper: Paper, p: Block, b: Block)
    requires paper.title != [] && paper.description != [] && IsKind(p, Paragraph) && IsIngress(b)
    requires IsBare(p) && IsMeaningful(p) && IsBare(b) && IsMeaningful(b)
    requires |paper.blocks| == 7 && paper.blocks[6] == b && forall i :: 0 <= i < 6 ==> paper.blocks[i] == p
    ensures Repair(paper).Ok? && OpeningMissingOrientation in OpeningFailures(Repair(paper).value)
  {
    SevenAreBare(paper.blocks, p, b);
    BareUnderNewH1(paper);
    NewH1Counts(paper.title);
    OneBehind(Placed(paper), paper.blocks, p, b);
    LateIngressPlaced(Placed(paper), NewH1(paper.title), p, b);
    OwnEighthIngress(paper, Placed(paper));
  }

  lemma SevenAreBare(bs: seq<Block>, p: Block, b: Block)
    requires |bs| == 7 && bs[6] == b && forall i :: 0 <= i < 6 ==> bs[i] == p
    requires IsBare(p) && IsKind(p, Paragraph) && IsBare(b) && IsIngress(b)
    ensures forall i :: 0 <= i < |bs| ==> IsBare(bs[i]) && !IsH1(bs[i])
  {
  }

  lemma OneBehind<T>(placed: seq<T>, bs: seq<T>, p: T, b: T)
    requires |bs| == 7 && bs[6] == b && forall i :: 0 <= i < 6 ==> bs[i] == p
    requires |placed| == 8 && forall i :: 0 < i < 8 ==> placed[i] == bs[i - 1]
    ensures placed[7] == b && forall i :: 0 < i < 7 ==> placed[i] == p
  {
  }

  lemma LateIngressPlaced(placed: seq<Block>, h: Block, p: Block, b: Block)
    requires IsKind(h, Heading) && IsLevelOne(h.level) && IsMeaningful(h)
    requires IsKind(p, Paragraph) && IsMeaningful(p) && IsIngress(b) && IsMeaningful(b)
    requires |placed| == 8 && placed[0] == h && placed[7] == b && forall i :: 0 < i < 7 ==> placed[i] == p
    ensures Has(Opening(placed), IsIngress) && !Has(Opening(placed), Orients)
    ensures OrientationIndex(placed) == OPENING_WINDOW
    ensures forall x :: x in placed ==> IsSolid(x)
  {
    EighthOfEight(placed, h, p, b);
    MembersOfLate(placed, h, p, b);
  }

  /** Plain, and with words. */
  predicate IsSolid(b: Block) {
    IsPlain(b) && IsMeaningful(b)
  }

  lemma MembersOfLate<T>(placed: seq<T>, h: T, p: T, b: T)
    requires |placed| == 8 && placed[0] == h && placed[7] == b && forall i :: 0 < i < 7 ==> placed[i] == p
    ensures forall x :: x in placed ==> x == h || x == p || x == b
  {
  }

  lemma EighthOfEight(placed: seq<Block>, h: Block, p: Block, b: Block)
    requires IsKind(h, Heading) && IsKind(p, Paragraph) && IsIngress(b)
    requires |placed| == 8 && placed[0] == h && placed[7] == b && forall i :: 0 < i < 7 ==> placed[i] == p
    ensures Has(Opening(placed), IsIngress) && !Has(Opening(placed), Orients)
    ensures OrientationIndex(placed) == OPENING_WINDOW
  {
    InOpening(placed, 7, IsIngress);
    EighthIsFirstIngress(placed);
    assert Opening(placed) == placed;
    MembersOfLate(placed, h, p, b);
  }

  lemma EighthIsFirstIngress(placed: seq<Block>)
    requires |placed| == 8 && IsIngress(placed[7]) && forall i :: 0 <= i < 7 ==> !IsIngress(placed[i])
    ensures FirstIngress(placed, 0) == 7
  {
  }

  lemma OwnEighthIngress(paper: Paper, placed: seq<Block>)
    requires Repair(paper).Ok? && placed == Placed(paper) && |placed| == 8
    requires Has(Opening(placed), IsIngress) && !Has(Opening(placed), Orients) && OrientationIndex(placed) == OPENING_WINDOW
    requires forall x :: x in placed ==> IsSolid(x)
    ensures OpeningMissingOrientation in OpeningFailures(Repair(paper).value)
  {
    SolidIsNinth(placed);
    PlainOrientation(paper, placed, OPENING_WINDOW);
  }

  lemma SolidIsNinth(placed: seq<Block>)
    requires |placed| == 8 && !Has(Opening(placed), Orients) && forall x :: x in placed ==> IsSolid(x)
    ensures NothingOrients(placed, OPENING_WINDOW)
  {
    MeaningfulIsPart(placed);
    assert placed[..8] == placed;
  }

  // ------------------------------------------------------------- an opened appendix --

  lemma WordedAt(bs: seq<Block>, k: nat, index: nat, unwrap: bool, room: nat, role: Block -> bool)
    requires k < |bs| && room > 0 && !IsGeneratedAppendix(bs[k]) && IsMeaningful(bs[k]) && !role(bs[k])
    ensures Surfaces(bs[k..], index, unwrap, room, role) == Surfaces(bs[k + 1..], index, unwrap, room - 1, role)
  {
    assert bs[k..][1..] == bs[k + 1..];
  }

  lemma KeptAt(bs: seq<Block>, k: nat, index: nat, unwrap: bool, room: nat, role: Block -> bool)
    requires k < |bs| && room > 0 && IsGeneratedAppendix(bs[k]) && !IsDropped(bs[k], index, unwrap)
    ensures Surfaces(bs[k..], index, unwrap, room, role) == Surfaces(bs[k + 1..], index + 1, unwrap, room - 1, role)
  {
    assert bs[k..][1..] == bs[k + 1..];
  }

  lemma OpenedAt(bs: seq<Block>, k: nat, index: nat, unwrap: bool, room: nat, role: Block -> bool)
    requires k < |bs| && IsGeneratedAppendix(bs[k]) && IsDropped(bs[k], index, unwrap)
    requires !Early(bs[k].children, room, role) && |Meaningful(bs[k].children)| >= room
    ensures !Surfaces(bs[k..], index, unwrap, room, role)
  {
  }

  /** Two worded blocks, four appendices that are kept, and one whose two blocks come up. */
  ghost predicate CrowdsOut(bs: seq<Block>) {
    && |bs| == 8 && (forall i :: 2 <= i < 7 ==> IsGeneratedAppendix(bs[i]))
    && (forall i :: 0 <= i < 2 ==> !IsGeneratedAppendix(bs[i]) && IsMeaningful(bs[i]) && !Orients(bs[i]))
    && IsLight(bs[6]) && |Meaningful(bs[6].children)| >= 2 && !Has(bs[6].children, Orients)
  }

  lemma CrowdedOut(bs: seq<Block>)
    requires CrowdsOut(bs)
    ensures !Surfaces(bs, 0, true, OPENING_WINDOW, Orients)
  {
    assert bs[0..] == bs;
    WordedAt(bs, 0, 0, true, 8, Orients);
    WordedAt(bs, 1, 0, true, 7, Orients);
    KeptAt(bs, 2, 0, true, 6, Orients);
    KeptAt(bs, 3, 1, true, 5, Orients);
    KeptAt(bs, 4, 2, true, 4, Orients);
    KeptAt(bs, 5, 3, true, 3, Orients);
    NoneEarly(bs[6].children, 2, Orients);
    OpenedAt(bs, 6, 4, true, 2, Orients);
  }

  function WordedByline(words: Prose): (b: Block)
    ensures b.Block? && b.kind == Byline
  {
    var b := Blank(Byline);
    b.(text := words)
  }

  lemma BylineIsBare(words: Prose)
    ensures var b := WordedByline(words); IsBare(b) && (words != [] ==> IsMeaningful(b))
  {
  }

  function CrowdedPaper(title: Prose, description: Prose, a: Block, g: Block, b: Block): Paper {
    Paper(title, description, [a, a, a, a, g, b])
  }

  /** The byline is the eighth block, behind five appendices.  The fifth is light, and
      the two paragraphs it held take the last two places. */
  lemma OpenedAppendixFails(title: Prose, description: Prose, words: Prose)
    requires title != [] && description != [] && 0 < |words| <= 350
    ensures var paper := CrowdedPaper(title, description, Appendix(1, []),
                                      Appendix(2, [TextParagraph(words), TextParagraph(words)]), WordedByline(words));
            Repair(paper).Ok? && OpeningMissingOrientation in OpeningFailures(Repair(paper).value)
  {
    var p := TextParagraph(words);
    ParagraphIsBare(words);
    BylineIsBare(words);
    EmptyAppendixIsSmall(1);
    AppendixOfTwoIsSmall(2, p);
    TwoMeaningful(p);
    CrowdedFails(title, description, Appendix(1, []), Appendix(2, [p, p]), WordedByline(words));
  }

  lemma TwoMeaningful(p: Block)
    requires IsMeaningful(p) && IsKind(p, Paragraph)
    ensures |Meaningful([p, p])| == 2 && !Has([p, p], Orients)
  {
    MeaningfulIsPart([p, p]);
  }

  lemma CrowdedFails(title: Prose, description: Prose, a: Block, g: Block, b: Block)
    requires title != [] && description != [] && IsSmallAppendix(a) && IsSmallAppendix(g) && IsBare(b) && IsKind(b, Byline)
    requires IsLight(g) && |Meaningful(g.children)| >= 2 && !Has(g.children, Orients)
    ensures var paper := CrowdedPaper(title, description, a, g, b);
            Repair(paper).Ok? && OpeningMissingOrientation in OpeningFailures(Repair(paper).value)
  {
    Crowded(CrowdedPaper(title, description, a, g, b), a, g, b);
  }

  lemma Crowded(paper: Paper, a: Block, g: Block, b: Block)
    requires paper.title != [] && paper.description != [] && IsSix(paper.blocks, a, g, b)
    requires IsSmallAppendix(a) && IsSmallAppendix(g) && IsBare(b) && IsKind(b, Byline)
    requires IsLight(g) && |Meaningful(g.children)| >= 2 && !Has(g.children, Orients)
    ensures Repair(paper).Ok? && OpeningMissingOrientation in OpeningFailures(Repair(paper).value)
  {
    SixAreSmall(paper.blocks, a, g, b);
    SmallUnderNewH1(paper);
    SixBehind(Placed(paper), NewH1(paper.title), paper.blocks, a, g, b);
    NewH1Counts(paper.title);
    NewIngressCounts(paper.description);
    CrowdedStart(Placed(paper), paper.description, NewH1(paper.title), a, g, b);
    CrowdIs(Ready(paper), NewH1(paper.title), NewIngress(paper.description), a, g);
    CrowdFails(paper);
  }

  lemma CrowdFails(paper: Paper)
    requires Repair(paper).Ok? && CrowdsOut(Ready(paper))
    ensures OpeningMissingOrientation in OpeningFailures(Repair(paper).value)
  {
    GeneratedOfCrowd(Ready(paper));
    CrowdedOut(Ready(paper));
    OrientationCheckFailsIff(paper);
  }

  ghost predicate IsSix<T>(s: seq<T>, a: T, g: T, b: T) {
    |s| == 6 && (forall i :: 0 <= i < 4 ==> s[i] == a) && s[4] == g && s[5] == b
  }

  lemma SixBehind<T>(placed: seq<T>, h: T, s: seq<T>, a: T, g: T, b: T)
    requires placed == [h] + s && IsSix(s, a, g, b)
    ensures |placed| == 7 && placed[0] == h && placed[5] == g && placed[6] == b && forall i :: 1 <= i < 5 ==> placed[i] == a
  {
  }

  lemma SixAreSmall(bs: seq<Block>, a: Block, g: Block, b: Block)
    requires IsSix(bs, a, g, b) && IsSmallAppendix(a) && IsSmallAppendix(g) && IsBare(b) && IsKind(b, Byline)
    ensures forall i :: 0 <= i < |bs| ==> IsSmall(bs[i]) && !IsH1(bs[i])
  {
    EachOfSix(bs, a, g, b, IsSmallBody);
    assert forall i :: 0 <= i < |bs| ==> IsSmallBody(bs[i]);
  }

  ghost predicate IsSmallBody(b: Block) {
    IsSmall(b) && !IsH1(b)
  }

  lemma EachOfSix<T>(s: seq<T>, a: T, g: T, b: T, p: T -> bool)
    requires IsSix(s, a, g, b) && p(a) && p(g) && p(b)
    ensures forall i :: 0 <= i < |s| ==> p(s[i])
  {
  }

  lemma CrowdIs(bs: seq<Block>, h: Block, ingress: Block, a: Block, g: Block)
    requires |bs| == 8 && bs[0] == h && bs[1] == ingress && bs[6] == g && forall i :: 2 <= i < 6 ==> bs[i] == a
    requires IsKind(h, Heading) && IsMeaningful(h) && IsIngress(ingress) && IsMeaningful(ingress)
    requires IsGeneratedAppendix(a) && IsGeneratedAppendix(g)
    requires IsLight(g) && |Meaningful(g.children)| >= 2 && !Has(g.children, Orients)
    ensures CrowdsOut(bs)
  {
  }

  lemma NewIngressCounts(description: Prose)
    ensures PlainCount(NewIngress(description)) == |description|
  {
    assert Join([description]) == description;
  }

  /** The ingress is supplied and the byline is the eighth block, so no line is. */
  lemma CrowdedStart(placed: seq<Block>, description: Prose, h: Block, a: Block, g: Block, b: Block)
    requires |placed| == 7 && placed[0] == h && placed[5] == g && placed[6] == b && forall i :: 1 <= i < 5 ==> placed[i] == a
    requires IsKind(h, Heading) && IsKind(b, Byline) && IsGeneratedAppendix(a) && IsGeneratedAppendix(g)
    ensures var ready := CompleteOpening(placed, description);
            && |ready| == 8 && ready[0] == h && ready[1] == NewIngress(description) && ready[6] == g
            && forall i :: 2 <= i < 6 ==> ready[i] == a
  {
    var started := InsertAt(placed, 1, NewIngress(description));
    NoIngressAmong(placed, h, a, g, b);
    PutSecond(placed, NewIngress(description));
    InOpening(started, 7, Orients);
  }

  lemma NoIngressAmong(placed: seq<Block>, h: Block, a: Block, g: Block, b: Block)
    requires |placed| == 7 && placed[0] == h && placed[5] == g && placed[6] == b && forall i :: 1 <= i < 5 ==> placed[i] == a
    requires IsKind(h, Heading) && IsKind(b, Byline) && IsGeneratedAppendix(a) && IsGeneratedAppendix(g)
    ensures !Has(Opening(placed), IsIngress)
  {
  }

  lemma PutSecond<T>(s: seq<T>, x: T)
    requires |s| == 7
    ensures var r := s[..1] + [x] + s[1..];
            |r| == 8 && r[0] == s[0] && r[1] == x && forall i :: 2 <= i < 8 ==> r[i] == s[i - 1]
  {
  }

  lemma GeneratedOfCrowd(bs: seq<Block>)
    requires |bs| == 8 && forall i :: 2 <= i < 7 ==> IsGeneratedAppendix(bs[i])
    ensures |Generated(bs)| >= 5
  {
    var middle := bs[2..7];
    assert bs == bs[..2] + middle + bs[7..];
    forall x | x in middle
      ensures IsGeneratedAppendix(x)
    {
      var i :| 0 <= i < 5 && middle[i] == x;
      assert bs[i + 2] == x;
    }
    AllGenerated(middle);
    GeneratedConcat(bs[..2], middle);
    GeneratedConcat(bs[..2] + middle, bs[7..]);
  }

  // ---------------------------------------------------------------- a folded opening --

  function H2(text: Prose): (b: Block)
    ensures b.Block?
  {
    var b := Blank(Heading);
    b.(level := IntLevel(2), text := text)
  }

  lemma NextSectionIs(bs: seq<Block>, from: nat, k: nat)
    requires from <= k <= |bs| && (forall i :: from <= i < k ==> !IsSectionHead(bs[i])) && (k < |bs| ==> IsSectionHead(bs[k]))
    ensures NextSection(bs, from) == k
  {
    var n := NextSection(bs, from);
    assert n >= k;
  }

  lemma SectionsFrom(bs: seq<Block>, i: nat, k: nat)
    requires i < k <= |bs| && IsSectionHead(bs[i])
    requires (forall j :: i < j < k ==> !IsSectionHead(bs[j])) && (k < |bs| ==> IsSectionHead(bs[k]))
    ensures Sections(bs[i..]) == [bs[i..k]] + Sections(bs[k..])
  {
    var t := bs[i..];
    assert forall j :: 0 <= j < |t| ==> t[j] == bs[i + j];
    NextSectionIs(t, 1, k - i);
    assert t[..k - i] == bs[i..k] && t[k - i..] == bs[k..];
  }

  /** Eight blocks: something, two bare headings, a section of four and a bare heading. */
  lemma SectionsOfEight(bs: seq<Block>)
    requires |bs| == 8 && forall i :: 0 <= i < 8 ==> (IsSectionHead(bs[i]) <==> i == 1 || i == 2 || i == 3 || i == 7)
    ensures NextSection(bs, 0) == 1
    ensures Sections(bs[1..]) == [bs[1..2]] + ([bs[2..3]] + ([bs[3..7]] + ([bs[7..8]] + [])))
  {
    NextSectionIs(bs, 0, 1);
    SectionsFrom(bs, 1, 2);
    SectionsFrom(bs, 2, 3);
    LastSectionsOfEight(bs);
  }

  lemma LastSectionsOfEight(bs: seq<Block>)
    requires |bs| == 8 && IsSectionHead(bs[3]) && IsSectionHead(bs[7])
    requires !IsSectionHead(bs[4]) && !IsSectionHead(bs[5]) && !IsSectionHead(bs[6])
    ensures Sections(bs[3..]) == [bs[3..7]] + ([bs[7..8]] + [])
  {
    SectionsFrom(bs, 3, 7);
    SectionsFrom(bs, 7, 8);
    assert bs[8..] == [];
  }

  lemma PlanOfEight(bs: seq<Block>)
    requires |bs| == 8 && forall i :: 0 <= i < 8 ==> (IsSectionHead(bs[i]) <==> i == 1 || i == 2 || i == 3 || i == 7)
    requires |VisibleAll(bs)| > MAX_PRIMARY_WORDS && |Visible(bs[7])| <= MAX_TAIL_WORDS
    ensures FoldPlan(bs) == Some(Plan(bs[..3], [bs[3..7]], bs[7..]))
  {
    SectionsOfEight(bs);
    LastOfEight(bs);
    VisibleOfOne(bs[7]);
    PlanOfSections(bs, bs[1..2], bs[2..3], bs[3..7], bs[7..8]);
  }

  lemma LastOfEight<T>(bs: seq<T>)
    requires |bs| == 8
    ensures bs[7..8] == [bs[7]] && bs[7..] == [bs[7]]
    ensures bs[..1] + (bs[1..2] + bs[2..3]) == bs[..3]
  {
  }

  lemma PlanOfSections(bs: seq<Block>, s: seq<Block>, t: seq<Block>, u: seq<Block>, v: seq<Block>)
    requires |bs| == 8 && NextSection(bs, 0) == 1 && |VisibleAll(bs)| > MAX_PRIMARY_WORDS
    requires Sections(bs[1..]) == [s] + ([t] + ([u] + ([v] + []))) && |VisibleAll(v)| <= MAX_TAIL_WORDS
    ensures FoldPlan(bs) == Some(Plan(bs[..1] + (s + t), [u], v))
  {
    var sections := Sections(bs[1..]);
    var hidden := sections[VISIBLE_SECTIONS..];
    FourSections(s, t, u, v);
    FlattenTwo(s, t);
    FlattenTwo(v, []);
    assert HiddenCount(hidden) == 1;
  }

  lemma FourSections<T>(s: T, t: T, u: T, v: T)
    ensures var all := [s] + ([t] + ([u] + ([v] + [])));
            && |all| == 4 && all[..2] == [s, t] && all[2..] == [u, v]
            && all[2..][..1] == [u] && all[2..][1..] == [v] && all[2..][1] == v
  {
    assert [s] + ([t] + ([u] + ([v] + []))) == [s, t, u, v];
    assert [s, t, u, v][2..] == [u, v];
  }

  lemma FlattenTwo(a: seq<Block>, b: seq<Block>)
    ensures Flatten([a, b]) == a + b && Flatten([a]) == a
  {
    assert [a, b][1..] == [b] && [b][1..] == [] && [a][1..] == [];
    assert b + [] == b && a + [] == a;
    assert Flatten([b]) == b;
  }

  lemma {:induction false} OneShown(bs: seq<Block>, i: nat)
    requires i < |bs|
    ensures |Visible(bs[i])| <= |VisibleAll(bs)|
  {
    if i > 0 {
      OneShown(bs[1..], i - 1);
    }
  }

  lemma FoldedAway(bs: seq<Block>, role: Block -> bool, unseen: bool)
    requires FoldsAway(bs, role)
    ensures IsOutOfSight(bs, role, unseen)
  {
    UnwrapPlain(bs);
    NoneInSight(FoldPlan(bs).value, role);
  }

  lemma NoneInSight(plan: Plan, role: Block -> bool)
    requires plan.hidden != [] && forall b :: b in plan.front || b in plan.back ==> !role(b)
    ensures !StaysInSight(plan, role)
  {
    var before := |Meaningful(plan.front)| + |AppendicesOf(plan)|;
    NoneEarly(plan.front, OPENING_WINDOW, role);
    NoneEarly(plan.back, if before < OPENING_WINDOW then OPENING_WINDOW - before else 0, role);
  }

  lemma H2IsBare(text: Prose)
    ensures var b := H2(text); IsBare(b) && IsSectionHead(b) && !IsH1(b) && Visible(b) == text
  {
  }

  /** Ingress and orientation line are folded away together: the ingress stands in the
      third section of a Paper of more than five thousand words. */
  lemma FoldedOpeningFails(title: Prose, description: Prose, text: Prose, ingress: Prose, words: Prose)
    requires description != [] && |words| > MAX_PRIMARY_WORDS && |text| <= MAX_TAIL_WORDS
    ensures var paper := DeepPaper(title, description, H2(text), WordedIngress(ingress), TextParagraph(words));
            && Repair(paper).Ok?
            && OpeningMissingIngress in OpeningFailures(Repair(paper).value)
            && OpeningMissingOrientation in OpeningFailures(Repair(paper).value)
  {
    H2IsBare(text);
    IngressIsBare(ingress);
    ParagraphIsBare(words);
    DeepIngressFails(title, description, H2(text), WordedIngress(ingress), TextParagraph(words));
  }

  function DeepPaper(title: Prose, description: Prose, h: Block, ingress: Block, p: Block): Paper {
    Paper(title, description, [h, h, h, ingress, p, h])
  }

  lemma DeepIngressFails(title: Prose, description: Prose, h: Block, b: Block, p: Block)
    requires description != []
    requires IsBare(h) && IsSectionHead(h) && !IsH1(h) && |Visible(h)| <= MAX_TAIL_WORDS
    requires IsBare(b) && IsIngress(b)
    requires IsBare(p) && IsKind(p, Paragraph) && |Visible(p)| > MAX_PRIMARY_WORDS
    ensures var paper := DeepPaper(title, description, h, b, p);
            && Repair(paper).Ok?
            && OpeningMissingIngress in OpeningFailures(Repair(paper).value)
            && OpeningMissingOrientation in OpeningFailures(Repair(paper).value)
  {
    DeepIngress(DeepPaper(title, description, h, b, p), h, b, p);
  }

  lemma DeepIngress(paper: Paper, h: Block, b: Block, p: Block)
    requires paper.description != [] && |paper.blocks| == 6
    requires paper.blocks[0] == paper.blocks[1] == paper.blocks[2] == paper.blocks[5] == h
    requires paper.blocks[3] == b && paper.blocks[4] == p
    requires IsBare(h) && IsSectionHead(h) && !IsH1(h) && |Visible(h)| <= MAX_TAIL_WORDS
    requires IsBare(b) && IsIngress(b)
    requires IsBare(p) && IsKind(p, Paragraph) && |Visible(p)| > MAX_PRIMARY_WORDS
    ensures Repair(paper).Ok?
    ensures OpeningMissingIngress in OpeningFailures(Repair(paper).value)
    ensures OpeningMissingOrientation in OpeningFailures(Repair(paper).value)
  {
    SixAreBare(paper.blocks, h, b, p);
    BareUnderNewH1(paper);
    DeepIngressPlaced(Placed(paper), paper.blocks, paper.description, h, b, p);
    NothingLeftEarly(paper, Placed(paper));
  }

  lemma SixAreBare(bs: seq<Block>, h: Block, b: Block, p: Block)
    requires |bs| == 6 && bs[0] == bs[1] == bs[2] == bs[5] == h && bs[3] == b && bs[4] == p
    requires IsBare(h) && !IsH1(h) && IsBare(b) && IsIngress(b) && IsBare(p) && IsKind(p, Paragraph)
    ensures forall i :: 0 <= i < 6 ==> IsBare(bs[i]) && !IsH1(bs[i])
  {
  }

  lemma DeepIngressPlaced(placed: seq<Block>, bs: seq<Block>, description: Prose, h: Block, b: Block, p: Block)
    requires |bs| == 6 && bs[0] == bs[1] == bs[2] == bs[5] == h && bs[3] == b && bs[4] == p
    requires |placed| == 7 && IsH1(placed[0]) && forall i :: 0 < i < 7 ==> placed[i] == bs[i - 1]
    requires IsSectionHead(h) && IsIngress(b) && IsKind(p, Paragraph)
    requires |Visible(h)| <= MAX_TAIL_WORDS && |Visible(p)| > MAX_PRIMARY_WORDS
    ensures Has(Opening(placed), IsIngress)
    ensures FoldsAway(CompleteOpening(placed, description), IsIngress)
    ensures FoldsAway(CompleteOpening(placed, description), Orients)
  {
    var line := NewOrientation(OrientationItems(placed));
    assert placed[1] == placed[2] == placed[3] == placed[6] == h && placed[4] == b && placed[5] == p;
    OnlyFifthIsIngress(placed, h, b, p);
    DeepIngressReady(placed, description, line);
    DeepIngressIsFolded(placed, CompleteOpening(placed, description), h, b, line, p);
  }

  lemma OnlyFifthIsIngress(placed: seq<Block>, h: Block, b: Block, p: Block)
    requires |placed| == 7 && IsH1(placed[0]) && placed[1] == placed[2] == placed[3] == placed[6] == h
    requires placed[4] == b && placed[5] == p && IsSectionHead(h) && IsIngress(b) && IsKind(p, Paragraph)
    ensures forall i :: 0 <= i < 7 ==> (IsIngress(placed[i]) <==> i == 4) && !Orients(placed[i])
  {
  }

  lemma NothingLeftEarly(paper: Paper, placed: seq<Block>)
    requires Repair(paper).Ok? && placed == Placed(paper) && placed != [] && Has(Opening(placed), IsIngress)
    requires FoldsAway(CompleteOpening(placed, paper.description), IsIngress)
    requires FoldsAway(CompleteOpening(placed, paper.description), Orients)
    ensures OpeningMissingIngress in OpeningFailures(Repair(paper).value)
    ensures OpeningMissingOrientation in OpeningFailures(Repair(paper).value)
  {
    IngressCheckFailsIff(paper);
    OrientationCheckFailsIff(paper);
    var started, at := WithIngress(placed, paper.description), OrientationIndex(placed);
    FoldedAway(CompleteOpening(placed, paper.description), IsIngress, IngressIsWordless(placed));
    FoldedAway(CompleteOpening(placed, paper.description), Orients, NothingOrients(started, at));
  }

  lemma DeepIngressIsFolded(placed: seq<Block>, ready: seq<Block>, h: Block, b: Block, line: Block, p: Block)
    requires |placed| == 7 && IsH1(placed[0]) && placed[1] == placed[2] == placed[3] == placed[6] == h
    requires placed[4] == b && placed[5] == p && ready == placed[..5] + [line] + placed[5..]
    requires IsSectionHead(h) && IsIngress(b) && IsKind(line, Byline) && IsKind(p, Paragraph)
    requires |Visible(h)| <= MAX_TAIL_WORDS && |Visible(p)| > MAX_PRIMARY_WORDS
    ensures FoldsAway(ready, IsIngress) && FoldsAway(ready, Orients)
  {
    PutSixth(placed, line);
    EightAreFolded(ready, h, b, line, p);
  }

  lemma PutSixth<T>(s: seq<T>, x: T)
    requires |s| == 7
    ensures var r := s[..5] + [x] + s[5..];
            && |r| == 8 && r[0] == s[0] && r[1] == s[1] && r[2] == s[2] && r[3] == s[3]
            && r[4] == s[4] && r[5] == x && r[6] == s[5] && r[7] == s[6]
  {
  }

  /** No block of the role is left in view when the Paper is folded. */
  ghost predicate FoldsAway(bs: seq<Block>, role: Block -> bool) {
    && NoneGenerated(bs) && FoldPlan(bs).Some?
    && forall b :: b in FoldPlan(bs).value.front || b in FoldPlan(bs).value.back ==> !role(b)
  }

  lemma EightAreFolded(bs: seq<Block>, h: Block, b: Block, line: Block, p: Block)
    requires |bs| == 8 && IsH1(bs[0]) && bs[1] == bs[2] == bs[3] == bs[7] == h
    requires bs[4] == b && bs[5] == line && bs[6] == p
    requires IsSectionHead(h) && IsIngress(b) && IsKind(line, Byline) && IsKind(p, Paragraph)
    requires |Visible(h)| <= MAX_TAIL_WORDS && |Visible(p)| > MAX_PRIMARY_WORDS
    ensures FoldsAway(bs, IsIngress) && FoldsAway(bs, Orients)
  {
    var plan := Plan(bs[..3], [bs[3..7]], bs[7..]);
    EightHavePlan(bs, h, p);
    MembersOfEight(bs, h, b, line, p);
    EndsOfEight(bs, h);
    PlanFoldsAway(bs, plan, IsIngress);
    PlanFoldsAway(bs, plan, Orients);
  }

  lemma PlanFoldsAway(bs: seq<Block>, plan: Plan, role: Block -> bool)
    requires FoldPlan(bs) == Some(plan) && NoneGenerated(bs)
    requires forall b :: b in plan.front || b in plan.back ==> !role(b)
    ensures FoldsAway(bs, role)
  {
  }

  lemma MembersOfEight(bs: seq<Block>, h: Block, b: Block, line: Block, p: Block)
    requires |bs| == 8 && IsH1(bs[0]) && bs[1] == bs[2] == bs[3] == bs[7] == h
    requires bs[4] == b && bs[5] == line && bs[6] == p
    requires IsSectionHead(h) && IsIngress(b) && IsKind(line, Byline) && IsKind(p, Paragraph)
    ensures NoneGenerated(bs)
  {
    forall x | x in bs
      ensures !IsGeneratedAppendix(x)
    {
      assert x == bs[0] || x == h || x == b || x == line || x == p;
    }
  }

  lemma EndsOfEight<T>(bs: seq<T>, h: T)
    requires |bs| == 8 && bs[1] == bs[2] == bs[7] == h
    ensures forall x :: x in bs[..3] || x in bs[7..] ==> x == bs[0] || x == h
  {
  }

  lemma EightHavePlan(bs: seq<Block>, h: Block, p: Block)
    requires |bs| == 8 && bs[1] == bs[2] == bs[3] == bs[7] == h && bs[6] == p && IsSectionHead(h)
    requires !IsSectionHead(bs[0]) && !IsSectionHead(bs[4]) && !IsSectionHead(bs[5]) && !IsSectionHead(p)
    requires |Visible(h)| <= MAX_TAIL_WORDS && |Visible(p)| > MAX_PRIMARY_WORDS
    ensures FoldPlan(bs) == Some(Plan(bs[..3], [bs[3..7]], bs[7..]))
  {
    OneShown(bs, 6);
    PlanOfEight(bs);
  }

  /** The line goes right after the ingress. */
  lemma DeepIngressReady(placed: seq<Block>, description: Prose, line: Block)
    requires |placed| == 7 && line == NewOrientation(OrientationItems(placed))
    requires forall i :: 0 <= i < 7 ==> (IsIngress(placed[i]) <==> i == 4) && !Orients(placed[i])
    ensures Has(Opening(placed), IsIngress)
    ensures CompleteOpening(placed, description) == placed[..5] + [line] + placed[5..]
  {
    InOpening(placed, 4, IsIngress);
    assert FirstIngress(placed, 0) == 4;
    assert Opening(placed) == placed;
  }
}
