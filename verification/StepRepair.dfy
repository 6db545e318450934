/** `_repair_steps`: overlong step titles are cut, and titles an older repair cut
    in the wrong place are healed first. */
module StepRepair {
  import opened Wrappers
  import opened Words
  import opened PaperBlocks

  function CountIn(word: string, c: char): nat {
    if word == [] then 0 else (if word[0] == c then 1 else 0) + CountIn(word[1..], c)
  }

  function Count(ws: Prose, c: char): nat {
    if ws == [] then 0 else CountIn(ws[0], c) + Count(ws[1..], c)
  }

  function FirstLetterIn(word: string): Option<char> {
    if word == [] then None
    else if IsUpper(word[0]) || IsLower(word[0]) then Some(word[0])
    else FirstLetterIn(word[1..])
  }

  function FirstLetter(ws: Prose): Option<char> {
    if ws == [] then None
    else match FirstLetterIn(ws[0]) case Some(c) => Some(c) case None => FirstLetter(ws[1..])
  }

  /** Words of the first child, the candidate continuation of the title. */
  function FirstBody(blocks: seq<Block>): Prose {
    if blocks == [] then [] else Visible(blocks[0])
  }

  /** The first child continues the title rather than opening a sentence. */
  predicate ContinuesTitle(title: Prose, body: Prose) {
    && body != []
    && (|| Count(title, '(') > Count(title, ')')
        || FirstLetter(body).None?
        || IsLower(FirstLetter(body).value))
  }

  function Continues(s: Step): bool
    requires s.Step?
  {
    ContinuesTitle(s.title, FirstBody(s.blocks))
  }

  /** The words from which the new title is cut. */
  function Source(s: Step): Prose
    requires s.Step?
  {
    if Continues(s) then s.title + FirstBody(s.blocks) else s.title
  }

  function Rest(s: Step): seq<Block>
    requires s.Step?
  {
    if Continues(s) then s.blocks[1..] else s.blocks
  }

  /** One step; `None` is the AssertionError "step repair changed title text". */
  function RepairStep(s: Step): Option<Step> {
    match s
    case NotStep => Some(s)
    case Step(_, _) =>
      var source := Source(s);
      if |source| > LEAD_LIMIT || Continues(s) then
        var (title, body) := SplitCompactLead(source, Continues(s));
        var blocks := if body != [] then [TextParagraph(body)] + Rest(s) else Rest(s);
        if title + FirstBody(blocks) != source then None else Some(Step(title, blocks))
      else
        Some(s)
  }

  function RepairSteps(ss: seq<Step>): (r: Option<seq<Step>>)
    ensures r.Some? ==> |r.value| == |ss|
    ensures r.Some? ==> forall i :: 0 <= i < |ss| ==> RepairStep(ss[i]) == Some(r.value[i])
    ensures r.None? ==> exists i :: 0 <= i < |ss| && RepairStep(ss[i]) == None
  {
    if ss == [] then Some([])
    else
      match RepairStep(ss[0])
      case None => None
      case Some(first) =>
        match RepairSteps(ss[1..])
        case None => assert forall i :: 0 <= i < |ss[1..]| ==> ss[1..][i] == ss[i + 1]; None
        case Some(rest) => Some([first] + rest)
  }

  /** Title and body of one step, in reading order. */
  function StepWords(s: Step): Prose {
    match s
    case Step(title, blocks) => title + VisibleAll(blocks)
    case NotStep => []
  }

  lemma VisibleOfTextParagraph(words: Prose)
    ensures Visible(TextParagraph(words)) == words
  {
    assert Join([words]) == words;
  }

  lemma PrependBody(body: Prose, rest: seq<Block>)
    ensures VisibleAll([TextParagraph(body)] + rest) == body + VisibleAll(rest)
  {
    var all := [TextParagraph(body)] + rest;
    VisibleOfTextParagraph(body);
    assert all[0] == TextParagraph(body) && all[1..] == rest;
  }

  lemma SourceThenRest(s: Step)
    requires s.Step?
    ensures Source(s) + VisibleAll(Rest(s)) == StepWords(s)
  {
    if Continues(s) {
      assert VisibleAll(s.blocks) == Visible(s.blocks[0]) + VisibleAll(s.blocks[1..]);
    }
  }

  /** A repaired step shows the same words in the same order, whichever seam was
      chosen and whether or not a cut title was healed, under a title of at most
      sixteen words. */
  lemma RepairStepKeepsWords(s: Step)
    requires RepairStep(s).Some?
    ensures StepWords(RepairStep(s).value) == StepWords(s)
    ensures s.Step? ==> RepairStep(s).value.Step? && |RepairStep(s).value.title| <= LEAD_LIMIT
  {
    if s.Step? {
      var source := Source(s);
      if |source| > LEAD_LIMIT || Continues(s) {
        var (title, body) := SplitCompactLead(source, Continues(s));
        RecutKeepsWords(s, title, body);
      }
    }
  }

  lemma RecutKeepsWords(s: Step, title: Prose, body: Prose)
    requires s.Step? && title + body == Source(s)
    ensures StepWords(Step(title, if body != [] then [TextParagraph(body)] + Rest(s) else Rest(s))) == StepWords(s)
  {
    var rest := VisibleAll(Rest(s));
    SourceThenRest(s);
    if body != [] {
      PrependBody(body, Rest(s));
      calc {
        StepWords(Step(title, [TextParagraph(body)] + Rest(s)));
        title + (body + rest);
        (title + body) + rest;
        StepWords(s);
      }
    } else {
      assert title + body == title;
    }
  }

  lemma {:induction false} RepairStepsKeepsWords(ss: seq<Step>)
    requires RepairSteps(ss).Some?
    ensures VisibleSteps(RepairSteps(ss).value) == VisibleSteps(ss)
  {
    if ss != [] {
      RepairStepKeepsWords(ss[0]);
      RepairStepsKeepsWords(ss[1..]);
    }
  }

  /** When healing makes the repair raise.  The promise that repair only moves
      words is kept by refusing: the merged title leaves no body, and the next
      child, which would then be read as the body, has words of its own. */
  lemma RepairStepRaisesIff(s: Step)
    ensures RepairStep(s).None? <==>
              && s.Step? && Continues(s)
              && |Source(s)| <= LEAD_LIMIT && !HasCut(Source(s))
              && |s.blocks| > 1 && Visible(s.blocks[1]) != []
  {
    if s.Step? {
      var source := Source(s);
      if |source| > LEAD_LIMIT || Continues(s) {
        EmptyBodyIffNoCut(source, Continues(s));
        var (title, body) := SplitCompactLead(source, Continues(s));
        if body != [] {
          VisibleOfTextParagraph(body);
        } else {
          assert title + body == title;
          assert title == source;
          if FirstBody(Rest(s)) != [] {
            assert |title + FirstBody(Rest(s))| > |source|;
          } else {
            assert title + [] == title;
          }
        }
      }
    }
  }

  // ------------------------------------------------- which steps, and how --

  /** The letters of the words, one after another. */
  function Run(ws: Prose): string {
    if ws == [] then "" else ws[0] + Run(ws[1..])
  }

  predicate IsLetter(c: char) {
    IsUpper(c) || IsLower(c)
  }

  ghost predicate IsFirstLetter(s: string, i: nat) {
    i < |s| && IsLetter(s[i]) && forall j :: 0 <= j < i ==> !IsLetter(s[j])
  }

  lemma {:induction false} CountInIs(word: string, c: char)
    ensures CountIn(word, c) == multiset(word)[c]
  {
    if word != [] {
      assert word == [word[0]] + word[1..];
      CountInIs(word[1..], c);
    }
  }

  lemma {:induction false} CountIs(ws: Prose, c: char)
    ensures Count(ws, c) == multiset(Run(ws))[c]
  {
    if ws != [] {
      CountInIs(ws[0], c);
      CountIs(ws[1..], c);
    }
  }

  lemma {:induction false} FirstLetterInIs(word: string)
    ensures FirstLetterIn(word).None? <==> forall i :: 0 <= i < |word| ==> !IsLetter(word[i])
    ensures forall i: nat :: IsFirstLetter(word, i) ==> FirstLetterIn(word) == Some(word[i])
  {
    if word != [] && !IsLetter(word[0]) {
      FirstLetterInIs(word[1..]);
      assert forall i: nat :: IsFirstLetter(word, i) ==> i > 0 && IsFirstLetter(word[1..], i - 1);
      assert forall i :: 0 < i < |word| ==> word[i] == word[1..][i - 1];
    }
  }

  lemma {:induction false} FirstLetterIs(ws: Prose)
    ensures FirstLetter(ws) == FirstLetterIn(Run(ws))
  {
    if ws != [] {
      FirstLetterIs(ws[1..]);
      FirstLetterOfBoth(ws[0], Run(ws[1..]));
    }
  }

  lemma {:induction false} FirstLetterOfBoth(a: string, b: string)
    ensures FirstLetterIn(a + b) == if FirstLetterIn(a).Some? then FirstLetterIn(a) else FirstLetterIn(b)
  {
    if a == "" {
      assert a + b == b;
    } else {
      assert (a + b)[1..] == a[1..] + b;
      FirstLetterOfBoth(a[1..], b);
    }
  }

  /** The first child continues the title exactly when it has words and the title leaves
      a parenthesis open, or the child's first letter is a small one, or it has none. */
  lemma ContinuesTitleIff(title: Prose, body: Prose)
    ensures ContinuesTitle(title, body) <==>
              && body != []
              && (|| multiset(Run(title))['('] > multiset(Run(title))[')']
                  || (forall i :: 0 <= i < |Run(body)| ==> !IsLetter(Run(body)[i]))
                  || exists i: nat :: IsFirstLetter(Run(body), i) && IsLower(Run(body)[i]))
  {
    CountIs(title, '(');
    CountIs(title, ')');
    FirstLetterIs(body);
    FirstLetterInIs(Run(body));
    if FirstLetterIn(Run(body)).Some? {
      var i := SomeLetter(Run(body));
    }
  }

  lemma {:induction false} SomeLetter(s: string) returns (i: nat)
    requires FirstLetterIn(s).Some?
    ensures IsFirstLetter(s, i)
  {
    i := 0;
    if !IsLetter(s[0]) {
      var k := SomeLetter(s[1..]);
      i := k + 1;
    }
  }

  /** What a step becomes: one that is not continued, under a title of at most sixteen
      words, is left as it is; of any other, at most one child joins the title, the words
      cut off stand in one new paragraph, and the other children follow untouched. */
  lemma StepLooks(s: Step)
    requires s.Step? && RepairStep(s).Some?
    ensures !Continues(s) && |s.title| <= LEAD_LIMIT ==> RepairStep(s).value == s
    ensures Continues(s) || |s.title| > LEAD_LIMIT ==>
              exists title, body ::
                && title + body == (if Continues(s) then s.title + Visible(s.blocks[0]) else s.title)
                && |title| <= LEAD_LIMIT
                && RepairStep(s).value == Step(title, (if body != [] then [TextParagraph(body)] else [])
                                                       + (if Continues(s) then s.blocks[1..] else s.blocks))
  {
    if Continues(s) || |s.title| > LEAD_LIMIT {
      var (title, body) := SplitCompactLead(Source(s), Continues(s));
      assert [] + Rest(s) == Rest(s);
    }
  }

  // ------------------------------------------------------------ fixpoints --

  /** The step a cut produces. */
  function Recut(s: Step): Step
    requires s.Step?
  {
    var (title, body) := SplitCompactLead(Source(s), Continues(s));
    Step(title, if body != [] then [TextParagraph(body)] + Rest(s) else Rest(s))
  }

  /** A recut step merges back to the words it was cut from, if it merges at all. */
  lemma RecutSource(s: Step)
    requires s.Step? && RepairStep(s).Some?
    requires |Source(s)| > LEAD_LIMIT || Continues(s)
    ensures RepairStep(s).value == Recut(s)
    ensures Recut(s).title + FirstBody(Recut(s).blocks) == Source(s)
    ensures Continues(Recut(s)) ==>
              && Source(Recut(s)) == Source(s)
              && SplitCompactLead(Source(s), Continues(s)).1 != []
              && Rest(Recut(s)) == Rest(s)
  {
    var (title, body) := SplitCompactLead(Source(s), Continues(s));
    if body == [] {
      assert title + body == title;
      assert |title + FirstBody(Rest(s))| == |title| + |FirstBody(Rest(s))|;
    }
  }

  /** Repairing steps a third time never changes what the second pass left, and a
      pass after a pass that returned never raises. */
  lemma TwoPassesSettle(s: Step)
    requires RepairStep(s).Some?
    ensures RepairStep(RepairStep(s).value).Some?
    ensures var twice := RepairStep(RepairStep(s).value).value;
            RepairStep(twice) == Some(twice)
  {
    if s.Step? && (|Source(s)| > LEAD_LIMIT || Continues(s)) {
      var t := Recut(s);
      RecutSource(s);
      RepairStepKeepsWords(s);
      if Continues(t) {
        EmptyBodyIffNoCut(Source(s), Continues(s));
        EmptyBodyIffNoCut(Source(s), true);
        var u := Recut(t);
        RepairStepRaisesIff(t);
        RecutSource(t);
        RepairStepKeepsWords(t);
        if Continues(u) {
          RepairStepRaisesIff(u);
          RecutSource(u);
          assert Recut(u) == u;
        }
      }
    }
  }

  const FILLER: Prose := ["x", "x", "x", "x", "x", "x", "x", "x", "x", "x", "x", "x"]
  const LATE_CLAUSE: Prose := ["A", "B", "C.", "d", "e,"] + FILLER

  lemma LateClauseCuts()
    ensures SplitCompactLead(LATE_CLAUSE, false) == (["A", "B", "C."], ["d", "e,"] + FILLER)
    ensures |SplitCompactLead(LATE_CLAUSE, true).0| > 3
    ensures ContinuesTitle(["A", "B", "C."], ["d", "e,"] + FILLER)
  {
    var ws := LATE_CLAUSE;
    assert ws[0] == "A" && ws[1] == "B" && ws[2] == "C." && ws[3] == "d" && ws[4] == "e,";
    assert SentenceEnd(ws, 2) == 3;
    assert SplitLead(ws).0 == ws[..3];
    assert ws[..3] == ["A", "B", "C."] && ws[3..] == ["d", "e,"] + FILLER;
    assert IsCut(Clause, ws, 5);
    assert !IsCut(Clause, ws, 3);
    CutFollowsPreference(ws, true);
    assert FirstLetterIn("d") == Some('d');
  }

  /** One pass is not enough: the sentence cut of the first pass leaves a lower-case
      body, which the second pass merges back and cuts at a clause instead. */
  lemma OnePassDoesNotSettle()
    ensures
      var once := RepairStep(Step(LATE_CLAUSE, []));
      once.Some? && RepairStep(once.value) != once
  {
    var s := Step(LATE_CLAUSE, []);
    var body := ["d", "e,"] + FILLER;
    LateClauseCuts();
    VisibleOfTextParagraph(body);
    assert !Continues(s);
    RepairStepRaisesIff(s);
    RecutSource(s);
    var t := Recut(s);
    assert t == Step(["A", "B", "C."], [TextParagraph(body)]);
    assert Continues(t);
    TwoPassesSettle(s);
    RecutSource(t);
  }

  const CUT_TITLE: Prose := ["Fix", "the", "(router"]
  const CUT_TAIL: Prose := ["42)"]

  lemma CutTitleHasNoSeam()
    ensures !HasCut(CUT_TITLE + CUT_TAIL)
  {
    var source := CUT_TITLE + CUT_TAIL;
    assert source[2] == "(router" && source[3] == "42)";
    assert !OpensClause("42)") by {
      assert FoldAll("42)")[0] == '4';
      assert forall k | 0 <= k < |SUBORDINATORS| :: SUBORDINATORS[k][0] != '4';
    }
    assert forall seam :: !IsSeam(seam, source, 3);
    assert forall seam, j :: IsCut(seam, source, j) ==> j == 3;
  }

  lemma CutTitleContinues()
    ensures ContinuesTitle(CUT_TITLE, CUT_TAIL)
  {
    assert FirstLetterIn("42)").None? by {
      assert FirstLetterIn("42)"[1..]) == FirstLetterIn("42)"[1..][1..]);
    }
    assert FirstLetter(CUT_TAIL[1..]).None?;
  }

  /** A step the repair raises on: the title "Fix the (router", a first child
      "42)" that heals it, and any further child with words in it. */
  lemma HealingCanRaise(next: Prose)
    requires next != []
    ensures RepairStep(Step(CUT_TITLE, [TextParagraph(CUT_TAIL), TextParagraph(next)])).None?
  {
    var s := Step(CUT_TITLE, [TextParagraph(CUT_TAIL), TextParagraph(next)]);
    VisibleOfTextParagraph(CUT_TAIL);
    VisibleOfTextParagraph(next);
    CutTitleContinues();
    CutTitleHasNoSeam();
    RepairStepRaisesIff(s);
  }
}
