/**
 Prose as the editorial repair sees it: the words left after whitespace is
 normalised.  Every cut the repair makes falls on whitespace, so a cut is an
 index into the word sequence and joining the two halves is concatenation.
 */
module Words {
  import opened Wrappers

  type Prose = seq<string>

  // Longest step title or note lead, and the shortest title an authored
  // boundary may leave behind.
  const LEAD_LIMIT: nat := 16
  const SHORTEST_CUT: nat := 3

  predicate EndsIn(word: string, marks: string) {
    |word| > 0 && word[|word| - 1] in marks
  }

  predicate EndsSentence(word: string) {
    EndsIn(word, ".!?")
  }

  predicate IsDash(word: string) {
    word == "\U{2014}" || word == "\U{2013}" || word == "-"
  }

  predicate IsUpper(c: char) {
    'A' <= c <= 'Z'
  }

  predicate IsLower(c: char) {
    'a' <= c <= 'z'
  }

  predicate IsDigit(c: char) {
    '0' <= c <= '9'
  }

  predicate IsWordChar(c: char) {
    IsUpper(c) || IsLower(c) || IsDigit(c) || c == '_'
  }

  function Fold(c: char): char {
    if IsUpper(c) then c - 'A' + 'a' else c
  }

  function FoldAll(s: string): string {
    seq(|s|, i requires 0 <= i < |s| => Fold(s[i]))
  }

  const SUBORDINATORS: seq<string> :=
    ["because", "so", "while", "when", "which", "where", "after", "before", "then"]

  /** The word opens with a subordinator that ends at a word boundary. */
  predicate OpensClause(word: string) {
    exists k | 0 <= k < |SUBORDINATORS| ::
      && SUBORDINATORS[k] <= FoldAll(word)
      && (|word| == |SUBORDINATORS[k]| || !IsWordChar(word[|SUBORDINATORS[k]|]))
  }

  /** The seams at which prose may be cut, in the order they are preferred. */
  datatype Seam = Clause | Parenthesis | Subordinate

  /** Whitespace `at` (between words `at - 1` and `at`) is a seam of this kind. */
  predicate IsSeam(seam: Seam, ws: Prose, at: nat)
    requires 0 < at < |ws|
  {
    match seam
    case Clause => (IsDash(ws[at]) && at + 1 < |ws|) || EndsIn(ws[at - 1], ":,;")
    case Parenthesis => |ws[at]| > 0 && ws[at][0] == '('
    case Subordinate => OpensClause(ws[at])
  }

  /** A seam that leaves a title of acceptable length. */
  predicate IsCut(seam: Seam, ws: Prose, at: nat) {
    SHORTEST_CUT <= at <= LEAD_LIMIT && at < |ws| && IsSeam(seam, ws, at)
  }

  /** The first acceptable cut at or after `from`. */
  function FirstCut(seam: Seam, ws: Prose, from: nat): (r: Option<nat>)
    ensures r.Some? ==> from <= r.value && IsCut(seam, ws, r.value)
    ensures r.Some? ==> forall j: nat :: from <= j < r.value ==> !IsCut(seam, ws, j)
    ensures r.None? ==> forall j: nat :: from <= j ==> !IsCut(seam, ws, j)
    decreases |ws| - from
  {
    if from >= |ws| then None
    else if IsCut(seam, ws, from) then Some(from)
    else FirstCut(seam, ws, from + 1)
  }

  /** End of the first sentence that is followed by another word, else the length. */
  function SentenceEnd(ws: Prose, from: nat): (k: nat)
    requires from <= |ws|
    ensures from <= k <= |ws|
    ensures k < |ws| ==> 0 < k && EndsSentence(ws[k - 1])
    ensures forall j :: from <= j < k - 1 ==> !EndsSentence(ws[j])
    ensures from < |ws| ==> from < k
    decreases |ws| - from
  {
    if from == |ws| then from
    else if EndsSentence(ws[from]) then from + 1
    else SentenceEnd(ws, from + 1)
  }

  /** `_split_lead`: the first sentence and the rest. */
  function SplitLead(ws: Prose): (r: (Prose, Prose))
    ensures r.0 + r.1 == ws
    ensures ws != [] ==> r.0 != []
    ensures r.1 != [] ==> EndsSentence(r.0[|r.0| - 1])
    ensures forall j :: 0 <= j < |r.0| - 1 ==> !EndsSentence(r.0[j])
  {
    var k := SentenceEnd(ws, 0);
    (ws[..k], ws[k..])
  }

  /** Where `_split_compact_lead` cuts. */
  function CompactCut(ws: Prose, force: bool): (k: nat)
    ensures k <= |ws| && k <= LEAD_LIMIT
  {
    var lead := |SplitLead(ws).0|;
    if !force && lead <= LEAD_LIMIT then lead
    else
      match FirstCut(Clause, ws, 0)
      case Some(k) => k
      case None =>
        match FirstCut(Parenthesis, ws, 0)
        case Some(k) => k
        case None =>
          match FirstCut(Subordinate, ws, 0)
          case Some(k) => k
          case None => if |ws| <= LEAD_LIMIT then |ws| else LEAD_LIMIT
  }

  /** `_split_compact_lead`: a short title and the rest of the same words. */
  function SplitCompactLead(ws: Prose, force: bool): (r: (Prose, Prose))
    ensures r.0 + r.1 == ws
    ensures |r.0| <= LEAD_LIMIT
  {
    var k := CompactCut(ws, force);
    (ws[..k], ws[k..])
  }

  ghost predicate HasCut(ws: Prose) {
    exists seam, j :: IsCut(seam, ws, j)
  }

  /** Once a boundary must be found, seams are tried strictly in order of
      preference, the earliest of the preferred kind wins, and the word budget is
      used only when no seam of any kind qualifies. */
  lemma CutFollowsPreference(ws: Prose, force: bool)
    requires force || |SplitLead(ws).0| > LEAD_LIMIT
    ensures
      var k := CompactCut(ws, force);
      && (forall j :: IsCut(Clause, ws, j) ==> IsCut(Clause, ws, k) && k <= j)
      && ((forall j :: !IsCut(Clause, ws, j)) ==>
            forall j :: IsCut(Parenthesis, ws, j) ==> IsCut(Parenthesis, ws, k) && k <= j)
      && ((forall j :: !IsCut(Clause, ws, j) && !IsCut(Parenthesis, ws, j)) ==>
            forall j :: IsCut(Subordinate, ws, j) ==> IsCut(Subordinate, ws, k) && k <= j)
      && (!HasCut(ws) ==> k == if |ws| <= LEAD_LIMIT then |ws| else LEAD_LIMIT)
  {
    if !HasCut(ws) {
      assert forall seam, j :: !IsCut(seam, ws, j);
    }
  }

  /** A body is left over unless the words are few and offer no seam. */
  lemma EmptyBodyIffNoCut(ws: Prose, force: bool)
    requires force || |ws| > LEAD_LIMIT
    ensures SplitCompactLead(ws, force).1 == [] <==> |ws| <= LEAD_LIMIT && !HasCut(ws)
  {
    var k := CompactCut(ws, force);
    if force || |SplitLead(ws).0| > LEAD_LIMIT {
      CutFollowsPreference(ws, force);
      if HasCut(ws) {
        var seam, j :| IsCut(seam, ws, j);
        assert k < |ws| by {
          match seam
          case Clause =>
          case Parenthesis =>
            if i :| IsCut(Clause, ws, i) {}
          case Subordinate =>
            if i :| IsCut(Clause, ws, i) {}
            else if i :| IsCut(Parenthesis, ws, i) {}
        }
      }
    }
  }
}
