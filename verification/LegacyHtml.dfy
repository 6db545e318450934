/** `_LegacyHtmlBlockParser`: semantic blocks out of a legacy HTML token stream. */
module LegacyHtml {
  import opened Subsequences
  import opened Whitespace
  import opened Wrappers
  import Numerals

  datatype Tag = H(level: nat) | P | Blockquote | Pre | Hr | Br | Ul | Ol | Li | Other(name: string)

  datatype Token = StartTag(tag: Tag) | EndTag(tag: Tag) | Data(text: string)

  datatype Block =
    | HeadingBlock(id: string, level: nat, text: string)
    | ParagraphBlock(id: string, text: string)
    | QuoteBlock(id: string, text: string)
    | CodeBlock(id: string, text: string)
    | Divider(id: string)
    | ListOf(id: string, ordered: bool, items: seq<string>)

  // ------------------------------------------------------------------ whitespace --

  /** The words of a text whose last word so far is `word`. */
  function WordsFrom(word: string, s: string): seq<string>
    decreases s
  {
    if s == "" then (if word == "" then [] else [word])
    else if IsSpace(s[0]) then (if word == "" then [] else [word]) + WordsFrom("", s[1..])
    else WordsFrom(word + [s[0]], s[1..])
  }

  function Words(s: string): seq<string> {
    WordsFrom("", s)
  }

  function Spaced(words: seq<string>): string {
    if words == [] then "" else if |words| == 1 then words[0] else words[0] + " " + Spaced(words[1..])
  }

  /** `_normalize`: runs of whitespace become one space, none at the ends. */
  function Normalize(s: string): string {
    Spaced(Words(s))
  }

  ghost predicate AreWords(words: seq<string>) {
    forall w :: w in words ==> w != "" && forall i :: 0 <= i < |w| ==> !IsSpace(w[i])
  }

  lemma {:induction false} WordsAreWords(word: string, s: string)
    requires forall i :: 0 <= i < |word| ==> !IsSpace(word[i])
    ensures AreWords(WordsFrom(word, s))
    decreases s
  {
    if s != "" {
      if IsSpace(s[0]) {
        WordsAreWords("", s[1..]);
      } else {
        WordsAreWords(word + [s[0]], s[1..]);
      }
    }
  }

  lemma {:induction false} WordThenRest(word: string, w: string, s: string)
    requires forall i :: 0 <= i < |w| ==> !IsSpace(w[i])
    ensures WordsFrom(word, w + s) == WordsFrom(word + w, s)
    decreases |w|
  {
    if w == "" {
      assert w + s == s && word + w == word;
    } else {
      assert (w + s)[1..] == w[1..] + s;
      WordThenRest(word + [w[0]], w[1..], s);
      assert word + [w[0]] + w[1..] == word + w;
    }
  }

  lemma {:induction false} SpacedReadsBack(words: seq<string>)
    requires AreWords(words)
    ensures Words(Spaced(words)) == words
    ensures Spaced(words) == "" <==> words == []
  {
    if words != [] {
      assert words[0] in words;
      if |words| == 1 {
        WordThenRest("", words[0], "");
        assert words[0] + "" == words[0] && "" + words[0] == words[0];
      } else {
        SpacedReadsBack(words[1..]);
        var rest := Spaced(words[1..]);
        assert words[0] + " " + rest == words[0] + (" " + rest);
        WordThenRest("", words[0], " " + rest);
        assert "" + words[0] == words[0];
        assert (" " + rest)[1..] == rest;
        assert Words(Spaced(words)) == [words[0]] + words[1..];
      }
    }
  }

  /** Normalising keeps the words, and leaves nothing only of a blank text. */
  lemma NormalizeKeepsWords(s: string)
    ensures Words(Normalize(s)) == Words(s)
    ensures Normalize(s) == "" <==> Words(s) == []
  {
    WordsAreWords("", s);
    SpacedReadsBack(Words(s));
  }

  // ------------------------------------------------------------------- the parser --

  /** The parser's fields. */
  datatype State = State(
    blocks: seq<Block>,
    buffer: string,
    active: Option<Tag>,
    listDepth: nat,
    ordered: bool,
    listItems: seq<string>,
    inListItem: bool)

  const FRESH: State := State([], "", None, 0, false, [], false)

  const ID_PREFIX := "legacy-html-"

  function IdAt(n: nat): string {
    ID_PREFIX + Numerals.Pad3(n)
  }

  function NextId(blocks: seq<Block>): string {
    IdAt(|blocks| + 1)
  }

  predicate IsTextTag(tag: Tag) {
    (tag.H? && 1 <= tag.level <= 6) || tag == P || tag == Blockquote || tag == Pre
  }

  predicate IsListTag(tag: Tag) {
    tag == Ul || tag == Ol
  }

  /** The block a text element becomes. */
  function TextBlock(id: string, tag: Tag, text: string): Block
    requires IsTextTag(tag)
  {
    match tag
    case H(level) => HeadingBlock(id, level, text)
    case Blockquote => QuoteBlock(id, text)
    case Pre => CodeBlock(id, text)
    case _ => ParagraphBlock(id, text)
  }

  /** `_finish_text_block`. */
  function Finish(st: State, tag: Tag): State {
    if st.active != Some(tag) then st
    else
      var text := Normalize(st.buffer);
      var closed := st.(active := None, buffer := "");
      if text != "" && IsTextTag(tag)
      then closed.(blocks := st.blocks + [TextBlock(NextId(st.blocks), tag, text)]) else closed
  }

  /** `handle_starttag`. */
  function Start(st: State, tag: Tag): State {
    if IsListTag(tag) then
      var begun := if st.listDepth == 0 then st.(ordered := tag == Ol, listItems := []) else st;
      begun.(listDepth := st.listDepth + 1)
    else if tag == Li && st.listDepth > 0 then st.(inListItem := true, buffer := "")
    else if st.inListItem then (if tag == Br then st.(buffer := st.buffer + " ") else st)
    else if IsTextTag(tag) then (if st.active.Some? then st else st.(active := Some(tag), buffer := ""))
    else if tag == Hr then st.(blocks := st.blocks + [Divider(NextId(st.blocks))])
    else if tag == Br && st.active.Some? then st.(buffer := st.buffer + " ")
    else st
  }

  /** `handle_endtag`. */
  function End(st: State, tag: Tag): State {
    if tag == Li && st.listDepth > 0 && st.inListItem then
      var text := Normalize(st.buffer);
      st.(listItems := if text != "" then st.listItems + [text] else st.listItems, buffer := "", inListItem := false)
    else if IsListTag(tag) && st.listDepth > 0 then
      var closed := st.(listDepth := st.listDepth - 1);
      if closed.listDepth == 0 && st.listItems != [] then
        closed.(blocks := st.blocks + [ListOf(NextId(st.blocks), st.ordered, st.listItems)], listItems := [])
      else closed
    else Finish(st, tag)
  }

  function Feed(st: State, token: Token): State {
    match token
    case StartTag(tag) => Start(st, tag)
    case EndTag(tag) => End(st, tag)
    case Data(text) => if st.inListItem || st.active.Some? then st.(buffer := st.buffer + text) else st
  }

  function Run(st: State, tokens: seq<Token>): State
    decreases tokens
  {
    if tokens == [] then st else Run(Feed(st, tokens[0]), tokens[1..])
  }

  lemma {:induction false} RunConcat(st: State, a: seq<Token>, b: seq<Token>)
    ensures Run(st, a + b) == Run(Run(st, a), b)
    decreases a
  {
    if a == [] {
      assert a + b == b;
    } else {
      Peel(a, b);
      RunConcat(Feed(st, a[0]), a[1..], b);
    }
  }

  // ----------------------------------------------------- invariants of any stream --

  predicate HasContent(b: Block) {
    match b
    case HeadingBlock(_, level, text) => 1 <= level <= 6 && text != ""
    case ParagraphBlock(_, text) => text != ""
    case QuoteBlock(_, text) => text != ""
    case CodeBlock(_, text) => text != ""
    case Divider(_) => true
    case ListOf(_, _, items) => items != [] && forall item | item in items :: item != ""
  }

  ghost predicate Indexed<T>(s: seq<T>, p: (nat, T) -> bool) {
    forall i: nat :: i < |s| ==> p(i, s[i])
  }

  lemma IndexedSnoc<T>(s: seq<T>, x: T, p: (nat, T) -> bool)
    requires Indexed(s, p) && p(|s|, x)
    ensures Indexed(s + [x], p)
  {
  }

  predicate IsNth(i: nat, b: Block) {
    b.id == IdAt(i + 1) && HasContent(b)
  }

  /** Every block has the id for its place and something in it. */
  ghost predicate IsWellNumbered(blocks: seq<Block>) {
    Indexed(blocks, IsNth)
  }

  ghost predicate IsSound(st: State) {
    IsWellNumbered(st.blocks) && forall item :: item in st.listItems ==> item != ""
  }

  /** Whatever the stream, well nested or not: ids are numbered consecutively and no
      empty block or item is emitted. */
  lemma {:induction false} AnyStreamIsSound(st: State, tokens: seq<Token>)
    requires IsSound(st)
    ensures IsSound(Run(st, tokens))
    decreases tokens
  {
    if tokens != [] {
      FeedIsSound(st, tokens[0]);
      AnyStreamIsSound(Feed(st, tokens[0]), tokens[1..]);
    }
  }

  lemma IdsTellNumbers(m: nat, n: nat)
    requires IdAt(m) == IdAt(n)
    ensures m == n
  {
    EqualHalves(ID_PREFIX, ID_PREFIX, Numerals.Pad3(m), Numerals.Pad3(n));
    Numerals.Pad3Facts(m);
    Numerals.Pad3Facts(n);
  }

  /** Consecutive numbering makes the ids distinct. */
  lemma NumberedIdsDiffer(blocks: seq<Block>, i: nat, j: nat)
    requires IsWellNumbered(blocks) && i < |blocks| && j < |blocks| && blocks[i].id == blocks[j].id
    ensures i == j
  {
    assert IsNth(i, blocks[i]) && IsNth(j, blocks[j]);
    IdsTellNumbers(i + 1, j + 1);
  }

  lemma AppendIsWellNumbered(blocks: seq<Block>, b: Block)
    requires IsWellNumbered(blocks) && b.id == NextId(blocks) && HasContent(b)
    ensures IsWellNumbered(blocks + [b])
  {
    assert IsNth(|blocks|, b);
    IndexedSnoc(blocks, b, IsNth);
  }

  lemma FeedIsSound(st: State, token: Token)
    requires IsSound(st)
    ensures IsSound(Feed(st, token))
  {
    match token
    case StartTag(tag) =>
      if tag == Hr {
        AppendIsWellNumbered(st.blocks, Divider(NextId(st.blocks)));
      }
    case EndTag(tag) => EndIsSound(st, tag);
    case Data(_) =>
  }

  lemma FinishIsSound(st: State, tag: Tag)
    requires IsSound(st)
    ensures IsSound(Finish(st, tag))
  {
    var text := Normalize(st.buffer);
    if text != "" && IsTextTag(tag) {
      AppendIsWellNumbered(st.blocks, TextBlock(NextId(st.blocks), tag, text));
    }
  }

  lemma EndIsSound(st: State, tag: Tag)
    requires IsSound(st)
    ensures IsSound(End(st, tag))
  {
    FinishIsSound(st, tag);
    if st.listItems != [] {
      AppendIsWellNumbered(st.blocks, ListOf(NextId(st.blocks), st.ordered, st.listItems));
    }
  }

  // ------------------------------------------------------------ well-formed streams --

  /** Content of a text element or list item: text, line breaks, and the tags of
      elements the importer looks through. */
  datatype Inline = Text(s: string) | Break | Mark(tag: Tag, opening: bool)

  /** An item holds inline content and lists of its own. */
  datatype Piece = Flat(inline: Inline) | Nested(ordered: bool, parts: seq<ListPart>)

  datatype ListPart = Item(body: seq<Piece>) | Gap(token: Token)

  /** The recognised elements, and what lies between them. */
  datatype Element =
    | TextElement(tag: Tag, body: seq<Inline>)
    | Rule
    | ListElement(ordered: bool, parts: seq<ListPart>)
    | Between(token: Token)

  function InlineToken(i: Inline): Token {
    match i
    case Text(s) => Data(s)
    case Break => StartTag(Br)
    case Mark(tag, opening) => if opening then StartTag(tag) else EndTag(tag)
  }

  function InlineTokens(body: seq<Inline>): seq<Token> {
    if body == [] then [] else [InlineToken(body[0])] + InlineTokens(body[1..])
  }

  /** The text inside: a break separates words. */
  function InnerText(body: seq<Inline>): string {
    if body == [] then "" else InlineText(body[0]) + InnerText(body[1..])
  }

  function InlineText(i: Inline): string {
    match i case Text(s) => s case Break => " " case Mark(_, _) => ""
  }

  /** No list opens or closes inside, no rule, and the element itself is not closed early. */
  predicate IsTextBody(body: seq<Inline>, tag: Tag) {
    forall i | 0 <= i < |body| :: body[i].Mark? ==>
      !IsListTag(body[i].tag)
      && (if body[i].opening then body[i].tag != Hr && body[i].tag != Br else body[i].tag != tag)
  }

  predicate HasItem(parts: seq<ListPart>) {
    exists part | part in parts :: part.Item?
  }

  /** No item closes early.  Once a nested list has closed an item of its own the
      parser no longer reads the outer one, so no text element may open there. */
  predicate IsItemInline(i: Inline, reading: bool) {
    i.Mark? ==>
      !IsListTag(i.tag) && i.tag != Li
      && (i.opening ==> if reading then i.tag != Br else i.tag.Other?)
  }

  predicate IsItemBody(body: seq<Piece>, reading: bool) {
    body == []
    || match body[0]
       case Flat(i) => IsItemInline(i, reading) && IsItemBody(body[1..], reading)
       case Nested(_, parts) => AreParts(parts, true) && IsItemBody(body[1..], reading && !HasItem(parts))
  }

  /** Between items: anything that opens no element and closes no list. */
  predicate IsGap(token: Token) {
    match token
    case Data(_) => true
    case StartTag(tag) => tag.Other? || tag == Br
    case EndTag(tag) => !IsListTag(tag)
  }

  /** Between elements: anything that opens none. */
  predicate IsBetween(token: Token) {
    match token
    case Data(_) => true
    case StartTag(tag) => tag.Other? || tag == Br || tag == Li
    case EndTag(_) => true
  }

  predicate IsPart(part: ListPart, nested: bool) {
    match part
    case Item(body) => IsItemBody(body, true)
    case Gap(token) => IsGap(token) && (nested ==> token != EndTag(Li))
  }

  predicate AreParts(parts: seq<ListPart>, nested: bool) {
    parts == [] || (IsPart(parts[0], nested) && AreParts(parts[1..], nested))
  }

  predicate IsElement(e: Element) {
    match e
    case TextElement(tag, body) => IsTextTag(tag) && IsTextBody(body, tag)
    case Rule => true
    case ListElement(_, parts) => AreParts(parts, false)
    case Between(token) => IsBetween(token)
  }

  function ListTag(ordered: bool): Tag {
    if ordered then Ol else Ul
  }

  function PartTokens(part: ListPart): seq<Token> {
    match part
    case Item(body) => [StartTag(Li)] + PiecesTokens(body) + [EndTag(Li)]
    case Gap(token) => [token]
  }

  function PiecesTokens(body: seq<Piece>): seq<Token> {
    if body == [] then [] else PieceTokens(body[0]) + PiecesTokens(body[1..])
  }

  function PieceTokens(piece: Piece): seq<Token> {
    match piece
    case Flat(i) => [InlineToken(i)]
    case Nested(ordered, parts) => [StartTag(ListTag(ordered))] + PartsTokens(parts) + [EndTag(ListTag(ordered))]
  }

  function PartsTokens(parts: seq<ListPart>): seq<Token> {
    if parts == [] then [] else PartTokens(parts[0]) + PartsTokens(parts[1..])
  }

  function Tokens(e: Element): seq<Token> {
    match e
    case TextElement(tag, body) => [StartTag(tag)] + InlineTokens(body) + [EndTag(tag)]
    case Rule => [StartTag(Hr)]
    case ListElement(ordered, parts) => [StartTag(ListTag(ordered))] + PartsTokens(parts) + [EndTag(ListTag(ordered))]
    case Between(token) => [token]
  }

  function AllTokens(doc: seq<Element>): seq<Token> {
    if doc == [] then [] else Tokens(doc[0]) + AllTokens(doc[1..])
  }

  // ---------------------------------------------------------------------- meaning --

  /** The items a list yields, in order: those of nested lists stand beside their own. */
  function ItemTexts(parts: seq<ListPart>): seq<string> {
    if parts == [] then [] else PartTexts(parts[0]) + ItemTexts(parts[1..])
  }

  function PartTexts(part: ListPart): seq<string> {
    match part
    case Item(body) => if IsPlain(body) then Normalized(BodyText(body)) else NestedTexts(body)
    case Gap(_) => []
  }

  function Normalized(text: string): seq<string> {
    if Normalize(text) != "" then [Normalize(text)] else []
  }

  function NestedTexts(body: seq<Piece>): seq<string> {
    if body == [] then []
    else (match body[0] case Flat(_) => [] case Nested(_, parts) => ItemTexts(parts)) + NestedTexts(body[1..])
  }

  /** Nothing in the item ends the reading of it. */
  predicate IsPlain(body: seq<Piece>) {
    forall piece | piece in body :: piece.Nested? ==> !HasItem(piece.parts)
  }

  /** What an item without items of its own says. */
  function BodyText(body: seq<Piece>): string {
    if body == [] then "" else PieceText(body[0]) + BodyText(body[1..])
  }

  function PieceText(piece: Piece): string {
    match piece case Flat(i) => InlineText(i) case Nested(_, parts) => GapsText(parts)
  }

  function GapsText(parts: seq<ListPart>): string {
    if parts == [] then "" else (if parts[0].Gap? then GapText(parts[0].token) else "") + GapsText(parts[1..])
  }

  function GapText(token: Token): string {
    match token case Data(s) => s case StartTag(tag) => if tag == Br then " " else "" case EndTag(_) => ""
  }

  /** The block an element stands for, if it has any content. */
  function Meaning(e: Element, id: string): seq<Block> {
    match e
    case TextElement(tag, body) =>
      var text := Normalize(InnerText(body));
      if text == "" then []
      else if tag == P then [ParagraphBlock(id, text)]
      else if tag == Blockquote then [QuoteBlock(id, text)]
      else if tag == Pre then [CodeBlock(id, text)]
      else if tag.H? && 1 <= tag.level <= 6 then [HeadingBlock(id, tag.level, text)]
      else []
    case Rule => [Divider(id)]
    case ListElement(ordered, parts) => if ItemTexts(parts) != [] then [ListOf(id, ordered, ItemTexts(parts))] else []
    case Between(_) => []
  }

  function AllMeanings(doc: seq<Element>, before: seq<Block>): seq<Block> {
    if doc == [] then before else AllMeanings(doc[1..], before + Meaning(doc[0], NextId(before)))
  }

  predicate IsIdle(st: State) {
    st.active.None? && st.listDepth == 0 && !st.inListItem
  }

  /** Inside a text element every inline piece only lengthens the buffer. */
  lemma InlineIsBuffered(st: State, i: Inline, tag: Tag)
    requires !st.inListItem && st.active == Some(tag) && st.listDepth == 0 && IsTextTag(tag) && IsTextBody([i], tag)
    ensures Feed(st, InlineToken(i)) == st.(buffer := st.buffer + InlineText(i))
  {
    assert [i][0] == i;
    assert st.buffer + "" == st.buffer;
  }

  lemma {:induction false} BodyIsBuffered(st: State, body: seq<Inline>, tag: Tag)
    requires !st.inListItem && st.active == Some(tag) && st.listDepth == 0 && IsTextTag(tag) && IsTextBody(body, tag)
    ensures Run(st, InlineTokens(body)) == st.(buffer := st.buffer + InnerText(body))
    decreases body
  {
    if body == [] {
      assert st.buffer + "" == st.buffer;
    } else {
      InlineIsBuffered(st, body[0], tag);
      var next := st.(buffer := st.buffer + InlineText(body[0]));
      assert InlineTokens(body)[1..] == InlineTokens(body[1..]);
      BodyIsBuffered(next, body[1..], tag);
      Assoc(st.buffer, InlineText(body[0]), InnerText(body[1..]));
    }
  }

  lemma RunOne(st: State, token: Token)
    ensures Run(st, [token]) == Feed(st, token)
  {
    assert [token][1..] == [];
  }

  lemma RunBracketed(st: State, open: Token, inner: seq<Token>, close: Token)
    ensures Run(st, [open] + inner + [close]) == Feed(Run(Feed(st, open), inner), close)
  {
    RunConcat(st, [open] + inner, [close]);
    RunConcat(st, [open], inner);
    RunOne(st, open);
    RunOne(Run(Feed(st, open), inner), close);
  }

  /** The parser inside a list, at any depth of it. */
  predicate IsListing(st: State) {
    st.active.None? && st.listDepth > 0
  }

  /** Where a stretch of a list takes the parser: the items it adds, whether an open
      item is still read after it, and the text that gave that item. */
  ghost predicate Reads(st: State, r: State, items: seq<string>, open: bool, text: string) {
    && r == st.(buffer := r.buffer, inListItem := r.inListItem, listItems := st.listItems + items)
    && r.inListItem == (st.inListItem && open)
    && (r.inListItem ==> r.buffer == st.buffer + text)
  }

  lemma ReadsOn(st: State, mid: State, r: State, a: seq<string>, b: seq<string>, open: bool, still: bool, s: string, t: string)
    requires Reads(st, mid, a, open, s) && Reads(mid, r, b, still, t)
    ensures Reads(st, r, a + b, open && still, s + t)
  {
    Assoc(st.listItems, a, b);
    Assoc(st.buffer, s, t);
  }

  lemma ReadsNothing(st: State)
    ensures Reads(st, st, [], true, "")
  {
    assert st.listItems + [] == st.listItems && st.buffer + "" == st.buffer;
  }

  lemma FlatIsRead(st: State, i: Inline)
    requires IsListing(st) && IsItemInline(i, st.inListItem)
    ensures Reads(st, Run(st, [InlineToken(i)]), [], true, InlineText(i))
  {
    RunOne(st, InlineToken(i));
    assert st.listItems + [] == st.listItems && st.buffer + "" == st.buffer;
  }

  lemma GapIsRead(st: State, token: Token)
    requires IsListing(st) && IsGap(token) && (st.inListItem ==> token != EndTag(Li))
    ensures Reads(st, Run(st, [token]), [], true, GapText(token))
  {
    RunOne(st, token);
    assert st.listItems + [] == st.listItems && st.buffer + "" == st.buffer;
  }

  lemma {:induction false} BodyIsRead(st: State, body: seq<Piece>)
    requires IsListing(st) && IsItemBody(body, st.inListItem)
    ensures Reads(st, Run(st, PiecesTokens(body)), NestedTexts(body), IsPlain(body), BodyText(body))
    decreases body, 0
  {
    if body == [] {
      ReadsNothing(st);
    } else {
      var mid := Run(st, PieceTokens(body[0]));
      RunConcat(st, PieceTokens(body[0]), PiecesTokens(body[1..]));
      match body[0]
      case Flat(i) =>
        FlatIsRead(st, i);
        BodyIsRead(mid, body[1..]);
        ReadsOn(st, mid, Run(st, PiecesTokens(body)), [], NestedTexts(body[1..]), true, IsPlain(body[1..]),
                InlineText(i), BodyText(body[1..]));
      case Nested(ordered, parts) =>
        NestedIsRead(st, ordered, parts);
        BodyIsRead(mid, body[1..]);
        ReadsOn(st, mid, Run(st, PiecesTokens(body)), ItemTexts(parts), NestedTexts(body[1..]), !HasItem(parts),
                IsPlain(body[1..]), GapsText(parts), BodyText(body[1..]));
    }
  }

  lemma {:induction false} NestedIsRead(st: State, ordered: bool, parts: seq<ListPart>)
    requires IsListing(st) && AreParts(parts, true)
    ensures Reads(st, Run(st, PieceTokens(Nested(ordered, parts))), ItemTexts(parts), !HasItem(parts), GapsText(parts))
    decreases parts, 1
  {
    var begun := Feed(st, StartTag(ListTag(ordered)));
    PartsAreRead(begun, parts, true);
    RunBracketed(st, StartTag(ListTag(ordered)), PartsTokens(parts), EndTag(ListTag(ordered)));
  }

  lemma {:induction false} ItemIsRead(st: State, body: seq<Piece>)
    requires IsListing(st) && IsItemBody(body, true)
    ensures Reads(st, Run(st, PartTokens(Item(body))), PartTexts(Item(body)), false, "")
    decreases body, 1
  {
    var begun := Feed(st, StartTag(Li));
    BodyIsRead(begun, body);
    RunBracketed(st, StartTag(Li), PiecesTokens(body), EndTag(Li));
    assert "" + BodyText(body) == BodyText(body);
    if IsPlain(body) {
      PlainHasNoItems(body);
      assert st.listItems + [] == st.listItems;
    }
  }

  lemma {:induction false} PlainHasNoItems(body: seq<Piece>)
    requires IsPlain(body)
    ensures NestedTexts(body) == []
  {
    if body != [] {
      PlainHasNoItems(body[1..]);
      if body[0].Nested? {
        NoItemsNoTexts(body[0].parts);
      }
    }
  }

  lemma {:induction false} NoItemsNoTexts(parts: seq<ListPart>)
    requires !HasItem(parts)
    ensures ItemTexts(parts) == []
  {
    if parts != [] {
      NoItemsNoTexts(parts[1..]);
    }
  }

  lemma {:induction false} PartsAreRead(st: State, parts: seq<ListPart>, nested: bool)
    requires IsListing(st) && AreParts(parts, nested) && (st.inListItem ==> nested)
    ensures Reads(st, Run(st, PartsTokens(parts)), ItemTexts(parts), !HasItem(parts), GapsText(parts))
    decreases parts, 0
  {
    if parts == [] {
      ReadsNothing(st);
    } else {
      var mid := Run(st, PartTokens(parts[0]));
      RunConcat(st, PartTokens(parts[0]), PartsTokens(parts[1..]));
      match parts[0]
      case Item(body) =>
        ItemIsRead(st, body);
        PartsAreRead(mid, parts[1..], nested);
        ReadsOn(st, mid, Run(st, PartsTokens(parts)), PartTexts(parts[0]), ItemTexts(parts[1..]), false,
                !HasItem(parts[1..]), "", GapsText(parts[1..]));
      case Gap(token) =>
        GapIsRead(st, token);
        PartsAreRead(mid, parts[1..], nested);
        ReadsOn(st, mid, Run(st, PartsTokens(parts)), [], ItemTexts(parts[1..]), true, !HasItem(parts[1..]),
                GapText(token), GapsText(parts[1..]));
    }
  }

  /** One element, read from an idle state, yields its block and leaves the parser idle. */
  lemma ElementIsRead(st: State, e: Element)
    requires IsIdle(st) && IsElement(e)
    ensures IsIdle(Run(st, Tokens(e)))
    ensures Run(st, Tokens(e)).blocks == st.blocks + Meaning(e, NextId(st.blocks))
  {
    match e
    case TextElement(tag, body) =>
      var begun := Feed(st, StartTag(tag));
      BodyIsBuffered(begun, body, tag);
      RunBracketed(st, StartTag(tag), InlineTokens(body), EndTag(tag));
      assert "" + InnerText(body) == InnerText(body);
    case Rule => RunOne(st, StartTag(Hr));
    case ListElement(ordered, parts) =>
      var tag := ListTag(ordered);
      var begun := Feed(st, StartTag(tag));
      PartsAreRead(begun, parts, false);
      RunBracketed(st, StartTag(tag), PartsTokens(parts), EndTag(tag));
      assert [] + ItemTexts(parts) == ItemTexts(parts);
    case Between(token) => RunOne(st, token);
  }

  /** The importer reads back every stream of closed elements, lists nested to any
      depth included: the blocks are the meanings of the elements, in order. */
  lemma {:induction false} StreamIsRead(st: State, doc: seq<Element>)
    requires IsIdle(st) && forall i :: 0 <= i < |doc| ==> IsElement(doc[i])
    ensures IsIdle(Run(st, AllTokens(doc)))
    ensures Run(st, AllTokens(doc)).blocks == AllMeanings(doc, st.blocks)
    decreases doc
  {
    if doc != [] {
      RunConcat(st, Tokens(doc[0]), AllTokens(doc[1..]));
      ElementIsRead(st, doc[0]);
      StreamIsRead(Run(st, Tokens(doc[0])), doc[1..]);
    }
  }

  // --------------------------------------------------------------- text is conserved --

  function ItemsWords(items: seq<string>): seq<string> {
    if items == [] then [] else Words(items[0]) + ItemsWords(items[1..])
  }

  function BlockWords(b: Block): seq<string> {
    match b
    case HeadingBlock(_, _, text) => Words(text)
    case ParagraphBlock(_, text) => Words(text)
    case QuoteBlock(_, text) => Words(text)
    case CodeBlock(_, text) => Words(text)
    case Divider(_) => []
    case ListOf(_, _, items) => ItemsWords(items)
  }

  function BlocksWords(blocks: seq<Block>): seq<string> {
    if blocks == [] then [] else BlockWords(blocks[0]) + BlocksWords(blocks[1..])
  }

  /** All words inside a list: of its items, of the lists nested in them, and of
      whatever stands between. */
  function PartsWords(parts: seq<ListPart>): seq<string> {
    if parts == [] then [] else PartWords(parts[0]) + PartsWords(parts[1..])
  }

  function PartWords(part: ListPart): seq<string> {
    match part
    case Item(body) => BodyWords(body, "")
    case Gap(token) => if token.Data? then Words(token.text) else []
  }

  /** The words of an item after some text of it. */
  function BodyWords(body: seq<Piece>, text: string): seq<string> {
    if body == [] then Words(text)
    else
      match body[0]
      case Flat(i) => BodyWords(body[1..], text + InlineText(i))
      case Nested(_, parts) =>
        if HasItem(parts) then Words(text) + PartsWords(parts) + BodyWords(body[1..], "")
        else BodyWords(body[1..], text + GapsText(parts))
  }

  /** No text between items, and none of its own in an item that holds other items. */
  predicate AreClean(parts: seq<ListPart>) {
    parts == [] || (IsClean(parts[0]) && AreClean(parts[1..]))
  }

  predicate IsClean(part: ListPart) {
    match part
    case Item(body) => IsPlain(body) || IsCleanBody(body, "")
    case Gap(token) => token.Data? ==> IsBlank(token.text)
  }

  predicate IsCleanBody(body: seq<Piece>, text: string) {
    if body == [] then IsBlank(text)
    else
      match body[0]
      case Flat(i) => IsCleanBody(body[1..], text + InlineText(i))
      case Nested(_, parts) =>
        if HasItem(parts) then IsBlank(text) && AreClean(parts) && IsCleanBody(body[1..], "")
        else IsCleanBody(body[1..], text + GapsText(parts))
  }

  /** The words inside the recognised elements of a stream. */
  function WordsInside(doc: seq<Element>): seq<string> {
    if doc == [] then []
    else
      (match doc[0]
       case TextElement(_, body) => Words(InnerText(body))
       case ListElement(_, parts) => PartsWords(parts)
       case _ => [])
      + WordsInside(doc[1..])
  }

  lemma {:induction false} BlocksWordsConcat(a: seq<Block>, b: seq<Block>)
    ensures BlocksWords(a + b) == BlocksWords(a) + BlocksWords(b)
  {
    if a == [] {
      assert a + b == b;
    } else {
      Peel(a, b);
      BlocksWordsConcat(a[1..], b);
      Assoc(BlockWords(a[0]), BlocksWords(a[1..]), BlocksWords(b));
    }
  }

  /** `kept` is all of `inside` exactly when nothing was lost, and never longer. */
  ghost predicate Conserves(inside: seq<string>, kept: seq<string>, clean: bool) {
    |kept| <= |inside| && (kept == inside <==> clean) && (|kept| == |inside| ==> clean)
  }

  lemma ConservesBoth(a: seq<string>, x: seq<string>, p: bool, b: seq<string>, y: seq<string>, q: bool)
    requires Conserves(a, x, p) && Conserves(b, y, q)
    ensures Conserves(a + b, x + y, p && q)
  {
    if x + y == a + b {
      assert |x| == |a| && |y| == |b|;
    }
  }

  lemma {:induction false} BlankHasNoWords(word: string, s: string)
    ensures WordsFrom(word, s) == [] <==> word == "" && IsBlank(s)
    decreases s
  {
    if s != "" {
      BlankHasNoWords(if IsSpace(s[0]) then "" else word + [s[0]], s[1..]);
      assert IsBlank(s) <==> IsSpace(s[0]) && IsBlank(s[1..]) by {
        assert s == [s[0]] + s[1..];
      }
    }
  }

  lemma LostUnlessBlank(text: string)
    ensures Conserves(Words(text), [], IsBlank(text))
  {
    BlankHasNoWords("", text);
  }

  lemma {:induction false} ItemsWordsConcat(a: seq<string>, b: seq<string>)
    ensures ItemsWords(a + b) == ItemsWords(a) + ItemsWords(b)
  {
    if a == [] {
      assert a + b == b;
    } else {
      Peel(a, b);
      ItemsWordsConcat(a[1..], b);
      Assoc(Words(a[0]), ItemsWords(a[1..]), ItemsWords(b));
    }
  }

  lemma NormalizedKeepsWords(text: string)
    ensures ItemsWords(Normalized(text)) == Words(text)
  {
    NormalizeKeepsWords(text);
    if Normalize(text) != "" {
      assert [Normalize(text)][1..] == [];
      assert Words(text) + [] == Words(text);
    }
  }

  lemma {:induction false} PlainBodyWords(body: seq<Piece>, text: string)
    requires IsPlain(body)
    ensures BodyWords(body, text) == Words(text + BodyText(body))
  {
    if body == [] {
      assert text + "" == text;
    } else {
      assert body[0] in body;
      PlainBodyWords(body[1..], text + PieceText(body[0]));
      Assoc(text, PieceText(body[0]), BodyText(body[1..]));
    }
  }

  /** Of an item that holds other items only these are kept. */
  lemma {:induction false} BodyConserves(body: seq<Piece>, text: string)
    ensures Conserves(BodyWords(body, text), ItemsWords(NestedTexts(body)), IsCleanBody(body, text))
    decreases body, text
  {
    if body == [] {
      LostUnlessBlank(text);
    } else {
      match body[0]
      case Flat(i) =>
        BodyConserves(body[1..], text + InlineText(i));
        assert NestedTexts(body) == NestedTexts(body[1..]);
      case Nested(_, parts) =>
        if HasItem(parts) {
          LostUnlessBlank(text);
          PartsConserve(parts);
          BodyConserves(body[1..], "");
          ItemsWordsConcat(ItemTexts(parts), NestedTexts(body[1..]));
          ConservesBoth(Words(text), [], IsBlank(text), PartsWords(parts), ItemsWords(ItemTexts(parts)), AreClean(parts));
          assert [] + ItemsWords(ItemTexts(parts)) == ItemsWords(ItemTexts(parts));
          ConservesBoth(Words(text) + PartsWords(parts), ItemsWords(ItemTexts(parts)), IsBlank(text) && AreClean(parts),
                        BodyWords(body[1..], ""), ItemsWords(NestedTexts(body[1..])), IsCleanBody(body[1..], ""));
        } else {
          NoItemsNoTexts(parts);
          BodyConserves(body[1..], text + GapsText(parts));
          assert NestedTexts(body) == NestedTexts(body[1..]);
        }
    }
  }

  lemma {:induction false} PartConserves(part: ListPart)
    ensures Conserves(PartWords(part), ItemsWords(PartTexts(part)), IsClean(part))
    decreases part, 1
  {
    match part
    case Item(body) =>
      if IsPlain(body) {
        PlainBodyWords(body, "");
        assert "" + BodyText(body) == BodyText(body);
        NormalizedKeepsWords(BodyText(body));
      } else {
        BodyConserves(body, "");
      }
    case Gap(token) =>
      if token.Data? {
        LostUnlessBlank(token.text);
      }
  }

  lemma {:induction false} PartsConserve(parts: seq<ListPart>)
    ensures Conserves(PartsWords(parts), ItemsWords(ItemTexts(parts)), AreClean(parts))
  {
    if parts != [] {
      PartConserves(parts[0]);
      PartsConserve(parts[1..]);
      ItemsWordsConcat(PartTexts(parts[0]), ItemTexts(parts[1..]));
      ConservesBoth(PartWords(parts[0]), ItemsWords(PartTexts(parts[0])), IsClean(parts[0]),
                    PartsWords(parts[1..]), ItemsWords(ItemTexts(parts[1..])), AreClean(parts[1..]));
    }
  }

  predicate IsCleanElement(e: Element) {
    e.ListElement? ==> AreClean(e.parts)
  }

  lemma MeaningConserves(e: Element, id: string)
    requires IsElement(e)
    ensures Conserves(WordsInside([e]), BlocksWords(Meaning(e, id)), IsCleanElement(e))
  {
    assert [e][1..] == [];
    match e
    case TextElement(tag, body) =>
      NormalizeKeepsWords(InnerText(body));
      if Normalize(InnerText(body)) != "" {
        WordsOfOne(TextBlock(id, tag, Normalize(InnerText(body))));
      }
    case Rule => WordsOfOne(Divider(id));
    case ListElement(ordered, parts) =>
      PartsConserve(parts);
      assert PartsWords(parts) + [] == PartsWords(parts);
      if ItemTexts(parts) != [] {
        WordsOfOne(ListOf(id, ordered, ItemTexts(parts)));
      }
    case Between(_) =>
  }

  lemma WordsOfOne(b: Block)
    ensures BlocksWords([b]) == BlockWords(b)
  {
    assert [b][1..] == [];
    assert BlockWords(b) + [] == BlockWords(b);
  }

  lemma WordsInsideFirst(doc: seq<Element>)
    requires doc != []
    ensures WordsInside(doc) == WordsInside([doc[0]]) + WordsInside(doc[1..])
  {
    assert [doc[0]][1..] == [];
  }

  predicate IsCleanDoc(doc: seq<Element>) {
    forall i | 0 <= i < |doc| :: IsCleanElement(doc[i])
  }

  lemma {:induction false} MeaningsConserve(doc: seq<Element>, before: seq<Block>)
    requires forall i :: 0 <= i < |doc| ==> IsElement(doc[i])
    ensures exists kept :: BlocksWords(AllMeanings(doc, before)) == BlocksWords(before) + kept
                           && Conserves(WordsInside(doc), kept, IsCleanDoc(doc))
    decreases doc
  {
    if doc == [] {
      assert BlocksWords(before) + [] == BlocksWords(before);
      assert Conserves(WordsInside(doc), [], IsCleanDoc(doc));
    } else {
      var meaning := Meaning(doc[0], NextId(before));
      var rest := doc[1..];
      MeaningConserves(doc[0], NextId(before));
      BlocksWordsConcat(before, meaning);
      MeaningsConserve(rest, before + meaning);
      WordsInsideFirst(doc);
      var kept :| BlocksWords(AllMeanings(rest, before + meaning)) == BlocksWords(before + meaning) + kept
                  && Conserves(WordsInside(rest), kept, IsCleanDoc(rest));
      Assoc(BlocksWords(before), BlocksWords(meaning), kept);
      ConservesBoth(WordsInside([doc[0]]), BlocksWords(meaning), IsCleanElement(doc[0]),
                    WordsInside(rest), kept, IsCleanDoc(rest));
      assert IsCleanDoc(doc) <==> IsCleanElement(doc[0]) && IsCleanDoc(rest) by {
        assert doc == [doc[0]] + rest;
      }
      assert Conserves(WordsInside(doc), BlocksWords(meaning) + kept, IsCleanDoc(doc));
    }
  }

  /** The importer described as lossless: the words of the emitted blocks, in order,
      are the words inside the recognised elements, in order, exactly when no text
      stands between the items of a list, nor before or after a nested list in an
      item. */
  lemma TextIsConservedIff(doc: seq<Element>)
    requires forall i :: 0 <= i < |doc| ==> IsElement(doc[i])
    ensures BlocksWords(Run(FRESH, AllTokens(doc)).blocks) == WordsInside(doc) <==> IsCleanDoc(doc)
  {
    StreamIsRead(FRESH, doc);
    MeaningsConserve(doc, []);
    var kept :| BlocksWords(AllMeanings(doc, [])) == BlocksWords([]) + kept
                && Conserves(WordsInside(doc), kept, IsCleanDoc(doc));
    assert [] + kept == kept;
  }

  /** An item that says something before and after a list of its own. */
  function OuterBody(before: string, inner: string, after: string): seq<Piece> {
    [Flat(Text(before)), Nested(false, [Item([Flat(Text(inner))])]), Flat(Text(after))]
  }

  lemma OuterBodyTexts(before: string, inner: string, after: string)
    requires Normalize(inner) != ""
    ensures var body := OuterBody(before, inner, after);
            IsItemBody(body, true) && PartTexts(Item(body)) == [Normalize(inner)]
  {
    var nested := [Item([Flat(Text(inner))])];
    var body := OuterBody(before, inner, after);
    InnerItem(inner);
    assert nested[0] in nested && HasItem(nested);
    assert body[1] in body && !IsPlain(body);
    assert body[1..] == [Nested(false, nested), Flat(Text(after))] && body[1..][1..] == [Flat(Text(after))];
    FlatTail(after);
    assert NestedTexts(body[1..]) == ItemTexts(nested) + [];
    assert NestedTexts(body) == [] + NestedTexts(body[1..]);
    assert IsItemBody(body[1..], true);
  }

  lemma OneElementMeans(e: Element)
    requires IsElement(e)
    ensures Run(FRESH, AllTokens([e])).blocks == Meaning(e, NextId([]))
  {
    assert [e][1..] == [];
    StreamIsRead(FRESH, [e]);
    assert [] + Meaning(e, NextId([])) == Meaning(e, NextId([]));
    assert AllMeanings([e], []) == AllMeanings([], [] + Meaning(e, NextId([])));
  }

  /** Such an item keeps nothing of what it said outside that list. */
  lemma NestedListLosesOuterText(before: string, inner: string, after: string)
    requires Normalize(inner) != ""
    ensures Run(FRESH, AllTokens([ListElement(false, [Item(OuterBody(before, inner, after))])])).blocks
              == [ListOf(NextId([]), false, [Normalize(inner)])]
  {
    var body := OuterBody(before, inner, after);
    OuterBodyTexts(before, inner, after);
    OneItem(body, false);
    OneElementMeans(ListElement(false, [Item(body)]));
  }

  lemma FlatTail(text: string)
    ensures NestedTexts([Flat(Text(text))]) == [] && forall reading :: IsItemBody([Flat(Text(text))], reading)
  {
    assert [Flat(Text(text))][1..] == [];
  }

  lemma InnerItem(inner: string)
    requires Normalize(inner) != ""
    ensures var nested := [Item([Flat(Text(inner))])];
            ItemTexts(nested) == [Normalize(inner)] && AreParts(nested, true)
  {
    var body := [Flat(Text(inner))];
    assert body[1..] == [];
    assert inner + "" == inner && BodyText(body) == inner;
    FlatTail(inner);
    OneItem(body, true);
  }

  lemma OneItem(body: seq<Piece>, nested: bool)
    requires IsItemBody(body, true)
    ensures AreParts([Item(body)], nested) && ItemTexts([Item(body)]) == PartTexts(Item(body))
  {
    assert [Item(body)][1..] == [];
    assert IsPart(Item(body), nested) && AreParts([], nested);
    assert PartTexts(Item(body)) + [] == PartTexts(Item(body));
  }

  // -------------------------------------------------------------------- the class --

  class LegacyHtmlBlockParser {
    var blocks: seq<Block>
    var buffer: string
    var active: Option<Tag>
    var listDepth: nat
    var ordered: bool
    var listItems: seq<string>
    var inListItem: bool

    constructor ()
      ensures Value() == FRESH
    {
      blocks, buffer, active, listDepth, ordered, listItems, inListItem := [], "", None, 0, false, [], false;
    }

    ghost function Value(): State
      reads this
    {
      State(blocks, buffer, active, listDepth, ordered, listItems, inListItem)
    }

    method StartTextBlock(tag: Tag)
      requires IsTextTag(tag)
      modifies this`active, this`buffer
      ensures active == if old(active).Some? then old(active) else Some(tag)
      ensures buffer == if old(active).Some? then old(buffer) else ""
    {
      if active.Some? {
        return;
      }
      active := Some(tag);
      buffer := "";
    }

    method FinishTextBlock(tag: Tag)
      modifies this
      ensures Value() == Finish(old(Value()), tag)
    {
      if active != Some(tag) {
        return;
      }
      var text := Normalize(buffer);
      if text != "" && IsTextTag(tag) {
        blocks := blocks + [TextBlock(NextId(blocks), tag, text)];
      }
      active := None;
      buffer := "";
    }

    method HandleStartTag(tag: Tag)
      modifies this
      ensures Value() == Start(old(Value()), tag)
    {
      if IsListTag(tag) {
        if listDepth == 0 {
          ordered := tag == Ol;
          listItems := [];
        }
        listDepth := listDepth + 1;
        return;
      }
      if tag == Li && listDepth > 0 {
        inListItem := true;
        buffer := "";
        return;
      }
      if inListItem {
        if tag == Br {
          buffer := buffer + " ";
        }
        return;
      }
      if IsTextTag(tag) {
        StartTextBlock(tag);
      } else if tag == Hr {
        blocks := blocks + [Divider(NextId(blocks))];
      } else if tag == Br && active.Some? {
        buffer := buffer + " ";
      }
    }

    method HandleEndTag(tag: Tag)
      modifies this
      ensures Value() == End(old(Value()), tag)
    {
      if tag == Li && listDepth > 0 && inListItem {
        var text := Normalize(buffer);
        if text != "" {
          listItems := listItems + [text];
        }
        buffer := "";
        inListItem := false;
        return;
      }
      if IsListTag(tag) && listDepth > 0 {
        listDepth := listDepth - 1;
        if listDepth == 0 && listItems != [] {
          blocks := blocks + [ListOf(NextId(blocks), ordered, listItems)];
          listItems := [];
        }
        return;
      }
      FinishTextBlock(tag);
    }

    method HandleData(text: string)
      modifies this
      ensures Value() == Feed(old(Value()), Data(text))
    {
      if inListItem || active.Some? {
        buffer := buffer + text;
      }
    }
  }

  /** `legacy_html_to_blocks`: refused when nothing semantic was found. */
  method LegacyHtmlToBlocks(tokens: seq<Token>) returns (r: Option<seq<Block>>)
    ensures r == if Run(FRESH, tokens).blocks == [] then None else Some(Run(FRESH, tokens).blocks)
    ensures r.Some? ==> IsWellNumbered(r.value)
  {
    var parser := new LegacyHtmlBlockParser();
    for i := 0 to |tokens|
      invariant fresh(parser) && Run(parser.Value(), tokens[i..]) == Run(FRESH, tokens)
    {
      assert tokens[i..][0] == tokens[i] && tokens[i..][1..] == tokens[i + 1..];
      match tokens[i] {
        case StartTag(tag) => parser.HandleStartTag(tag);
        case EndTag(tag) => parser.HandleEndTag(tag);
        case Data(text) => parser.HandleData(text);
      }
    }
    assert tokens[|tokens|..] == [];
    AnyStreamIsSound(FRESH, tokens);
    r := if parser.blocks == [] then None else Some(parser.blocks);
  }
}
