/** The document cache the paper pane's resolvers read through. */
module PaperCache {
  import opened Subsequences
  import opened Whitespace
  import opened Wrappers

  /** A field beside the title, as its JSON reads; a number carries its rendering. */
  datatype Field = Text(s: string) | Number(rendering: string) | Flag(on: bool) | NotScalar

  datatype Doc = Doc(id: string, title: string, extra: map<string, Field>)

  /** One type's documents, and whether the read behind them failed. */
  datatype Page = Page(docs: seq<Doc>, failed: bool)

  /** What a query of each type answers at some moment. */
  type Remote = string -> Page

  const NOTHING: Page := Page([], false)
  const DRAFTS := "drafts."
  const TASK := "task"

  // -------------------------------------------------------------- the shared index --

  /** First taken wins, except that a title-less document gives way to a titled one. */
  function AddDoc(index: map<string, Doc>, d: Doc): map<string, Doc> {
    if d.id == "" then index
    else if d.id in index && !(index[d.id].title == "" && d.title != "") then index
    else index[d.id := d]
  }

  function IndexAll(docs: seq<Doc>): map<string, Doc> {
    if docs == [] then map[] else AddDoc(IndexAll(docs[..|docs| - 1]), docs[|docs| - 1])
  }

  /** The scan the index replaced: the first document with the id and a title. */
  function FirstTitled(docs: seq<Doc>, id: string): Option<Doc> {
    if docs == [] then None
    else if docs[0].id == id && docs[0].title != "" then Some(docs[0])
    else FirstTitled(docs[1..], id)
  }

  function FirstWith(docs: seq<Doc>, id: string): Option<Doc> {
    if docs == [] then None else if docs[0].id == id then Some(docs[0]) else FirstWith(docs[1..], id)
  }

  /** The first titled document with the id, else the first with the id. */
  function Best(docs: seq<Doc>, id: string): Option<Doc> {
    if FirstTitled(docs, id).Some? then FirstTitled(docs, id) else FirstWith(docs, id)
  }

  lemma {:induction false} ScanSnoc(docs: seq<Doc>, d: Doc, id: string)
    ensures FirstTitled(docs + [d], id)
              == if FirstTitled(docs, id).Some? then FirstTitled(docs, id)
                 else if d.id == id && d.title != "" then Some(d) else None
    ensures FirstWith(docs + [d], id)
              == if FirstWith(docs, id).Some? then FirstWith(docs, id) else if d.id == id then Some(d) else None
  {
    if docs == [] {
      assert docs + [d] == [d] && [d][1..] == [];
    } else {
      ScanSnoc(docs[1..], d, id);
      assert (docs + [d])[0] == docs[0] && (docs + [d])[1..] == docs[1..] + [d];
    }
  }

  lemma {:induction false} ScanFinds(docs: seq<Doc>, id: string)
    ensures FirstTitled(docs, id).Some? ==> FirstTitled(docs, id).value.title != "" && FirstWith(docs, id).Some?
    ensures FirstTitled(docs, id).None? && FirstWith(docs, id).Some? ==> FirstWith(docs, id).value.title == ""
  {
    if docs != [] {
      ScanFinds(docs[1..], id);
    }
  }

  /** The index refines the scan: whatever the pages hold, an id is in the index when
      some document has it, and stands for the document the scan would have found. */
  lemma {:induction false} IndexRefinesScan(docs: seq<Doc>, id: string)
    requires id != ""
    ensures id in IndexAll(docs) <==> FirstWith(docs, id).Some?
    ensures id in IndexAll(docs) ==> Some(IndexAll(docs)[id]) == Best(docs, id)
  {
    if docs != [] {
      var front, last := docs[..|docs| - 1], docs[|docs| - 1];
      assert docs == front + [last];
      IndexRefinesScan(front, id);
      ScanSnoc(front, last, id);
      ScanFinds(front, id);
    }
  }

  // -------------------------------------------------------------------- the chips --

  function Published(id: string): string {
    if DRAFTS <= id then id[|DRAFTS|..] else id
  }

  /** The two keys a task document is filed under. */
  predicate IsChipKey(d: Doc, key: string) {
    d.id != "" && (key == Published(d.id) || key == DRAFTS + Published(d.id))
  }

  function AddChip(chips: map<string, Doc>, d: Doc): map<string, Doc> {
    if d.id == "" then chips else chips[Published(d.id) := d][DRAFTS + Published(d.id) := d]
  }

  function ChipsOf(docs: seq<Doc>): map<string, Doc> {
    if docs == [] then map[] else AddChip(ChipsOf(docs[..|docs| - 1]), docs[|docs| - 1])
  }

  /** The last document filed under a key. */
  function LastChip(docs: seq<Doc>, key: string): Option<Doc> {
    if docs == [] then None
    else if IsChipKey(docs[|docs| - 1], key) then Some(docs[|docs| - 1])
    else LastChip(docs[..|docs| - 1], key)
  }

  /** The chip under a key is that of the last task document filed there. */
  lemma {:induction false} ChipsHoldLast(docs: seq<Doc>, key: string)
    ensures key in ChipsOf(docs) <==> LastChip(docs, key).Some?
    ensures key in ChipsOf(docs) ==> Some(ChipsOf(docs)[key]) == LastChip(docs, key)
  {
    if docs != [] {
      ChipsHoldLast(docs[..|docs| - 1], key);
    }
  }

  /** Both spellings of a task id resolve to the same chip, unless some document's id
      carries the drafts prefix twice. */
  lemma {:induction false} SpellingsAgree(docs: seq<Doc>, id: string)
    requires !(DRAFTS <= id) && forall d :: d in docs ==> d.id != DRAFTS + (DRAFTS + id)
    ensures LastChip(docs, id) == LastChip(docs, DRAFTS + id)
  {
    if docs != [] {
      var d := docs[|docs| - 1];
      assert d in docs;
      SpellingsAgree(docs[..|docs| - 1], id);
      SpellingsOfOne(d, id);
    }
  }

  lemma SpellingsOfOne(d: Doc, id: string)
    requires !(DRAFTS <= id) && d.id != DRAFTS + (DRAFTS + id)
    ensures IsChipKey(d, id) <==> IsChipKey(d, DRAFTS + id)
  {
    var p := Published(d.id);
    assert (DRAFTS + p)[|DRAFTS|..] == p && (DRAFTS + id)[|DRAFTS|..] == id;
    if DRAFTS <= d.id {
      assert d.id == DRAFTS + p;
    }
    assert DRAFTS <= DRAFTS + p;
  }

  // -------------------------------------------------------------- the cache's value --

  datatype Index = Index(docs: map<string, Doc>, failed: bool)

  datatype Chips = Chips(byId: map<string, Doc>, failed: bool)

  /** What the struct holds: memoised pages, and the two maps once built. */
  datatype Cache = Cache(pages: map<string, Page>, index: Option<Index>, chips: Option<Chips>)

  const EMPTY: Cache := Cache(map[], None, None)

  /** What a lookup of a type would see now. */
  function View(c: Cache, remote: Remote, name: string): Page {
    if name == "" then NOTHING else if name in c.pages then c.pages[name] else remote(name)
  }

  /** `page`: the cache and the query it costs, if any. */
  function Fetch(c: Cache, remote: Remote, name: string): Cache {
    if name == "" || name in c.pages then c else c.(pages := c.pages[name := remote(name)])
  }

  function FetchCost(c: Cache, name: string): seq<string> {
    if name == "" || name in c.pages then [] else [name]
  }

  function Sweep(c: Cache, remote: Remote, names: seq<string>): Cache
    decreases names
  {
    if names == [] then c else Sweep(Fetch(c, remote, names[0]), remote, names[1..])
  }

  function SweepCost(c: Cache, remote: Remote, names: seq<string>): seq<string>
    decreases names
  {
    if names == [] then []
    else FetchCost(c, names[0]) + SweepCost(Fetch(c, remote, names[0]), remote, names[1..])
  }

  /** Documents of the types, in type then page order. */
  function DocsOf(c: Cache, remote: Remote, names: seq<string>): seq<Doc> {
    if names == [] then []
    else DocsOf(c, remote, names[..|names| - 1]) + View(c, remote, names[|names| - 1]).docs
  }

  predicate AnyFailed(c: Cache, remote: Remote, names: seq<string>) {
    exists i | 0 <= i < |names| :: View(c, remote, names[i]).failed
  }

  function IndexNow(c: Cache, remote: Remote, schemas: seq<string>): Index {
    Index(IndexAll(DocsOf(c, remote, schemas)), AnyFailed(c, remote, schemas))
  }

  function ChipsNow(c: Cache, remote: Remote): Chips {
    Chips(ChipsOf(View(c, remote, TASK).docs), View(c, remote, TASK).failed)
  }

  /** `docIndex`. */
  function WithIndex(c: Cache, remote: Remote, schemas: seq<string>): (r: Cache)
    ensures r.index.Some?
  {
    if c.index.Some? then c
    else
      var swept := Sweep(c, remote, schemas);
      swept.(index := Some(IndexNow(swept, remote, schemas)))
  }

  /** `taskChips`. */
  function WithChips(c: Cache, remote: Remote): (r: Cache)
    ensures r.chips.Some?
  {
    if c.chips.Some? then c
    else
      var fetched := Fetch(c, remote, TASK);
      fetched.(chips := Some(ChipsNow(fetched, remote)))
  }

  // ------------------------------------------------------------------ the resolvers --

  /** What is shown, and whether the incomplete-render notice is raised. */
  datatype Answer<T> = Answer(shown: T, notice: bool)

  function Trim(s: string): string {
    TrimRight(TrimLeft(s))
  }

  function TrimLeft(s: string): string {
    if s != "" && IsSpace(s[0]) then TrimLeft(s[1..]) else s
  }

  function TrimRight(s: string): string {
    if s != "" && IsSpace(s[|s| - 1]) then TrimRight(s[..|s| - 1]) else s
  }

  /** `paperValueScalar`. */
  function ScalarOf(d: Doc, field: string): string {
    if field == "title" then Trim(d.title)
    else if field !in d.extra then ""
    else
      match d.extra[field]
      case Text(s) => Trim(s)
      case Number(rendering) => rendering
      case Flag(on) => if on then "true" else "false"
      case NotScalar => ""
  }

  /** `r` is `s` without the whitespace at its ends. */
  ghost predicate IsTrimOf(r: string, s: string) {
    && (r != "" ==> !IsSpace(r[0]) && !IsSpace(r[|r| - 1]))
    && exists a: nat, b: nat :: a <= b <= |s| && r == s[a..b] && IsBlank(s[..a]) && IsBlank(s[b..])
  }

  lemma {:induction false} TrimLeftDrops(s: string) returns (a: nat)
    ensures a <= |s| && TrimLeft(s) == s[a..] && IsBlank(s[..a])
    ensures a < |s| ==> !IsSpace(s[a])
  {
    a := 0;
    if s != "" && IsSpace(s[0]) {
      var k := TrimLeftDrops(s[1..]);
      a := k + 1;
      assert s[..a] == [s[0]] + s[1..][..k];
    }
  }

  lemma {:induction false} TrimRightDrops(s: string) returns (b: nat)
    ensures b <= |s| && TrimRight(s) == s[..b] && IsBlank(s[b..])
    ensures b > 0 ==> !IsSpace(s[b - 1])
  {
    b := |s|;
    if s != "" && IsSpace(s[|s| - 1]) {
      var front := s[..|s| - 1];
      b := TrimRightDrops(front);
      assert s[b..] == front[b..] + [s[|s| - 1]];
    }
  }

  lemma TrimIs(s: string)
    ensures IsTrimOf(Trim(s), s)
  {
    var a := TrimLeftDrops(s);
    var b := TrimRightDrops(s[a..]);
    assert s[a..][..b] == s[a..a + b] && s[a..][b..] == s[a + b..];
    assert Trim(s) == s[a..a + b];
  }

  /** A field shows a title or a text without its outer whitespace, a number as it is
      rendered, a truth value by name, and nothing else. */
  lemma ScalarShows(d: Doc, field: string)
    ensures var shown := ScalarOf(d, field);
            && (field == "title" ==> IsTrimOf(shown, d.title))
            && (field != "title" && field in d.extra ==>
                  && (d.extra[field].Text? ==> IsTrimOf(shown, d.extra[field].s))
                  && (d.extra[field].Number? ==> shown == d.extra[field].rendering)
                  && (d.extra[field].Flag? ==> (shown == "true" <==> d.extra[field].on) && shown in {"true", "false"}))
            && (shown != "" ==> field == "title" || (field in d.extra && !d.extra[field].NotScalar?))
  {
    TrimIs(d.title);
    if field in d.extra && d.extra[field].Text? {
      TrimIs(d.extra[field].s);
    }
  }

  /** `paperRefResolver` over an index. */
  function RefAnswer(index: Index, id: string): Answer<string> {
    if id == "" then Answer(id, false)
    else if id in index.docs && index.docs[id].title != "" then Answer(index.docs[id].title, false)
    else Answer(id, index.failed)
  }

  predicate IsMalformed(target: string, field: string) {
    Trim(target) == "" || Trim(field) == "" || '.' in Trim(field)
  }

  /** `paperValueResolver` over an index. */
  function ValueAnswer(index: Index, target: string, field: string): Answer<string> {
    if IsMalformed(target, field) then Answer("", false)
    else
      var pub := Published(Trim(target));
      if pub in index.docs then Answer(ScalarOf(index.docs[pub], Trim(field)), false)
      else if DRAFTS + pub in index.docs then Answer(ScalarOf(index.docs[DRAFTS + pub], Trim(field)), false)
      else Answer("", index.failed)
  }

  /** `taskChipResolver` over the chips. */
  function ChipAnswer(chips: Chips, id: string): Answer<Option<Doc>> {
    if id == "" then Answer(None, false)
    else if id in chips.byId then Answer(Some(chips.byId[id]), false)
    else Answer(None, chips.failed)
  }

  // ---- the same answers by scanning the pages, as before the cache -------------------

  function ScanRef(docs: seq<Doc>, failed: bool, id: string): Answer<string> {
    if id == "" then Answer(id, false)
    else
      match FirstTitled(docs, id)
      case Some(d) => Answer(d.title, false)
      case None => Answer(id, failed)
  }

  function ScanValue(docs: seq<Doc>, failed: bool, target: string, field: string): Answer<string> {
    if IsMalformed(target, field) then Answer("", false)
    else
      var pub := Published(Trim(target));
      match (if pub != "" then Best(docs, pub) else None)
      case Some(d) => Answer(ScalarOf(d, Trim(field)), false)
      case None =>
        match Best(docs, DRAFTS + pub)
        case Some(d) => Answer(ScalarOf(d, Trim(field)), false)
        case None => Answer("", failed)
  }

  function ScanChip(docs: seq<Doc>, failed: bool, id: string): Answer<Option<Doc>> {
    if id == "" then Answer(None, false)
    else
      match LastChip(docs, id)
      case Some(d) => Answer(Some(d), false)
      case None => Answer(None, failed)
  }

  lemma {:induction false} NoEmptyKey(docs: seq<Doc>)
    ensures "" !in IndexAll(docs)
  {
    if docs != [] {
      NoEmptyKey(docs[..|docs| - 1]);
    }
  }

  /** Over any pages at all the cached resolvers answer as the scans do, and the
      notice is raised only when the lookup missed and some read failed. */
  lemma ResolversRefineScans(docs: seq<Doc>, failed: bool, id: string, target: string, field: string)
    ensures RefAnswer(Index(IndexAll(docs), failed), id) == ScanRef(docs, failed, id)
    ensures ValueAnswer(Index(IndexAll(docs), failed), target, field) == ScanValue(docs, failed, target, field)
    ensures ChipAnswer(Chips(ChipsOf(docs), failed), id) == ScanChip(docs, failed, id)
  {
    if id != "" {
      IndexRefinesScan(docs, id);
      ScanFinds(docs, id);
    }
    ChipsHoldLast(docs, id);
    var pub := Published(Trim(target));
    NoEmptyKey(docs);
    if pub != "" {
      IndexRefinesScan(docs, pub);
      ScanFinds(docs, pub);
    }
    IndexRefinesScan(docs, DRAFTS + pub);
    ScanFinds(docs, DRAFTS + pub);
  }

  // ----------------------------------------------------------------- the invariant --

  predicate IsSwept(c: Cache, names: seq<string>) {
    forall i | 0 <= i < |names| :: names[i] == "" || names[i] in c.pages
  }

  /** The maps, once built, are the fold over the memoised pages. */
  ghost predicate IsFaithful(c: Cache, remote: Remote, schemas: seq<string>) {
    && "" !in c.pages
    && (c.index.Some? ==> IsSwept(c, schemas) && c.index.value == IndexNow(c, remote, schemas))
    && (c.chips.Some? ==> TASK in c.pages && c.chips.value == ChipsNow(c, remote))
  }

  /** Memoised pages are kept as they were fetched. */
  ghost predicate Remembers(before: Cache, after: Cache) {
    forall name :: name in before.pages ==> name in after.pages && after.pages[name] == before.pages[name]
  }

  lemma {:induction false} SweepFetches(c: Cache, remote: Remote, names: seq<string>)
    ensures var s := Sweep(c, remote, names);
            && Remembers(c, s) && IsSwept(s, names)
            && s.index == c.index && s.chips == c.chips
            && ("" !in c.pages ==> "" !in s.pages)
            && (forall name :: name in s.pages && name !in c.pages ==> name in names && s.pages[name] == remote(name))
    decreases names
  {
    if names != [] {
      var f := Fetch(c, remote, names[0]);
      SweepFetches(f, remote, names[1..]);
      var s := Sweep(c, remote, names);
      forall i | 0 <= i < |names|
        ensures names[i] == "" || names[i] in s.pages
      {
        if i > 0 {
          assert names[i] == names[1..][i - 1];
        }
      }
    }
  }

  /** A view does not change when pages are fetched from the same remote. */
  lemma {:induction false} SameViewSameDocs(a: Cache, ra: Remote, b: Cache, rb: Remote, names: seq<string>)
    requires forall i :: 0 <= i < |names| ==> View(a, ra, names[i]) == View(b, rb, names[i])
    ensures DocsOf(a, ra, names) == DocsOf(b, rb, names)
    ensures AnyFailed(a, ra, names) <==> AnyFailed(b, rb, names)
  {
    if names != [] {
      SameViewSameDocs(a, ra, b, rb, names[..|names| - 1]);
      if AnyFailed(a, ra, names) {
        var i :| 0 <= i < |names| && View(a, ra, names[i]).failed;
        assert View(b, rb, names[i]).failed;
      }
      if AnyFailed(b, rb, names) {
        var i :| 0 <= i < |names| && View(b, rb, names[i]).failed;
        assert View(a, ra, names[i]).failed;
      }
    }
  }

  /** A built cache does not depend on what the store answers now, and further
      fetches do not disturb it. */
  lemma FaithfulnessSurvives(c: Cache, remote: Remote, d: Cache, later: Remote, schemas: seq<string>)
    requires IsFaithful(c, remote, schemas) && Remembers(c, d) && "" !in d.pages
    requires d.index == c.index && d.chips == c.chips
    ensures IsFaithful(d, later, schemas)
  {
    if c.index.Some? {
      SameViewSameDocs(c, remote, d, later, schemas);
    }
  }

  lemma IndexIsFaithful(c: Cache, remote: Remote, schemas: seq<string>)
    requires IsFaithful(c, remote, schemas)
    ensures IsFaithful(WithIndex(c, remote, schemas), remote, schemas)
    ensures Remembers(c, WithIndex(c, remote, schemas))
    ensures WithIndex(c, remote, schemas).index.value == IndexNow(c, remote, schemas)
  {
    if c.index.None? {
      var swept := Sweep(c, remote, schemas);
      var built := WithIndex(c, remote, schemas);
      SweepFetches(c, remote, schemas);
      FaithfulnessSurvives(c, remote, swept, remote, schemas);
      SameViewSameDocs(swept, remote, built, remote, schemas);
      SameViewSameDocs(swept, remote, c, remote, schemas);
    }
  }

  lemma ChipsAreFaithful(c: Cache, remote: Remote, schemas: seq<string>)
    requires IsFaithful(c, remote, schemas)
    ensures IsFaithful(WithChips(c, remote), remote, schemas)
    ensures Remembers(c, WithChips(c, remote))
    ensures WithChips(c, remote).chips.value == ChipsNow(c, remote)
  {
    if c.chips.None? {
      var fetched := Fetch(c, remote, TASK);
      var built := WithChips(c, remote);
      FaithfulnessSurvives(c, remote, fetched, remote, schemas);
      if c.index.Some? {
        SameViewSameDocs(fetched, remote, built, remote, schemas);
      }
    }
  }

  // ------------------------------------------------------------------ whole runs --

  datatype Op =
    | Ref(id: string)
    | Value(target: string, field: string)
    | Chip(id: string)
    | StoreChanges(remote: Remote)
    | Invalidate
    | ChangeScope(schemas: seq<string>, remote: Remote)

  /** The pane: its cache, the store, the loaded types, and the queries made since
      the last invalidation. */
  datatype Pane = Pane(cache: Cache, remote: Remote, schemas: seq<string>, queries: seq<string>)

  function Start(remote: Remote, schemas: seq<string>): Pane {
    Pane(EMPTY, remote, schemas, [])
  }

  function Step(p: Pane, op: Op): Pane {
    match op
    case Ref(id) => if id == "" then p else Indexed(p)
    case Value(target, field) => if IsMalformed(target, field) then p else Indexed(p)
    case Chip(id) =>
      if id == "" then p
      else
        p.(cache := WithChips(p.cache, p.remote),
           queries := p.queries + (if p.cache.chips.Some? then [] else FetchCost(p.cache, TASK)))
    case StoreChanges(remote) => p.(remote := remote)
    case Invalidate => p.(cache := EMPTY, queries := [])
    case ChangeScope(schemas, remote) => Pane(EMPTY, remote, schemas, [])
  }

  function Indexed(p: Pane): Pane {
    p.(cache := WithIndex(p.cache, p.remote, p.schemas),
       queries := p.queries + (if p.cache.index.Some? then [] else SweepCost(p.cache, p.remote, p.schemas)))
  }

  function Run(p: Pane, ops: seq<Op>): Pane
    decreases ops
  {
    if ops == [] then p else Run(Step(p, ops[0]), ops[1..])
  }

  /** Each memoised type was queried exactly once, no other type was queried, and
      what is built is faithful. */
  ghost predicate IsSound(p: Pane) {
    && IsFaithful(p.cache, p.remote, p.schemas)
    && Distinct(p.queries)
    && (forall name :: name in p.queries <==> name in p.cache.pages)
    && (forall name :: name in p.queries ==> name in p.schemas || name == TASK)
  }

  lemma {:induction false} SweepAsksOnce(c: Cache, remote: Remote, names: seq<string>)
    ensures var asked := SweepCost(c, remote, names);
            && Distinct(asked)
            && (forall name :: name in asked ==> name in names && name !in c.pages)
            && (forall name :: name in asked <==> name in Sweep(c, remote, names).pages && name !in c.pages)
    decreases names
  {
    if names != [] {
      var f := Fetch(c, remote, names[0]);
      SweepAsksOnce(f, remote, names[1..]);
      SweepFetches(f, remote, names[1..]);
    }
  }

  lemma JoinDistinct(a: seq<string>, b: seq<string>)
    requires Distinct(a) && Distinct(b) && forall x :: x in b ==> x !in a
    ensures Distinct(a + b)
  {
    forall i, j | 0 <= i < j < |a + b|
      ensures (a + b)[i] != (a + b)[j]
    {
      if i < |a| <= j {
        assert b[j - |a|] in b && a[i] in a;
      }
    }
  }

  /** Every operation keeps the pane sound. */
  lemma StepKeepsSound(p: Pane, op: Op)
    requires IsSound(p)
    ensures IsSound(Step(p, op))
  {
    match op
    case Ref(id) => IndexedKeepsSound(p);
    case Value(_, _) => IndexedKeepsSound(p);
    case Chip(id) => ChipKeepsSound(p);
    case StoreChanges(remote) => FaithfulnessSurvives(p.cache, p.remote, p.cache, remote, p.schemas);
    case _ =>
  }

  lemma IndexedKeepsSound(p: Pane)
    requires IsSound(p)
    ensures IsSound(Indexed(p))
  {
    IndexIsFaithful(p.cache, p.remote, p.schemas);
    if p.cache.index.None? {
      var asked := SweepCost(p.cache, p.remote, p.schemas);
      SweepAsksOnce(p.cache, p.remote, p.schemas);
      SweepFetches(p.cache, p.remote, p.schemas);
      JoinDistinct(p.queries, asked);
      assert forall name :: name in p.queries + asked <==> name in p.queries || name in asked;
    }
  }

  lemma ChipKeepsSound(p: Pane)
    requires IsSound(p)
    ensures IsSound(Step(p, Chip(TASK)))
    ensures forall id: string :: id != "" ==> Step(p, Chip(id)) == Step(p, Chip(TASK))
  {
    ChipsAreFaithful(p.cache, p.remote, p.schemas);
    if p.cache.chips.None? {
      var asked := FetchCost(p.cache, TASK);
      JoinDistinct(p.queries, asked);
      assert forall name :: name in p.queries + asked <==> name in p.queries || name in asked;
    }
  }

  /** Over any run of lookups, store changes, invalidations and scope changes, each
      type is queried at most once between invalidations and the built maps are the
      fold over the memoised pages. */
  lemma {:induction false} RunIsSound(p: Pane, ops: seq<Op>)
    requires IsSound(p)
    ensures IsSound(Run(p, ops))
    decreases ops
  {
    if ops != [] {
      StepKeepsSound(p, ops[0]);
      RunIsSound(Step(p, ops[0]), ops[1..]);
    }
  }

  predicate Drops(op: Op) {
    op.Invalidate? || op.ChangeScope?
  }

  /** Between invalidations a page, once fetched, answers for the rest of the run as
      it was when it was fetched, whatever happens to the store. */
  lemma {:induction false} PagesStayAsFetched(p: Pane, ops: seq<Op>)
    requires IsSound(p) && forall op :: op in ops ==> !Drops(op)
    ensures Remembers(p.cache, Run(p, ops).cache)
    ensures Run(p, ops).schemas == p.schemas
    decreases ops
  {
    if ops != [] {
      var next := Step(p, ops[0]);
      StepKeepsSound(p, ops[0]);
      StepRemembers(p, ops[0]);
      PagesStayAsFetched(next, ops[1..]);
    }
  }

  lemma StepRemembers(p: Pane, op: Op)
    requires IsSound(p) && !Drops(op)
    ensures Remembers(p.cache, Step(p, op).cache) && Step(p, op).schemas == p.schemas
    ensures forall name :: name in Step(p, op).cache.pages && name !in p.cache.pages ==>
              Step(p, op).cache.pages[name] == p.remote(name)
  {
    SweepFetches(p.cache, p.remote, p.schemas);
    IndexIsFaithful(p.cache, p.remote, p.schemas);
    ChipsAreFaithful(p.cache, p.remote, p.schemas);
  }

  /** What each lookup answers. */
  function RefNow(p: Pane, id: string): Answer<string> {
    RefAnswer(Indexed(p).cache.index.value, id)
  }

  function ValueNow(p: Pane, target: string, field: string): Answer<string> {
    ValueAnswer(Indexed(p).cache.index.value, target, field)
  }

  function ChipNow(p: Pane, id: string): Answer<Option<Doc>> {
    ChipAnswer(WithChips(p.cache, p.remote).chips.value, id)
  }

  /** At any point of any run every lookup answers as a scan of the pages would, each
      page taken as it was first fetched, or from the store if it has not been. */
  lemma AnswersAreScans(p: Pane, ops: seq<Op>, id: string, target: string, field: string)
    requires IsSound(p)
    ensures var q := Run(p, ops);
            var docs, failed := DocsOf(q.cache, q.remote, q.schemas), AnyFailed(q.cache, q.remote, q.schemas);
            var tasks := View(q.cache, q.remote, TASK);
            && RefNow(q, id) == ScanRef(docs, failed, id)
            && ValueNow(q, target, field) == ScanValue(docs, failed, target, field)
            && ChipNow(q, id) == ScanChip(tasks.docs, tasks.failed, id)
  {
    var q := Run(p, ops);
    RunIsSound(p, ops);
    IndexIsFaithful(q.cache, q.remote, q.schemas);
    ChipsAreFaithful(q.cache, q.remote, q.schemas);
    ResolversRefineScans(DocsOf(q.cache, q.remote, q.schemas), AnyFailed(q.cache, q.remote, q.schemas),
                         id, target, field);
    var tasks := View(q.cache, q.remote, TASK);
    ResolversRefineScans(tasks.docs, tasks.failed, id, target, field);
  }

  /** Right after an invalidation or a scope change the pages are the store's. */
  lemma DroppedCacheIsCurrent(p: Pane, op: Op, name: string)
    requires Drops(op)
    ensures IsSound(Step(p, op))
    ensures name != "" ==> View(Step(p, op).cache, Step(p, op).remote, name) == Step(p, op).remote(name)
  {
  }

  // -------------------------------------------------------------------- the struct --

  /** The store: every query is a request. */
  class DataStore {
    var remote: Remote
    ghost var requests: seq<string>

    constructor (remote: Remote)
      ensures this.remote == remote && requests == []
    {
      this.remote := remote;
      requests := [];
    }

    method QueryResult(name: string) returns (page: Page)
      modifies this`requests
      ensures page == remote(name) && requests == old(requests) + [name]
    {
      requests := requests + [name];
      page := remote(name);
    }
  }

  class PaperDocCache {
    const ds: DataStore
    var pages: map<string, Page>
    var index: map<string, Doc>
    var indexFailed: bool
    var indexBuilt: bool
    var chips: map<string, Doc>
    var chipsFailed: bool
    var chipsBuilt: bool

    constructor (ds: DataStore)
      ensures this.ds == ds && State() == EMPTY
    {
      this.ds := ds;
      pages, index, chips := map[], map[], map[];
      indexFailed, indexBuilt, chipsFailed, chipsBuilt := false, false, false, false;
    }

    ghost function State(): Cache
      reads this
    {
      Cache(pages,
            if indexBuilt then Some(Index(index, indexFailed)) else None,
            if chipsBuilt then Some(Chips(chips, chipsFailed)) else None)
    }

    method InvalidateAll()
      modifies this
      ensures State() == EMPTY
    {
      pages, index, chips := map[], map[], map[];
      indexFailed, indexBuilt, chipsFailed, chipsBuilt := false, false, false, false;
    }

    method GetPage(name: string) returns (page: Page)
      modifies this`pages, ds`requests
      ensures page == View(old(State()), ds.remote, name)
      ensures State() == Fetch(old(State()), ds.remote, name)
      ensures ds.requests == old(ds.requests) + FetchCost(old(State()), name)
    {
      if name == "" {
        return NOTHING;
      }
      if name in pages {
        return pages[name];
      }
      page := ds.QueryResult(name);
      pages := pages[name := page];
    }

    /** Querying every loaded type once. */
    method SweepPages(schemas: seq<string>) returns (failed: bool)
      modifies this`pages, ds`requests
      ensures State() == Sweep(old(State()), ds.remote, schemas)
      ensures ds.requests == old(ds.requests) + SweepCost(old(State()), ds.remote, schemas)
      ensures failed <==> AnyFailed(State(), ds.remote, schemas)
    {
      failed := false;
      ghost var before, remote := State(), ds.remote;
      ghost var swept := Sweep(before, remote, schemas);
      for i := 0 to |schemas|
        invariant ds.remote == remote
        invariant Sweep(State(), remote, schemas[i..]) == swept
        invariant ds.requests + SweepCost(State(), remote, schemas[i..])
                    == old(ds.requests) + SweepCost(before, remote, schemas)
        invariant failed <==> AnyFailed(swept, remote, schemas[..i])
      {
        assert schemas[i..][0] == schemas[i] && schemas[i..][1..] == schemas[i + 1..];
        SweepFetches(Fetch(State(), remote, schemas[i]), remote, schemas[i + 1..]);
        var page := GetPage(schemas[i]);
        SweepSnoc(swept, remote, schemas, i);
        failed := failed || page.failed;
      }
      assert schemas[|schemas|..] == [] && schemas[..|schemas|] == schemas;
    }

    /** `docIndex`: one sweep over the loaded types, then the memoised map. */
    method DocIndex(schemas: seq<string>) returns (docs: map<string, Doc>, failed: bool)
      modifies this`pages, this`index, this`indexFailed, this`indexBuilt, ds`requests
      ensures State() == WithIndex(old(State()), ds.remote, schemas)
      ensures Index(docs, failed) == State().index.value
      ensures ds.requests == old(ds.requests)
                + (if old(indexBuilt) then [] else SweepCost(old(State()), ds.remote, schemas))
    {
      if indexBuilt {
        return index, indexFailed;
      }
      ghost var before := State();
      failed := SweepPages(schemas);
      SweepFetches(before, ds.remote, schemas);
      ghost var swept, remote, requests := State(), ds.remote, ds.requests;
      assert IsSwept(swept, schemas);
      docs := map[];
      for i := 0 to |schemas|
        invariant State() == swept && ds.remote == remote && ds.requests == requests && pages == swept.pages
        invariant docs == IndexAll(DocsOf(State(), ds.remote, schemas[..i]))
      {
        ghost var merged := DocsOf(State(), ds.remote, schemas[..i]);
        SweepSnoc(State(), ds.remote, schemas, i);
        assert schemas[i] == "" || schemas[i] in pages;
        var page := if schemas[i] == "" then NOTHING else pages[schemas[i]];
        docs := MergePage(docs, page.docs, merged);
      }
      assert schemas[..|schemas|] == schemas;
      index, indexFailed, indexBuilt := docs, failed, true;
      SameViewSameDocs(Sweep(before, ds.remote, schemas), ds.remote, State(), ds.remote, schemas);
    }

    /** `taskChips`: one page of tasks, filed in both spellings. */
    method TaskChips() returns (byId: map<string, Doc>, failed: bool)
      modifies this`pages, this`chips, this`chipsFailed, this`chipsBuilt, ds`requests
      ensures State() == WithChips(old(State()), ds.remote)
      ensures Chips(byId, failed) == State().chips.value
      ensures ds.requests == old(ds.requests) + (if old(chipsBuilt) then [] else FetchCost(old(State()), TASK))
    {
      if chipsBuilt {
        return chips, chipsFailed;
      }
      var page := GetPage(TASK);
      byId := map[];
      for i := 0 to |page.docs|
        invariant byId == ChipsOf(page.docs[..i])
      {
        assert page.docs[..i + 1][..i] == page.docs[..i];
        var d := page.docs[i];
        if d.id != "" {
          byId := byId[Published(d.id) := d][DRAFTS + Published(d.id) := d];
        }
      }
      assert page.docs[..|page.docs|] == page.docs;
      chips, chipsFailed, chipsBuilt := byId, page.failed, true;
      failed := page.failed;
    }
  }

  /** The inner loop of the sweep: one page's documents join the map. */
  method MergePage(index: map<string, Doc>, page: seq<Doc>, ghost before: seq<Doc>) returns (r: map<string, Doc>)
    requires index == IndexAll(before)
    ensures r == IndexAll(before + page)
  {
    r := index;
    assert before + page[..0] == before;
    for j := 0 to |page|
      invariant r == IndexAll(before + page[..j])
    {
      IndexSnoc(before, page, j);
      var d := page[j];
      if d.id != "" && (d.id !in r || (r[d.id].title == "" && d.title != "")) {
        r := r[d.id := d];
      }
    }
    assert page[..|page|] == page;
  }

  lemma IndexSnoc(docs: seq<Doc>, more: seq<Doc>, j: nat)
    requires j < |more|
    ensures IndexAll(docs + more[..j + 1]) == AddDoc(IndexAll(docs + more[..j]), more[j])
  {
    var all := docs + more[..j + 1];
    assert all[..|all| - 1] == docs + more[..j] && all[|all| - 1] == more[j];
  }

  lemma SweepSnoc(c: Cache, remote: Remote, names: seq<string>, i: nat)
    requires i < |names|
    ensures DocsOf(c, remote, names[..i + 1]) == DocsOf(c, remote, names[..i]) + View(c, remote, names[i]).docs
    ensures AnyFailed(c, remote, names[..i + 1]) <==> AnyFailed(c, remote, names[..i]) || View(c, remote, names[i]).failed
  {
    assert names[..i + 1][..i] == names[..i] && names[..i + 1][i] == names[i];
    if k :| 0 <= k < |names[..i]| && View(c, remote, names[..i][k]).failed {
      assert names[..i + 1][k] == names[..i][k];
    }
    if View(c, remote, names[i]).failed {
      assert View(c, remote, names[..i + 1][i]).failed;
    }
    if AnyFailed(c, remote, names[..i + 1]) {
      var k :| 0 <= k < |names[..i + 1]| && View(c, remote, names[..i + 1][k]).failed;
      if k < i {
        assert names[..i][k] == names[..i + 1][k];
      }
    }
  }
}
