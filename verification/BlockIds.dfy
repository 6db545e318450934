/** `_uniquify_block_ids`: later collisions of a block id are renamed to copies. */
module BlockIds {
  import opened Subsequences
  import opened Wrappers
  import opened PaperBlocks
  import opened QualityGates
  import Numerals

  /** The two accumulators of the walk. */
  datatype IdState = IdState(seen: set<string>, nextCopy: map<string, nat>)

  const START: IdState := IdState({}, map[])

  function CopyId(id: string, index: nat): string {
    id + "-copy-" + Numerals.Decimal(index)
  }

  lemma CopyIdInjective(id: string, j: nat, k: nat)
    requires CopyId(id, j) == CopyId(id, k)
    ensures j == k
  {
    var stem := id + "-copy-";
    assert CopyId(id, j)[|stem|..] == Numerals.Decimal(j);
    assert CopyId(id, k)[|stem|..] == Numerals.Decimal(k);
    Numerals.DecimalInjective(j, k);
  }

  /** The `while candidate in seen` search.  It ends because every miss uses up one
      of the finitely many seen ids, whatever the authored ids look like. */
  function FreshIndex(id: string, from: nat, seen: set<string>, ghost left: set<string>): (n: nat)
    requires left <= seen
    requires forall j: nat :: from <= j && CopyId(id, j) in seen ==> CopyId(id, j) in left
    ensures from <= n && CopyId(id, n) !in seen
    ensures forall j: nat :: from <= j < n ==> CopyId(id, j) in seen
    decreases |left|
  {
    if CopyId(id, from) in seen then
      assert forall j: nat :: from < j && CopyId(id, j) in seen ==> CopyId(id, j) in left - {CopyId(id, from)} by {
        forall j: nat | from < j && CopyId(id, j) in seen
          ensures CopyId(id, j) in left - {CopyId(id, from)}
        {
          if CopyId(id, j) == CopyId(id, from) {
            CopyIdInjective(id, j, from);
          }
        }
      }
      FreshIndex(id, from + 1, seen, left - {CopyId(id, from)})
    else from
  }

  function StartIndex(id: string, st: IdState): nat {
    if id in st.nextCopy then st.nextCopy[id] else 2
  }

  /** What becomes of one non-empty id. */
  function RenameId(id: string, st: IdState): (string, IdState) {
    if id in st.seen then
      var n := FreshIndex(id, StartIndex(id, st), st.seen, st.seen);
      (CopyId(id, n), IdState(st.seen + {CopyId(id, n)}, st.nextCopy[id := n + 1]))
    else
      (id, IdState(st.seen + {id}, if id in st.nextCopy then st.nextCopy else st.nextCopy[id := 2]))
  }

  // ----------------------------------------------------------- the tree walk --

  function VisitBlock(b: Block, st: IdState): (r: (Block, IdState))
    ensures r.0.Block? <==> b.Block?
    decreases b
  {
    match b
    case NotBlock(_) => (b, st)
    case Block(_, _, _, _, _, _, _, _, _, _, _, steps, blocks, children, child, _, _) =>
      var (id, s0) := if IdOf(b) == [] then (b.id, st) else var (x, s) := RenameId(b.id.value, st); (Some(x), s);
      var (cs, s1) := VisitAll(children, s0);
      var (bs, s2) := VisitAll(blocks, s1);
      var (fs, s3) := VisitAll(child, s2);
      var (ss, s4) := if b.kind == StepsBlock then VisitSteps(steps, s3) else (steps, s3);
      (b.(id := id, children := cs, blocks := bs, child := fs, steps := ss), s4)
  }

  function VisitAll(bs: seq<Block>, st: IdState): (r: (seq<Block>, IdState))
    ensures |r.0| == |bs|
  {
    if bs == [] then ([], st)
    else
      var (first, s1) := VisitBlock(bs[0], st);
      var (rest, s2) := VisitAll(bs[1..], s1);
      ([first] + rest, s2)
  }

  function VisitSteps(ss: seq<Step>, st: IdState): (r: (seq<Step>, IdState))
    ensures |r.0| == |ss|
  {
    if ss == [] then ([], st)
    else
      match ss[0]
      case NotStep =>
        var (rest, s2) := VisitSteps(ss[1..], st);
        ([NotStep] + rest, s2)
      case Step(title, blocks) =>
        var (bs, s1) := VisitAll(blocks, st);
        var (rest, s2) := VisitSteps(ss[1..], s1);
        ([Step(title, bs)] + rest, s2)
  }

  /** `_uniquify_block_ids`. */
  function UniquifyBlockIds(blocks: seq<Block>): seq<Block> {
    VisitAll(blocks, START).0
  }

  /** The non-empty ids of a block in the order the walk meets them. */
  function Ids(b: Block): seq<string> {
    match b
    case NotBlock(_) => []
    case Block(_, _, _, _, _, _, _, _, _, _, _, steps, blocks, children, child, _, _) =>
      IdOf(b) + IdsAll(children) + IdsAll(blocks) + IdsAll(child)
      + (if b.kind == StepsBlock then IdsSteps(steps) else [])
  }

  function IdsAll(bs: seq<Block>): seq<string> {
    if bs == [] then [] else Ids(bs[0]) + IdsAll(bs[1..])
  }

  function IdsSteps(ss: seq<Step>): seq<string> {
    if ss == [] then []
    else (match ss[0] case NotStep => [] case Step(_, blocks) => IdsAll(blocks)) + IdsSteps(ss[1..])
  }

  // ------------------------------------------- the walk is a pass over the ids --

  /** The same renaming on a plain list of ids. */
  function RenameAll(ids: seq<string>, st: IdState): (r: (seq<string>, IdState))
    ensures |r.0| == |ids|
  {
    if ids == [] then ([], st)
    else
      var (first, s1) := RenameId(ids[0], st);
      var (rest, s2) := RenameAll(ids[1..], s1);
      ([first] + rest, s2)
  }

  lemma {:induction false} RenameAllConcat(a: seq<string>, b: seq<string>, st: IdState)
    ensures var (x, s1) := RenameAll(a, st);
            var (y, s2) := RenameAll(b, s1);
            RenameAll(a + b, st) == (x + y, s2)
  {
    if a == [] {
      assert a + b == b;
      assert [] + RenameAll(b, st).0 == RenameAll(b, st).0;
    } else {
      var (first, s1) := RenameId(a[0], st);
      RenameAllConcat(a[1..], b, s1);
      assert (a + b)[1..] == a[1..] + b;
      var (x, s2) := RenameAll(a[1..], s1);
      var y := RenameAll(b, s2).0;
      assert [first] + (x + y) == ([first] + x) + y;
    }
  }

  lemma RenameAllOfOne(id: string, st: IdState)
    ensures RenameAll([id], st) == ([RenameId(id, st).0], RenameId(id, st).1)
  {
    assert [id][1..] == [];
    assert [RenameId(id, st).0] + [] == [RenameId(id, st).0];
  }

  lemma RenamedIsNotEmpty(id: string, st: IdState)
    requires id != ""
    ensures RenameId(id, st).0 != ""
  {
  }

  /** The walk over the tree does to the ids, in order, what the pass over the list
      does, whatever the nesting. */
  lemma {:induction false} VisitBlockIsPass(b: Block, st: IdState)
    ensures var (r, after) := VisitBlock(b, st); (Ids(r), after) == RenameAll(Ids(b), st)
    decreases b
  {
    if b.Block? {
      var own := IdOf(b);
      var (id, s0) := if own == [] then (b.id, st) else var (x, s) := RenameId(b.id.value, st); (Some(x), s);
      assert RenameAll(own, st) == (if id.Some? && id.value != "" then [id.value] else [], s0) by {
        if own != [] {
          RenameAllOfOne(b.id.value, st);
          RenamedIsNotEmpty(b.id.value, st);
        }
      }
      var s1 := VisitAll(b.children, s0).1;
      var s2 := VisitAll(b.blocks, s1).1;
      var s3 := VisitAll(b.child, s2).1;
      VisitAllIsPass(b.children, s0);
      VisitAllIsPass(b.blocks, s1);
      VisitAllIsPass(b.child, s2);
      RenameAllConcat(own, IdsAll(b.children), st);
      RenameAllConcat(own + IdsAll(b.children), IdsAll(b.blocks), st);
      RenameAllConcat(own + IdsAll(b.children) + IdsAll(b.blocks), IdsAll(b.child), st);
      var last := if b.kind == StepsBlock then IdsSteps(b.steps) else [];
      RenameAllConcat(own + IdsAll(b.children) + IdsAll(b.blocks) + IdsAll(b.child), last, st);
      if b.kind == StepsBlock {
        VisitStepsIsPass(b.steps, s3);
      }
    }
  }

  lemma {:induction false} VisitAllIsPass(bs: seq<Block>, st: IdState)
    ensures var (r, after) := VisitAll(bs, st); (IdsAll(r), after) == RenameAll(IdsAll(bs), st)
  {
    if bs != [] {
      var s1 := VisitBlock(bs[0], st).1;
      VisitBlockIsPass(bs[0], st);
      VisitAllIsPass(bs[1..], s1);
      RenameAllConcat(Ids(bs[0]), IdsAll(bs[1..]), st);
    }
  }

  lemma {:induction false} VisitStepsIsPass(ss: seq<Step>, st: IdState)
    ensures var (r, after) := VisitSteps(ss, st); (IdsSteps(r), after) == RenameAll(IdsSteps(ss), st)
  {
    if ss != [] {
      match ss[0]
      case NotStep =>
        VisitStepsIsPass(ss[1..], st);
        var r := VisitSteps(ss, st).0;
        assert IdsSteps(ss) == IdsSteps(ss[1..]);
        assert r[0] == NotStep && r[1..] == VisitSteps(ss[1..], st).0;
        assert IdsSteps(r) == IdsSteps(r[1..]);
      case Step(_, blocks) =>
        var s1 := VisitAll(blocks, st).1;
        VisitAllIsPass(blocks, st);
        VisitStepsIsPass(ss[1..], s1);
        RenameAllConcat(IdsAll(blocks), IdsSteps(ss[1..]), st);
    }
  }

  // ----------------------------------------------------------- distinct ids --

  /** Every id handed out is new: the ids seen afterwards are those seen before plus
      the ids handed out, each exactly once. */
  lemma {:induction false} EveryIdIsNew(ids: seq<string>, st: IdState)
    ensures var (out, after) := RenameAll(ids, st);
            multiset(after.seen) == multiset(st.seen) + multiset(out)
  {
    if ids != [] {
      var (first, s1) := RenameId(ids[0], st);
      EveryIdIsNew(ids[1..], s1);
      assert first !in st.seen && s1.seen == st.seen + {first};
      assert multiset(s1.seen) == multiset(st.seen) + multiset{first};
      var out := RenameAll(ids, st).0;
      assert out == [first] + out[1..];
    }
  }

  lemma DistinctByCount<T>(s: seq<T>)
    ensures Distinct(s) <==> forall x :: x in s ==> multiset(s)[x] <= 1
  {
    if s != [] {
      var last, front := s[|s| - 1], s[..|s| - 1];
      assert s == front + [last];
      DistinctByCount(front);
      if Distinct(s) {
        assert last !in front;
      } else if Distinct(front) {
        var i, j :| 0 <= i < j < |s| && s[i] == s[j];
        assert j == |s| - 1 && last in front;
        assert multiset(s)[last] == multiset(front)[last] + 1;
      } else {
        var x :| x in front && multiset(front)[x] > 1;
        assert x in s && multiset(s)[x] > 1;
      }
    }
  }

  /** After the walk all ids in the visited tree are pairwise distinct. */
  lemma IdsAreDistinct(blocks: seq<Block>)
    ensures Distinct(IdsAll(UniquifyBlockIds(blocks)))
  {
    VisitAllIsPass(blocks, START);
    EveryIdIsNew(IdsAll(blocks), START);
    var out := IdsAll(UniquifyBlockIds(blocks));
    var after := RenameAll(IdsAll(blocks), START).1;
    assert multiset(after.seen) == multiset(out);
    DistinctByCount(out);
  }

  // -------------------------------------------------------- nothing else changes --

  /** The tree with every visited id blanked but still marked as present. */
  function Anonymous(b: Block): Block {
    match b
    case NotBlock(_) => b
    case Block(_, _, _, _, _, _, _, _, _, _, _, steps, blocks, children, child, _, _) =>
      b.(id := if IdOf(b) == [] then b.id else Some("*"),
         children := AnonymousAll(children), blocks := AnonymousAll(blocks), child := AnonymousAll(child),
         steps := if b.kind == StepsBlock then AnonymousSteps(steps) else steps)
  }

  function AnonymousAll(bs: seq<Block>): seq<Block> {
    if bs == [] then [] else [Anonymous(bs[0])] + AnonymousAll(bs[1..])
  }

  function AnonymousSteps(ss: seq<Step>): seq<Step> {
    if ss == [] then []
    else
      [match ss[0] case NotStep => NotStep case Step(title, blocks) => Step(title, AnonymousAll(blocks))]
      + AnonymousSteps(ss[1..])
  }

  lemma {:induction false} OnlyIdsChangeInBlock(b: Block, st: IdState)
    ensures Anonymous(VisitBlock(b, st).0) == Anonymous(b)
    decreases b
  {
    if b.Block? {
      var s0 := if IdOf(b) == [] then st else RenameId(b.id.value, st).1;
      var s1 := VisitAll(b.children, s0).1;
      var s2 := VisitAll(b.blocks, s1).1;
      var s3 := VisitAll(b.child, s2).1;
      if IdOf(b) != [] {
        RenamedIsNotEmpty(b.id.value, st);
      }
      OnlyIdsChangeIn(b.children, s0);
      OnlyIdsChangeIn(b.blocks, s1);
      OnlyIdsChangeIn(b.child, s2);
      OnlyIdsChangeInSteps(b.steps, s3);
    }
  }

  lemma {:induction false} OnlyIdsChangeIn(bs: seq<Block>, st: IdState)
    ensures AnonymousAll(VisitAll(bs, st).0) == AnonymousAll(bs)
  {
    if bs != [] {
      OnlyIdsChangeInBlock(bs[0], st);
      OnlyIdsChangeIn(bs[1..], VisitBlock(bs[0], st).1);
    }
  }

  lemma {:induction false} OnlyIdsChangeInSteps(ss: seq<Step>, st: IdState)
    ensures AnonymousSteps(VisitSteps(ss, st).0) == AnonymousSteps(ss)
  {
    if ss != [] {
      match ss[0]
      case NotStep => OnlyIdsChangeInSteps(ss[1..], st);
      case Step(_, blocks) =>
        OnlyIdsChangeIn(blocks, st);
        OnlyIdsChangeInSteps(ss[1..], VisitAll(blocks, st).1);
    }
  }

  /** Only ids change, and only present ids: a missing id stays missing. */
  lemma OnlyIdsChange(blocks: seq<Block>)
    ensures AnonymousAll(UniquifyBlockIds(blocks)) == AnonymousAll(blocks)
    ensures |IdsAll(UniquifyBlockIds(blocks))| == |IdsAll(blocks)|
  {
    OnlyIdsChangeIn(blocks, START);
    VisitAllIsPass(blocks, START);
  }

  // ------------------------------------------------------------- fixpoints --

  lemma {:induction false} DistinctIdsAreKept(ids: seq<string>, st: IdState)
    requires Distinct(ids) && forall id :: id in ids ==> id !in st.seen
    ensures RenameAll(ids, st).0 == ids
  {
    if ids != [] {
      var s1 := RenameId(ids[0], st).1;
      assert forall id :: id in ids[1..] ==> id !in s1.seen by {
        forall id | id in ids[1..] ensures id !in s1.seen {
          var j :| 0 <= j < |ids[1..]| && ids[1..][j] == id;
          assert ids[0] != ids[j + 1];
        }
      }
      DistinctIdsAreKept(ids[1..], s1);
    }
  }

  /** A block whose ids all survive is returned as it was. */
  lemma {:induction false} KeptIdsKeepBlock(b: Block, st: IdState)
    requires Ids(VisitBlock(b, st).0) == Ids(b)
    ensures VisitBlock(b, st).0 == b
    decreases b
  {
    if b.Block? {
      var r := VisitBlock(b, st).0;
      var s0 := if IdOf(b) == [] then st else RenameId(b.id.value, st).1;
      var s1 := VisitAll(b.children, s0).1;
      var s2 := VisitAll(b.blocks, s1).1;
      var s3 := VisitAll(b.child, s2).1;
      if IdOf(b) != [] {
        RenamedIsNotEmpty(b.id.value, st);
      }
      VisitAllIsPass(b.children, s0);
      VisitAllIsPass(b.blocks, s1);
      VisitAllIsPass(b.child, s2);
      var lastR := if b.kind == StepsBlock then IdsSteps(r.steps) else [];
      var lastB := if b.kind == StepsBlock then IdsSteps(b.steps) else [];
      if b.kind == StepsBlock {
        VisitStepsIsPass(b.steps, s3);
      }
      SplitFive(IdOf(r), IdsAll(r.children), IdsAll(r.blocks), IdsAll(r.child), lastR,
                IdOf(b), IdsAll(b.children), IdsAll(b.blocks), IdsAll(b.child), lastB);
      KeptIdsKeepAll(b.children, s0);
      KeptIdsKeepAll(b.blocks, s1);
      KeptIdsKeepAll(b.child, s2);
      if b.kind == StepsBlock {
        KeptIdsKeepSteps(b.steps, s3);
      }
    }
  }

  lemma SplitFive<T>(a: seq<T>, b: seq<T>, c: seq<T>, d: seq<T>, e: seq<T>,
                     a': seq<T>, b': seq<T>, c': seq<T>, d': seq<T>, e': seq<T>)
    requires a + b + c + d + e == a' + b' + c' + d' + e'
    requires |a| == |a'| && |b| == |b'| && |c| == |c'| && |d| == |d'|
    ensures a == a' && b == b' && c == c' && d == d' && e == e'
  {
    EqualHalves(a + b + c + d, a' + b' + c' + d', e, e');
    EqualHalves(a + b + c, a' + b' + c', d, d');
    EqualHalves(a + b, a' + b', c, c');
    EqualHalves(a, a', b, b');
  }

  lemma {:induction false} KeptIdsKeepAll(bs: seq<Block>, st: IdState)
    requires IdsAll(VisitAll(bs, st).0) == IdsAll(bs)
    ensures VisitAll(bs, st).0 == bs
  {
    if bs != [] {
      var r := VisitAll(bs, st).0;
      var s1 := VisitBlock(bs[0], st).1;
      VisitBlockIsPass(bs[0], st);
      EqualHalves(Ids(r[0]), Ids(bs[0]), IdsAll(r[1..]), IdsAll(bs[1..]));
      KeptIdsKeepBlock(bs[0], st);
      KeptIdsKeepAll(bs[1..], s1);
    }
  }

  lemma {:induction false} KeptIdsKeepSteps(ss: seq<Step>, st: IdState)
    requires IdsSteps(VisitSteps(ss, st).0) == IdsSteps(ss)
    ensures VisitSteps(ss, st).0 == ss
  {
    if ss != [] {
      var r := VisitSteps(ss, st).0;
      match ss[0]
      case NotStep =>
        assert IdsSteps(r) == IdsSteps(r[1..]) && IdsSteps(ss) == IdsSteps(ss[1..]);
        KeptIdsKeepSteps(ss[1..], st);
      case Step(_, blocks) =>
        var s1 := VisitAll(blocks, st).1;
        VisitAllIsPass(blocks, st);
        EqualHalves(IdsAll(r[0].blocks), IdsAll(blocks), IdsSteps(r[1..]), IdsSteps(ss[1..]));
        KeptIdsKeepAll(blocks, st);
        KeptIdsKeepSteps(ss[1..], s1);
    }
  }

  /** A tree is returned unchanged exactly when its ids were already distinct. */
  lemma UnchangedIffDistinct(blocks: seq<Block>)
    ensures UniquifyBlockIds(blocks) == blocks <==> Distinct(IdsAll(blocks))
  {
    IdsAreDistinct(blocks);
    if Distinct(IdsAll(blocks)) {
      VisitAllIsPass(blocks, START);
      DistinctIdsAreKept(IdsAll(blocks), START);
      KeptIdsKeepAll(blocks, START);
    }
  }

  lemma UniquifyIsIdempotent(blocks: seq<Block>)
    ensures UniquifyBlockIds(UniquifyBlockIds(blocks)) == UniquifyBlockIds(blocks)
  {
    IdsAreDistinct(blocks);
    UnchangedIffDistinct(UniquifyBlockIds(blocks));
  }

  // ------------------------------------------------------ the copy counter --

  /** Copy numbers below the remembered one are taken. */
  ghost predicate CounterIsHonest(st: IdState) {
    forall id, j: nat :: id in st.nextCopy && 2 <= j < st.nextCopy[id] ==> CopyId(id, j) in st.seen
  }

  ghost predicate IsLeastFree(id: string, n: nat, seen: set<string>) {
    2 <= n && CopyId(id, n) !in seen && forall j: nat :: 2 <= j < n ==> CopyId(id, j) in seen
  }

  /** `next_copy` only saves time: each collision gets the least copy number, from 2
      up, that is free at that moment. */
  lemma RenamePicksLeastFree(id: string, st: IdState)
    requires CounterIsHonest(st) && forall x :: x in st.nextCopy ==> st.nextCopy[x] >= 2
    ensures id in st.seen ==> exists n: nat :: IsLeastFree(id, n, st.seen) && RenameId(id, st).0 == CopyId(id, n)
    ensures id !in st.seen ==> RenameId(id, st).0 == id
    ensures CounterIsHonest(RenameId(id, st).1)
    ensures forall x :: x in RenameId(id, st).1.nextCopy ==> RenameId(id, st).1.nextCopy[x] >= 2
  {
    if id in st.seen {
      var n := FreshIndex(id, StartIndex(id, st), st.seen, st.seen);
      assert IsLeastFree(id, n, st.seen);
    }
  }

  /** Starting every search from 2 would give the same ids. */
  lemma {:induction false} CounterIsOnlyACache(ids: seq<string>, st: IdState, cold: IdState)
    requires st.seen == cold.seen
    requires CounterIsHonest(st) && forall x :: x in st.nextCopy ==> st.nextCopy[x] >= 2
    requires CounterIsHonest(cold) && forall x :: x in cold.nextCopy ==> cold.nextCopy[x] >= 2
    ensures RenameAll(ids, st).0 == RenameAll(ids, cold).0
  {
    if ids != [] {
      RenamePicksLeastFree(ids[0], st);
      RenamePicksLeastFree(ids[0], cold);
      if ids[0] in st.seen {
        var m: nat :| IsLeastFree(ids[0], m, st.seen) && RenameId(ids[0], st).0 == CopyId(ids[0], m);
        var n: nat :| IsLeastFree(ids[0], n, st.seen) && RenameId(ids[0], cold).0 == CopyId(ids[0], n);
        assert m == n;
      }
      CounterIsOnlyACache(ids[1..], RenameId(ids[0], st).1, RenameId(ids[0], cold).1);
    }
  }

  // ----------------------------------------------- the first authored id --

  /** No authored id looks like a copy of another authored id. */
  ghost predicate NoCopies(authored: set<string>) {
    forall id, k: nat :: id in authored && k >= 2 ==> CopyId(id, k) !in authored
  }

  /** The first holder of an id keeps it, as the function's description promises,
      provided no authored id looks like a copy of another. */
  lemma {:induction false} FirstHolderKeepsId(ids: seq<string>, authored: set<string>, st: IdState, p: nat)
    requires p < |ids| && ids[p] !in ids[..p] && ids[p] !in st.seen
    requires forall id :: id in ids ==> id in authored
    requires NoCopies(authored) && forall x :: x in st.nextCopy ==> st.nextCopy[x] >= 2
    ensures RenameAll(ids, st).0[p] == ids[p]
  {
    if p > 0 {
      var (first, s1) := RenameId(ids[0], st);
      assert ids[p] != first by {
        assert ids[0] in authored && ids[p] in authored;
        assert ids[0] == ids[..p][0];
      }
      assert ids[1..][..p - 1] == ids[..p][1..];
      FirstHolderKeepsId(ids[1..], authored, s1, p - 1);
    }
  }

  /** Without that proviso the promise fails: of x, x, x-copy-2 the authored
      x-copy-2, which occurs once, is the one that is renamed. */
  lemma FirstHolderCanLoseId(x: string)
    ensures var ids := [x, x, CopyId(x, 2)];
            RenameAll(ids, START).0 == [x, CopyId(x, 2), CopyId(CopyId(x, 2), 2)]
  {
    var ids := [x, x, CopyId(x, 2)];
    var s1 := RenameId(x, START).1;
    var (second, s2) := RenameId(x, s1);
    assert s1 == IdState({x}, map[x := 2]);
    assert CopyId(x, 2) != x && CopyId(CopyId(x, 2), 2) != x && CopyId(CopyId(x, 2), 2) != CopyId(x, 2) by {
      assert |CopyId(CopyId(x, 2), 2)| > |CopyId(x, 2)| > |x|;
    }
    assert second == CopyId(x, 2);
    var (third, s3) := RenameId(CopyId(x, 2), s2);
    assert third == CopyId(CopyId(x, 2), 2);
    assert ids[1..] == [x, CopyId(x, 2)] && ids[1..][1..] == [CopyId(x, 2)] && ids[1..][1..][1..] == [];
    assert RenameAll(ids[1..][1..], s2).0 == [third];
    assert RenameAll(ids[1..], s1).0 == [second, third];
  }

  function Repeated(x: string, n: nat): (r: seq<string>)
    ensures |r| == n && forall i :: 0 <= i < n ==> r[i] == x
  {
    if n == 0 then [] else Repeated(x, n - 1) + [x]
  }

  /** The state after `n` occurrences of one id: its copies 2 to `n` are taken. */
  ghost predicate HoldsCopies(st: IdState, x: string, n: nat) {
    && (forall id :: id in st.seen <==> id == x || exists j: nat :: 2 <= j <= n && id == CopyId(x, j))
    && st.nextCopy == map[x := n + 1]
  }

  lemma CopyDiffers(x: string, j: nat)
    ensures CopyId(x, j) != x
  {
    assert |CopyId(x, j)| > |x|;
  }

  lemma NextCopyIsFree(x: string, n: nat, st: IdState)
    requires n >= 1 && HoldsCopies(st, x, n)
    ensures HoldsCopies(RenameId(x, st).1, x, n + 1)
  {
    CopyDiffers(x, n + 1);
    forall j: nat | 2 <= j <= n
      ensures CopyId(x, j) != CopyId(x, n + 1)
    {
      if CopyId(x, j) == CopyId(x, n + 1) {
        CopyIdInjective(x, j, n + 1);
      }
    }
    assert x in st.seen && CopyId(x, n + 1) !in st.seen;
    assert RenameId(x, st).0 == CopyId(x, n + 1);
  }

  lemma {:induction false} RepeatsTakeCopies(x: string, n: nat)
    requires n >= 1
    ensures HoldsCopies(RenameAll(Repeated(x, n), START).1, x, n)
  {
    if n == 1 {
      assert Repeated(x, 1) == [x];
      RenameAllOfOne(x, START);
    } else {
      RepeatsTakeCopies(x, n - 1);
      var st := RenameAll(Repeated(x, n - 1), START).1;
      RenameAllConcat(Repeated(x, n - 1), [x], START);
      RenameAllOfOne(x, st);
      NextCopyIsFree(x, n - 1, st);
    }
  }

  ghost predicate KeepsFirstHolders(ids: seq<string>) {
    forall p :: 0 <= p < |ids| && ids[p] !in ids[..p] ==> RenameAll(ids, START).0[p] == ids[p]
  }

  /** An authored copy number `k` of `x` is lost after `k` occurrences of `x`. */
  lemma AuthoredCopyIsLost(x: string, k: nat)
    requires k >= 2
    ensures !KeepsFirstHolders(Repeated(x, k) + [CopyId(x, k)])
  {
    var copy := CopyId(x, k);
    var ids := Repeated(x, k) + [copy];
    var st := RenameAll(Repeated(x, k), START).1;
    RepeatsTakeCopies(x, k);
    assert copy in st.seen;
    RenameAllConcat(Repeated(x, k), [copy], START);
    RenameAllOfOne(copy, st);
    CopyDiffers(x, k);
    assert ids[k] == copy && ids[..k] == Repeated(x, k);
    FreshIsNotSeen(copy, st);
    assert RenameAll(ids, START).0[k] == RenameId(copy, st).0;
  }

  lemma FreshIsNotSeen(id: string, st: IdState)
    requires id in st.seen
    ensures RenameId(id, st).0 !in st.seen
  {
  }

  /** When the promise is kept: every list of ids drawn from `authored`, in any order
      and with any repetitions, keeps its first holders exactly when no authored id
      looks like a copy of another. */
  lemma FirstHoldersAreKeptIff(authored: set<string>)
    ensures (forall ids: seq<string> :: (forall id :: id in ids ==> id in authored) ==> KeepsFirstHolders(ids))
            <==> NoCopies(authored)
  {
    if NoCopies(authored) {
      forall ids: seq<string>, p | (forall id :: id in ids ==> id in authored) && 0 <= p < |ids| && ids[p] !in ids[..p]
        ensures RenameAll(ids, START).0[p] == ids[p]
      {
        FirstHolderKeepsId(ids, authored, START, p);
      }
    } else {
      var x, k: nat :| x in authored && k >= 2 && CopyId(x, k) in authored;
      AuthoredCopyIsLost(x, k);
      var ids := Repeated(x, k) + [CopyId(x, k)];
      assert forall id :: id in ids ==> id in authored;
    }
  }

  // --------------------------------------------------- against the audit's walk --

  /** Steps are carried by steps blocks only. */
  predicate StepsInPlace(b: Block) {
    b.Block? && b.steps != [] ==> b.kind == StepsBlock
  }

  lemma {:induction false} IdsOfConcat(a: seq<Block>, b: seq<Block>)
    ensures IdsOf(a + b) == IdsOf(a) + IdsOf(b)
  {
    if a == [] {
      assert a + b == b;
    } else {
      IdsOfConcat(a[1..], b);
      assert (a + b)[1..] == a[1..] + b;
    }
  }

  lemma {:induction false} AuditedIdsAreVisited(b: Block)
    requires forall x :: x in Walk(b) ==> StepsInPlace(x)
    ensures multiset(IdsOf(Walk(b))) <= multiset(Ids(b))
    decreases b
  {
    if b.Block? {
      assert b in Walk(b);
      var below := WalkAll(b.blocks) + WalkAll(b.children) + WalkSteps(b.steps);
      assert Walk(b) == [b] + below;
      assert forall x :: x in below ==> x in Walk(b);
      IdsOfConcat([b], below);
      assert IdsOf([b]) == IdOf(b) by { assert [b][1..] == []; }
      IdsOfConcat(WalkAll(b.blocks) + WalkAll(b.children), WalkSteps(b.steps));
      IdsOfConcat(WalkAll(b.blocks), WalkAll(b.children));
      AuditedIdsAreVisitedIn(b.blocks);
      AuditedIdsAreVisitedIn(b.children);
      AuditedIdsAreVisitedInSteps(b.steps);
    }
  }

  /** Every id the audit counts is an id the walk has made distinct. */
  lemma {:induction false} AuditedIdsAreVisitedIn(bs: seq<Block>)
    requires forall x :: x in WalkAll(bs) ==> StepsInPlace(x)
    ensures multiset(IdsOf(WalkAll(bs))) <= multiset(IdsAll(bs))
  {
    if bs != [] {
      IdsOfConcat(Walk(bs[0]), WalkAll(bs[1..]));
      AuditedIdsAreVisited(bs[0]);
      AuditedIdsAreVisitedIn(bs[1..]);
    }
  }

  lemma {:induction false} AuditedIdsAreVisitedInSteps(ss: seq<Step>)
    requires forall x :: x in WalkSteps(ss) ==> StepsInPlace(x)
    ensures multiset(IdsOf(WalkSteps(ss))) <= multiset(IdsSteps(ss))
  {
    if ss != [] {
      AuditedIdsAreVisitedInSteps(ss[1..]);
      match ss[0]
      case NotStep =>
        assert WalkSteps(ss) == WalkSteps(ss[1..]) && IdsSteps(ss) == IdsSteps(ss[1..]);
      case Step(_, blocks) =>
        IdsOfConcat(WalkAll(blocks), WalkSteps(ss[1..]));
        AuditedIdsAreVisitedIn(blocks);
    }
  }

  lemma FewerThanDistinct<T>(a: seq<T>, b: seq<T>)
    requires Distinct(b) && multiset(a) <= multiset(b)
    ensures Distinct(a)
  {
    DistinctByCount(a);
    DistinctByCount(b);
    forall x | x in a
      ensures multiset(a)[x] <= 1
    {
      assert x in multiset(b);
    }
  }

  // ------------------------------------------------------- what gates can see --

  /** A block without its id and without the blocks below it. */
  function Shape(b: Block): Block {
    if b.NotBlock? then b
    else b.(id := None, blocks := [], children := [], child := [], steps := Titles(b.steps))
  }

  function Titles(ss: seq<Step>): (r: seq<Step>)
    ensures |r| == |ss|
    ensures forall i :: 0 <= i < |ss| ==> r[i] == if ss[i].Step? then Step(ss[i].title, []) else NotStep
  {
    if ss == [] then [] else [if ss[0].Step? then Step(ss[0].title, []) else NotStep] + Titles(ss[1..])
  }

  function Shapes(walked: seq<Block>): (r: seq<Block>)
    ensures |r| == |walked|
    ensures forall i :: 0 <= i < |walked| ==> r[i] == Shape(walked[i])
  {
    if walked == [] then [] else [Shape(walked[0])] + Shapes(walked[1..])
  }

  lemma ShapesConcat(a: seq<Block>, b: seq<Block>)
    ensures Shapes(a + b) == Shapes(a) + Shapes(b)
  {
  }

  /** The audit's walk over the renamed tree meets the same blocks, ids aside. */
  lemma {:induction false} RenamingKeepsShapes(b: Block, st: IdState)
    ensures Shapes(Walk(VisitBlock(b, st).0)) == Shapes(Walk(b))
    decreases b
  {
    if b.Block? {
      var r := VisitBlock(b, st).0;
      var s0 := if IdOf(b) == [] then st else RenameId(b.id.value, st).1;
      var s1 := VisitAll(b.children, s0).1;
      var s2 := VisitAll(b.blocks, s1).1;
      var s3 := VisitAll(b.child, s2).1;
      RenamingKeepsAllShapes(b.children, s0);
      RenamingKeepsAllShapes(b.blocks, s1);
      RenamingKeepsStepShapes(b.steps, s3);
      ShapeOfVisited(b, st);
      ShapesOfFour(b, WalkAll(b.blocks), WalkAll(b.children), WalkSteps(b.steps));
      ShapesOfFour(r, WalkAll(r.blocks), WalkAll(r.children), WalkSteps(r.steps));
    }
  }

  lemma ShapesOfFour(b: Block, x: seq<Block>, y: seq<Block>, z: seq<Block>)
    ensures Shapes([b] + x + y + z) == [Shape(b)] + Shapes(x) + Shapes(y) + Shapes(z)
  {
    ShapesConcat([b] + x + y, z);
    ShapesConcat([b] + x, y);
    ShapesConcat([b], x);
    assert Shapes([b]) == [Shape(b)];
  }

  lemma ShapeOfVisited(b: Block, st: IdState)
    ensures Shape(VisitBlock(b, st).0) == Shape(b)
  {
    if b.Block? && b.kind == StepsBlock {
      var s0 := if IdOf(b) == [] then st else RenameId(b.id.value, st).1;
      var s3 := VisitAll(b.child, VisitAll(b.blocks, VisitAll(b.children, s0).1).1).1;
      TitlesOfVisited(b.steps, s3);
    }
  }

  lemma {:induction false} TitlesOfVisited(ss: seq<Step>, st: IdState)
    ensures Titles(VisitSteps(ss, st).0) == Titles(ss)
  {
    if ss != [] {
      match ss[0]
      case NotStep => TitlesOfVisited(ss[1..], st);
      case Step(_, blocks) => TitlesOfVisited(ss[1..], VisitAll(blocks, st).1);
    }
  }

  lemma {:induction false} RenamingKeepsAllShapes(bs: seq<Block>, st: IdState)
    ensures Shapes(WalkAll(VisitAll(bs, st).0)) == Shapes(WalkAll(bs))
  {
    if bs != [] {
      var r := VisitAll(bs, st).0;
      var s1 := VisitBlock(bs[0], st).1;
      RenamingKeepsShapes(bs[0], st);
      RenamingKeepsAllShapes(bs[1..], s1);
      ShapesConcat(Walk(bs[0]), WalkAll(bs[1..]));
      ShapesConcat(Walk(r[0]), WalkAll(r[1..]));
    }
  }

  lemma {:induction false} RenamingKeepsStepShapes(ss: seq<Step>, st: IdState)
    ensures Shapes(WalkSteps(VisitSteps(ss, st).0)) == Shapes(WalkSteps(ss))
  {
    if ss != [] {
      var r := VisitSteps(ss, st).0;
      match ss[0]
      case NotStep =>
        RenamingKeepsStepShapes(ss[1..], st);
        assert WalkSteps(ss) == WalkSteps(ss[1..]) && WalkSteps(r) == WalkSteps(r[1..]);
      case Step(_, blocks) =>
        var s1 := VisitAll(blocks, st).1;
        RenamingKeepsAllShapes(blocks, st);
        RenamingKeepsStepShapes(ss[1..], s1);
        ShapesConcat(WalkAll(blocks), WalkSteps(ss[1..]));
        ShapesConcat(WalkAll(r[0].blocks), WalkSteps(r[1..]));
    }
  }

  /** At the top level too, and blocks with nothing below them stay so. */
  lemma {:induction false} RenamingKeepsTopShapes(bs: seq<Block>, st: IdState, i: nat)
    requires i < |bs|
    ensures var r := VisitAll(bs, st).0[i];
            && Shape(r) == Shape(bs[i])
            && Visible(r) == Visible(bs[i])
            && (r.Block? ==> |r.blocks| == |bs[i].blocks| && |r.children| == |bs[i].children|
                             && |r.steps| == |bs[i].steps| && r.open == bs[i].open)
  {
    if i == 0 {
      ShapeOfVisited(bs[0], st);
      RenamingKeepsWords(bs[0], st);
    } else {
      RenamingKeepsTopShapes(bs[1..], VisitBlock(bs[0], st).1, i - 1);
    }
  }

  lemma {:induction false} RenamingKeepsWords(b: Block, st: IdState)
    ensures Visible(VisitBlock(b, st).0) == Visible(b)
    decreases b
  {
    if b.Block? {
      var r := VisitBlock(b, st).0;
      var s0 := if IdOf(b) == [] then st else RenameId(b.id.value, st).1;
      var s1 := VisitAll(b.children, s0).1;
      var s2 := VisitAll(b.blocks, s1).1;
      var s3 := VisitAll(b.child, s2).1;
      RenamingKeepsAllWords(b.children, s0);
      RenamingKeepsAllWords(b.blocks, s1);
      RenamingKeepsStepWords(b.steps, s3);
      if b.kind == StepsBlock {
        assert Visible(r) == VisibleSteps(r.steps);
      } else if b.kind == Expandable {
        assert Visible(r) == r.summary + VisibleAll(r.children);
      } else {
        assert r.steps == b.steps;
      }
    }
  }

  lemma {:induction false} RenamingKeepsAllWords(bs: seq<Block>, st: IdState)
    ensures VisibleAll(VisitAll(bs, st).0) == VisibleAll(bs)
  {
    if bs != [] {
      RenamingKeepsWords(bs[0], st);
      RenamingKeepsAllWords(bs[1..], VisitBlock(bs[0], st).1);
    }
  }

  lemma {:induction false} RenamingKeepsStepWords(ss: seq<Step>, st: IdState)
    ensures VisibleSteps(VisitSteps(ss, st).0) == VisibleSteps(ss)
  {
    if ss != [] {
      var r := VisitSteps(ss, st).0;
      match ss[0]
      case NotStep =>
        RenamingKeepsStepWords(ss[1..], st);
        assert VisibleSteps(ss) == VisibleSteps(ss[1..]) && VisibleSteps(r) == VisibleSteps(r[1..]);
      case Step(title, blocks) =>
        RenamingKeepsAllWords(blocks, st);
        RenamingKeepsStepWords(ss[1..], VisitAll(blocks, st).1);
        assert VisibleSteps(r) == title + VisibleAll(r[0].blocks) + VisibleSteps(r[1..]);
    }
  }

  // ------------------------------------------------------------ the audit is blind --

  /** The audit's word count does not look at ids. */
  lemma {:induction false} CountIsBlind(b: Block)
    ensures PlainCount(Anonymous(b)) == PlainCount(b)
    decreases b
  {
    if b.Block? {
      CountAllIsBlind(b.blocks);
      CountAllIsBlind(b.children);
      if b.kind == StepsBlock {
        CountStepsIsBlind(b.steps);
      }
    }
  }

  lemma {:induction false} CountAllIsBlind(bs: seq<Block>)
    ensures PlainCountAll(AnonymousAll(bs)) == PlainCountAll(bs)
  {
    if bs != [] {
      CountIsBlind(bs[0]);
      CountAllIsBlind(bs[1..]);
    }
  }

  lemma {:induction false} CountStepsIsBlind(ss: seq<Step>)
    ensures PlainCountSteps(AnonymousSteps(ss)) == PlainCountSteps(ss)
  {
    if ss != [] {
      CountStepsIsBlind(ss[1..]);
      if ss[0].Step? {
        CountAllIsBlind(ss[0].blocks);
      }
    }
  }

  ghost predicate IsBlind(gate: Block -> bool) {
    forall b :: gate(Anonymous(b)) == gate(b)
  }

  lemma AnyConcat(gate: Block -> bool, a: seq<Block>, b: seq<Block>)
    ensures Any(gate, a + b) <==> Any(gate, a) || Any(gate, b)
  {
    if Any(gate, a) {
      var x :| x in a && gate(x);
      assert x in a + b;
    }
    if Any(gate, b) {
      var x :| x in b && gate(x);
      assert x in a + b;
    }
  }

  lemma AnyWalk(gate: Block -> bool, b: Block)
    requires b.Block?
    ensures Any(gate, Walk(b)) <==>
              gate(b) || Any(gate, WalkAll(b.blocks)) || Any(gate, WalkAll(b.children)) || Any(gate, WalkSteps(b.steps))
  {
    AnyConcat(gate, [b] + WalkAll(b.blocks) + WalkAll(b.children), WalkSteps(b.steps));
    AnyConcat(gate, [b] + WalkAll(b.blocks), WalkAll(b.children));
    AnyConcat(gate, [b], WalkAll(b.blocks));
    assert Any(gate, [b]) <==> gate(b) by {
      assert b in [b];
    }
  }

  /** A gate that does not look at ids finds the same in a renamed tree. */
  lemma {:induction false} BlindInBlock(gate: Block -> bool, b: Block)
    requires IsBlind(gate)
    ensures Any(gate, Walk(Anonymous(b))) <==> Any(gate, Walk(b))
    decreases b
  {
    if b.Block? {
      AnyWalk(gate, b);
      AnyWalk(gate, Anonymous(b));
      BlindInAll(gate, b.blocks);
      BlindInAll(gate, b.children);
      if b.kind == StepsBlock {
        BlindInSteps(gate, b.steps);
      }
    }
  }

  lemma {:induction false} BlindInAll(gate: Block -> bool, bs: seq<Block>)
    requires IsBlind(gate)
    ensures Any(gate, WalkAll(AnonymousAll(bs))) <==> Any(gate, WalkAll(bs))
    decreases bs
  {
    if bs != [] {
      BlindInBlock(gate, bs[0]);
      BlindInAll(gate, bs[1..]);
      AnyConcat(gate, Walk(bs[0]), WalkAll(bs[1..]));
      AnyConcat(gate, Walk(Anonymous(bs[0])), WalkAll(AnonymousAll(bs[1..])));
      assert AnonymousAll(bs)[1..] == AnonymousAll(bs[1..]);
    }
  }

  lemma {:induction false} BlindInSteps(gate: Block -> bool, ss: seq<Step>)
    requires IsBlind(gate)
    ensures Any(gate, WalkSteps(AnonymousSteps(ss))) <==> Any(gate, WalkSteps(ss))
    decreases ss
  {
    if ss != [] {
      var out := AnonymousSteps(ss);
      BlindInSteps(gate, ss[1..]);
      assert out[1..] == AnonymousSteps(ss[1..]);
      if ss[0].Step? {
        BlindInAll(gate, ss[0].blocks);
        AnyConcat(gate, WalkAll(ss[0].blocks), WalkSteps(ss[1..]));
        AnyConcat(gate, WalkAll(AnonymousAll(ss[0].blocks)), WalkSteps(out[1..]));
      } else {
        assert WalkSteps(ss) == WalkSteps(ss[1..]) && WalkSteps(out) == WalkSteps(out[1..]);
      }
    }
  }

  // --------------------------------------------------------------- the closure --

  /** The closure `visit_block` with the `seen` set and `next_copy` dictionary it
      updates as it goes. */
  class IdRegistry {
    var seen: set<string>
    var nextCopy: map<string, nat>

    constructor ()
      ensures State() == START
    {
      seen := {};
      nextCopy := map[];
    }

    ghost function State(): IdState
      reads this
    {
      IdState(seen, nextCopy)
    }

    method Rename(id: string) returns (r: string)
      modifies this
      ensures (r, State()) == RenameId(id, old(State()))
    {
      if id in seen {
        var copy := if id in nextCopy then nextCopy[id] else 2;
        ghost var start := copy;
        ghost var left := seen;
        while CopyId(id, copy) in seen
          invariant start <= copy && left <= seen
          invariant forall j: nat :: start <= j < copy ==> CopyId(id, j) in seen
          invariant forall j: nat :: copy <= j && CopyId(id, j) in seen ==> CopyId(id, j) in left
          decreases left
        {
          forall j: nat | copy < j && CopyId(id, j) in seen
            ensures CopyId(id, j) in left - {CopyId(id, copy)}
          {
            if CopyId(id, j) == CopyId(id, copy) {
              CopyIdInjective(id, j, copy);
            }
          }
          left := left - {CopyId(id, copy)};
          copy := copy + 1;
        }
        r := CopyId(id, copy);
        nextCopy := nextCopy[id := copy + 1];
        seen := seen + {r};
      } else {
        r := id;
        seen := seen + {id};
        if id !in nextCopy {
          nextCopy := nextCopy[id := 2];
        }
      }
    }

    method Visit(b: Block) returns (r: Block)
      modifies this
      ensures (r, State()) == VisitBlock(b, old(State()))
      decreases b
    {
      if b.NotBlock? {
        return b;
      }
      var id := b.id;
      if IdOf(b) != [] {
        var renamed := Rename(b.id.value);
        id := Some(renamed);
      }
      var children := VisitMany(b.children);
      var blocks := VisitMany(b.blocks);
      var child := VisitMany(b.child);
      var steps := b.steps;
      if b.kind == StepsBlock {
        steps := VisitManySteps(b.steps);
      }
      r := b.(id := id, children := children, blocks := blocks, child := child, steps := steps);
    }

    method VisitMany(bs: seq<Block>) returns (r: seq<Block>)
      modifies this
      ensures (r, State()) == VisitAll(bs, old(State()))
      decreases bs
    {
      if bs == [] {
        return [];
      }
      var first := Visit(bs[0]);
      var rest := VisitMany(bs[1..]);
      r := [first] + rest;
    }

    method VisitManySteps(ss: seq<Step>) returns (r: seq<Step>)
      modifies this
      ensures (r, State()) == VisitSteps(ss, old(State()))
      decreases ss
    {
      if ss == [] {
        return [];
      }
      var first := ss[0];
      if first.Step? {
        var blocks := VisitMany(first.blocks);
        first := Step(first.title, blocks);
      }
      var rest := VisitManySteps(ss[1..]);
      r := [first] + rest;
    }
  }
}
