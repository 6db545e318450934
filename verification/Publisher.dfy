/**
 * `publish`: edition workers that read and then write a remote store, at any
 * interleaving, and the index after them.
 */
module Publisher {
  import opened Subsequences
  import opened Wrappers
  import Periods

  /** A Paper to publish; with `missingOnly` a stored Paper is left alone. */
  datatype Job = Job(slug: string, doc: string, missingOnly: bool)

  datatype Outcome = Preserved | Unchanged | Published

  /** A worker that has not read yet, has read and will post, or has ended. */
  datatype Phase = Ready | MustPost | Done(outcome: Outcome) | Failed

  /** The remote store by slug, and the phase of each job. */
  datatype State = State(store: map<string, string>, phases: seq<Phase>)

  /** Worker `worker` takes its next step. The request may fail; a failed post may
      still have reached the store. */
  datatype Move = Move(worker: nat, succeeds: bool, lands: bool)

  /** The jobs of a call: the editions, then the index. */
  datatype Plan = Plan(jobs: seq<Job>, editions: nat)

  function Editions(payloads: seq<(string, string)>, update: Option<set<string>>): seq<Job> {
    if payloads == [] then []
    else
      var (slug, doc) := payloads[0];
      var missingOnly := update.Some? && slug !in update.value;
      (if slug == Periods.INDEX_SLUG then [] else [Job(slug, doc, missingOnly)]) + Editions(payloads[1..], update)
  }

  function Indexes(payloads: seq<(string, string)>): seq<Job> {
    if payloads == [] then []
    else
      var (slug, doc) := payloads[0];
      (if slug == Periods.INDEX_SLUG then [Job(slug, doc, false)] else []) + Indexes(payloads[1..])
  }

  /** Payloads are pairs of slug and source. */
  function PlanOf(payloads: seq<(string, string)>, update: Option<set<string>>): Plan {
    var editions := Editions(payloads, update);
    Plan(editions + Indexes(payloads), |editions|)
  }

  predicate DistinctSlugs(jobs: seq<Job>) {
    forall i, j :: 0 <= i < j < |jobs| ==> jobs[i].slug != jobs[j].slug
  }

  /** What `publish` makes of any payloads: the index jobs come last and are never
      skipped, and whether an edition is missing-only depends on its slug alone. */
  ghost predicate IsPlan(plan: Plan) {
    && plan.editions <= |plan.jobs|
    && (forall i :: 0 <= i < |plan.jobs| ==> (i >= plan.editions <==> plan.jobs[i].slug == Periods.INDEX_SLUG))
    && (forall i, j :: 0 <= i < |plan.jobs| && 0 <= j < |plan.jobs| && plan.jobs[i].slug == plan.jobs[j].slug ==>
          plan.jobs[i].missingOnly == plan.jobs[j].missingOnly)
    && (forall i :: plan.editions <= i < |plan.jobs| ==> !plan.jobs[i].missingOnly)
  }

  lemma PlanIsPlan(payloads: seq<(string, string)>, update: Option<set<string>>)
    ensures IsPlan(PlanOf(payloads, update))
  {
    PlanCoversPayloads(payloads, update);
  }

  function Start(plan: Plan, store: map<string, string>): State {
    State(store, seq(|plan.jobs|, i => Ready))
  }

  predicate AllDone(phases: seq<Phase>) {
    forall i :: 0 <= i < |phases| ==> phases[i].Done?
  }

  /** An edition may move whenever it has not ended; the index waits until every job
      before it has succeeded. */
  predicate Enabled(plan: Plan, s: State, m: Move) {
    && |s.phases| == |plan.jobs|
    && m.worker < |s.phases|
    && (s.phases[m.worker].Ready? || s.phases[m.worker].MustPost?)
    && (m.worker >= plan.editions ==> AllDone(s.phases[..m.worker]))
  }

  /** `publish_one` from reading the stored source to deciding. */
  function Decide(job: Job, store: map<string, string>): Phase {
    if job.missingOnly && job.slug in store then Done(Preserved)
    else if job.slug in store && store[job.slug] == job.doc then Done(Unchanged)
    else MustPost
  }

  function Apply(plan: Plan, s: State, m: Move): (t: State)
    requires Enabled(plan, s, m)
    ensures |t.phases| == |s.phases|
  {
    var job, i := plan.jobs[m.worker], m.worker;
    if s.phases[i].Ready? then
      State(s.store, s.phases[i := if m.succeeds then Decide(job, s.store) else Failed])
    else
      State(if m.succeeds || m.lands then s.store[job.slug := job.doc] else s.store,
            s.phases[i := if m.succeeds then Done(Published) else Failed])
  }

  /** A schedule: every move is enabled when it is taken. */
  predicate Runs(plan: Plan, s: State, moves: seq<Move>)
    decreases moves
  {
    moves == [] || (Enabled(plan, s, moves[0]) && Runs(plan, Apply(plan, s, moves[0]), moves[1..]))
  }

  function After(plan: Plan, s: State, moves: seq<Move>): State
    requires Runs(plan, s, moves)
    decreases moves
  {
    if moves == [] then s else After(plan, Apply(plan, s, moves[0]), moves[1..])
  }

  // ------------------------------------------------------------------ specification --

  function Stored(store: map<string, string>, slug: string): Option<string> {
    if slug in store then Some(store[slug]) else None
  }

  /** What a job should leave in the store. */
  function Wanted(job: Job, before: map<string, string>): string {
    if job.missingOnly && job.slug in before then before[job.slug] else job.doc
  }

  /** The jobs, done one after the other. */
  function InOrder(jobs: seq<Job>, store: map<string, string>): map<string, string> {
    if jobs == [] then store else InOrder(jobs[1..], store[jobs[0].slug := Wanted(jobs[0], store)])
  }

  /** What a job's phase says about its slug in the store. */
  ghost predicate Consistent(job: Job, phase: Phase, before: map<string, string>, store: map<string, string>) {
    var was, now := Stored(before, job.slug), Stored(store, job.slug);
    match phase
    case Ready => now == was
    case MustPost => now == was && Decide(job, before) == MustPost
    case Done(Preserved) => now == was && Decide(job, before) == Done(Preserved)
    case Done(Unchanged) => now == was && Decide(job, before) == Done(Unchanged)
    case Done(Published) => now == Some(job.doc) && Decide(job, before) == MustPost
    case Failed => now == was || (now == Some(job.doc) && Decide(job, before) == MustPost)
  }

  /** What every schedule keeps. */
  ghost predicate Invariant(plan: Plan, before: map<string, string>, s: State) {
    && |s.phases| == |plan.jobs|
    && (forall i :: 0 <= i < |plan.jobs| ==> Consistent(plan.jobs[i], s.phases[i], before, s.store))
    && (forall slug :: (forall i :: 0 <= i < |plan.jobs| ==> plan.jobs[i].slug != slug) ==>
          Stored(s.store, slug) == Stored(before, slug))
    && (forall i :: plan.editions <= i < |plan.jobs| && !s.phases[i].Ready? ==> AllDone(s.phases[..i]))
  }

  lemma StepKeepsOrder(plan: Plan, s: State, m: Move, i: nat)
    requires Enabled(plan, s, m)
    requires forall k :: plan.editions <= k < |plan.jobs| && !s.phases[k].Ready? ==> AllDone(s.phases[..k])
    requires plan.editions <= i < |plan.jobs| && !Apply(plan, s, m).phases[i].Ready?
    ensures AllDone(Apply(plan, s, m).phases[..i])
  {
    var t := Apply(plan, s, m);
    assert AllDone(s.phases[..i]);
    forall k | 0 <= k < i
      ensures t.phases[..i][k].Done?
    {
      assert s.phases[..i][k].Done?;
    }
  }

  lemma StepKeepsConsistent(plan: Plan, before: map<string, string>, s: State, m: Move, i: nat)
    requires DistinctSlugs(plan.jobs) && Enabled(plan, s, m) && i < |plan.jobs|
    requires Consistent(plan.jobs[i], s.phases[i], before, s.store)
    ensures Consistent(plan.jobs[i], Apply(plan, s, m).phases[i], before, Apply(plan, s, m).store)
  {
    if i != m.worker {
      assert plan.jobs[i].slug != plan.jobs[m.worker].slug;
    }
  }

  lemma StepKeepsInvariant(plan: Plan, before: map<string, string>, s: State, m: Move)
    requires DistinctSlugs(plan.jobs) && Invariant(plan, before, s) && Enabled(plan, s, m)
    ensures Invariant(plan, before, Apply(plan, s, m))
  {
    var t := Apply(plan, s, m);
    forall i | 0 <= i < |plan.jobs|
      ensures Consistent(plan.jobs[i], t.phases[i], before, t.store)
    {
      StepKeepsConsistent(plan, before, s, m, i);
    }
    forall i | plan.editions <= i < |plan.jobs| && !t.phases[i].Ready?
      ensures AllDone(t.phases[..i])
    {
      StepKeepsOrder(plan, s, m, i);
    }
  }

  lemma {:induction false} ScheduleKeepsInvariant(plan: Plan, before: map<string, string>, s: State, moves: seq<Move>)
    requires DistinctSlugs(plan.jobs) && Invariant(plan, before, s) && Runs(plan, s, moves)
    ensures Invariant(plan, before, After(plan, s, moves))
    decreases moves
  {
    if moves != [] {
      StepKeepsInvariant(plan, before, s, moves[0]);
      ScheduleKeepsInvariant(plan, before, Apply(plan, s, moves[0]), moves[1..]);
    }
  }

  lemma ReachableInvariant(plan: Plan, before: map<string, string>, moves: seq<Move>)
    requires DistinctSlugs(plan.jobs) && Runs(plan, Start(plan, before), moves)
    ensures Invariant(plan, before, After(plan, Start(plan, before), moves))
  {
    ScheduleKeepsInvariant(plan, before, Start(plan, before), moves);
  }

  // ------------------------------------------------------------------------ theorems --

  /** Only the index jobs write the index, and a job after the editions starts only
      when every job before it has succeeded. */
  ghost predicate IndexWaits(plan: Plan, before: map<string, string>, s: State) {
    && |s.phases| == |plan.jobs| >= plan.editions
    && (forall i :: plan.editions <= i < |plan.jobs| && !s.phases[i].Ready? ==> AllDone(s.phases[..i]))
    && (!AllDone(s.phases[..plan.editions]) ==>
          Stored(s.store, Periods.INDEX_SLUG) == Stored(before, Periods.INDEX_SLUG))
  }

  lemma StepKeepsWaiting(plan: Plan, before: map<string, string>, s: State, m: Move)
    requires IsPlan(plan) && IndexWaits(plan, before, s) && Enabled(plan, s, m)
    ensures IndexWaits(plan, before, Apply(plan, s, m))
  {
    var t := Apply(plan, s, m);
    forall i | plan.editions <= i < |plan.jobs| && !t.phases[i].Ready?
      ensures AllDone(t.phases[..i])
    {
      StepKeepsOrder(plan, s, m, i);
    }
    if AllDone(s.phases[..plan.editions]) {
      DoneStaysDone(plan, s, m);
    } else if m.worker >= plan.editions {
      AllDonePrefix(s.phases, plan.editions, m.worker);
    }
  }

  lemma AllDonePrefix(phases: seq<Phase>, k: nat, n: nat)
    requires k <= n <= |phases| && AllDone(phases[..n])
    ensures AllDone(phases[..k])
  {
    forall i | 0 <= i < k
      ensures phases[..k][i].Done?
    {
      assert phases[..n][i].Done?;
    }
  }

  lemma DoneStaysDone(plan: Plan, s: State, m: Move)
    requires Enabled(plan, s, m) && plan.editions <= |s.phases| && AllDone(s.phases[..plan.editions])
    ensures AllDone(Apply(plan, s, m).phases[..plan.editions])
  {
    forall i | 0 <= i < plan.editions
      ensures Apply(plan, s, m).phases[..plan.editions][i].Done?
    {
      assert s.phases[..plan.editions][i].Done?;
    }
  }

  lemma {:induction false} ScheduleKeepsWaiting(plan: Plan, before: map<string, string>, s: State, moves: seq<Move>)
    requires IsPlan(plan) && IndexWaits(plan, before, s) && Runs(plan, s, moves)
    ensures IndexWaits(plan, before, After(plan, s, moves))
    decreases moves
  {
    if moves != [] {
      StepKeepsWaiting(plan, before, s, moves[0]);
      ScheduleKeepsWaiting(plan, before, Apply(plan, s, moves[0]), moves[1..]);
    }
  }

  /** The index is written only after every edition succeeded: whatever the payloads,
      the schedule and the failures, as long as some edition has not succeeded, no
      index job has started and the stored index is the old one. */
  lemma IndexIsLast(payloads: seq<(string, string)>, update: Option<set<string>>, before: map<string, string>,
                    moves: seq<Move>)
    requires Runs(PlanOf(payloads, update), Start(PlanOf(payloads, update), before), moves)
    ensures var plan := PlanOf(payloads, update);
            var s := After(plan, Start(plan, before), moves);
            && |s.phases| == |plan.jobs|
            && (!AllDone(s.phases[..plan.editions]) ==>
                  && Stored(s.store, Periods.INDEX_SLUG) == Stored(before, Periods.INDEX_SLUG)
                  && forall i :: plan.editions <= i < |plan.jobs| ==> s.phases[i].Ready?)
  {
    var plan := PlanOf(payloads, update);
    PlanIsPlan(payloads, update);
    ScheduleKeepsWaiting(plan, before, Start(plan, before), moves);
    var s := After(plan, Start(plan, before), moves);
    forall i | plan.editions <= i < |plan.jobs| && !s.phases[i].Ready?
      ensures AllDone(s.phases[..plan.editions])
    {
      AllDonePrefix(s.phases, plan.editions, i);
    }
  }

  lemma {:induction false} InOrderFacts(jobs: seq<Job>, store: map<string, string>)
    requires DistinctSlugs(jobs)
    ensures forall i :: 0 <= i < |jobs| ==> Stored(InOrder(jobs, store), jobs[i].slug) == Some(Wanted(jobs[i], store))
    ensures forall slug :: (forall i :: 0 <= i < |jobs| ==> jobs[i].slug != slug) ==>
              Stored(InOrder(jobs, store), slug) == Stored(store, slug)
    decreases jobs
  {
    if jobs != [] {
      var first, rest := jobs[0], jobs[1..];
      var next := store[first.slug := Wanted(first, store)];
      InOrderFacts(rest, next);
      forall i | 0 <= i < |jobs|
        ensures Stored(InOrder(jobs, store), jobs[i].slug) == Some(Wanted(jobs[i], store))
      {
        if i == 0 {
          assert forall k :: 0 <= k < |rest| ==> rest[k] == jobs[k + 1] && rest[k].slug != first.slug;
        } else {
          assert rest[i - 1] == jobs[i];
        }
      }
    }
  }

  lemma DoneMeansWanted(job: Job, phase: Phase, before: map<string, string>, store: map<string, string>)
    requires Consistent(job, phase, before, store) && phase.Done?
    ensures Stored(store, job.slug) == Some(Wanted(job, before))
  {
  }

  lemma SameStore(a: map<string, string>, b: map<string, string>)
    requires forall slug :: Stored(a, slug) == Stored(b, slug)
    ensures a == b
  {
    forall slug
      ensures slug in a <==> slug in b
      ensures slug in a ==> a[slug] == b[slug]
    {
      assert Stored(a, slug) == Stored(b, slug);
    }
  }

  /** Confluence: with distinct slugs, every schedule in which all jobs succeed leaves
      the store that doing them one after the other would leave. */
  lemma SchedulesAgree(plan: Plan, before: map<string, string>, moves: seq<Move>)
    requires DistinctSlugs(plan.jobs) && Runs(plan, Start(plan, before), moves)
    requires AllDone(After(plan, Start(plan, before), moves).phases)
    ensures After(plan, Start(plan, before), moves).store == InOrder(plan.jobs, before)
  {
    var s := After(plan, Start(plan, before), moves);
    var expected := InOrder(plan.jobs, before);
    ReachableInvariant(plan, before, moves);
    InOrderFacts(plan.jobs, before);
    forall slug
      ensures Stored(s.store, slug) == Stored(expected, slug)
    {
      if i :| 0 <= i < |plan.jobs| && plan.jobs[i].slug == slug {
        DoneMeansWanted(plan.jobs[i], s.phases[i], before, s.store);
      }
    }
    SameStore(s.store, expected);
  }

  /** A preserved edition that the store already holds is never touched, in any state
      of any schedule, and its worker never posts. */
  lemma PreservedIsUntouched(plan: Plan, before: map<string, string>, moves: seq<Move>, i: nat)
    requires DistinctSlugs(plan.jobs) && Runs(plan, Start(plan, before), moves)
    requires i < |plan.jobs| && plan.jobs[i].missingOnly && plan.jobs[i].slug in before
    ensures var s := After(plan, Start(plan, before), moves);
            && Stored(s.store, plan.jobs[i].slug) == Some(before[plan.jobs[i].slug])
            && |s.phases| == |plan.jobs| && !s.phases[i].MustPost? && s.phases[i] != Done(Published)
  {
    ReachableInvariant(plan, before, moves);
    var s := After(plan, Start(plan, before), moves);
    assert Consistent(plan.jobs[i], s.phases[i], before, s.store);
  }

  /** A job leaves either what was stored or what it wants, also when requests fail. */
  lemma FailureLeavesOldOrNew(plan: Plan, before: map<string, string>, moves: seq<Move>, i: nat)
    requires DistinctSlugs(plan.jobs) && Runs(plan, Start(plan, before), moves) && i < |plan.jobs|
    ensures var now := Stored(After(plan, Start(plan, before), moves).store, plan.jobs[i].slug);
            now == Stored(before, plan.jobs[i].slug) || now == Some(Wanted(plan.jobs[i], before))
  {
    ReachableInvariant(plan, before, moves);
    var s := After(plan, Start(plan, before), moves);
    assert Consistent(plan.jobs[i], s.phases[i], before, s.store);
  }

  /** Publishing the same payloads again writes nothing: from the store a complete run
      left, no schedule ever makes a worker post, and the store never changes. */
  lemma RepublishingWritesNothing(plan: Plan, before: map<string, string>, moves: seq<Move>)
    requires DistinctSlugs(plan.jobs)
    requires Runs(plan, Start(plan, InOrder(plan.jobs, before)), moves)
    ensures var s := After(plan, Start(plan, InOrder(plan.jobs, before)), moves);
            && s.store == InOrder(plan.jobs, before)
            && forall i :: 0 <= i < |s.phases| ==> !s.phases[i].MustPost? && s.phases[i] != Done(Published)
  {
    var settled := InOrder(plan.jobs, before);
    var s := After(plan, Start(plan, settled), moves);
    ReachableInvariant(plan, settled, moves);
    InOrderFacts(plan.jobs, before);
    forall i | 0 <= i < |plan.jobs|
      ensures Decide(plan.jobs[i], settled) != MustPost
    {
      assert Stored(settled, plan.jobs[i].slug) == Some(Wanted(plan.jobs[i], before));
    }
    forall slug
      ensures Stored(s.store, slug) == Stored(settled, slug)
    {
      if i :| 0 <= i < |plan.jobs| && plan.jobs[i].slug == slug {
        assert Consistent(plan.jobs[i], s.phases[i], settled, s.store);
      }
    }
    SameStore(s.store, settled);
    forall i | 0 <= i < |s.phases|
      ensures !s.phases[i].MustPost? && s.phases[i] != Done(Published)
    {
      assert Consistent(plan.jobs[i], s.phases[i], settled, s.store);
    }
  }

  /** Steps a worker may still take. */
  function Left(phases: seq<Phase>): nat {
    if phases == [] then 0
    else (match phases[0] case Ready => 2 case MustPost => 1 case Done(_) => 0 case Failed => 0) + Left(phases[1..])
  }

  lemma {:induction false} LeftAfter(phases: seq<Phase>, i: nat, next: Phase)
    requires i < |phases|
    requires (phases[i].Ready? && !next.Ready?) || (phases[i].MustPost? && (next.Done? || next.Failed?))
    ensures Left(phases[i := next]) < Left(phases)
  {
    if i == 0 {
      assert phases[0 := next][1..] == phases[1..];
    } else {
      LeftAfter(phases[1..], i - 1, next);
      assert phases[i := next][1..] == phases[1..][i - 1 := next];
    }
  }

  lemma {:induction false} LeftAtMost(phases: seq<Phase>)
    ensures Left(phases) <= 2 * |phases|
  {
    if phases != [] {
      LeftAtMost(phases[1..]);
    }
  }

  lemma {:induction false} ScheduleUsesUp(plan: Plan, s: State, moves: seq<Move>)
    requires Runs(plan, s, moves)
    ensures |moves| + Left(After(plan, s, moves).phases) <= Left(s.phases)
    decreases moves
  {
    if moves != [] {
      var t := Apply(plan, s, moves[0]);
      LeftAfter(s.phases, moves[0].worker, t.phases[moves[0].worker]);
      assert t.phases == s.phases[moves[0].worker := t.phases[moves[0].worker]];
      ScheduleUsesUp(plan, t, moves[1..]);
    }
  }

  /** Every schedule ends, after at most two steps a job, and one that can go no
      further has either failed somewhere or done everything. */
  lemma SchedulesEnd(plan: Plan, before: map<string, string>, moves: seq<Move>)
    requires Runs(plan, Start(plan, before), moves)
    ensures |moves| <= 2 * |plan.jobs|
    ensures var s := After(plan, Start(plan, before), moves);
            (forall m :: !Enabled(plan, s, m)) ==>
              (exists i :: 0 <= i < |s.phases| && s.phases[i].Failed?) || AllDone(s.phases)
  {
    var start := Start(plan, before);
    ScheduleUsesUp(plan, start, moves);
    LeftAtMost(start.phases);
    var s := After(plan, start, moves);
    SizeIsKept(plan, start, moves);
    if (forall i :: 0 <= i < |s.phases| ==> !s.phases[i].Failed?) && !AllDone(s.phases) {
      var i := FirstNotDone(s.phases);
      assert Enabled(plan, s, Move(i, true, true));
    }
  }

  lemma {:induction false} SizeIsKept(plan: Plan, s: State, moves: seq<Move>)
    requires Runs(plan, s, moves) && |s.phases| == |plan.jobs|
    ensures |After(plan, s, moves).phases| == |plan.jobs|
    decreases moves
  {
    if moves != [] {
      SizeIsKept(plan, Apply(plan, s, moves[0]), moves[1..]);
    }
  }

  lemma {:induction false} FirstNotDone(phases: seq<Phase>) returns (i: nat)
    requires !AllDone(phases)
    ensures i < |phases| && !phases[i].Done? && AllDone(phases[..i])
    decreases |phases|
  {
    var last := |phases| - 1;
    if AllDone(phases[..last]) {
      assert forall k :: 0 <= k < last ==> phases[..last][k] == phases[k];
      i := last;
    } else {
      i := FirstNotDone(phases[..last]);
      assert phases[..last][..i] == phases[..i];
    }
  }

  // ----------------------------------------------------- when schedules agree --

  ghost predicate Completes(plan: Plan, before: map<string, string>, moves: seq<Move>) {
    Runs(plan, Start(plan, before), moves) && AllDone(After(plan, Start(plan, before), moves).phases)
  }

  /** All schedules in which every job succeeds leave the same store. */
  ghost predicate Agree(plan: Plan, before: map<string, string>) {
    forall a, b :: Completes(plan, before, a) && Completes(plan, before, b) ==>
      After(plan, Start(plan, before), a).store == After(plan, Start(plan, before), b).store
  }

  /** Editions that share a slug also share their source, or are left alone because the
      store already has one. */
  predicate Harmless(plan: Plan, before: map<string, string>)
    requires plan.editions <= |plan.jobs|
  {
    forall i, j :: 0 <= i < j < plan.editions && plan.jobs[i].slug == plan.jobs[j].slug ==>
      plan.jobs[i].doc == plan.jobs[j].doc || (plan.jobs[i].missingOnly && plan.jobs[i].slug in before)
  }

  predicate IsLeftAlone(job: Job, before: map<string, string>) {
    job.missingOnly && job.slug in before
  }

  /** What harmless repetition keeps of an edition. */
  ghost predicate Settles(job: Job, phase: Phase, before: map<string, string>, store: map<string, string>) {
    var was, now, wanted := Stored(before, job.slug), Stored(store, job.slug), Some(Wanted(job, before));
    && (now == was || now == wanted)
    && (phase.Done? ==> now == wanted)
    && (phase.MustPost? ==> !IsLeftAlone(job, before))
  }

  /** Index job `i` is the last to have ended. */
  predicate IsLatest(phases: seq<Phase>, i: nat)
    requires i < |phases|
  {
    phases[i].Done? && forall j :: i < j < |phases| ==> phases[j].Ready? || phases[j].MustPost?
  }

  ghost predicate Settling(plan: Plan, before: map<string, string>, s: State) {
    && IndexWaits(plan, before, s)
    && (forall i :: 0 <= i < plan.editions ==> Settles(plan.jobs[i], s.phases[i], before, s.store))
    && (forall i :: plan.editions <= i < |plan.jobs| && IsLatest(s.phases, i) ==>
          Stored(s.store, Periods.INDEX_SLUG) == Some(plan.jobs[i].doc))
    && (forall slug :: (forall i :: 0 <= i < |plan.jobs| ==> plan.jobs[i].slug != slug) ==>
          Stored(s.store, slug) == Stored(before, slug))
  }

  lemma StepSettles(plan: Plan, before: map<string, string>, s: State, m: Move, i: nat)
    requires IsPlan(plan) && Harmless(plan, before) && Settling(plan, before, s) && Enabled(plan, s, m)
    requires i < plan.editions
    ensures Settles(plan.jobs[i], Apply(plan, s, m).phases[i], before, Apply(plan, s, m).store)
  {
    if m.worker != i && m.worker < plan.editions && plan.jobs[i].slug == plan.jobs[m.worker].slug {
      assert Settles(plan.jobs[m.worker], s.phases[m.worker], before, s.store);
      var low, high := if i < m.worker then i else m.worker, if i < m.worker then m.worker else i;
      assert plan.jobs[low].slug == plan.jobs[high].slug;
    }
  }

  /** Once an index job has ended, only later jobs can move. */
  lemma OnlyLaterMove(plan: Plan, before: map<string, string>, s: State, m: Move, i: nat)
    requires IndexWaits(plan, before, s) && Enabled(plan, s, m)
    requires plan.editions <= i < |plan.jobs| && s.phases[i].Done?
    ensures m.worker > i
  {
    forall k | 0 <= k < i
      ensures s.phases[k].Done?
    {
      assert s.phases[..i][k].Done?;
    }
  }

  lemma LatestBefore(plan: Plan, s: State, m: Move, i: nat)
    requires Enabled(plan, s, m) && i < m.worker && IsLatest(Apply(plan, s, m).phases, i)
    ensures IsLatest(s.phases, i) && Apply(plan, s, m).store == s.store
  {
    var t := Apply(plan, s, m);
    forall j | i < j < |s.phases|
      ensures s.phases[j].Ready? || s.phases[j].MustPost?
    {
      assert j != m.worker ==> t.phases[j] == s.phases[j];
    }
    assert t.phases[m.worker].MustPost?;
  }

  lemma StepKeepsLatest(plan: Plan, before: map<string, string>, s: State, m: Move, i: nat)
    requires IsPlan(plan) && Settling(plan, before, s) && Enabled(plan, s, m)
    requires plan.editions <= i < |plan.jobs| && IsLatest(Apply(plan, s, m).phases, i)
    ensures Stored(Apply(plan, s, m).store, Periods.INDEX_SLUG) == Some(plan.jobs[i].doc)
  {
    if m.worker != i {
      OnlyLaterMove(plan, before, s, m, i);
      LatestBefore(plan, s, m, i);
    }
  }

  lemma StepKeepsSettling(plan: Plan, before: map<string, string>, s: State, m: Move)
    requires IsPlan(plan) && Harmless(plan, before) && Settling(plan, before, s) && Enabled(plan, s, m)
    ensures Settling(plan, before, Apply(plan, s, m))
  {
    var t := Apply(plan, s, m);
    StepKeepsWaiting(plan, before, s, m);
    forall i | 0 <= i < plan.editions
      ensures Settles(plan.jobs[i], t.phases[i], before, t.store)
    {
      StepSettles(plan, before, s, m, i);
    }
    forall i | plan.editions <= i < |plan.jobs| && IsLatest(t.phases, i)
      ensures Stored(t.store, Periods.INDEX_SLUG) == Some(plan.jobs[i].doc)
    {
      StepKeepsLatest(plan, before, s, m, i);
    }
  }

  lemma {:induction false} ScheduleKeepsSettling(plan: Plan, before: map<string, string>, s: State, moves: seq<Move>)
    requires IsPlan(plan) && Harmless(plan, before) && Settling(plan, before, s) && Runs(plan, s, moves)
    ensures Settling(plan, before, After(plan, s, moves))
    decreases moves
  {
    if moves != [] {
      StepKeepsSettling(plan, before, s, moves[0]);
      ScheduleKeepsSettling(plan, before, Apply(plan, s, moves[0]), moves[1..]);
    }
  }

  /** Two settled states in which all is done hold the same. */
  lemma SettledStoresAgree(plan: Plan, before: map<string, string>, s: State, t: State)
    requires IsPlan(plan) && Settling(plan, before, s) && Settling(plan, before, t)
    requires AllDone(s.phases) && AllDone(t.phases)
    ensures s.store == t.store
  {
    forall slug
      ensures Stored(s.store, slug) == Stored(t.store, slug)
    {
      if i :| 0 <= i < |plan.jobs| && plan.jobs[i].slug == slug {
        if i < plan.editions {
          assert Settles(plan.jobs[i], s.phases[i], before, s.store);
          assert Settles(plan.jobs[i], t.phases[i], before, t.store);
        } else {
          var last := |plan.jobs| - 1;
          assert IsLatest(s.phases, last) && IsLatest(t.phases, last);
        }
      }
    }
    SameStore(s.store, t.store);
  }

  lemma HarmlessAgrees(plan: Plan, before: map<string, string>)
    requires IsPlan(plan) && Harmless(plan, before)
    ensures Agree(plan, before)
  {
    var start := Start(plan, before);
    forall a, b | Completes(plan, before, a) && Completes(plan, before, b)
      ensures After(plan, start, a).store == After(plan, start, b).store
    {
      ScheduleKeepsSettling(plan, before, start, a);
      ScheduleKeepsSettling(plan, before, start, b);
      SettledStoresAgree(plan, before, After(plan, start, a), After(plan, start, b));
    }
  }

  // One job after the other, the editions in any order.

  lemma {:induction false} RunsConcat(plan: Plan, s: State, a: seq<Move>, b: seq<Move>)
    requires Runs(plan, s, a) && Runs(plan, After(plan, s, a), b)
    ensures Runs(plan, s, a + b) && After(plan, s, a + b) == After(plan, After(plan, s, a), b)
    decreases a
  {
    if a == [] {
      assert a + b == b;
    } else {
      Peel(a, b);
      RunsConcat(plan, Apply(plan, s, a[0]), a[1..], b);
    }
  }

  function Done1(plan: Plan, s: State, k: nat): State
    requires k < |plan.jobs| == |s.phases|
  {
    var job := plan.jobs[k];
    State(s.store[job.slug := Wanted(job, s.store)],
          s.phases[k := if Decide(job, s.store).MustPost? then Done(Published) else Decide(job, s.store)])
  }

  lemma RunOne(plan: Plan, s: State, k: nat) returns (moves: seq<Move>)
    requires k < |plan.jobs| == |s.phases| && s.phases[k].Ready?
    requires k >= plan.editions ==> AllDone(s.phases[..k])
    ensures Runs(plan, s, moves) && After(plan, s, moves) == Done1(plan, s, k)
  {
    var go := Move(k, true, true);
    var job := plan.jobs[k];
    var read := Apply(plan, s, go);
    if Decide(job, s.store).MustPost? {
      moves := [go, go];
      assert moves[1..] == [go] && [go][1..] == [];
      assert read.phases[..k] == s.phases[..k];
      var posted := Apply(plan, read, go);
      assert posted == Done1(plan, s, k);
      assert Runs(plan, posted, []) && After(plan, posted, []) == posted;
      assert Runs(plan, read, [go]) && After(plan, read, [go]) == posted;
    } else {
      moves := [go];
      assert moves[1..] == [];
      assert s.store[job.slug := Wanted(job, s.store)] == s.store;
      assert Runs(plan, read, []) && After(plan, read, []) == read;
    }
  }

  predicate AreBelow(order: seq<nat>, n: nat) {
    forall p :: 0 <= p < |order| ==> order[p] < n
  }

  /** The store after the jobs at these places, one after the other. */
  function Visited(plan: Plan, order: seq<nat>, store: map<string, string>): map<string, string>
    requires AreBelow(order, |plan.jobs|)
    decreases order
  {
    if order == [] then store
    else
      var job := plan.jobs[order[0]];
      Visited(plan, order[1..], store[job.slug := Wanted(job, store)])
  }

  lemma NotInTail(order: seq<nat>)
    requires order != [] && Distinct(order)
    ensures order[0] !in order[1..]
  {
    assert forall p :: 0 <= p < |order[1..]| ==> order[1..][p] == order[p + 1] && order[0] != order[p + 1];
  }

  /** The jobs at these places have ended and no other has moved. */
  ghost predicate Ended(before: seq<Phase>, after: seq<Phase>, order: seq<nat>) {
    && |after| == |before|
    && forall k :: 0 <= k < |before| ==> if k in order then after[k].Done? else after[k] == before[k]
  }

  lemma EndedCons(before: seq<Phase>, middle: seq<Phase>, after: seq<Phase>, order: seq<nat>)
    requires order != [] && Distinct(order) && order[0] < |before|
    requires |middle| == |before| && middle[order[0]].Done?
    requires middle == before[order[0] := middle[order[0]]]
    requires Ended(middle, after, order[1..])
    ensures Ended(before, after, order)
  {
    NotInTail(order);
    forall k | 0 <= k < |before|
      ensures if k in order then after[k].Done? else after[k] == before[k]
    {
      assert k in order <==> k == order[0] || k in order[1..] by {
        assert order == [order[0]] + order[1..];
      }
    }
  }

  lemma {:induction false} RunEditions(plan: Plan, s: State, order: seq<nat>) returns (moves: seq<Move>)
    requires |plan.jobs| == |s.phases| && plan.editions <= |plan.jobs| && Distinct(order)
    requires AreBelow(order, plan.editions) && forall p :: 0 <= p < |order| ==> s.phases[order[p]].Ready?
    ensures Runs(plan, s, moves)
    ensures After(plan, s, moves).store == Visited(plan, order, s.store)
    ensures Ended(s.phases, After(plan, s, moves).phases, order)
    decreases order
  {
    if order == [] {
      moves := [];
    } else {
      var first := RunOne(plan, s, order[0]);
      var t := Done1(plan, s, order[0]);
      TailOfEditions(plan, s, order);
      var rest := RunEditions(plan, t, order[1..]);
      RunsConcat(plan, s, first, rest);
      moves := first + rest;
      EndedCons(s.phases, t.phases, After(plan, t, rest).phases, order);
    }
  }

  lemma TailOfEditions(plan: Plan, s: State, order: seq<nat>)
    requires |plan.jobs| == |s.phases| && plan.editions <= |plan.jobs| && order != [] && Distinct(order)
    requires AreBelow(order, plan.editions) && forall p :: 0 <= p < |order| ==> s.phases[order[p]].Ready?
    ensures Distinct(order[1..]) && AreBelow(order[1..], plan.editions)
    ensures forall p :: 0 <= p < |order| - 1 ==> Done1(plan, s, order[0]).phases[order[1..][p]].Ready?
    ensures Visited(plan, order, s.store) == Visited(plan, order[1..], Done1(plan, s, order[0]).store)
  {
    assert forall p :: 0 <= p < |order[1..]| ==> order[1..][p] == order[p + 1] && order[0] != order[p + 1];
  }

  lemma {:induction false} RunIndexes(plan: Plan, s: State, from: nat) returns (moves: seq<Move>)
    requires IsPlan(plan) && |plan.jobs| == |s.phases| && plan.editions <= from <= |plan.jobs|
    requires AllDone(s.phases[..from]) && forall k :: from <= k < |s.phases| ==> s.phases[k].Ready?
    ensures Runs(plan, s, moves) && AllDone(After(plan, s, moves).phases)
    ensures forall slug :: slug != Periods.INDEX_SLUG ==> Stored(After(plan, s, moves).store, slug) == Stored(s.store, slug)
    decreases |plan.jobs| - from
  {
    if from == |plan.jobs| {
      moves := [];
      assert s.phases[..from] == s.phases;
    } else {
      var first := RunOne(plan, s, from);
      var t := Done1(plan, s, from);
      var done := t.phases[..from + 1];
      forall k | 0 <= k < |done|
        ensures done[k].Done?
      {
        assert k < from ==> s.phases[..from][k].Done?;
      }
      var rest := RunIndexes(plan, t, from + 1);
      RunsConcat(plan, s, first, rest);
      moves := first + rest;
    }
  }

  /** For any order of the editions there is a complete schedule that does them in it. */
  lemma RunAll(plan: Plan, before: map<string, string>, order: seq<nat>) returns (moves: seq<Move>)
    requires IsPlan(plan) && Distinct(order) && AreBelow(order, plan.editions)
    requires forall k: nat :: k < plan.editions ==> k in order
    ensures Completes(plan, before, moves)
    ensures forall slug :: slug != Periods.INDEX_SLUG ==>
              Stored(After(plan, Start(plan, before), moves).store, slug) == Stored(Visited(plan, order, before), slug)
  {
    var start := Start(plan, before);
    var first := RunEditions(plan, start, order);
    var middle := After(plan, start, first);
    var rest := RunIndexes(plan, middle, plan.editions);
    RunsConcat(plan, start, first, rest);
    moves := first + rest;
  }

  /** The places below `n` but `i`. */
  function Except(n: nat, i: nat): (order: seq<nat>)
    ensures Distinct(order) && AreBelow(order, n) && forall p :: 0 <= p < |order| ==> order[p] != i
    ensures forall k: nat :: k < n && k != i ==> k in order
  {
    if n == 0 then []
    else
      var order := Except(n - 1, i);
      assert forall k: nat :: k < n - 1 && k != i ==> k in order;
      order + (if n - 1 == i then [] else [n - 1])
  }

  lemma {:induction false} VisitedConcat(plan: Plan, a: seq<nat>, b: seq<nat>, store: map<string, string>)
    requires AreBelow(a, |plan.jobs|) && AreBelow(b, |plan.jobs|)
    ensures Visited(plan, a + b, store) == Visited(plan, b, Visited(plan, a, store))
    decreases a
  {
    if a == [] {
      assert a + b == b;
    } else {
      Peel(a, b);
      VisitedConcat(plan, a[1..], b, store[plan.jobs[a[0]].slug := Wanted(plan.jobs[a[0]], store)]);
    }
  }

  lemma LastDecides(plan: Plan, order: seq<nat>, i: nat, before: map<string, string>)
    requires AreBelow(order, |plan.jobs|) && i < |plan.jobs| && !plan.jobs[i].missingOnly
    ensures Stored(Visited(plan, order + [i], before), plan.jobs[i].slug) == Some(plan.jobs[i].doc)
  {
    VisitedConcat(plan, order, [i], before);
    assert [i][1..] == [];
  }

  lemma {:induction false} MissingOnlyKeeps(plan: Plan, order: seq<nat>, slug: string, store: map<string, string>)
    requires AreBelow(order, |plan.jobs|) && slug in store
    requires forall p :: 0 <= p < |order| && plan.jobs[order[p]].slug == slug ==> plan.jobs[order[p]].missingOnly
    ensures Stored(Visited(plan, order, store), slug) == Some(store[slug])
    decreases order
  {
    if order != [] {
      var job := plan.jobs[order[0]];
      MissingOnlyKeeps(plan, order[1..], slug, store[job.slug := Wanted(job, store)]);
    }
  }

  /** An order of the editions in which edition `i` decides what its slug ends with. */
  lemma DecidedBy(plan: Plan, before: map<string, string>, i: nat) returns (moves: seq<Move>)
    requires IsPlan(plan) && i < plan.editions && !IsLeftAlone(plan.jobs[i], before)
    ensures Completes(plan, before, moves)
    ensures Stored(After(plan, Start(plan, before), moves).store, plan.jobs[i].slug) == Some(plan.jobs[i].doc)
  {
    var others := Except(plan.editions, i);
    if plan.jobs[i].missingOnly {
      var order := [i] + others;
      moves := RunAll(plan, before, order);
      assert order[1..] == others;
      MissingOnlyKeeps(plan, others, plan.jobs[i].slug, before[plan.jobs[i].slug := plan.jobs[i].doc]);
    } else {
      moves := RunAll(plan, before, others + [i]);
      LastDecides(plan, others, i, before);
    }
  }

  /** When publishing is confluent: all complete schedules leave the same store exactly
      when editions that share a slug share their source or are all left alone. */
  lemma SchedulesAgreeIff(payloads: seq<(string, string)>, update: Option<set<string>>, before: map<string, string>)
    ensures Agree(PlanOf(payloads, update), before) <==> Harmless(PlanOf(payloads, update), before)
  {
    var plan := PlanOf(payloads, update);
    PlanIsPlan(payloads, update);
    if Harmless(plan, before) {
      HarmlessAgrees(plan, before);
    } else {
      var i, j :| 0 <= i < j < plan.editions && plan.jobs[i].slug == plan.jobs[j].slug
                  && plan.jobs[i].doc != plan.jobs[j].doc && !IsLeftAlone(plan.jobs[i], before);
      var a := DecidedBy(plan, before, i);
      var b := DecidedBy(plan, before, j);
      assert After(plan, Start(plan, before), a).store != After(plan, Start(plan, before), b).store;
    }
  }

  /** Two editions of one slug with different sources do race, although every request
      succeeds. */
  lemma DuplicateSlugsRace(slug: string, one: string, other: string)
    requires slug != Periods.INDEX_SLUG && one != other
    ensures !Agree(PlanOf([(slug, one), (slug, other)], None), map[])
  {
    var payloads := [(slug, one), (slug, other)];
    var plan := PlanOf(payloads, None);
    assert payloads[1..] == [(slug, other)] && payloads[1..][1..] == [];
    assert Indexes(payloads[1..]) == [] && Editions(payloads[1..], None) == [Job(slug, other, false)];
    assert plan.jobs == [Job(slug, one, false), Job(slug, other, false)] && plan.editions == 2;
    SchedulesAgreeIff(payloads, None, map[]);
    assert plan.jobs[0].slug == plan.jobs[1].slug;
  }

  function PayloadsOf(jobs: seq<Job>): seq<(string, string)> {
    if jobs == [] then [] else [(jobs[0].slug, jobs[0].doc)] + PayloadsOf(jobs[1..])
  }

  lemma {:induction false} PayloadsOfConcat(a: seq<Job>, b: seq<Job>)
    ensures PayloadsOf(a + b) == PayloadsOf(a) + PayloadsOf(b)
  {
    if a == [] {
      assert a + b == b;
    } else {
      Peel(a, b);
      PayloadsOfConcat(a[1..], b);
    }
  }

  lemma PayloadsOfCons(job: Job, rest: seq<Job>)
    ensures multiset(PayloadsOf([job] + rest)) == multiset{(job.slug, job.doc)} + multiset(PayloadsOf(rest))
  {
    assert ([job] + rest)[1..] == rest;
  }

  lemma AddOne<T>(x: T, a: multiset<T>, b: multiset<T>, all: multiset<T>)
    requires a + b == all
    ensures (multiset{x} + a) + b == multiset{x} + all
    ensures a + (multiset{x} + b) == multiset{x} + all
  {
  }

  lemma FirstPayload(payloads: seq<(string, string)>, update: Option<set<string>>)
    requires payloads != []
    ensures var (slug, doc) := payloads[0];
            var job := Job(slug, doc, update.Some? && slug !in update.value);
            if slug == Periods.INDEX_SLUG then
              && Editions(payloads, update) == Editions(payloads[1..], update)
              && Indexes(payloads) == [Job(slug, doc, false)] + Indexes(payloads[1..])
            else
              && Editions(payloads, update) == [job] + Editions(payloads[1..], update)
              && Indexes(payloads) == Indexes(payloads[1..])
  {
  }

  lemma {:induction false} SplitKeepsPayloads(payloads: seq<(string, string)>, update: Option<set<string>>)
    ensures multiset(PayloadsOf(Editions(payloads, update))) + multiset(PayloadsOf(Indexes(payloads))) == multiset(payloads)
  {
    if payloads != [] {
      var first, rest := payloads[0], payloads[1..];
      var e, x := Editions(rest, update), Indexes(rest);
      SplitKeepsPayloads(rest, update);
      FirstPayload(payloads, update);
      assert multiset(payloads) == multiset{first} + multiset(rest) by {
        assert payloads == [first] + rest;
      }
      PayloadsOfCons(Job(first.0, first.1, false), x);
      PayloadsOfCons(Job(first.0, first.1, update.Some? && first.0 !in update.value), e);
      AddOne(first, multiset(PayloadsOf(e)), multiset(PayloadsOf(x)), multiset(rest));
    }
  }

  /** The jobs are the payloads, each exactly as often: editions first, then the index
      jobs, which are never skipped. */
  lemma PlanCoversPayloads(payloads: seq<(string, string)>, update: Option<set<string>>)
    ensures multiset(PayloadsOf(PlanOf(payloads, update).jobs)) == multiset(payloads)
    ensures forall i :: 0 <= i < |PlanOf(payloads, update).jobs| ==>
              var job, plan := PlanOf(payloads, update).jobs[i], PlanOf(payloads, update);
              && (i >= plan.editions <==> job.slug == Periods.INDEX_SLUG)
              && (job.missingOnly <==> job.slug != Periods.INDEX_SLUG && update.Some? && job.slug !in update.value)
  {
    EditionsFacts(payloads, update);
    IndexesFacts(payloads);
    SplitKeepsPayloads(payloads, update);
    PayloadsOfConcat(Editions(payloads, update), Indexes(payloads));
  }

  lemma {:induction false} EditionsFacts(payloads: seq<(string, string)>, update: Option<set<string>>)
    ensures forall job :: job in Editions(payloads, update) ==>
              job.slug != Periods.INDEX_SLUG && (job.missingOnly <==> update.Some? && job.slug !in update.value)
  {
    if payloads != [] {
      EditionsFacts(payloads[1..], update);
    }
  }

  lemma {:induction false} IndexesFacts(payloads: seq<(string, string)>)
    ensures forall job :: job in Indexes(payloads) ==> job.slug == Periods.INDEX_SLUG && !job.missingOnly
  {
    if payloads != [] {
      IndexesFacts(payloads[1..]);
    }
  }
}
