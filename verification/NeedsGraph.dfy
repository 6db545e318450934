/** The needs walker of `workflow_graphs`, and what its closure means. */
module NeedsGraph {

  type JobId = string
  type Needs = map<JobId, seq<JobId>>

  /** `needs.get(job, [])`: an id no job declares needs nothing. */
  function NeedsOf(needs: Needs, job: JobId): seq<JobId> {
    if job in needs then needs[job] else []
  }

  // -------------------------------------------------------------- reachability --

  /** A chain of needs edges; consecutive entries are need and needed. */
  ghost predicate IsChain(needs: Needs, chain: seq<JobId>) {
    forall i :: 0 <= i < |chain| - 1 ==> chain[i + 1] in NeedsOf(needs, chain[i])
  }

  /** `target` is reached from a required job by one or more needs edges. */
  ghost predicate Feeds(needs: Needs, required: seq<JobId>, target: JobId) {
    exists chain: seq<JobId> ::
      |chain| >= 2 && chain[0] in required && chain[|chain| - 1] == target && IsChain(needs, chain)
  }

  /** Every id mentioned as a need. */
  function Mentioned(needs: Needs): set<JobId> {
    set job, need | job in needs && need in needs[job] :: need
  }

  lemma FeedsByEdge(needs: Needs, required: seq<JobId>, job: JobId, need: JobId)
    requires job in required || Feeds(needs, required, job)
    requires need in NeedsOf(needs, job)
    ensures Feeds(needs, required, need)
  {
    if job in required {
      var chain := [job, need];
      assert IsChain(needs, chain);
    } else {
      var chain :| |chain| >= 2 && chain[0] in required && chain[|chain| - 1] == job && IsChain(needs, chain);
      var longer := chain + [need];
      forall i | 0 <= i < |longer| - 1
        ensures longer[i + 1] in NeedsOf(needs, longer[i])
      {
        if i < |chain| - 1 {
          assert chain[i + 1] in NeedsOf(needs, chain[i]);
        }
      }
      assert longer[|longer| - 1] == need;
    }
  }

  /** A set that holds the needs of the required jobs and of its own members holds
      everything a chain reaches. */
  lemma ClosedHoldsChain(needs: Needs, required: seq<JobId>, closed: set<JobId>, chain: seq<JobId>, k: nat)
    requires forall job, need :: (job in required || job in closed) && need in NeedsOf(needs, job) ==> need in closed
    requires |chain| >= 2 && chain[0] in required && IsChain(needs, chain) && 0 < k < |chain|
    ensures chain[k] in closed
  {
    if k > 1 {
      ClosedHoldsChain(needs, required, closed, chain, k - 1);
    }
    assert chain[k - 1 + 1] in NeedsOf(needs, chain[k - 1]);
  }

  function Elements(s: seq<JobId>): set<JobId> {
    set x | x in s
  }

  /** The inner loop: unseen needs are recorded and pushed. */
  method PushUnseen(wanted: seq<JobId>, feeds: set<JobId>, frontier: seq<JobId>)
    returns (grown: set<JobId>, pushed: seq<JobId>)
    ensures grown == feeds + Elements(wanted)
    ensures frontier <= pushed
    ensures forall x :: x in pushed ==> x in frontier || x in wanted
    ensures forall x :: x in wanted ==> x in feeds || x in pushed
    ensures grown == feeds ==> pushed == frontier
  {
    grown, pushed := feeds, frontier;
    for i := 0 to |wanted|
      invariant grown == feeds + Elements(wanted[..i])
      invariant frontier <= pushed
      invariant forall x :: x in pushed ==> x in frontier || x in wanted
      invariant forall x :: x in wanted[..i] ==> x in feeds || x in pushed
      invariant grown == feeds ==> pushed == frontier
    {
      var need := wanted[i];
      assert wanted[..i + 1] == wanted[..i] + [need];
      if need !in grown {
        grown := grown + {need};
        pushed := pushed + [need];
      }
    }
    assert wanted[..|wanted|] == wanted;
  }

  /** Every job is done, waiting, or not yet met; nothing met is unreachable. */
  ghost predicate WalkInvariant(needs: Needs, required: seq<JobId>, feeds: set<JobId>, frontier: seq<JobId>,
                                done: set<JobId>) {
    && feeds <= Mentioned(needs)
    && (forall job :: job in frontier ==> job in required || job in feeds)
    && (forall job :: job in required || job in feeds ==> job in frontier || job in done)
    && (forall job, need :: job in done && need in NeedsOf(needs, job) ==> need in feeds)
    && (forall job :: job in feeds ==> Feeds(needs, required, job))
  }

  lemma WalkStarts(needs: Needs, required: seq<JobId>)
    ensures WalkInvariant(needs, required, {}, required, {})
  {
  }

  lemma WalkStep(needs: Needs, required: seq<JobId>, feeds: set<JobId>, rest: seq<JobId>, job: JobId,
                 done: set<JobId>, grown: set<JobId>, pushed: seq<JobId>)
    requires WalkInvariant(needs, required, feeds, rest + [job], done)
    requires grown == feeds + Elements(NeedsOf(needs, job)) && rest <= pushed
    requires forall x :: x in pushed ==> x in rest || x in NeedsOf(needs, job)
    requires forall x :: x in NeedsOf(needs, job) ==> x in feeds || x in pushed
    ensures WalkInvariant(needs, required, grown, pushed, done + {job})
  {
    var before := rest + [job];
    assert job in before;
    assert forall x :: x in rest ==> x in before;
    forall x | x in grown
      ensures Feeds(needs, required, x)
    {
      if x !in feeds {
        FeedsByEdge(needs, required, job, x);
      }
    }
    forall x | x in required || x in grown
      ensures x in pushed || x in done + {job}
    {
      if x in required || x in feeds {
        assert x in before || x in done;
      }
    }
  }

  /** One turn of the worklist: the last entry is popped and its unseen needs are
      pushed; either something new was met or the worklist is shorter. */
  method PopAndPush(needs: Needs, ghost required: seq<JobId>, feeds: set<JobId>, frontier: seq<JobId>,
                    ghost done: set<JobId>)
    returns (grown: set<JobId>, pushed: seq<JobId>)
    requires frontier != [] && WalkInvariant(needs, required, feeds, frontier, done)
    ensures WalkInvariant(needs, required, grown, pushed, done + {frontier[|frontier| - 1]})
    ensures |Mentioned(needs) - grown| < |Mentioned(needs) - feeds| || (grown == feeds && |pushed| < |frontier|)
  {
    var rest, job := frontier[..|frontier| - 1], frontier[|frontier| - 1];
    assert frontier == rest + [job];
    grown, pushed := PushUnseen(NeedsOf(needs, job), feeds, rest);
    WalkStep(needs, required, feeds, rest, job, done, grown, pushed);
    WalkShrinks(Mentioned(needs), feeds, grown);
  }

  /** The worklist ends on every graph, cycles and unknown ids included, and `feeds` is
      exactly the set of jobs reached from a required job by one or more needs edges. */
  method FeedsRequired(needs: Needs, required: seq<JobId>) returns (feeds: set<JobId>)
    ensures forall job :: job in feeds <==> Feeds(needs, required, job)
  {
    feeds := {};
    var frontier := required;
    ghost var done: set<JobId> := {};
    WalkStarts(needs, required);
    while frontier != []
      invariant WalkInvariant(needs, required, feeds, frontier, done)
      decreases |Mentioned(needs) - feeds|, |frontier|
    {
      ghost var met := done + {frontier[|frontier| - 1]};
      feeds, frontier := PopAndPush(needs, required, feeds, frontier, done);
      done := met;
    }
    WalkIsComplete(needs, required, feeds, done);
  }

  lemma WalkShrinks(mentioned: set<JobId>, feeds: set<JobId>, grown: set<JobId>)
    requires feeds <= grown <= mentioned
    ensures grown == feeds || |mentioned - grown| < |mentioned - feeds|
  {
    if grown != feeds {
      SmallerSet(mentioned - grown, mentioned - feeds);
    }
  }

  /** With nothing left waiting, every job that feeds a required one has been met. */
  lemma WalkIsComplete(needs: Needs, required: seq<JobId>, feeds: set<JobId>, done: set<JobId>)
    requires WalkInvariant(needs, required, feeds, [], done)
    ensures forall job :: job in feeds <==> Feeds(needs, required, job)
  {
    forall job | Feeds(needs, required, job)
      ensures job in feeds
    {
      var chain :| |chain| >= 2 && chain[0] in required && chain[|chain| - 1] == job && IsChain(needs, chain);
      ClosedHoldsChain(needs, required, feeds, chain, |chain| - 1);
    }
  }

  lemma SmallerSet<T>(a: set<T>, b: set<T>)
    requires a < b
    ensures |a| < |b|
  {
    var x :| x in b && x !in a;
    assert a <= b - {x};
    SubsetSize(a, b - {x});
  }

  lemma SubsetSize<T>(a: set<T>, b: set<T>)
    requires a <= b
    ensures |a| <= |b|
  {
    if a != {} {
      var x :| x in a;
      SubsetSize(a - {x}, b - {x});
    }
  }

  // ------------------------------------------------------------- what can block --

  /** How a job's result comes from its own outcome and the results it needs. */
  type Rule<!O, !R> = (JobId, O, seq<R>) -> R

  /** Needs edges descend, so every run settles. */
  ghost predicate IsAcyclic(needs: Needs, rank: JobId -> nat) {
    forall job, need :: need in NeedsOf(needs, job) ==> rank(need) < rank(job)
  }

  /** The result of a job in a run whose jobs' own outcomes are `outcome`. */
  ghost function ResultOf<O, R>(needs: Needs, rank: JobId -> nat, rule: Rule<O, R>, outcome: JobId -> O, job: JobId): R
    requires IsAcyclic(needs, rank)
    decreases rank(job), 1
  {
    rule(job, outcome(job), ResultsOf(needs, rank, rule, outcome, job, NeedsOf(needs, job)))
  }

  ghost function ResultsOf<O, R>(needs: Needs, rank: JobId -> nat, rule: Rule<O, R>, outcome: JobId -> O,
                                 job: JobId, wanted: seq<JobId>): (r: seq<R>)
    requires IsAcyclic(needs, rank)
    requires forall need :: need in wanted ==> rank(need) < rank(job)
    ensures |r| == |wanted|
    decreases rank(job), 0, |wanted|
  {
    if wanted == [] then []
    else [ResultOf(needs, rank, rule, outcome, wanted[0])] + ResultsOf(needs, rank, rule, outcome, job, wanted[1..])
  }

  lemma {:induction false} ResultAt<O, R>(needs: Needs, rank: JobId -> nat, rule: Rule<O, R>, outcome: JobId -> O,
                                          job: JobId, wanted: seq<JobId>, i: nat)
    requires IsAcyclic(needs, rank) && i < |wanted|
    requires forall need :: need in wanted ==> rank(need) < rank(job)
    ensures ResultsOf(needs, rank, rule, outcome, job, wanted)[i] == ResultOf(needs, rank, rule, outcome, wanted[i])
  {
    if i > 0 {
      ResultAt(needs, rank, rule, outcome, job, wanted[1..], i - 1);
    }
  }

  /** Two runs agree on the required jobs and on everything in their closure. */
  ghost predicate AgreeOnClosure<O>(needs: Needs, required: seq<JobId>, a: JobId -> O, b: JobId -> O) {
    forall job :: job in required || Feeds(needs, required, job) ==> a(job) == b(job)
  }

  /** Nothing outside the closure can block: runs that agree on it give every
      required job the same result, under any rule. */
  lemma OutsideCannotBlock<O, R>(needs: Needs, rank: JobId -> nat, rule: Rule<O, R>, required: seq<JobId>,
                                 a: JobId -> O, b: JobId -> O, job: JobId)
    requires IsAcyclic(needs, rank) && AgreeOnClosure(needs, required, a, b)
    requires job in required || Feeds(needs, required, job)
    ensures ResultOf(needs, rank, rule, a, job) == ResultOf(needs, rank, rule, b, job)
    decreases rank(job)
  {
    var wanted := NeedsOf(needs, job);
    forall i | 0 <= i < |wanted|
      ensures ResultsOf(needs, rank, rule, a, job, wanted)[i] == ResultsOf(needs, rank, rule, b, job, wanted)[i]
    {
      FeedsByEdge(needs, required, job, wanted[i]);
      OutsideCannotBlock(needs, rank, rule, required, a, b, wanted[i]);
      ResultAt(needs, rank, rule, a, job, wanted, i);
      ResultAt(needs, rank, rule, b, job, wanted, i);
    }
    assert ResultsOf(needs, rank, rule, a, job, wanted) == ResultsOf(needs, rank, rule, b, job, wanted);
  }

  /** A job is green when its own steps are and so is everything it needs. */
  function RedPropagates(job: JobId, own: bool, results: seq<bool>): bool {
    own && forall i | 0 <= i < |results| :: results[i]
  }

  lemma RedNeedMakesRed(needs: Needs, rank: JobId -> nat, outcome: JobId -> bool, job: JobId, need: JobId)
    requires IsAcyclic(needs, rank) && need in NeedsOf(needs, job)
    requires !ResultOf(needs, rank, RedPropagates, outcome, need)
    ensures !ResultOf(needs, rank, RedPropagates, outcome, job)
  {
    var wanted := NeedsOf(needs, job);
    var results := ResultsOf(needs, rank, RedPropagates, outcome, job, wanted);
    var i :| 0 <= i < |wanted| && wanted[i] == need;
    ResultAt(needs, rank, RedPropagates, outcome, job, wanted, i);
    assert !results[i];
  }

  lemma RedClimbsChain(needs: Needs, rank: JobId -> nat, outcome: JobId -> bool, chain: seq<JobId>, k: nat)
    requires IsAcyclic(needs, rank) && IsChain(needs, chain) && k < |chain|
    requires !outcome(chain[|chain| - 1])
    ensures !ResultOf(needs, rank, RedPropagates, outcome, chain[k])
    decreases |chain| - k
  {
    if k < |chain| - 1 {
      RedClimbsChain(needs, rank, outcome, chain, k + 1);
      RedNeedMakesRed(needs, rank, outcome, chain[k], chain[k + 1]);
    }
  }

  /** Everything inside can: where red propagates, one red job of the closure turns
      some required job red.  So no smaller set would do. */
  lemma EveryClosureJobCanBlock(needs: Needs, rank: JobId -> nat, required: seq<JobId>,
                                outcome: JobId -> bool, job: JobId)
    requires IsAcyclic(needs, rank) && (job in required || Feeds(needs, required, job)) && !outcome(job)
    ensures exists gate :: gate in required && !ResultOf(needs, rank, RedPropagates, outcome, gate)
  {
    if job in required {
      assert !ResultOf(needs, rank, RedPropagates, outcome, job);
    } else {
      var chain :| |chain| >= 2 && chain[0] in required && chain[|chain| - 1] == job && IsChain(needs, chain);
      RedClimbsChain(needs, rank, outcome, chain, 0);
    }
  }
}
