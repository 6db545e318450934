/** `blocking-name-census.py`: every job name that can block a merge is named by the
    spec, or the guard is red. */
module BlockingCensus {
  import opened Wrappers
  import opened Subsequences
  import opened NeedsGraph
  import opened Whitespace

  // ------------------------------------------------------------------- job names --

  /** A rendered job name: a plain text, or a text with `${{ }}` interpolations and
      the literal parts between them. */
  datatype JobName = Static(text: string) | Template(text: string, parts: seq<string>)

  /** The `matrix-name-legs` declaration of a job and what reading it yields: a failure,
      or the lines read. */
  datatype Legs = Undeclared | Unreadable | Legs(lines: seq<string>)

  datatype Job = Job(id: JobId, name: JobName, matrixed: bool, continueOnError: bool, legs: Legs)

  datatype Workflow = Workflow(file: string, onPullRequest: bool, jobs: seq<Job>, needs: Needs)

  /** What the regular expression `.+` can stand for. */
  predicate IsFiller(s: string) {
    s != "" && '\n' !in s
  }

  /** `".+".join(parts)` matches the whole of `context`. */
  predicate Matches(parts: seq<string>, context: string)
    decreases |parts|
  {
    if parts == [] then context == ""
    else if |parts| == 1 then context == parts[0]
    else
      parts[0] <= context
      && exists k | |parts[0]| < k <= |context| ::
           IsFiller(context[|parts[0]|..k]) && Matches(parts[1..], context[k..])
  }

  /** `<name> (<tuple>)`: the suffix GitHub gives a matrixed job. */
  predicate IsTupleOf(name: string, context: string) {
    |context| > |name| + 3 && name + " (" <= context && context[|context| - 1] == ')'
    && '\n' !in context[|name| + 2..|context| - 1]
  }

  // ------------------------------------------------------------------ accounting --

  datatype Refusal = NoWorkflows | NoRequired | OrphanContext | UnreadableLegs

  /** `leg_names`: lines that are not blank. */
  function LegNames(lines: seq<string>): seq<string> {
    if lines == [] then [] else (if IsBlank(lines[0]) then [] else [lines[0]]) + LegNames(lines[1..])
  }

  lemma {:induction false} LegNamesIff(lines: seq<string>, name: string)
    ensures name in LegNames(lines) <==> name in lines && !IsBlank(name)
  {
    if lines != [] {
      LegNamesIff(lines[1..], name);
    }
  }

  /** `accounting`: is the job named by some context of required and exclusions? */
  function Accounted(job: Job, census: set<string>): Result<bool, Refusal> {
    match job.name
    case Static(text) =>
      Ok(text in census || (job.matrixed && exists c | c in census :: IsTupleOf(text, c)))
    case Template(text, parts) =>
      if text in census then Ok(true)
      else if forall i | 0 <= i < |parts| :: IsBlank(parts[i]) then
        (match job.legs
         case Undeclared => Ok(false)
         case Unreadable => Err(UnreadableLegs)
         case Legs(lines) =>
           var names := LegNames(lines);
           if names == [] then Err(UnreadableLegs) else Ok(forall n | n in names :: n in census))
      else Ok(exists c | c in census :: Matches(parts, c))
  }

  /** Naming more contexts never unnames a job and never makes one unreadable. */
  lemma MoreNamesAccountMore(job: Job, census: set<string>, larger: set<string>)
    requires census <= larger
    ensures Accounted(job, census).Ok? ==> Accounted(job, larger).Ok?
    ensures Accounted(job, census) == Ok(true) ==> Accounted(job, larger) == Ok(true)
  {
    match job.name
    case Static(text) =>
      if c :| c in census && IsTupleOf(text, c) {
        assert c in larger;
      }
    case Template(_, parts) =>
      if c :| c in census && Matches(parts, c) {
        assert c in larger;
      }
  }

  /** A job's own name always accounts for it. */
  lemma OwnNameAccounts(job: Job, census: set<string>)
    requires job.name.text in census
    ensures Accounted(job, census) == Ok(true)
  {
  }

  /** A template is accounted for by any context it renders to: interpolations
      replaced by any values without newlines. */
  function Render(parts: seq<string>, values: seq<string>): string
    requires |parts| == |values| + 1
  {
    if values == [] then parts[0] else parts[0] + values[0] + Render(parts[1..], values[1..])
  }

  lemma {:induction false} RenderedContextMatches(parts: seq<string>, values: seq<string>)
    requires |parts| == |values| + 1 && forall v :: v in values ==> IsFiller(v)
    ensures Matches(parts, Render(parts, values))
    decreases |values|
  {
    if values != [] {
      var context, rest := Render(parts, values), Render(parts[1..], values[1..]);
      var k := |parts[0]| + |values[0]|;
      RenderedContextMatches(parts[1..], values[1..]);
      assert context[|parts[0]|..k] == values[0] && context[k..] == rest;
      assert values[0] in values;
    }
  }

  ghost predicate IsRendering(parts: seq<string>, values: seq<string>, context: string) {
    |parts| == |values| + 1 && (forall v :: v in values ==> IsFiller(v)) && Render(parts, values) == context
  }

  /** And only by those. */
  lemma {:induction false} MatchedContextIsRendered(parts: seq<string>, context: string) returns (values: seq<string>)
    requires parts != [] && Matches(parts, context)
    ensures IsRendering(parts, values, context)
    decreases |parts|
  {
    if |parts| == 1 {
      values := [];
    } else {
      var k :| |parts[0]| < k <= |context| && IsFiller(context[|parts[0]|..k]) && Matches(parts[1..], context[k..]);
      var rest := MatchedContextIsRendered(parts[1..], context[k..]);
      PrependValue(parts, context, k, rest);
      values := [context[|parts[0]|..k]] + rest;
    }
  }

  lemma PrependValue(parts: seq<string>, context: string, k: nat, rest: seq<string>)
    requires |parts| > 1 && |parts[0]| < k <= |context| && parts[0] <= context
    requires IsFiller(context[|parts[0]|..k]) && IsRendering(parts[1..], rest, context[k..])
    ensures IsRendering(parts, [context[|parts[0]|..k]] + rest, context)
  {
    var value := context[|parts[0]|..k];
    var values := [value] + rest;
    assert values[1..] == rest;
    assert context == parts[0] + value + context[k..];
  }

  // ------------------------------------------------- what it means to be accounted for --

  /** A matrixed job appears as its name with the values of its matrix in parentheses. */
  ghost predicate AppearsWithTuple(name: string, census: set<string>) {
    exists values: string :: IsFiller(values) && name + " (" + values + ")" in census
  }

  /** Some context is what the template renders to. */
  ghost predicate AppearsRendered(parts: seq<string>, census: set<string>) {
    exists c, values :: c in census && IsRendering(parts, values, c)
  }

  /** Nothing is left of the name once its interpolations are taken out. */
  predicate IsAllInterpolation(name: JobName) {
    name.Template? && forall part | part in name.parts :: IsBlank(part)
  }

  predicate IsLeg(name: string, lines: seq<string>) {
    name in lines && !IsBlank(name)
  }

  /** The spec names the job. */
  ghost predicate IsNamed(job: Job, census: set<string>) {
    || job.name.text in census
    || (job.name.Static? && job.matrixed && AppearsWithTuple(job.name.text, census))
    || (IsAllInterpolation(job.name) && job.legs.Legs? && HasLegs(job.legs.lines)
        && forall leg :: IsLeg(leg, job.legs.lines) ==> leg in census)
    || (job.name.Template? && !IsAllInterpolation(job.name) && AppearsRendered(job.name.parts, census))
  }

  ghost predicate HasLegs(lines: seq<string>) {
    exists leg :: IsLeg(leg, lines)
  }

  /** The job can be named by its legs only, and those cannot be read. */
  ghost predicate HasUnreadableLegs(job: Job, census: set<string>) {
    && job.name.text !in census && IsAllInterpolation(job.name)
    && (job.legs.Unreadable? || (job.legs.Legs? && !HasLegs(job.legs.lines)))
  }

  lemma TupleIff(name: string, context: string)
    ensures IsTupleOf(name, context) <==> exists values: string :: IsFiller(values) && context == name + " (" + values + ")"
  {
    if IsTupleOf(name, context) {
      var values := context[|name| + 2..|context| - 1];
      assert context == name + " (" + values + ")";
    }
    if values: string :| IsFiller(values) && context == name + " (" + values + ")" {
      assert context[|name| + 2..|context| - 1] == values;
    }
  }

  lemma WithTupleIff(name: string, census: set<string>)
    ensures AppearsWithTuple(name, census) <==> exists c :: c in census && IsTupleOf(name, c)
  {
    if c :| c in census && IsTupleOf(name, c) {
      TupleIff(name, c);
      var values: string :| IsFiller(values) && c == name + " (" + values + ")";
      assert name + " (" + values + ")" in census;
    }
    if values: string :| IsFiller(values) && name + " (" + values + ")" in census {
      TupleIff(name, name + " (" + values + ")");
    }
  }

  lemma RenderedIff(parts: seq<string>, census: set<string>)
    requires parts != []
    ensures AppearsRendered(parts, census) <==> exists c :: c in census && Matches(parts, c)
  {
    if c, values :| c in census && IsRendering(parts, values, c) {
      RenderedContextMatches(parts, values);
    }
    if c :| c in census && Matches(parts, c) {
      var values := MatchedContextIsRendered(parts, c);
    }
  }

  lemma LegsIff(lines: seq<string>, census: set<string>)
    ensures LegNames(lines) != [] <==> HasLegs(lines)
    ensures (forall n | n in LegNames(lines) :: n in census) <==> forall leg :: IsLeg(leg, lines) ==> leg in census
  {
    forall leg
      ensures IsLeg(leg, lines) <==> leg in LegNames(lines)
    {
      LegNamesIff(lines, leg);
    }
    if LegNames(lines) != [] {
      assert IsLeg(LegNames(lines)[0], lines);
    }
  }

  lemma BlankPartsIff(name: JobName)
    requires name.Template?
    ensures IsAllInterpolation(name) <==> forall i | 0 <= i < |name.parts| :: IsBlank(name.parts[i])
  {
  }

  /** When a job is accounted for, when its legs cannot be read, and so when neither. */
  lemma AccountedIff(job: Job, census: set<string>)
    ensures Accounted(job, census) == Ok(true) <==> IsNamed(job, census)
    ensures Accounted(job, census).Err? <==> HasUnreadableLegs(job, census)
    ensures Accounted(job, census).Err? ==> Accounted(job, census) == Err(UnreadableLegs)
  {
    match job.name
    case Static(text) => WithTupleIff(text, census);
    case Template(text, parts) =>
      BlankPartsIff(job.name);
      if IsAllInterpolation(job.name) {
        if job.legs.Legs? {
          LegsIff(job.legs.lines, census);
        }
      } else {
        RenderedIff(parts, census);
      }
  }

  // ----------------------------------------------------------------- the closure --

  /** Jobs whose rendered name is a required context. */
  function RequiredJobs(jobs: seq<Job>, required: set<string>): seq<JobId> {
    if jobs == [] then []
    else (if jobs[0].name.text in required then [jobs[0].id] else []) + RequiredJobs(jobs[1..], required)
  }

  /** The job with this id carries a required name. */
  ghost predicate IsRequired(jobs: seq<Job>, required: set<string>, id: JobId) {
    exists job :: job in jobs && job.id == id && job.name.text in required
  }

  lemma {:induction false} RequiredJobsIff(jobs: seq<Job>, required: set<string>, id: JobId)
    ensures id in RequiredJobs(jobs, required) <==> IsRequired(jobs, required, id)
  {
    if jobs != [] {
      RequiredJobsIff(jobs[1..], required, id);
      assert forall job :: job in jobs <==> job == jobs[0] || job in jobs[1..];
    }
  }

  /** A merge can be blocked by this job. */
  ghost predicate IsBlocking(w: Workflow, required: set<string>, job: Job) {
    job.id in RequiredJobs(w.jobs, required) || Feeds(w.needs, RequiredJobs(w.jobs, required), job.id)
  }

  /** The job carries a required name, or is needed, directly or not, by one that does. */
  ghost predicate CanBlock(w: Workflow, required: set<string>, id: JobId) {
    || IsRequired(w.jobs, required, id)
    || exists chain: seq<JobId> ::
         |chain| >= 2 && IsRequired(w.jobs, required, chain[0]) && chain[|chain| - 1] == id && IsChain(w.needs, chain)
  }

  lemma CanBlockIff(w: Workflow, required: set<string>, job: Job)
    ensures IsBlocking(w, required, job) <==> CanBlock(w, required, job.id)
  {
    var jobs := RequiredJobs(w.jobs, required);
    RequiredJobsIff(w.jobs, required, job.id);
    if Feeds(w.needs, jobs, job.id) {
      var chain: seq<JobId> :|
        |chain| >= 2 && chain[0] in jobs && chain[|chain| - 1] == job.id && IsChain(w.needs, chain);
      RequiredJobsIff(w.jobs, required, chain[0]);
    }
    if chain: seq<JobId> :| |chain| >= 2 && IsRequired(w.jobs, required, chain[0]) && chain[|chain| - 1] == job.id
                            && IsChain(w.needs, chain)
    {
      RequiredJobsIff(w.jobs, required, chain[0]);
    }
  }

  function Produced(workflows: seq<Workflow>, required: set<string>): set<string> {
    set w, job | w in workflows && job in w.jobs && job.name.text in required :: job.name.text
  }

  // ------------------------------------------------------------------- the census --

  datatype Row = Row(file: string, job: Job, accounted: bool, onPullRequest: bool)

  datatype Report = Report(total: nat, blocking: seq<Row>, residue: seq<Row>)

  /** The row a job adds to one list or the other. */
  function BlockingRow(w: Workflow, job: Job, blocking: bool, census: set<string>): seq<Row> {
    if blocking && Accounted(job, census).Ok?
    then [Row(w.file, job, Accounted(job, census).value, w.onPullRequest)] else []
  }

  function ResidueRow(w: Workflow, job: Job, blocking: bool, census: set<string>): seq<Row> {
    if !blocking && Accounted(job, census) == Ok(false) then [Row(w.file, job, false, w.onPullRequest)] else []
  }

  /** One workflow's jobs in order. */
  ghost function Blocking(w: Workflow, jobs: seq<Job>, required: set<string>, census: set<string>): seq<Row> {
    if jobs == [] then []
    else BlockingRow(w, jobs[0], IsBlocking(w, required, jobs[0]), census) + Blocking(w, jobs[1..], required, census)
  }

  ghost function Residue(w: Workflow, jobs: seq<Job>, required: set<string>, census: set<string>): seq<Row> {
    if jobs == [] then []
    else ResidueRow(w, jobs[0], IsBlocking(w, required, jobs[0]), census) + Residue(w, jobs[1..], required, census)
  }

  ghost function AllBlocking(ws: seq<Workflow>, required: set<string>, census: set<string>): seq<Row> {
    if ws == [] then [] else Blocking(ws[0], ws[0].jobs, required, census) + AllBlocking(ws[1..], required, census)
  }

  ghost function AllResidue(ws: seq<Workflow>, required: set<string>, census: set<string>): seq<Row> {
    if ws == [] then [] else Residue(ws[0], ws[0].jobs, required, census) + AllResidue(ws[1..], required, census)
  }

  function Total(ws: seq<Workflow>): nat {
    if ws == [] then 0 else |ws[0].jobs| + Total(ws[1..])
  }

  ghost predicate AllReadable(ws: seq<Workflow>, census: set<string>) {
    forall w, job :: w in ws && job in w.jobs ==> Accounted(job, census).Ok?
  }

  /** What is checked before any job is looked at. */
  function Preflight(ws: seq<Workflow>, required: set<string>): Option<Refusal> {
    if ws == [] then Some(NoWorkflows)
    else if required == {} then Some(NoRequired)
    else if !(required <= Produced(ws, required)) then Some(OrphanContext)
    else None
  }

  lemma BlockingSnoc(w: Workflow, jobs: seq<Job>, job: Job, required: set<string>, census: set<string>)
    ensures Blocking(w, jobs + [job], required, census)
              == Blocking(w, jobs, required, census) + BlockingRow(w, job, IsBlocking(w, required, job), census)
    ensures Residue(w, jobs + [job], required, census)
              == Residue(w, jobs, required, census) + ResidueRow(w, job, IsBlocking(w, required, job), census)
  {
    if jobs == [] {
      assert jobs + [job] == [job] && [job][1..] == [];
    } else {
      assert (jobs + [job])[1..] == jobs[1..] + [job];
      BlockingSnoc(w, jobs[1..], job, required, census);
    }
  }

  /** `census` for one workflow. */
  method CensusOf(w: Workflow, required: set<string>, census: set<string>)
    returns (readable: bool, blocking: seq<Row>, residue: seq<Row>)
    ensures readable <==> forall job :: job in w.jobs ==> Accounted(job, census).Ok?
    ensures readable ==> blocking == Blocking(w, w.jobs, required, census)
    ensures readable ==> residue == Residue(w, w.jobs, required, census)
  {
    var requiredJobs := RequiredJobs(w.jobs, required);
    var feeds := FeedsRequired(w.needs, requiredJobs);
    blocking, residue, readable := [], [], true;
    for i := 0 to |w.jobs|
      invariant readable <==> forall job :: job in w.jobs[..i] ==> Accounted(job, census).Ok?
      invariant blocking == Blocking(w, w.jobs[..i], required, census)
      invariant residue == Residue(w, w.jobs[..i], required, census)
    {
      var job := w.jobs[i];
      assert w.jobs[..i + 1] == w.jobs[..i] + [job];
      BlockingSnoc(w, w.jobs[..i], job, required, census);
      var isBlocking := job.id in requiredJobs || job.id in feeds;
      readable := readable && Accounted(job, census).Ok?;
      blocking := blocking + BlockingRow(w, job, isBlocking, census);
      residue := residue + ResidueRow(w, job, isBlocking, census);
    }
    assert w.jobs[..|w.jobs|] == w.jobs;
  }

  /** `census`. */
  method Census(ws: seq<Workflow>, required: set<string>, exclusions: set<string>) returns (r: Result<Report, Refusal>)
    ensures Preflight(ws, required).Some? ==> r == Err(Preflight(ws, required).value)
    ensures Preflight(ws, required).None? ==> (r.Ok? <==> AllReadable(ws, required + exclusions))
    ensures Preflight(ws, required).None? && r.Err? ==> r == Err(UnreadableLegs)
    ensures r.Ok? ==> r.value == Report(Total(ws), AllBlocking(ws, required, required + exclusions),
                                        AllResidue(ws, required, required + exclusions))
  {
    var refusal := Preflight(ws, required);
    if refusal.Some? {
      return Err(refusal.value);
    }
    var census := required + exclusions;
    var readable, total, blocking, residue := true, 0, [], [];
    for i := 0 to |ws|
      invariant readable <==> AllReadable(ws[..i], census)
      invariant readable ==> total == Total(ws[..i])
      invariant readable ==> blocking == AllBlocking(ws[..i], required, census)
      invariant readable ==> residue == AllResidue(ws[..i], required, census)
    {
      var w := ws[i];
      var ok, b, res := CensusOf(w, required, census);
      assert ws[..i + 1] == ws[..i] + [w];
      CensusSnoc(ws[..i], w, required, census);
      ReadableSnoc(ws[..i], w, census);
      readable := readable && ok;
      total, blocking, residue := total + |w.jobs|, blocking + b, residue + res;
    }
    assert ws[..|ws|] == ws;
    r := if readable then Ok(Report(total, blocking, residue)) else Err(UnreadableLegs);
  }

  lemma CensusSnoc(ws: seq<Workflow>, w: Workflow, required: set<string>, census: set<string>)
    ensures Total(ws + [w]) == Total(ws) + |w.jobs|
    ensures AllBlocking(ws + [w], required, census)
              == AllBlocking(ws, required, census) + Blocking(w, w.jobs, required, census)
    ensures AllResidue(ws + [w], required, census)
              == AllResidue(ws, required, census) + Residue(w, w.jobs, required, census)
  {
    TotalSnoc(ws, w);
    AllBlockingSnoc(ws, w, required, census);
    AllResidueSnoc(ws, w, required, census);
  }

  lemma {:induction false} TotalSnoc(ws: seq<Workflow>, w: Workflow)
    ensures Total(ws + [w]) == Total(ws) + |w.jobs|
  {
    if ws == [] {
      assert ws + [w] == [w] && [w][1..] == [];
    } else {
      assert (ws + [w])[0] == ws[0] && (ws + [w])[1..] == ws[1..] + [w];
      TotalSnoc(ws[1..], w);
    }
  }

  lemma {:induction false} AllBlockingSnoc(ws: seq<Workflow>, w: Workflow, required: set<string>, census: set<string>)
    ensures AllBlocking(ws + [w], required, census)
              == AllBlocking(ws, required, census) + Blocking(w, w.jobs, required, census)
  {
    var last := Blocking(w, w.jobs, required, census);
    if ws == [] {
      assert ws + [w] == [w] && [w][1..] == [];
      assert last + [] == last && [] + last == last;
    } else {
      Peel(ws, [w]);
      AllBlockingSnoc(ws[1..], w, required, census);
      Assoc(Blocking(ws[0], ws[0].jobs, required, census), AllBlocking(ws[1..], required, census), last);
    }
  }

  lemma {:induction false} AllResidueSnoc(ws: seq<Workflow>, w: Workflow, required: set<string>, census: set<string>)
    ensures AllResidue(ws + [w], required, census)
              == AllResidue(ws, required, census) + Residue(w, w.jobs, required, census)
  {
    var last := Residue(w, w.jobs, required, census);
    if ws == [] {
      assert ws + [w] == [w] && [w][1..] == [];
      assert last + [] == last && [] + last == last;
    } else {
      Peel(ws, [w]);
      AllResidueSnoc(ws[1..], w, required, census);
      Assoc(Residue(ws[0], ws[0].jobs, required, census), AllResidue(ws[1..], required, census), last);
    }
  }

  lemma ReadableSnoc(ws: seq<Workflow>, w: Workflow, census: set<string>)
    ensures AllReadable(ws + [w], census) <==>
              AllReadable(ws, census) && forall job :: job in w.jobs ==> Accounted(job, census).Ok?
  {
    assert w in ws + [w];
    assert forall x :: x in ws ==> x in ws + [w];
    assert forall x :: x in ws + [w] ==> x in ws || x == w;
  }

  // ------------------------------------------------------------------ the verdict --

  datatype Verdict = Green | Red | Refused

  ghost predicate HasUnaccounted(rows: seq<Row>) {
    exists row :: row in rows && !row.accounted
  }

  lemma UnaccountedSnoc(rows: seq<Row>, row: Row)
    ensures HasUnaccounted(rows + [row]) <==> HasUnaccounted(rows) || !row.accounted
  {
    assert forall r :: r in rows + [row] <==> r in rows || r == row;
  }

  /** Exit codes 0, 1 and 2. */
  ghost function VerdictOf(ws: seq<Workflow>, required: set<string>, exclusions: set<string>): Verdict {
    var census := required + exclusions;
    if Preflight(ws, required).Some? || !AllReadable(ws, census) then Refused
    else if HasUnaccounted(AllBlocking(ws, required, census)) then Red
    else Green
  }

  method CensusVerdict(ws: seq<Workflow>, required: set<string>, exclusions: set<string>) returns (v: Verdict)
    ensures v == VerdictOf(ws, required, exclusions)
  {
    var r := Census(ws, required, exclusions);
    if r.Err? {
      return Refused;
    }
    v := Green;
    for i := 0 to |r.value.blocking|
      invariant v == if HasUnaccounted(r.value.blocking[..i]) then Red else Green
    {
      var row := r.value.blocking[i];
      assert r.value.blocking[..i + 1] == r.value.blocking[..i] + [row];
      UnaccountedSnoc(r.value.blocking[..i], row);
      if !row.accounted {
        v := Red;
      }
    }
    assert r.value.blocking[..|r.value.blocking|] == r.value.blocking;
  }

  lemma {:induction false} BlockingRows(w: Workflow, jobs: seq<Job>, required: set<string>, census: set<string>, row: Row)
    requires forall job :: job in jobs ==> Accounted(job, census).Ok?
    ensures row in Blocking(w, jobs, required, census) <==>
              row.job in jobs && IsBlocking(w, required, row.job)
              && row == Row(w.file, row.job, Accounted(row.job, census).value, w.onPullRequest)
  {
    if jobs != [] {
      BlockingRows(w, jobs[1..], required, census, row);
    }
  }

  lemma {:induction false} AllBlockingRows(ws: seq<Workflow>, required: set<string>, census: set<string>, row: Row)
    requires AllReadable(ws, census)
    ensures row in AllBlocking(ws, required, census) <==>
              exists w :: w in ws && row.job in w.jobs && IsBlocking(w, required, row.job)
                          && row == Row(w.file, row.job, Accounted(row.job, census).value, w.onPullRequest)
  {
    if ws != [] {
      assert ws[0] in ws;
      BlockingRows(ws[0], ws[0].jobs, required, census, row);
      assert forall w :: w in ws[1..] ==> w in ws;
      AllBlockingRows(ws[1..], required, census, row);
    }
  }

  lemma {:induction false} ResidueRows(w: Workflow, jobs: seq<Job>, required: set<string>, census: set<string>, row: Row)
    ensures row in Residue(w, jobs, required, census) <==>
              row.job in jobs && !IsBlocking(w, required, row.job) && Accounted(row.job, census) == Ok(false)
              && row == Row(w.file, row.job, false, w.onPullRequest)
  {
    if jobs != [] {
      ResidueRows(w, jobs[1..], required, census, row);
    }
  }

  lemma {:induction false} AllResidueRows(ws: seq<Workflow>, required: set<string>, census: set<string>, row: Row)
    ensures row in AllResidue(ws, required, census) <==>
              exists w :: w in ws && row.job in w.jobs && !IsBlocking(w, required, row.job)
                          && Accounted(row.job, census) == Ok(false) && row == Row(w.file, row.job, false, w.onPullRequest)
  {
    if ws != [] {
      assert forall w :: w in ws <==> w == ws[0] || w in ws[1..];
      ResidueRows(ws[0], ws[0].jobs, required, census, row);
      AllResidueRows(ws[1..], required, census, row);
    }
  }

  /** The report lists the jobs that can block, and the unnamed ones that cannot. */
  lemma ReportIs(ws: seq<Workflow>, required: set<string>, census: set<string>, row: Row)
    requires AllReadable(ws, census)
    ensures row in AllBlocking(ws, required, census) <==>
              && row.accounted == IsNamed(row.job, census)
              && exists w :: w in ws && row.job in w.jobs && CanBlock(w, required, row.job.id)
                             && row.file == w.file && row.onPullRequest == w.onPullRequest
    ensures row in AllResidue(ws, required, census) <==>
              && !row.accounted && !IsNamed(row.job, census)
              && exists w :: w in ws && row.job in w.jobs && !CanBlock(w, required, row.job.id)
                             && row.file == w.file && row.onPullRequest == w.onPullRequest
  {
    AllBlockingRows(ws, required, census, row);
    AllResidueRows(ws, required, census, row);
    AccountedIff(row.job, census);
    forall w | w in ws
      ensures IsBlocking(w, required, row.job) <==> CanBlock(w, required, row.job.id)
      ensures row.job in w.jobs ==> Accounted(row.job, census).Ok?
    {
      CanBlockIff(w, required, row.job);
    }
  }

  /** Some workflow has a job of this name. */
  ghost predicate HasJobNamed(ws: seq<Workflow>, context: string) {
    exists w, job :: w in ws && job in w.jobs && job.name.text == context
  }

  lemma PreflightIff(ws: seq<Workflow>, required: set<string>)
    ensures Preflight(ws, required).None? <==>
              ws != [] && required != {} && forall context :: context in required ==> HasJobNamed(ws, context)
  {
  }

  ghost predicate LegsAreReadable(ws: seq<Workflow>, census: set<string>) {
    forall w, job :: w in ws && job in w.jobs ==> !HasUnreadableLegs(job, census)
  }

  ghost predicate BlockersAreNamed(ws: seq<Workflow>, required: set<string>, census: set<string>) {
    forall w, job :: w in ws && job in w.jobs && CanBlock(w, required, job.id) ==> IsNamed(job, census)
  }

  ghost predicate BlockersAreAccounted(ws: seq<Workflow>, required: set<string>, census: set<string>) {
    forall w, job :: w in ws && job in w.jobs && IsBlocking(w, required, job) ==> Accounted(job, census) == Ok(true)
  }

  lemma ReadableIff(ws: seq<Workflow>, census: set<string>)
    ensures AllReadable(ws, census) <==> LegsAreReadable(ws, census)
  {
    forall w, job | w in ws && job in w.jobs
      ensures Accounted(job, census).Ok? <==> !HasUnreadableLegs(job, census)
    {
      AccountedIff(job, census);
    }
  }

  lemma NamedIff(ws: seq<Workflow>, required: set<string>, census: set<string>)
    ensures BlockersAreAccounted(ws, required, census) <==> BlockersAreNamed(ws, required, census)
  {
    forall w, job | w in ws && job in w.jobs
      ensures Accounted(job, census) == Ok(true) <==> IsNamed(job, census)
      ensures IsBlocking(w, required, job) <==> CanBlock(w, required, job.id)
    {
      AccountedIff(job, census);
      CanBlockIff(w, required, job);
    }
  }

  /** Green means what it says: there is a spec, every required context is the name of a
      job, no legs are unreadable, and every job that can block a merge is named; and the
      guard is green whenever that is so. */
  lemma GreenIff(ws: seq<Workflow>, required: set<string>, exclusions: set<string>)
    ensures VerdictOf(ws, required, exclusions) == Green <==>
              && ws != [] && required != {}
              && (forall context :: context in required ==> HasJobNamed(ws, context))
              && LegsAreReadable(ws, required + exclusions)
              && BlockersAreNamed(ws, required, required + exclusions)
  {
    GreenWhenAccounted(ws, required, exclusions);
    PreflightIff(ws, required);
    ReadableIff(ws, required + exclusions);
    NamedIff(ws, required, required + exclusions);
  }

  lemma GreenWhenAccounted(ws: seq<Workflow>, required: set<string>, exclusions: set<string>)
    ensures VerdictOf(ws, required, exclusions) == Green <==>
              && Preflight(ws, required).None?
              && AllReadable(ws, required + exclusions)
              && BlockersAreAccounted(ws, required, required + exclusions)
  {
    var census := required + exclusions;
    if Preflight(ws, required).None? && AllReadable(ws, census) {
      forall w, job | w in ws && job in w.jobs && IsBlocking(w, required, job)
        ensures Row(w.file, job, Accounted(job, census).value, w.onPullRequest) in AllBlocking(ws, required, census)
      {
        AllBlockingRows(ws, required, census, Row(w.file, job, Accounted(job, census).value, w.onPullRequest));
      }
      if row :| row in AllBlocking(ws, required, census) && !row.accounted {
        AllBlockingRows(ws, required, census, row);
      }
    }
  }

  /** Adding exclusion rows never turns a green guard red or makes it refuse. */
  lemma MoreExclusionsStayGreen(ws: seq<Workflow>, required: set<string>, exclusions: set<string>, more: set<string>)
    requires VerdictOf(ws, required, exclusions) == Green && exclusions <= more
    ensures VerdictOf(ws, required, more) == Green
  {
    var census, larger := required + exclusions, required + more;
    GreenWhenAccounted(ws, required, exclusions);
    GreenWhenAccounted(ws, required, more);
    forall w, job | w in ws && job in w.jobs
      ensures Accounted(job, larger).Ok?
      ensures IsBlocking(w, required, job) ==> Accounted(job, larger) == Ok(true)
    {
      MoreNamesAccountMore(job, census, larger);
    }
  }

  /** Every finding of a red guard is named, by its own name, among `names`. */
  ghost predicate NamesFindings(ws: seq<Workflow>, required: set<string>, census: set<string>, names: set<string>) {
    forall row :: row in AllBlocking(ws, required, census) && !row.accounted ==> row.job.name.text in names
  }

  lemma NamedFindingIsAccounted(ws: seq<Workflow>, required: set<string>, census: set<string>, larger: set<string>,
                                w: Workflow, job: Job)
    requires AllReadable(ws, census) && NamesFindings(ws, required, census, larger) && census <= larger
    requires w in ws && job in w.jobs && IsBlocking(w, required, job)
    ensures Accounted(job, larger) == Ok(true)
  {
    MoreNamesAccountMore(job, census, larger);
    if Accounted(job, census) == Ok(false) {
      AllBlockingRows(ws, required, census, Row(w.file, job, false, w.onPullRequest));
      OwnNameAccounts(job, larger);
    }
  }

  /** The advice printed with every finding is sufficient: naming each unaccounted
      job by its own name turns a red guard green. */
  lemma NamingTheFindingsTurnsGreen(ws: seq<Workflow>, required: set<string>, exclusions: set<string>, more: set<string>)
    requires VerdictOf(ws, required, exclusions) == Red && exclusions <= more
    requires NamesFindings(ws, required, required + exclusions, more)
    ensures VerdictOf(ws, required, more) == Green
  {
    var census, larger := required + exclusions, required + more;
    GreenWhenAccounted(ws, required, more);
    forall w, job | w in ws && job in w.jobs
      ensures Accounted(job, larger).Ok?
    {
      MoreNamesAccountMore(job, census, larger);
    }
    forall w, job | w in ws && job in w.jobs && IsBlocking(w, required, job)
      ensures Accounted(job, larger) == Ok(true)
    {
      NamedFindingIsAccounted(ws, required, census, larger, w, job);
    }
  }
}
