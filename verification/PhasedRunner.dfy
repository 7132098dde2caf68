/** The phased gate runner, the simple reference beside the overlapped scheduler, and the choice
    between the two. */
module PhasedRunner {
  import opened GatePlans
  import opened Wrappers
  import opened SchedulePromises
  import Scheduler

  datatype GroupRun = GroupResults(results: seq<CommandResult>) | GroupRaised(error: string)

  /** `_run_parallel_commands`: futures finish in any order and each result lands at its own index. */
  method RunParallel(plan: Plan, g: nat, outcome: Job -> Outcome) returns (r: GroupRun)
    requires g < |plan.groups|
    ensures r.GroupResults? ==> r.results == ResultsOf(GroupJobs(g, |plan.groups[g]|), outcome)
    ensures r.GroupResults? <==> forall i: nat :: IsJob(plan, Parallel(g, i)) ==> outcome(Parallel(g, i)).Returned?
    ensures r.GroupRaised? ==> exists i: nat :: IsJob(plan, Parallel(g, i)) && outcome(Parallel(g, i)) == Raised(r.error)
  {
    var n := |plan.groups[g]|;
    var blank := CommandResult("", false, "", false, "");
    var results := seq(n, i => blank);
    var indices := Scheduler.Indices(n);
    var futures := set i | i in indices;
    forall i: nat | i < n ensures i in futures { assert indices[i] == i; }
    while futures != {}
      invariant |results| == n && forall i :: i in futures ==> i < n
      invariant forall i: nat :: i < n && i !in futures ==>
        outcome(Parallel(g, i)).Returned? && results[i] == outcome(Parallel(g, i)).result
      decreases futures
    {
      var future :| future in futures;
      futures := futures - {future};
      match outcome(Parallel(g, future))
      case Raised(e) => return GroupRaised(e);
      case Returned(result) => results := results[future := result];
    }
    GroupJobsAt(g, n);
    return GroupResults(results);
  }

  lemma {:induction false} GroupJobsAt(g: nat, n: nat)
    ensures |GroupJobs(g, n)| == n
    ensures forall i: nat :: i < n ==> GroupJobs(g, n)[i] == Parallel(g, i)
  {
    if n > 0 { GroupJobsAt(g, n - 1); }
  }

  lemma {:induction false} SerialJobsAt(n: nat)
    ensures |SerialJobs(n)| == n
    ensures forall i: nat :: i < n ==> SerialJobs(n)[i] == Serial(i)
  {
    if n > 0 { SerialJobsAt(n - 1); }
  }

  lemma ResultsConcat(a: seq<Job>, b: seq<Job>, outcome: Job -> Outcome)
    ensures ResultsOf(a + b, outcome) == ResultsOf(a, outcome) + ResultsOf(b, outcome)
  {
  }

  /** Jobs reported once the serial commands and the first `g` groups are through. */
  function JobsThrough(plan: Plan, g: nat): seq<Job>
    requires g <= |plan.groups|
  {
    SerialJobs(|plan.serial|) + ParallelJobs(plan.groups, g)
  }

  lemma TextsConcat(a: seq<CommandResult>, b: seq<CommandResult>)
    ensures FailureTexts(a + b) == FailureTexts(a) + FailureTexts(b)
  {
  }

  /** A failed result among those collected means that some command of the plan fails. */
  lemma FailureRefutes(plan: Plan, outcome: Job -> Outcome, jobs: seq<Job>)
    requires forall j :: j in jobs ==> IsJob(plan, j)
    requires Failures(ResultsOf(jobs, outcome)) != []
    ensures !AllPass(plan, outcome)
  {
    var results := ResultsOf(jobs, outcome);
    var r := Failures(results)[0];
    FailuresMembers(results, r);
    var i :| 0 <= i < |results| && results[i] == r;
    assert jobs[i] in jobs && !Passes(outcome(jobs[i]));
  }

  lemma NoFailureProves(plan: Plan, outcome: Job -> Outcome)
    requires Failures(ResultsOf(AllJobs(plan), outcome)) == []
    requires forall j :: IsJob(plan, j) ==> outcome(j).Returned?
    ensures AllPass(plan, outcome)
  {
    var jobs := AllJobs(plan);
    forall j | IsJob(plan, j) ensures Passes(outcome(j)) {
      AllJobsMembers(plan, j);
      var i :| 0 <= i < |jobs| && jobs[i] == j;
      var r := ResultsOf(jobs, outcome)[i];
      FailuresMembers(ResultsOf(jobs, outcome), r);
    }
  }

  lemma CalmFailures(plan: Plan, outcome: Job -> Outcome, g: nat)
    requires g < |plan.groups| && Calm(plan, outcome)
    ensures var failed := Failures(ResultsOf(GroupJobs(g, |plan.groups[g]|), outcome));
      Reportable(failed) == failed && forall r :: r in failed ==> r.termination == "" && !r.infrastructure
  {
    var jobs := GroupJobs(g, |plan.groups[g]|);
    var results := ResultsOf(jobs, outcome);
    forall r | r in Failures(results) ensures r.termination == "" && !r.infrastructure {
      FailuresMembers(results, r);
      var i :| 0 <= i < |results| && results[i] == r;
      GroupJobsMembers(g, |plan.groups[g]|, jobs[i]);
      assert Ordinary(outcome(jobs[i]));
    }
    NothingCancelled(Failures(results));
  }

  /** Where a phase leaves the runner: still going, or with the plan already answered. */
  datatype Phase =
    | Going(results: seq<CommandResult>, texts: seq<string>, ok: bool)
    | Answered(answer: RunOutcome)

  // ---------------------------------------------------------------- where the phases stop

  /** `b` is not after `a`: serial commands one by one, then group by group. */
  predicate NotAfter(b: Job, a: Job) {
    if b.Serial? then a.Parallel? || b.index <= a.index else a.Parallel? && b.group <= a.group
  }

  /** These are the commands that ran: with each its whole phase and all earlier ones, none after one that
      ends the run, and all of them unless one did. */
  ghost predicate PhasesOf(plan: Plan, collectAll: bool, outcome: Job -> Outcome, jobs: seq<Job>) {
    && (forall a, b :: a in jobs && IsJob(plan, b) && NotAfter(b, a) ==> b in jobs)
    && (forall a, b :: a in jobs && b in jobs && !Goes(collectAll, outcome(a)) ==> NotAfter(b, a))
    && ((forall a :: IsJob(plan, a) ==> a in jobs) || exists a :: a in jobs && !Goes(collectAll, outcome(a)))
  }

  /** The answer reports the commands that ran, in order; an exception comes from the first phase in which
      something ends the run. */
  ghost predicate StopsRightly(plan: Plan, collectAll: bool, outcome: Job -> Outcome, r: RunOutcome) {
    match r {
    case Completed(result) =>
      exists jobs :: jobs <= AllJobs(plan) && result.commands == ResultsOf(jobs, outcome) && PhasesOf(plan, collectAll, outcome, jobs)
    case Failed(error) =>
      exists a :: IsJob(plan, a) && outcome(a) == Raised(error)
        && forall b :: IsJob(plan, b) && !NotAfter(a, b) ==> Goes(collectAll, outcome(b))
    }
  }

  /** Failures told of the first `g` groups: in each those not cancelled, or else its first. */
  function GroupTexts(plan: Plan, outcome: Job -> Outcome, g: nat): seq<string>
    requires g <= |plan.groups|
  {
    if g == 0 then []
    else GroupTexts(plan, outcome, g - 1) + FailureTexts(Reportable(Failures(ResultsOf(GroupJobs(g - 1, |plan.groups[g - 1]|), outcome))))
  }

  /** After `n` serial commands and `g` groups. */
  ghost predicate TellsUpTo(plan: Plan, outcome: Job -> Outcome, result: GateResult, n: nat, g: nat) {
    && n <= |plan.serial| && g <= |plan.groups| && (g > 0 ==> n == |plan.serial|)
    && result.commands == ResultsOf(SerialJobs(n) + ParallelJobs(plan.groups, g), outcome)
    && result.summary == Summary(result.ok, FailureTexts(Failures(ResultsOf(SerialJobs(n), outcome))) + GroupTexts(plan, outcome, g))
  }

  /** The summary tells the failures among what ran. */
  ghost predicate TellsFailures(plan: Plan, outcome: Job -> Outcome, r: RunOutcome) {
    r.Completed? ==> exists n, g :: TellsUpTo(plan, outcome, r.result, n, g)
  }

  /** Everything in the first `g` groups and before them goes on. */
  ghost predicate AllGo(plan: Plan, collectAll: bool, outcome: Job -> Outcome, g: nat) {
    forall j :: IsJob(plan, j) && (j.Parallel? ==> j.group < g) ==> Goes(collectAll, outcome(j))
  }

  /** The last of the first `g` groups is where something ends the run. */
  ghost predicate EndsIn(plan: Plan, collectAll: bool, outcome: Job -> Outcome, g: nat) {
    && g > 0 && AllGo(plan, collectAll, outcome, g - 1)
    && exists j :: IsJob(plan, j) && j.Parallel? && j.group == g - 1 && !Goes(collectAll, outcome(j))
  }

  lemma ThroughMembers(plan: Plan, g: nat, j: Job)
    requires g <= |plan.groups|
    ensures j in JobsThrough(plan, g) <==> IsJob(plan, j) && (j.Parallel? ==> j.group < g)
  {
    SerialJobsMembers(|plan.serial|, j);
    ParallelJobsMembers(plan.groups, g, j);
  }

  /** Stopping after a group in which something ends the run, or when there is none left. */
  lemma GroupsStop(plan: Plan, collectAll: bool, outcome: Job -> Outcome, g: nat, r: RunOutcome)
    requires g <= |plan.groups| && r.Completed? && r.result.commands == ResultsOf(JobsThrough(plan, g), outcome)
    requires (g == |plan.groups| && AllGo(plan, collectAll, outcome, g)) || EndsIn(plan, collectAll, outcome, g)
    ensures StopsRightly(plan, collectAll, outcome, r)
  {
    ThroughPrefix(plan, g, outcome);
    var jobs := JobsThrough(plan, g);
    forall j ensures j in jobs <==> IsJob(plan, j) && (j.Parallel? ==> j.group < g) { ThroughMembers(plan, g, j); }
    hide JobsThrough, AllJobs, Goes;
    assert PhasesOf(plan, collectAll, outcome, jobs);
  }

  lemma SerialStopsRightly(plan: Plan, collectAll: bool, outcome: Job -> Outcome, i: nat, r: RunOutcome)
    requires i < |plan.serial| && r.Completed? && r.result.commands == ResultsOf(SerialJobs(i + 1), outcome)
    requires forall k: nat :: k < i ==> Goes(collectAll, outcome(Serial(k)))
    requires !Goes(collectAll, outcome(Serial(i)))
    ensures StopsRightly(plan, collectAll, outcome, r)
  {
    var jobs := SerialJobs(i + 1);
    SerialJobsAt(i + 1);
    SerialJobsAt(|plan.serial|);
    assert jobs <= AllJobs(plan);
    forall j ensures j in jobs <==> j.Serial? && j.index <= i { SerialJobsMembers(i + 1, j); }
    hide SerialJobs, AllJobs, Goes, PhasesOf;
    SerialPhases(plan, collectAll, outcome, i, jobs);
  }

  lemma SerialPhases(plan: Plan, collectAll: bool, outcome: Job -> Outcome, i: nat, jobs: seq<Job>)
    requires i < |plan.serial| && forall j :: j in jobs <==> j.Serial? && j.index <= i
    requires (forall k: nat :: k < i ==> Goes(collectAll, outcome(Serial(k)))) && !Goes(collectAll, outcome(Serial(i)))
    ensures PhasesOf(plan, collectAll, outcome, jobs)
  {
    hide Goes;
    assert Serial(i) in jobs;
    forall a | a in jobs && !Goes(collectAll, outcome(a)) ensures a == Serial(i) {
      assert a == Serial(a.index);
    }
  }

  /** What any answer of the phased runner satisfies. */
  ghost predicate SoundAnswer(plan: Plan, collectAll: bool, outcome: Job -> Outcome, r: RunOutcome) {
    StopsRightly(plan, collectAll, outcome, r) && TellsFailures(plan, outcome, r) &&
    match r {
    case Completed(result) =>
      && (result.ok <==> AllPass(plan, outcome))
      && result.commands <= ResultsOf(AllJobs(plan), outcome)
      && (collectAll && Calm(plan, outcome) ==> result == PlainAnswer(plan, outcome))
    case Failed(error) => !Calm(plan, outcome) && exists j :: IsJob(plan, j) && outcome(j) == Raised(error)
    }
  }

  /** Progress after some jobs: their results, whether all passed, and the failure texts when calm. */
  ghost predicate Tracks(plan: Plan, outcome: Job -> Outcome, jobs: seq<Job>, p: Phase)
    requires p.Going?
  {
    && p.results == ResultsOf(jobs, outcome)
    && (forall j :: j in jobs ==> outcome(j).Returned?)
    && (p.ok <==> Failures(p.results) == [])
    && (Calm(plan, outcome) ==> p.texts == FailureTexts(Failures(p.results)))
  }

  lemma RaisedNotCalm(plan: Plan, outcome: Job -> Outcome, j: Job)
    requires IsJob(plan, j) && outcome(j).Raised?
    ensures !Calm(plan, outcome)
  {
    assert !Ordinary(outcome(j));
  }

  lemma TracksMore(plan: Plan, outcome: Job -> Outcome, jobs: seq<Job>, p: Phase, more: seq<Job>, q: Phase)
    requires p.Going? && q.Going? && Tracks(plan, outcome, jobs, p)
    requires forall j :: j in more ==> outcome(j).Returned?
    requires var added := ResultsOf(more, outcome);
      && q.results == p.results + added
      && (q.ok <==> p.ok && Failures(added) == [])
      && (Calm(plan, outcome) ==> q.texts == p.texts + FailureTexts(Failures(added)))
    ensures Tracks(plan, outcome, jobs + more, q)
  {
    hide Failures, Calm;
    var added := ResultsOf(more, outcome);
    ResultsConcat(jobs, more, outcome);
    FailuresConcat(p.results, added);
    TextsConcat(Failures(p.results), Failures(added));
  }

  method RunSerialPhase(plan: Plan, collectAll: bool, outcome: Job -> Outcome) returns (p: Phase)
    ensures p.Answered? ==> SoundAnswer(plan, collectAll, outcome, p.answer)
    ensures p.Answered? && p.answer.Completed? ==> !p.answer.result.ok
    ensures p.Going? ==> Tracks(plan, outcome, SerialJobs(|plan.serial|), p) && AllGo(plan, collectAll, outcome, 0)
    ensures p.Going? ==> p.texts == FailureTexts(Failures(ResultsOf(SerialJobs(|plan.serial|), outcome)))
  {
    hide AllPass, Failures, AllJobs, AllGo, SoundAnswer, ResultsOf, Tracks, SerialJobs;
    p := Going([], [], true);
    NothingTracked(plan, outcome);
    for i := 0 to |plan.serial|
      invariant p.Going? && Tracks(plan, outcome, SerialJobs(i), p)
      invariant p.texts == FailureTexts(Failures(p.results))
      invariant forall k: nat :: k < i ==> Goes(collectAll, outcome(Serial(k)))
    {
      match outcome(Serial(i))
      case Raised(e) =>
        SerialRaised(plan, collectAll, outcome, i, e);
        return Answered(Failed(e));
      case Returned(result) =>
        var next := Going(p.results + [result], if result.ok then p.texts else p.texts + [result.failureText], p.ok && result.ok);
        SerialStep(plan, outcome, i, p, next);
        p := next;
        if !result.ok && (result.termination != "" || result.infrastructure || !collectAll) {
          SerialStop(plan, collectAll, outcome, i, p);
          return Answered(Completed(GateResult(false, p.results, Join(p.texts))));
        }
    }
    SerialGoes(plan, collectAll, outcome);
    TrackedResults(plan, outcome, SerialJobs(|plan.serial|), p);
  }

  /** The results of one more serial command are added. */
  lemma SerialStep(plan: Plan, outcome: Job -> Outcome, i: nat, p: Phase, next: Phase)
    requires i < |plan.serial| && outcome(Serial(i)).Returned? && p.Going?
    requires Tracks(plan, outcome, SerialJobs(i), p) && p.texts == FailureTexts(Failures(p.results))
    requires var result := outcome(Serial(i)).result;
      next == Going(p.results + [result], if result.ok then p.texts else p.texts + [result.failureText], p.ok && result.ok)
    ensures Tracks(plan, outcome, SerialJobs(i + 1), next) && next.texts == FailureTexts(Failures(next.results))
  {
    hide AllPass, Calm, Failures;
    OneResult(plan, outcome, i);
    TracksMore(plan, outcome, SerialJobs(i), p, [Serial(i)], next);
    TextsMore(p, next, outcome(Serial(i)).result);
  }

  lemma TextsMore(p: Phase, q: Phase, result: CommandResult)
    requires p.Going? && q.Going? && q.results == p.results + [result]
    requires p.texts == FailureTexts(Failures(p.results))
    requires q.texts == if result.ok then p.texts else p.texts + [result.failureText]
    ensures q.texts == FailureTexts(Failures(q.results))
  {
    FailuresConcat(p.results, [result]);
    TextsConcat(Failures(p.results), Failures([result]));
  }

  lemma SerialTells(plan: Plan, outcome: Job -> Outcome, n: nat, p: Phase, r: RunOutcome)
    requires n <= |plan.serial| && p.Going? && p.results == ResultsOf(SerialJobs(n), outcome)
    requires p.texts == FailureTexts(Failures(p.results))
    requires r == Completed(GateResult(false, p.results, Join(p.texts)))
    ensures TellsFailures(plan, outcome, r)
  {
    hide SerialJobs, Failures, Join, FailureTexts;
    assert SerialJobs(n) + [] == SerialJobs(n);
    assert FailureTexts(Failures(ResultsOf(SerialJobs(n), outcome))) + [] == p.texts;
    assert TellsUpTo(plan, outcome, r.result, n, 0);
  }

  lemma GroupTells(plan: Plan, outcome: Job -> Outcome, g: nat, p: Phase, r: RunOutcome)
    requires g <= |plan.groups| && p.Going? && p.results == ResultsOf(JobsThrough(plan, g), outcome)
    requires p.texts == FailureTexts(Failures(ResultsOf(SerialJobs(|plan.serial|), outcome))) + GroupTexts(plan, outcome, g)
    requires r == Completed(GateResult(p.ok, p.results, Summary(p.ok, p.texts)))
    ensures TellsFailures(plan, outcome, r)
  {
    assert TellsUpTo(plan, outcome, r.result, |plan.serial|, g);
  }

  lemma NothingTracked(plan: Plan, outcome: Job -> Outcome)
    ensures Tracks(plan, outcome, SerialJobs(0), Going([], [], true))
  {
  }

  lemma SerialRaised(plan: Plan, collectAll: bool, outcome: Job -> Outcome, i: nat, error: string)
    requires i < |plan.serial| && outcome(Serial(i)) == Raised(error)
    requires forall k: nat :: k < i ==> Goes(collectAll, outcome(Serial(k)))
    ensures SoundAnswer(plan, collectAll, outcome, Failed(error))
  {
    RaisedNotCalm(plan, outcome, Serial(i));
  }

  /** The serial lane stops where something ends the run. */
  lemma SerialStop(plan: Plan, collectAll: bool, outcome: Job -> Outcome, i: nat, p: Phase)
    requires i < |plan.serial| && outcome(Serial(i)).Returned? && !Goes(collectAll, outcome(Serial(i)))
    requires forall k: nat :: k < i ==> Goes(collectAll, outcome(Serial(k)))
    requires p.Going? && Tracks(plan, outcome, SerialJobs(i + 1), p) && p.texts == FailureTexts(Failures(p.results))
    ensures SoundAnswer(plan, collectAll, outcome, Completed(GateResult(false, p.results, Join(p.texts))))
  {
    var answer := Completed(GateResult(false, p.results, Join(p.texts)));
    TrackedResults(plan, outcome, SerialJobs(i + 1), p);
    hide Tracks, AllPass, Calm, StopsRightly, TellsFailures, AllJobs, SerialJobs, ResultsOf, PlainAnswer;
    SerialStops(plan, collectAll, outcome, i);
    SerialStopsRightly(plan, collectAll, outcome, i, answer);
    SerialTells(plan, outcome, i + 1, p, answer);
  }

  lemma SerialGoes(plan: Plan, collectAll: bool, outcome: Job -> Outcome)
    requires forall k: nat :: k < |plan.serial| ==> Goes(collectAll, outcome(Serial(k)))
    ensures AllGo(plan, collectAll, outcome, 0)
  {
  }

  lemma OneResult(plan: Plan, outcome: Job -> Outcome, i: nat)
    requires outcome(Serial(i)).Returned?
    ensures ResultsOf([Serial(i)], outcome) == [outcome(Serial(i)).result]
    ensures var result := outcome(Serial(i)).result; Failures([result]) == if result.ok then [] else [result]
    ensures var result := outcome(Serial(i)).result; FailureTexts(Failures([result])) == if result.ok then [] else [result.failureText]
  {
  }

  /** Stopping in the serial lane: the plan fails, and it was not a calm collect-all run. */
  lemma SerialStops(plan: Plan, collectAll: bool, outcome: Job -> Outcome, i: nat)
    requires i < |plan.serial| && outcome(Serial(i)).Returned? && !outcome(Serial(i)).result.ok
    requires collectAll ==> !Ordinary(outcome(Serial(i)))
    ensures !AllPass(plan, outcome) && !(collectAll && Calm(plan, outcome))
    ensures ResultsOf(SerialJobs(i + 1), outcome) <= ResultsOf(AllJobs(plan), outcome)
  {
    assert IsJob(plan, Serial(i)) && !Passes(outcome(Serial(i)));
    SerialPrefix(plan, i + 1, outcome);
  }

  /** `_run_phased_gate_plan`: serial commands one by one, then the groups one by one. */
  method RunPhased(plan: Plan, collectAll: bool, outcome: Job -> Outcome) returns (r: RunOutcome)
    ensures r.Completed? ==> (r.result.ok <==> AllPass(plan, outcome))
    ensures r.Completed? ==> r.result.commands <= ResultsOf(AllJobs(plan), outcome)
    ensures r.Failed? ==> exists j :: IsJob(plan, j) && outcome(j) == Raised(r.error)
    ensures StopsRightly(plan, collectAll, outcome, r) && TellsFailures(plan, outcome, r)
    ensures collectAll && Calm(plan, outcome) ==> r == Completed(PlainAnswer(plan, outcome))
  {
    hide AllPass, Failures, PlainAnswer, AllJobs, Tracks, JobsThrough, AllGo, StopsRightly, TellsFailures, Reportable,
      ResultsOf, FailureTexts, EndsIn;
    var p := RunSerialPhase(plan, collectAll, outcome);
    if p.Answered? { return p.answer; }
    var g, more := 0, true;
    ThroughNone(plan);
    while g < |plan.groups| && more
      invariant g <= |plan.groups| && p.Going?
      invariant Tracks(plan, outcome, JobsThrough(plan, g), p)
      invariant p.texts == FailureTexts(Failures(ResultsOf(SerialJobs(|plan.serial|), outcome))) + GroupTexts(plan, outcome, g)
      invariant !more ==> !p.ok && !(collectAll && Calm(plan, outcome))
      invariant more ==> AllGo(plan, collectAll, outcome, g)
      invariant !more ==> EndsIn(plan, collectAll, outcome, g)
      decreases |plan.groups| - g, more
    {
      var run := RunParallel(plan, g, outcome);
      if run.GroupRaised? {
        GroupRaisedStops(plan, collectAll, outcome, g, run.error);
        return Failed(run.error);
      }
      var failed := Failures(run.results);
      var next := Going(p.results + run.results, p.texts + FailureTexts(Reportable(failed)), p.ok && failed == []);
      GroupStep(plan, outcome, g, p, run.results, next);
      p := next;
      GroupGoes(plan, collectAll, outcome, g, run.results);
      if failed != [] && ((exists r | r in failed :: r.termination != "" || r.infrastructure) || !collectAll) {
        more := false;
      }
      g := g + 1;
    }
    Verdict(plan, g, outcome, p);
    r := Completed(GateResult(p.ok, p.results, Summary(p.ok, p.texts)));
    TrackedResults(plan, outcome, JobsThrough(plan, g), p);
    GroupsStop(plan, collectAll, outcome, g, r);
    GroupTells(plan, outcome, g, p, r);
  }

  lemma TrackedResults(plan: Plan, outcome: Job -> Outcome, jobs: seq<Job>, p: Phase)
    requires p.Going? && Tracks(plan, outcome, jobs, p)
    ensures p.results == ResultsOf(jobs, outcome)
  {
  }

  lemma GroupRaisedStops(plan: Plan, collectAll: bool, outcome: Job -> Outcome, g: nat, error: string)
    requires AllGo(plan, collectAll, outcome, g)
    requires exists i: nat :: IsJob(plan, Parallel(g, i)) && outcome(Parallel(g, i)) == Raised(error)
    ensures StopsRightly(plan, collectAll, outcome, Failed(error)) && TellsFailures(plan, outcome, Failed(error))
    ensures !Calm(plan, outcome)
  {
    var i: nat :| IsJob(plan, Parallel(g, i)) && outcome(Parallel(g, i)) == Raised(error);
    RaisedNotCalm(plan, outcome, Parallel(g, i));
  }

  /** The results of one more group are added. */
  lemma GroupStep(plan: Plan, outcome: Job -> Outcome, g: nat, p: Phase, results: seq<CommandResult>, next: Phase)
    requires g < |plan.groups| && forall i: nat :: IsJob(plan, Parallel(g, i)) ==> outcome(Parallel(g, i)).Returned?
    requires p.Going? && Tracks(plan, outcome, JobsThrough(plan, g), p)
    requires results == ResultsOf(GroupJobs(g, |plan.groups[g]|), outcome)
    requires var failed := Failures(results);
      next == Going(p.results + results, p.texts + FailureTexts(Reportable(failed)), p.ok && failed == [])
    ensures Tracks(plan, outcome, JobsThrough(plan, g + 1), next)
    ensures (exists r :: r in Failures(results) && (r.termination != "" || r.infrastructure)) ==> !Calm(plan, outcome)
  {
    if Calm(plan, outcome) { CalmFailures(plan, outcome, g); }
    hide Calm, Failures, Reportable, AllPass, FailureTexts;
    GroupReturned(plan, g, outcome);
    TracksMore(plan, outcome, JobsThrough(plan, g), p, GroupJobs(g, |plan.groups[g]|), next);
    ThroughNext(plan, g);
  }

  /** A group's results tell whether anything in it ends the run. */
  lemma GroupGoes(plan: Plan, collectAll: bool, outcome: Job -> Outcome, g: nat, results: seq<CommandResult>)
    requires g < |plan.groups| && AllGo(plan, collectAll, outcome, g)
    requires results == ResultsOf(GroupJobs(g, |plan.groups[g]|), outcome)
    requires forall i: nat :: IsJob(plan, Parallel(g, i)) ==> outcome(Parallel(g, i)).Returned?
    ensures var failed := Failures(results);
      if failed != [] && ((exists r | r in failed :: r.termination != "" || r.infrastructure) || !collectAll)
      then EndsIn(plan, collectAll, outcome, g + 1)
      else AllGo(plan, collectAll, outcome, g + 1)
  {
    hide Failures, GroupJobs, ResultsOf, AllGo, EndsIn, FailsIn, Goes;
    GroupFailures(plan, outcome, g, results);
    var failed := Failures(results);
    if failed != [] && ((exists r | r in failed :: r.termination != "" || r.infrastructure) || !collectAll) {
      var r :| r in failed && (r.termination != "" || r.infrastructure || !collectAll) by {
        if !collectAll { assert failed[0] in failed; }
      }
      GroupEnds(plan, collectAll, outcome, g, r);
    } else {
      NoneEnds(plan, collectAll, outcome, g, failed);
    }
  }

  lemma GroupEnds(plan: Plan, collectAll: bool, outcome: Job -> Outcome, g: nat, r: CommandResult)
    requires g < |plan.groups| && AllGo(plan, collectAll, outcome, g) && FailsIn(plan, outcome, g, r)
    requires r.termination != "" || r.infrastructure || !collectAll
    ensures EndsIn(plan, collectAll, outcome, g + 1)
  {
    var i: nat :| i < |plan.groups[g]| && outcome(Parallel(g, i)) == Returned(r);
    assert !Goes(collectAll, outcome(Parallel(g, i)));
  }

  lemma NoneEnds(plan: Plan, collectAll: bool, outcome: Job -> Outcome, g: nat, failed: seq<CommandResult>)
    requires g < |plan.groups| && AllGo(plan, collectAll, outcome, g)
    requires forall i: nat :: IsJob(plan, Parallel(g, i)) ==> outcome(Parallel(g, i)).Returned?
    requires forall r :: r in failed <==> FailsIn(plan, outcome, g, r)
    requires failed == [] || (collectAll && forall r :: r in failed ==> r.termination == "" && !r.infrastructure)
    ensures AllGo(plan, collectAll, outcome, g + 1)
  {
    forall i: nat | i < |plan.groups[g]| ensures Goes(collectAll, outcome(Parallel(g, i))) {
      assert IsJob(plan, Parallel(g, i));
      var r := outcome(Parallel(g, i)).result;
      if !r.ok { assert FailsIn(plan, outcome, g, r) && r in failed; }
    }
    hide Goes, FailsIn;
  }

  /** Some command of the group comes to this failure. */
  ghost predicate FailsIn(plan: Plan, outcome: Job -> Outcome, g: nat, r: CommandResult)
    requires g < |plan.groups|
  {
    !r.ok && exists i: nat :: i < |plan.groups[g]| && outcome(Parallel(g, i)) == Returned(r)
  }

  /** The failures of a group are those of its commands. */
  lemma GroupFailures(plan: Plan, outcome: Job -> Outcome, g: nat, results: seq<CommandResult>)
    requires g < |plan.groups| && results == ResultsOf(GroupJobs(g, |plan.groups[g]|), outcome)
    requires forall i: nat :: IsJob(plan, Parallel(g, i)) ==> outcome(Parallel(g, i)).Returned?
    ensures forall r :: r in Failures(results) <==> FailsIn(plan, outcome, g, r)
  {
    GroupJobsAt(g, |plan.groups[g]|);
    hide Failures, GroupJobs;
    assert |results| == |plan.groups[g]|;
    forall i: nat | i < |results| ensures outcome(Parallel(g, i)) == Returned(results[i]) { assert IsJob(plan, Parallel(g, i)); }
    forall r ensures r in Failures(results) <==> r in results && !r.ok { FailuresMembers(results, r); }
  }

  lemma ThroughNone(plan: Plan)
    ensures JobsThrough(plan, 0) == SerialJobs(|plan.serial|)
  {
    assert SerialJobs(|plan.serial|) + [] == SerialJobs(|plan.serial|);
  }

  lemma ThroughNext(plan: Plan, g: nat)
    requires g < |plan.groups|
    ensures JobsThrough(plan, g + 1) == JobsThrough(plan, g) + GroupJobs(g, |plan.groups[g]|)
  {
  }

  lemma GroupReturned(plan: Plan, g: nat, outcome: Job -> Outcome)
    requires g < |plan.groups| && forall i: nat :: IsJob(plan, Parallel(g, i)) ==> outcome(Parallel(g, i)).Returned?
    ensures forall j :: j in GroupJobs(g, |plan.groups[g]|) ==> outcome(j).Returned?
  {
    forall j | j in GroupJobs(g, |plan.groups[g]|) ensures outcome(j).Returned? {
      GroupJobsMembers(g, |plan.groups[g]|, j);
    }
  }

  lemma SerialPrefix(plan: Plan, i: nat, outcome: Job -> Outcome)
    requires i <= |plan.serial|
    ensures ResultsOf(SerialJobs(i), outcome) <= ResultsOf(AllJobs(plan), outcome)
  {
    SerialJobsAt(i);
    SerialJobsAt(|plan.serial|);
    assert SerialJobs(i) <= AllJobs(plan);
  }

  lemma {:induction false} ThroughPrefix(plan: Plan, g: nat, outcome: Job -> Outcome)
    requires g <= |plan.groups|
    ensures JobsThrough(plan, g) <= AllJobs(plan)
    ensures ResultsOf(JobsThrough(plan, g), outcome) <= ResultsOf(AllJobs(plan), outcome)
    decreases |plan.groups| - g
  {
    if g < |plan.groups| {
      ThroughPrefix(plan, g + 1, outcome);
      assert JobsThrough(plan, g + 1) == JobsThrough(plan, g) + GroupJobs(g, |plan.groups[g]|);
    }
  }

  /** Stopping early only happens on a failure, so the flag is the plan's own verdict. */
  lemma Verdict(plan: Plan, g: nat, outcome: Job -> Outcome, p: Phase)
    requires g <= |plan.groups| && p.Going? && Tracks(plan, outcome, JobsThrough(plan, g), p)
    requires g < |plan.groups| ==> !p.ok
    ensures p.ok <==> AllPass(plan, outcome)
    ensures p.results <= ResultsOf(AllJobs(plan), outcome)
    ensures g == |plan.groups| && Calm(plan, outcome) ==>
      PlainAnswer(plan, outcome) == GateResult(p.ok, p.results, Summary(p.ok, p.texts))
  {
    ThroughPrefix(plan, g, outcome);
    if p.ok {
      forall j | IsJob(plan, j) ensures outcome(j).Returned? { AllJobsMembers(plan, j); }
      NoFailureProves(plan, outcome);
    } else {
      forall j | j in JobsThrough(plan, g) ensures IsJob(plan, j) {
        AllJobsMembers(plan, j);
      }
      FailureRefutes(plan, outcome, JobsThrough(plan, g));
    }
  }

  /** `run_gate_plan`: with or without an executor, the verdict is the plan's, and with collect_all
      and no termination the whole answer is the same. */
  method RunGatePlan(plan: Plan, executor: Option<Executor>, workers: int, collectAll: bool,
                     outcome: Job -> Outcome)
    returns (r: RunOutcome, ghost log: seq<Event>)
    ensures r.Completed? ==> (r.result.ok <==> AllPass(plan, outcome))
    ensures r.Failed? ==> exists j :: IsJob(plan, j) && outcome(j) == Raised(r.error)
    ensures collectAll && Calm(plan, outcome) ==> r == Completed(PlainAnswer(plan, outcome))
    // with an executor the overlapped schedule's promises are kept, without one the phases stop as they should
    ensures executor.Some? ==>
      KeepsPromises(Run(plan, executor.value, workers, collectAll), outcome, log)
    ensures executor.Some? && r.Completed? ==> r.result.commands == Collect(AllJobs(plan), Scheduler.EndedResults(log, outcome))
    ensures executor.None? ==> StopsRightly(plan, collectAll, outcome, r) && TellsFailures(plan, outcome, r)
  {
    log := [];
    if executor.Some? {
      var events;
      r, events := Scheduler.RunOverlapped(plan, executor.value, workers, collectAll, outcome);
      if r.Failed? {
        var j :| j in Scheduler.EndedIn(events) && outcome(j) == Raised(r.error);
        Scheduler.EndedAreJobs(Scheduler.Configure(plan, executor.value, workers, collectAll), outcome, events, j);
      }
      log := events;
    } else {
      r := RunPhased(plan, collectAll, outcome);
    }
  }
}
