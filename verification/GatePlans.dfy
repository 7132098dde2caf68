/** Gate plans, command outcomes and the plain answer both gate runners owe. */
module GatePlans {

  /** `failureText` is the line `_failure_summary` renders for the result. */
  datatype CommandResult = CommandResult(
    command: string, ok: bool, termination: string, infrastructure: bool, failureText: string)

  /** What one dispatched command came to: a result, or an exception out of the executor. */
  datatype Outcome = Returned(result: CommandResult) | Raised(error: string)

  datatype Plan = Plan(serial: seq<string>, groups: seq<seq<string>>)

  /** One position of a plan; the same command text may stand at several positions. */
  datatype Job = Serial(index: nat) | Parallel(group: nat, index: nat)

  datatype GateResult = GateResult(ok: bool, commands: seq<CommandResult>, summary: string)

  /** A finished plan, or the exception the runner re-raises. */
  datatype RunOutcome = Completed(result: GateResult) | Failed(error: string)

  predicate IsJob(plan: Plan, job: Job) {
    match job
    case Serial(i) => i < |plan.serial|
    case Parallel(g, i) => g < |plan.groups| && i < |plan.groups[g]|
  }

  function CommandOf(plan: Plan, job: Job): string {
    if !IsJob(plan, job) then ""
    else match job
      case Serial(i) => plan.serial[i]
      case Parallel(g, i) => plan.groups[g][i]
  }

  predicate Passes(o: Outcome) {
    o.Returned? && o.result.ok
  }

  /** Every command of the plan passes. */
  ghost predicate AllPass(plan: Plan, outcome: Job -> Outcome) {
    forall j :: IsJob(plan, j) ==> Passes(outcome(j))
  }

  /** No exception, no termination and no infrastructure error anywhere in the plan. */
  ghost predicate Calm(plan: Plan, outcome: Job -> Outcome) {
    forall j :: IsJob(plan, j) ==> Ordinary(outcome(j))
  }

  predicate Ordinary(o: Outcome) {
    o.Returned? && o.result.termination == "" && !o.result.infrastructure
  }

  // ---------------------------------------------------------------- order of results

  function SerialJobs(n: nat): seq<Job> {
    if n == 0 then [] else SerialJobs(n - 1) + [Serial(n - 1)]
  }

  function GroupJobs(g: nat, n: nat): seq<Job> {
    if n == 0 then [] else GroupJobs(g, n - 1) + [Parallel(g, n - 1)]
  }

  /** Jobs of the first `n` groups, group by group. */
  function ParallelJobs(groups: seq<seq<string>>, n: nat): seq<Job>
    requires n <= |groups|
  {
    if n == 0 then [] else ParallelJobs(groups, n - 1) + GroupJobs(n - 1, |groups[n - 1]|)
  }

  /** The order in which results are reported: the serial commands, then each group. */
  function AllJobs(plan: Plan): seq<Job> {
    SerialJobs(|plan.serial|) + ParallelJobs(plan.groups, |plan.groups|)
  }

  lemma {:induction false} SerialJobsMembers(n: nat, j: Job)
    ensures j in SerialJobs(n) <==> j.Serial? && j.index < n
  {
    if n > 0 { SerialJobsMembers(n - 1, j); }
  }

  lemma {:induction false} GroupJobsMembers(g: nat, n: nat, j: Job)
    ensures j in GroupJobs(g, n) <==> j.Parallel? && j.group == g && j.index < n
    ensures |GroupJobs(g, n)| == n
  {
    if n > 0 { GroupJobsMembers(g, n - 1, j); }
  }

  lemma {:induction false} ParallelJobsMembers(groups: seq<seq<string>>, n: nat, j: Job)
    requires n <= |groups|
    ensures j in ParallelJobs(groups, n) <==> j.Parallel? && j.group < n && j.index < |groups[j.group]|
  {
    if n > 0 {
      ParallelJobsMembers(groups, n - 1, j);
      GroupJobsMembers(n - 1, |groups[n - 1]|, j);
    }
  }

  /** The report order lists exactly the jobs of the plan. */
  lemma AllJobsMembers(plan: Plan, j: Job)
    ensures j in AllJobs(plan) <==> IsJob(plan, j)
  {
    SerialJobsMembers(|plan.serial|, j);
    ParallelJobsMembers(plan.groups, |plan.groups|, j);
  }

  function Texts(plan: Plan, jobs: seq<Job>): seq<string> {
    seq(|jobs|, i requires 0 <= i < |jobs| => CommandOf(plan, jobs[i]))
  }

  function Concat(groups: seq<seq<string>>): seq<string> {
    if groups == [] then [] else Concat(groups[..|groups| - 1]) + groups[|groups| - 1]
  }

  /** In the order of the report the plan is read from left to right. */
  lemma JobsReadThePlan(plan: Plan)
    ensures Texts(plan, AllJobs(plan)) == plan.serial + Concat(plan.groups)
  {
    SerialReads(plan, |plan.serial|);
    GroupsRead(plan, |plan.groups|);
    assert plan.serial[..|plan.serial|] == plan.serial && plan.groups[..|plan.groups|] == plan.groups;
    TextsConcat(plan, SerialJobs(|plan.serial|), ParallelJobs(plan.groups, |plan.groups|));
  }

  lemma TextsConcat(plan: Plan, a: seq<Job>, b: seq<Job>)
    ensures Texts(plan, a + b) == Texts(plan, a) + Texts(plan, b)
  {
    hide CommandOf;
  }

  lemma {:induction false} SerialReads(plan: Plan, n: nat)
    requires n <= |plan.serial|
    ensures Texts(plan, SerialJobs(n)) == plan.serial[..n]
  {
    if n > 0 {
      SerialReads(plan, n - 1);
      TextsConcat(plan, SerialJobs(n - 1), [Serial(n - 1)]);
      assert plan.serial[..n] == plan.serial[..n - 1] + [plan.serial[n - 1]];
    }
  }

  lemma {:induction false} GroupReads(plan: Plan, g: nat, n: nat)
    requires g < |plan.groups| && n <= |plan.groups[g]|
    ensures Texts(plan, GroupJobs(g, n)) == plan.groups[g][..n]
  {
    if n > 0 {
      GroupReads(plan, g, n - 1);
      TextsConcat(plan, GroupJobs(g, n - 1), [Parallel(g, n - 1)]);
      assert plan.groups[g][..n] == plan.groups[g][..n - 1] + [plan.groups[g][n - 1]];
    }
  }

  lemma {:induction false} GroupsRead(plan: Plan, n: nat)
    requires n <= |plan.groups|
    ensures Texts(plan, ParallelJobs(plan.groups, n)) == Concat(plan.groups[..n])
  {
    if n > 0 {
      var group := plan.groups[n - 1];
      GroupsRead(plan, n - 1);
      GroupReads(plan, n - 1, |group|);
      TextsConcat(plan, ParallelJobs(plan.groups, n - 1), GroupJobs(n - 1, |group|));
      assert plan.groups[..n][..n - 1] == plan.groups[..n - 1] && group[..|group|] == group;
    }
  }

  /** Results of those `jobs` that have one, in order. */
  function Collect(jobs: seq<Job>, done: map<Job, CommandResult>): seq<CommandResult> {
    if jobs == [] then []
    else (if jobs[0] in done then [done[jobs[0]]] else []) + Collect(jobs[1..], done)
  }

  /** The length check of the runner tells exactly whether every job has a result. */
  lemma {:induction false} CollectComplete(jobs: seq<Job>, done: map<Job, CommandResult>)
    ensures |Collect(jobs, done)| <= |jobs|
    ensures |Collect(jobs, done)| == |jobs| <==> forall j :: j in jobs ==> j in done
  {
    if jobs != [] {
      CollectComplete(jobs[1..], done);
      assert forall j :: j in jobs <==> j == jobs[0] || j in jobs[1..];
    }
  }

  lemma {:induction false} CollectMembers(jobs: seq<Job>, done: map<Job, CommandResult>, r: CommandResult)
    ensures r in Collect(jobs, done) <==> exists j :: j in jobs && j in done && done[j] == r
  {
    if jobs != [] {
      CollectMembers(jobs[1..], done, r);
      assert forall j :: j in jobs <==> j == jobs[0] || j in jobs[1..];
    }
  }

  function Failures(results: seq<CommandResult>): seq<CommandResult> {
    if results == [] then []
    else (if results[0].ok then [] else [results[0]]) + Failures(results[1..])
  }

  lemma {:induction false} FailuresConcat(a: seq<CommandResult>, b: seq<CommandResult>)
    ensures Failures(a + b) == Failures(a) + Failures(b)
  {
    if a == [] {
      assert a + b == b;
    } else {
      var head, rest := if a[0].ok then [] else [a[0]], a[1..] + b;
      assert (a + b)[1..] == rest && (a + b)[0] == a[0];
      FailuresConcat(a[1..], b);
      assert Failures(a + b) == head + Failures(rest) by { hide Failures; UnfoldFailures(a + b); }
    }
  }

  lemma UnfoldFailures(s: seq<CommandResult>)
    requires s != []
    ensures Failures(s) == (if s[0].ok then [] else [s[0]]) + Failures(s[1..])
  {
  }

  lemma {:induction false} FailuresMembers(results: seq<CommandResult>, r: CommandResult)
    ensures r in Failures(results) <==> r in results && !r.ok
  {
    if results != [] { FailuresMembers(results[1..], r); }
  }

  lemma {:induction false} AllOk(results: seq<CommandResult>)
    requires forall r :: r in results ==> r.ok
    ensures Failures(results) == []
  {
    if results != [] {
      assert results[0] in results;
      AllOk(results[1..]);
    }
  }

  function NotCancelled(results: seq<CommandResult>): seq<CommandResult> {
    if results == [] then []
    else (if results[0].termination != "cancelled" then [results[0]] else []) + NotCancelled(results[1..])
  }

  /** Failures worth reporting: those not cancelled, or the first one when all were. */
  function Reportable(failed: seq<CommandResult>): seq<CommandResult> {
    var kept := NotCancelled(failed);
    if kept != [] then kept else if failed == [] then [] else failed[..1]
  }

  lemma {:induction false} NothingCancelled(failed: seq<CommandResult>)
    requires forall r :: r in failed ==> r.termination == ""
    ensures Reportable(failed) == failed
  {
    if failed != [] {
      NothingCancelled(failed[1..]);
      assert failed[0] in failed;
    }
  }

  function FailureTexts(failed: seq<CommandResult>): seq<string> {
    seq(|failed|, i requires 0 <= i < |failed| => failed[i].failureText)
  }

  function Join(parts: seq<string>): string {
    if |parts| == 0 then "" else if |parts| == 1 then parts[0] else parts[0] + "; " + Join(parts[1..])
  }

  /** Parts come in order with a separator between any two. */
  lemma {:induction false} JoinSeparates(parts: seq<string>, more: seq<string>)
    requires parts != [] && more != []
    ensures Join(parts + more) == Join(parts) + "; " + Join(more) && Join(parts[..1]) == parts[0]
  {
    if |parts| == 1 {
      assert (parts + more)[1..] == more && parts[..1] == parts;
    } else {
      assert (parts + more)[1..] == parts[1..] + more;
      JoinSeparates(parts[1..], more);
    }
  }

  lemma {:induction false} NotCancelledMembers(failed: seq<CommandResult>, r: CommandResult)
    ensures r in NotCancelled(failed) <==> r in failed && r.termination != "cancelled"
  {
    if failed != [] {
      NotCancelledMembers(failed[1..], r);
      assert r in failed <==> r == failed[0] || r in failed[1..];
    }
  }

  lemma {:induction false} NotCancelledAppend(failed: seq<CommandResult>, r: CommandResult)
    ensures NotCancelled(failed + [r]) == NotCancelled(failed) + if r.termination == "cancelled" then [] else [r]
  {
    if failed == [] {
      assert failed + [r] == [r] && [r][1..] == [];
    } else {
      assert (failed + [r])[1..] == failed[1..] + [r];
      NotCancelledAppend(failed[1..], r);
    }
  }

  /** What is reported of failures: all that were not cancelled, or, when every one was, the first. */
  lemma ReportableMeans(failed: seq<CommandResult>)
    ensures (forall r :: r in failed ==> r.termination == "cancelled") ==> Reportable(failed) == failed[..if failed == [] then 0 else 1]
    ensures (exists r :: r in failed && r.termination != "cancelled") ==> Reportable(failed) == NotCancelled(failed)
  {
    hide NotCancelled;
    forall r ensures r in NotCancelled(failed) <==> r in failed && r.termination != "cancelled" { NotCancelledMembers(failed, r); }
    if NotCancelled(failed) != [] { assert NotCancelled(failed)[0] in NotCancelled(failed); }
  }

  function Summary(ok: bool, texts: seq<string>): string {
    if ok then "all commands passed" else Join(texts)
  }

  // ---------------------------------------------------------------- the plain answer

  function ResultOf(o: Outcome): CommandResult {
    if o.Returned? then o.result else CommandResult("", false, "", false, o.error)
  }

  function ResultsOf(jobs: seq<Job>, outcome: Job -> Outcome): seq<CommandResult> {
    seq(|jobs|, i requires 0 <= i < |jobs| => ResultOf(outcome(jobs[i])))
  }

  /** Run every command once in report order; the verdict and the summary follow. */
  function PlainAnswer(plan: Plan, outcome: Job -> Outcome): GateResult {
    var results := ResultsOf(AllJobs(plan), outcome);
    var failed := Failures(results);
    GateResult(failed == [], results, Summary(failed == [], FailureTexts(failed)))
  }

  lemma {:induction false} CollectAll(jobs: seq<Job>, done: map<Job, CommandResult>, outcome: Job -> Outcome)
    requires forall j :: j in jobs ==> j in done && done[j] == ResultOf(outcome(j))
    ensures Collect(jobs, done) == ResultsOf(jobs, outcome)
  {
    if jobs != [] {
      CollectAll(jobs[1..], done, outcome);
      assert ResultsOf(jobs, outcome) == [ResultOf(outcome(jobs[0]))] + ResultsOf(jobs[1..], outcome);
    }
  }
}
