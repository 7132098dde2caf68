/** The overlapped gate scheduler: one serial lane beside ordered parallel groups, with slots,
    exclusive commands, backfill, early stop and draining. */
module Scheduler {
  import opened GatePlans
  import opened SchedulePromises
  import opened Sorting
  import opened Wrappers

  datatype Config = Config(
    plan: Plan, executor: Executor, slotCapacity: nat, jobCapacity: nat, collectAll: bool)

  function Max(a: int, b: int): int { if a < b then b else a }

  function Min(a: int, b: int): int { if a < b then a else b }

  function Configure(plan: Plan, executor: Executor, workers: int, collectAll: bool): Config {
    var slots := Max(1, if executor.capacity.Some? then executor.capacity.value else workers);
    Config(plan, executor, slots, Max(1, Min(workers, slots)), collectAll)
  }

  ghost predicate ValidConfig(cfg: Config) {
    1 <= cfg.jobCapacity && 1 <= cfg.slotCapacity
  }

  /** Slots of a command, clamped so that the widest command still fits an idle scheduler. */
  function SlotsFor(cfg: Config, command: string): nat {
    Min(cfg.slotCapacity, Max(1, cfg.executor.requiredSlots(command)))
  }

  function JobSlots(cfg: Config, job: Job): nat {
    SlotsFor(cfg, CommandOf(cfg.plan, job))
  }

  predicate JobExclusive(cfg: Config, job: Job) {
    cfg.executor.exclusive(CommandOf(cfg.plan, job))
  }

  function SlotSum(cfg: Config, running: seq<Job>): nat {
    if running == [] then 0 else JobSlots(cfg, running[0]) + SlotSum(cfg, running[1..])
  }

  predicate ExclusiveRunning(cfg: Config, running: seq<Job>) {
    exists j | j in running :: JobExclusive(cfg, j)
  }

  predicate SerialRunning(running: seq<Job>) {
    exists j | j in running :: j.Serial?
  }

  predicate GroupRunning(running: seq<Job>, g: nat) {
    exists j | j in running :: j.Parallel? && j.group == g
  }

  /** Does a failed outcome end dispatching? An exception always does. */
  predicate Stops(cfg: Config, o: Outcome) {
    o.Raised? || (!o.result.ok && (!cfg.collectAll || o.result.termination != "" || o.result.infrastructure))
  }

  // ---------------------------------------------------------------- what an observer sees

  function Without(running: seq<Job>, job: Job): seq<Job> {
    if running == [] then []
    else if running[0] == job then running[1..] else [running[0]] + Without(running[1..], job)
  }

  /** The commands running once the events of `log` have happened. */
  function RunningAfter(log: seq<Event>): seq<Job> {
    if log == [] then []
    else
      var before := RunningAfter(log[..|log| - 1]);
      match log[|log| - 1]
      case Started(j) => before + [j]
      case Ended(j) => Without(before, j)
  }

  function StartedIn(log: seq<Event>): set<Job> {
    if log == [] then {}
    else StartedIn(log[..|log| - 1]) + (if log[|log| - 1].Started? then {log[|log| - 1].job} else {})
  }

  function EndedIn(log: seq<Event>): set<Job> {
    if log == [] then {}
    else EndedIn(log[..|log| - 1]) + (if log[|log| - 1].Ended? then {log[|log| - 1].job} else {})
  }

  /** The resource promises: slot budget, job budget, one serial command, exclusive runs alone. */
  ghost predicate Safe(cfg: Config, running: seq<Job>) {
    && SlotSum(cfg, running) <= cfg.slotCapacity
    && |running| <= cfg.jobCapacity
    && (forall i, k :: 0 <= i < k < |running| ==> !(running[i].Serial? && running[k].Serial?))
    && (forall i :: 0 <= i < |running| && JobExclusive(cfg, running[i]) ==> |running| == 1)
  }

  predicate Fits(cfg: Config, command: string, used: nat, idle: bool) {
    used + SlotsFor(cfg, command) <= cfg.slotCapacity && (!cfg.executor.exclusive(command) || idle)
  }

  ghost predicate GroupFinished(cfg: Config, log: seq<Event>, g: nat)
    requires g < |cfg.plan.groups|
  {
    forall i: nat :: i < |cfg.plan.groups[g]| ==> Parallel(g, i) in EndedIn(log)
  }

  /** None of the commands group `g` has still to start fits beside what runs now. */
  ghost predicate NoneFits(cfg: Config, log: seq<Event>, g: nat)
    requires g < |cfg.plan.groups|
  {
    var running := RunningAfter(log);
    forall i: nat :: i < |cfg.plan.groups[g]| && Parallel(g, i) !in StartedIn(log)
          ==> !Fits(cfg, cfg.plan.groups[g][i], SlotSum(cfg, running), running == [])
  }

  /** Group `g` still has commands to start and none of them fits. */
  ghost predicate Blocked(cfg: Config, log: seq<Event>, g: nat)
    requires g < |cfg.plan.groups|
  {
    NoneFits(cfg, log, g) && exists i: nat :: i < |cfg.plan.groups[g]| && Parallel(g, i) !in StartedIn(log)
  }

  /** Every group before `g` is finished, or has nothing that fits behind a frontier that does not. */
  ghost predicate GroupMayStart(cfg: Config, log: seq<Event>, g: nat) {
    g < |cfg.plan.groups| &&
    forall h: nat :: h < g ==>
      GroupFinished(cfg, log, h) || (NoneFits(cfg, log, h) && exists b: nat :: b <= h && Blocked(cfg, log, b))
  }

  /** When `job` may be dispatched: once, in lane order, respecting group barriers, before any stop. */
  ghost predicate MayStart(cfg: Config, outcome: Job -> Outcome, log: seq<Event>, job: Job) {
    && IsJob(cfg.plan, job)
    && job !in StartedIn(log)
    && (forall k :: k in EndedIn(log) ==> !Stops(cfg, outcome(k)))
    && match job
       case Serial(i) => forall k: nat :: k < i ==> Serial(k) in EndedIn(log)
       case Parallel(g, i) => GroupMayStart(cfg, log, g) && FirstToFit(cfg, log, g, i)
  }

  function PriorityAt(executor: Executor, commands: seq<string>, i: nat): int {
    if i < |commands| then executor.priority(commands[i]) else 0
  }

  /** The order of a group's queue. */
  function Order(executor: Executor, commands: seq<string>): (nat, nat) -> bool {
    (a: nat, b: nat) =>
      PriorityAt(executor, commands, a) < PriorityAt(executor, commands, b)
      || (PriorityAt(executor, commands, a) == PriorityAt(executor, commands, b) && a <= b)
  }

  /** Nothing before it in its group's queue fits. */
  ghost predicate FirstToFit(cfg: Config, log: seq<Event>, g: nat, i: nat) {
    g < |cfg.plan.groups| &&
    var running := RunningAfter(log);
    var commands := cfg.plan.groups[g];
    forall h: nat :: h < |commands| && h != i && Parallel(g, h) !in StartedIn(log) && Order(cfg.executor, commands)(h, i) ==>
      !Fits(cfg, cfg.plan.groups[g][h], SlotSum(cfg, running), running == [])
  }

  ghost predicate Allowed(cfg: Config, outcome: Job -> Outcome, log: seq<Event>, e: Event) {
    match e
    case Started(j) => MayStart(cfg, outcome, log, j)
    case Ended(j) => j in RunningAfter(log)
  }

  /** Every moment of the run is safe and every event was allowed when it happened. */
  ghost predicate Disciplined(cfg: Config, outcome: Job -> Outcome, log: seq<Event>) {
    && (forall n :: 0 <= n <= |log| ==> Safe(cfg, RunningAfter(log[..n])))
    && (forall n :: 0 <= n < |log| ==> Allowed(cfg, outcome, log[..n], log[n]))
  }

  /** Results of the commands that ended with one. */
  ghost function EndedResults(log: seq<Event>, outcome: Job -> Outcome): map<Job, CommandResult> {
    map j | j in EndedIn(log) && outcome(j).Returned? :: outcome(j).result
  }

  lemma LogExtends(log: seq<Event>, e: Event)
    ensures StartedIn(log + [e]) == StartedIn(log) + (if e.Started? then {e.job} else {})
    ensures EndedIn(log + [e]) == EndedIn(log) + (if e.Ended? then {e.job} else {})
    ensures RunningAfter(log + [e]) ==
      if e.Started? then RunningAfter(log) + [e.job] else Without(RunningAfter(log), e.job)
  {
    assert (log + [e])[..|log|] == log;
  }

  lemma DisciplinedExtends(cfg: Config, outcome: Job -> Outcome, log: seq<Event>, e: Event)
    requires Disciplined(cfg, outcome, log)
    requires Allowed(cfg, outcome, log, e) && Safe(cfg, RunningAfter(log + [e]))
    ensures Disciplined(cfg, outcome, log + [e])
  {
    hide Safe, RunningAfter, Allowed;
    var longer := log + [e];
    forall n | 0 <= n <= |longer| ensures Safe(cfg, RunningAfter(longer[..n])) {
      if n <= |log| { assert longer[..n] == log[..n]; } else { assert longer[..n] == longer; }
    }
    forall n | 0 <= n < |longer| ensures Allowed(cfg, outcome, longer[..n], longer[n]) {
      assert longer[..n] == log[..n];
      if n == |log| { assert log[..n] == log; }
    }
  }

  lemma {:induction false} SlotSumAppend(cfg: Config, running: seq<Job>, j: Job)
    ensures SlotSum(cfg, running + [j]) == SlotSum(cfg, running) + JobSlots(cfg, j)
  {
    if running != [] {
      SlotSumAppend(cfg, running[1..], j);
      assert (running + [j])[1..] == running[1..] + [j];
    } else {
      assert (running + [j])[1..] == [];
    }
  }

  lemma {:induction false} WithoutRemoves(cfg: Config, running: seq<Job>, j: Job)
    requires Distinct(running) && j in running
    ensures var rest := Without(running, j);
      && Distinct(rest) && |rest| == |running| - 1
      && (forall k :: k in rest <==> k in running && k != j)
      && SlotSum(cfg, rest) + JobSlots(cfg, j) == SlotSum(cfg, running)
  {
    if running[0] == j {
      assert forall k :: k in running <==> k == running[0] || k in running[1..];
      assert forall k :: k in running[1..] ==> exists i :: 1 <= i < |running| && running[i] == k;
    } else {
      WithoutRemoves(cfg, running[1..], j);
      var rest := Without(running, j);
      assert rest == [running[0]] + Without(running[1..], j);
      assert forall k :: k in running <==> k == running[0] || k in running[1..];
      assert running[0] !in running[1..];
      assert rest[1..] == Without(running[1..], j);
    }
  }

  /** Letting go of a command keeps a safe mix safe. */
  lemma {:induction false} WithoutSafe(cfg: Config, running: seq<Job>, j: Job)
    requires Distinct(running) && j in running && Safe(cfg, running)
    ensures Safe(cfg, Without(running, j))
  {
    WithoutRemoves(cfg, running, j);
    var rest := Without(running, j);
    forall i, k | 0 <= i < k < |rest| ensures !(rest[i].Serial? && rest[k].Serial?) {
      assert rest[i] in running && rest[k] in running && rest[i] != rest[k];
    }
    forall i | 0 <= i < |rest| ensures !JobExclusive(cfg, rest[i]) {
      assert rest[i] in running;
    }
  }

  lemma AppendSafe(cfg: Config, running: seq<Job>, j: Job)
    requires Safe(cfg, running) && |running| < cfg.jobCapacity
    requires Fits(cfg, CommandOf(cfg.plan, j), SlotSum(cfg, running), running == [])
    requires !ExclusiveRunning(cfg, running)
    requires j.Serial? ==> !SerialRunning(running)
    ensures Safe(cfg, running + [j])
  {
    SlotSumAppend(cfg, running, j);
    var more := running + [j];
    forall i, k | 0 <= i < k < |more| ensures !(more[i].Serial? && more[k].Serial?) {
      assert more[i] in running;
    }
    forall i | 0 <= i < |running| ensures !JobExclusive(cfg, more[i]) {
      assert more[i] in running;
    }
  }

  // ---------------------------------------------------------------- scheduler state

  /** The scheduler's local state. `pending[g]` lists the command indices group `g` still has to
      start; `log` is the dispatch and completion stream reported to the progress callback. */
  datatype State = State(
    running: seq<Job>, pending: seq<seq<nat>>, serialNext: nat, groupIndex: nat,
    stop: bool, fatal: Option<string>, done: map<Job, CommandResult>, log: seq<Event>)

  predicate Waiting(cfg: Config, s: State, j: Job)
    requires |s.pending| == |cfg.plan.groups|
  {
    IsJob(cfg.plan, j) &&
    match j
    case Serial(i) => s.serialNext <= i
    case Parallel(g, i) => i in s.pending[g]
  }

  ghost predicate Shape(cfg: Config, s: State) {
    && |s.pending| == |cfg.plan.groups|
    && s.serialNext <= |cfg.plan.serial|
    && s.groupIndex <= |cfg.plan.groups|
    && (forall g :: 0 <= g < |s.pending| ==> Distinct(s.pending[g]))
    && (forall g, i :: 0 <= g < |s.pending| && i in s.pending[g] ==> i < |cfg.plan.groups[g]|)
    && (forall g :: 0 <= g < |s.pending| ==> Sorted(Order(cfg.executor, cfg.plan.groups[g]), s.pending[g]))
  }

  /** Every job is waiting, running or ended, and groups behind the head are finished. */
  ghost predicate Located(cfg: Config, s: State)
    requires Shape(cfg, s)
  {
    && s.running == RunningAfter(s.log)
    && Distinct(s.running)
    && (forall j :: j in StartedIn(s.log) <==> IsJob(cfg.plan, j) && !Waiting(cfg, s, j))
    && (forall j :: j in s.running <==> j in StartedIn(s.log) && j !in EndedIn(s.log))
    && EndedIn(s.log) <= StartedIn(s.log)
    && (forall g: nat :: g < s.groupIndex ==> GroupFinished(cfg, s.log, g))
  }

  /** The results and flags say what ended how. */
  ghost predicate Flagged(cfg: Config, outcome: Job -> Outcome, s: State) {
    && s.done == EndedResults(s.log, outcome)
    && (s.stop <==> exists j :: j in EndedIn(s.log) && Stops(cfg, outcome(j)))
    && (s.fatal.None? <==> forall j :: j in EndedIn(s.log) ==> outcome(j).Returned?)
    && (s.fatal.Some? ==> exists j :: j in EndedIn(s.log) && outcome(j) == Raised(s.fatal.value))
  }

  ghost predicate Valid(cfg: Config, outcome: Job -> Outcome, s: State) {
    && ValidConfig(cfg)
    && Shape(cfg, s)
    && Located(cfg, s)
    && Flagged(cfg, outcome, s)
    && Disciplined(cfg, outcome, s.log)
  }

  lemma NowSafe(cfg: Config, outcome: Job -> Outcome, s: State)
    requires Valid(cfg, outcome, s)
    ensures Safe(cfg, s.running)
  {
    hide RunningAfter, Safe, Allowed;
    assert s.log[..|s.log|] == s.log;
  }

  function PendingCount(pending: seq<seq<nat>>): nat {
    if pending == [] then 0 else |pending[0]| + PendingCount(pending[1..])
  }

  /** Commands not yet dispatched. */
  function Undispatched(cfg: Config, s: State): int {
    |cfg.plan.serial| - s.serialNext + PendingCount(s.pending)
  }

  lemma {:induction false} PendingCountUpdate(pending: seq<seq<nat>>, g: nat, v: seq<nat>)
    requires g < |pending|
    ensures PendingCount(pending[g := v]) == PendingCount(pending) - |pending[g]| + |v|
  {
    if g == 0 {
      assert pending[g := v][1..] == pending[1..];
    } else {
      PendingCountUpdate(pending[1..], g - 1, v);
      assert pending[g := v][1..] == pending[1..][g - 1 := v];
    }
  }

  lemma {:induction false} PendingEmpty(pending: seq<seq<nat>>)
    requires forall g :: 0 <= g < |pending| ==> pending[g] == []
    ensures PendingCount(pending) == 0
  {
    if pending != [] { PendingEmpty(pending[1..]); }
  }

  /** Dispatching a waiting job that may start keeps the state valid. */
  lemma DispatchKeepsValid(cfg: Config, outcome: Job -> Outcome, s: State, t: State, job: Job)
    requires Valid(cfg, outcome, s) && !s.stop
    requires Shape(cfg, t) && Waiting(cfg, s, job)
    requires t.running == s.running + [job] && t.log == s.log + [Started(job)]
    requires t.stop == s.stop && t.fatal == s.fatal && t.done == s.done && t.groupIndex == s.groupIndex
    requires forall j :: Waiting(cfg, t, j) <==> Waiting(cfg, s, j) && j != job
    requires Safe(cfg, t.running)
    requires job.Serial? ==> forall k: nat :: k < job.index ==> Serial(k) in EndedIn(s.log)
    requires job.Parallel? ==> GroupMayStart(cfg, s.log, job.group) && FirstToFit(cfg, s.log, job.group, job.index)
    ensures Valid(cfg, outcome, t)
  {
    hide Disciplined, RunningAfter, StartedIn, EndedIn, Safe, Waiting, GroupMayStart, FirstToFit, Located, Flagged, Shape;
    DispatchKeepsLocated(cfg, s, t, job);
    LogExtends(s.log, Started(job));
    assert Flagged(cfg, outcome, t) by {
      hide *;
      SameFlags(cfg, outcome, s, t);
    }
    NothingStopped(cfg, outcome, s);
    assert MayStart(cfg, outcome, s.log, job);
    DisciplinedExtends(cfg, outcome, s.log, Started(job));
  }

  lemma NothingStopped(cfg: Config, outcome: Job -> Outcome, s: State)
    requires Flagged(cfg, outcome, s) && !s.stop
    ensures forall k :: k in EndedIn(s.log) ==> !Stops(cfg, outcome(k))
  {
  }

  lemma SameFlags(cfg: Config, outcome: Job -> Outcome, s: State, t: State)
    requires Flagged(cfg, outcome, s) && EndedIn(t.log) == EndedIn(s.log)
    requires t.stop == s.stop && t.fatal == s.fatal && t.done == s.done
    ensures Flagged(cfg, outcome, t)
  {
    hide EndedIn, Stops;
  }

  lemma DispatchKeepsLocated(cfg: Config, s: State, t: State, job: Job)
    requires Shape(cfg, s) && Shape(cfg, t) && Located(cfg, s) && Waiting(cfg, s, job)
    requires t.running == s.running + [job] && t.log == s.log + [Started(job)] && t.groupIndex == s.groupIndex
    requires forall j :: Waiting(cfg, t, j) <==> Waiting(cfg, s, j) && j != job
    ensures Located(cfg, t) && t.running == RunningAfter(t.log)
    ensures IsJob(cfg.plan, job) && job !in StartedIn(s.log)
  {
    assert IsJob(cfg.plan, job);
    hide RunningAfter, StartedIn, EndedIn, Waiting;
    LogExtends(s.log, Started(job));
    assert job !in StartedIn(s.log) && job !in s.running;
    forall g: nat | g < t.groupIndex ensures GroupFinished(cfg, t.log, g) {
      assert GroupFinished(cfg, s.log, g);
    }
  }

  // ---------------------------------------------------------------- selection

  /** Position of the first waiting command of group `g` that fits, or the length. */
  function FirstFit(cfg: Config, g: nat, pending: seq<nat>, used: nat, idle: bool): (r: nat)
    ensures r <= |pending|
    ensures r < |pending| ==> Fits(cfg, CommandOf(cfg.plan, Parallel(g, pending[r])), used, idle)
    ensures forall k :: 0 <= k < r ==> !Fits(cfg, CommandOf(cfg.plan, Parallel(g, pending[k])), used, idle)
  {
    if pending == [] then 0
    else if Fits(cfg, CommandOf(cfg.plan, Parallel(g, pending[0])), used, idle) then 0
    else 1 + FirstFit(cfg, g, pending[1..], used, idle)
  }

  /** The first fitting command of the groups from `g` on, as group and position. */
  function FirstLaterFit(cfg: Config, pending: seq<seq<nat>>, g: nat, used: nat, idle: bool): (r: Option<(nat, nat)>)
    ensures r.Some? ==> g <= r.value.0 < |pending|
    ensures r.Some? ==> r.value.1 == FirstFit(cfg, r.value.0, pending[r.value.0], used, idle) < |pending[r.value.0]|
    ensures r.Some? ==> forall h: nat :: g <= h < r.value.0 ==>
      FirstFit(cfg, h, pending[h], used, idle) == |pending[h]|
    ensures r.None? ==> forall h: nat :: g <= h < |pending| ==>
      FirstFit(cfg, h, pending[h], used, idle) == |pending[h]|
    decreases |pending| - g
  {
    if |pending| <= g then None
    else
      var p := FirstFit(cfg, g, pending[g], used, idle);
      if p < |pending[g]| then Some((g, p)) else FirstLaterFit(cfg, pending, g + 1, used, idle)
  }

  /** `pending.pop(position)`. */
  function Pop(s: seq<nat>, p: nat): seq<nat>
    requires p < |s|
  {
    s[..p] + s[p + 1..]
  }

  lemma PopRemoves(s: seq<nat>, p: nat)
    requires p < |s| && Distinct(s)
    ensures Distinct(Pop(s, p)) && |Pop(s, p)| == |s| - 1
    ensures forall x :: x in Pop(s, p) <==> x in s && x != s[p]
  {
    forall x ensures x in Pop(s, p) <==> x in s && x != s[p] {
      if x in s && x != s[p] {
        var i :| 0 <= i < |s| && s[i] == x;
        if i < p { assert Pop(s, p)[i] == x; } else { assert Pop(s, p)[i - 1] == x; }
      }
    }
  }

  // ---------------------------------------------------------------- dispatching

  method AdvanceCompletedGroups(cfg: Config, ghost outcome: Job -> Outcome, s: State) returns (t: State)
    requires Valid(cfg, outcome, s)
    ensures Valid(cfg, outcome, t)
    ensures t == s.(groupIndex := t.groupIndex) && s.groupIndex <= t.groupIndex
    ensures t.groupIndex < |cfg.plan.groups| ==>
      t.pending[t.groupIndex] != [] || GroupRunning(t.running, t.groupIndex)
  {
    hide Disciplined, RunningAfter, StartedIn, EndedIn, Stops;
    t := s;
    while t.groupIndex < |cfg.plan.groups| && t.pending[t.groupIndex] == [] && !GroupRunning(t.running, t.groupIndex)
      invariant Valid(cfg, outcome, t)
      invariant t == s.(groupIndex := t.groupIndex) && s.groupIndex <= t.groupIndex
      decreases |cfg.plan.groups| - t.groupIndex
    {
      assert GroupFinished(cfg, t.log, t.groupIndex) by {
        forall i: nat | i < |cfg.plan.groups[t.groupIndex]| ensures Parallel(t.groupIndex, i) in EndedIn(t.log) {
          assert !Waiting(cfg, t, Parallel(t.groupIndex, i));
          assert Parallel(t.groupIndex, i) in StartedIn(t.log);
        }
      }
      t := t.(groupIndex := t.groupIndex + 1);
    }
  }

  method DispatchSerial(cfg: Config, ghost outcome: Job -> Outcome, s: State) returns (t: State, progress: bool)
    requires Valid(cfg, outcome, s) && !s.stop
    ensures Valid(cfg, outcome, t)
    ensures t == s.(serialNext := t.serialNext, running := t.running, log := t.log)
    ensures forall j :: j in s.running ==> j in t.running
    ensures !progress ==> t == s
    ensures progress ==> t.running != [] && Undispatched(cfg, t) < Undispatched(cfg, s)
    ensures !progress && s.running == [] ==> s.serialNext == |cfg.plan.serial|
  {
    hide Disciplined, RunningAfter, StartedIn, EndedIn, Stops;
    t, progress := s, false;
    if s.serialNext < |cfg.plan.serial| && !SerialRunning(s.running)
      && |s.running| < cfg.jobCapacity && !ExclusiveRunning(cfg, s.running)
    {
      if Fits(cfg, cfg.plan.serial[s.serialNext], SlotSum(cfg, s.running), s.running == []) {
        var job := Serial(s.serialNext);
        t := s.(serialNext := s.serialNext + 1, running := s.running + [job], log := s.log + [Started(job)]);
        progress := true;
        NowSafe(cfg, outcome, s);
        AppendSafe(cfg, s.running, job);
        forall k: nat | k < job.index ensures Serial(k) in EndedIn(s.log) {
          assert !Waiting(cfg, s, Serial(k));
          assert Serial(k) in StartedIn(s.log);
        }
        DispatchKeepsValid(cfg, outcome, s, t, job);
      }
    }
  }

  /** Dispatching the command at `position` of group `g`. */
  function DispatchParallel(s: State, g: nat, position: nat): State
    requires g < |s.pending| && position < |s.pending[g]|
  {
    var job := Parallel(g, s.pending[g][position]);
    s.(pending := s.pending[g := Pop(s.pending[g], position)],
       running := s.running + [job], log := s.log + [Started(job)])
  }

  lemma DispatchParallelKeepsValid(cfg: Config, outcome: Job -> Outcome, s: State, g: nat, position: nat)
    requires Valid(cfg, outcome, s) && !s.stop
    requires g < |s.pending| && position < |s.pending[g]|
    requires |s.running| < cfg.jobCapacity && !ExclusiveRunning(cfg, s.running)
    requires Fits(cfg, CommandOf(cfg.plan, Parallel(g, s.pending[g][position])), SlotSum(cfg, s.running), s.running == [])
    requires GroupMayStart(cfg, s.log, g)
    requires forall k :: 0 <= k < position ==>
      !Fits(cfg, CommandOf(cfg.plan, Parallel(g, s.pending[g][k])), SlotSum(cfg, s.running), s.running == [])
    ensures Valid(cfg, outcome, DispatchParallel(s, g, position))
    ensures Undispatched(cfg, DispatchParallel(s, g, position)) == Undispatched(cfg, s) - 1
  {
    hide Disciplined, RunningAfter, StartedIn, EndedIn, Stops, GroupMayStart, FirstToFit, Order, Pop, Safe;
    var t := DispatchParallel(s, g, position);
    var job := Parallel(g, s.pending[g][position]);
    PopRemoves(s.pending[g], position);
    PopSorted(Order(cfg.executor, cfg.plan.groups[g]), s.pending[g], position);
    PassedOver(cfg, outcome, s, g, position);
    PendingCountUpdate(s.pending, g, Pop(s.pending[g], position));
    assert s.pending[g][position] in s.pending[g];
    NowSafe(cfg, outcome, s);
    AppendSafe(cfg, s.running, job);
    forall j ensures Waiting(cfg, t, j) <==> Waiting(cfg, s, j) && j != job {
      if j.Parallel? && j.group < |s.pending| {
        if j.group == g { assert t.pending[g] == Pop(s.pending[g], position); }
      }
    }
    assert forall h, i :: 0 <= h < |t.pending| && i in t.pending[h] ==> i in s.pending[h];
    DispatchKeepsValid(cfg, outcome, s, t, job);
  }

  lemma PopSorted(leq: (nat, nat) -> bool, s: seq<nat>, p: nat)
    requires p < |s| && Sorted(leq, s)
    ensures Sorted(leq, Pop(s, p))
  {
  }

  /** What comes before a position of a queue that is the first to fit does not fit. */
  lemma PassedOver(cfg: Config, outcome: Job -> Outcome, s: State, g: nat, position: nat)
    requires Valid(cfg, outcome, s) && g < |s.pending| && position < |s.pending[g]|
    requires forall k :: 0 <= k < position ==>
      !Fits(cfg, CommandOf(cfg.plan, Parallel(g, s.pending[g][k])), SlotSum(cfg, s.running), s.running == [])
    ensures FirstToFit(cfg, s.log, g, s.pending[g][position])
  {
    hide Disciplined, Flagged, RunningAfter, StartedIn, EndedIn, Fits;
    var pending, i, commands := s.pending[g], s.pending[g][position], cfg.plan.groups[g];
    forall h: nat | h < |commands| && h != i && Parallel(g, h) !in StartedIn(s.log) && Order(cfg.executor, commands)(h, i)
      ensures !Fits(cfg, commands[h], SlotSum(cfg, s.running), s.running == [])
    {
      assert Waiting(cfg, s, Parallel(g, h));
      var k :| 0 <= k < |pending| && pending[k] == h;
      assert k > position ==> Order(cfg.executor, commands)(i, h);
      assert CommandOf(cfg.plan, Parallel(g, pending[k])) == commands[h];
    }
  }

  /** With no position of its queue that fits, a group has nothing that fits. */
  lemma QueueNoneFits(cfg: Config, outcome: Job -> Outcome, s: State, h: nat)
    requires Valid(cfg, outcome, s) && h < |cfg.plan.groups|
    requires FirstFit(cfg, h, s.pending[h], SlotSum(cfg, s.running), s.running == []) == |s.pending[h]|
    ensures NoneFits(cfg, s.log, h)
  {
    hide Disciplined, RunningAfter, StartedIn, EndedIn, Stops, FirstFit;
    var pending := s.pending[h];
    forall i: nat | i < |cfg.plan.groups[h]| && Parallel(h, i) !in StartedIn(s.log)
      ensures !Fits(cfg, cfg.plan.groups[h][i], SlotSum(cfg, s.running), s.running == [])
    {
      assert Waiting(cfg, s, Parallel(h, i));
      var k :| 0 <= k < |pending| && pending[k] == i;
      assert CommandOf(cfg.plan, Parallel(h, pending[k])) == cfg.plan.groups[h][i];
    }
  }

  /** A head group whose frontier does not fit lets later groups backfill, the first that has something. */
  lemma BlockedHead(cfg: Config, outcome: Job -> Outcome, s: State, g: nat)
    requires Valid(cfg, outcome, s)
    requires s.groupIndex < g < |cfg.plan.groups| && s.pending[s.groupIndex] != []
    requires forall h: nat :: s.groupIndex <= h < g ==>
      FirstFit(cfg, h, s.pending[h], SlotSum(cfg, s.running), s.running == []) == |s.pending[h]|
    ensures GroupMayStart(cfg, s.log, g)
  {
    hide Disciplined, RunningAfter, StartedIn, EndedIn, Stops, FirstFit, Fits;
    var head := s.groupIndex;
    assert Blocked(cfg, s.log, head) by {
      var i := s.pending[head][0];
      assert i in s.pending[head];
      assert Waiting(cfg, s, Parallel(head, i));
      assert i < |cfg.plan.groups[head]| && Parallel(head, i) !in StartedIn(s.log);
      QueueNoneFits(cfg, outcome, s, head);
    }
    hide NoneFits;
    forall h: nat | h < g
      ensures GroupFinished(cfg, s.log, h) || (NoneFits(cfg, s.log, h) && exists b: nat :: b <= h && Blocked(cfg, s.log, b))
    {
      if h >= head {
        QueueNoneFits(cfg, outcome, s, h);
        assert head <= h && Blocked(cfg, s.log, head);
      }
    }
  }

  lemma HeadMayStart(cfg: Config, outcome: Job -> Outcome, s: State)
    requires Valid(cfg, outcome, s) && s.groupIndex < |cfg.plan.groups|
    ensures GroupMayStart(cfg, s.log, s.groupIndex)
  {
  }

  /** An idle scheduler has room for any command, however wide or exclusive. */
  lemma IdleFits(cfg: Config, g: nat, pending: seq<nat>)
    requires ValidConfig(cfg) && pending != []
    ensures FirstFit(cfg, g, pending, 0, true) == 0
  {
  }

  method DispatchGroups(cfg: Config, ghost outcome: Job -> Outcome, s: State) returns (t: State, progress: bool)
    requires Valid(cfg, outcome, s) && !s.stop
    requires s.groupIndex < |cfg.plan.groups| ==>
      s.pending[s.groupIndex] != [] || GroupRunning(s.running, s.groupIndex)
    ensures Valid(cfg, outcome, t)
    ensures t == s.(pending := t.pending, running := t.running, log := t.log)
    ensures !progress ==> t == s
    ensures progress ==> t.running != [] && Undispatched(cfg, t) < Undispatched(cfg, s)
    ensures !progress && s.running == [] ==> s.groupIndex == |cfg.plan.groups|
  {
    hide Located, Flagged, Disciplined, Fits, GroupFinished, Blocked, NoneFits, FirstFit;
    t, progress := s, false;
    if s.groupIndex < |cfg.plan.groups| && !ExclusiveRunning(cfg, s.running) {
      var head := s.groupIndex;
      var used := SlotSum(cfg, s.running);
      while t.pending[head] != [] && |t.running| < cfg.jobCapacity
        invariant Valid(cfg, outcome, t)
        invariant t == s.(pending := t.pending, running := t.running, log := t.log)
        invariant used == SlotSum(cfg, t.running) && !ExclusiveRunning(cfg, t.running)
        invariant !progress ==> t == s
        invariant progress ==> t.running != [] && Undispatched(cfg, t) < Undispatched(cfg, s)
        decreases Undispatched(cfg, t)
      {
        var group, position := head, FirstFit(cfg, head, t.pending[head], used, t.running == []);
        if position == |t.pending[head]| {
          var later := FirstLaterFit(cfg, t.pending, head + 1, used, t.running == []);
          if later.None? {
            IdleFits(cfg, head, t.pending[head]);
            break;
          }
          group, position := later.value.0, later.value.1;
          BlockedHead(cfg, outcome, t, group);
        } else {
          HeadMayStart(cfg, outcome, t);
        }
        var job := Parallel(group, t.pending[group][position]);
        DispatchParallelKeepsValid(cfg, outcome, t, group, position);
        SlotSumAppend(cfg, t.running, job);
        t := DispatchParallel(t, group, position);
        used := used + JobSlots(cfg, job);
        progress := true;
        if JobExclusive(cfg, job) {
          break;
        }
      }
    }
  }

  // ---------------------------------------------------------------- completion

  /** Book one finished future. */
  function Book(cfg: Config, s: State, job: Job, o: Outcome): State {
    var t := s.(running := Without(s.running, job), log := s.log + [Ended(job)]);
    match o
    case Raised(e) => t.(fatal := if s.fatal.None? then Some(e) else s.fatal, stop := true)
    case Returned(r) => t.(done := s.done[job := r], stop := s.stop || Stops(cfg, o))
  }

  lemma BookKeepsValid(cfg: Config, outcome: Job -> Outcome, s: State, job: Job)
    requires Valid(cfg, outcome, s) && job in s.running
    ensures Valid(cfg, outcome, Book(cfg, s, job, outcome(job)))
    ensures var rest := Book(cfg, s, job, outcome(job)).running;
      |rest| == |s.running| - 1 && forall k :: k in rest <==> k in s.running && k != job
  {
    hide Disciplined, RunningAfter, StartedIn, EndedIn, Safe, Without, Stops, Flagged;
    var t := Book(cfg, s, job, outcome(job));
    NowSafe(cfg, outcome, s);
    WithoutRemoves(cfg, s.running, job);
    WithoutSafe(cfg, s.running, job);
    LogExtends(s.log, Ended(job));
    DisciplinedExtends(cfg, outcome, s.log, Ended(job));
    BookKeepsFlags(cfg, outcome, s, job);
    forall j ensures Waiting(cfg, t, j) == Waiting(cfg, s, j) { }
    forall g: nat | g < t.groupIndex ensures GroupFinished(cfg, t.log, g) {
      assert GroupFinished(cfg, s.log, g);
    }
  }

  lemma BookKeepsFlags(cfg: Config, outcome: Job -> Outcome, s: State, job: Job)
    requires Flagged(cfg, outcome, s)
    ensures Flagged(cfg, outcome, Book(cfg, s, job, outcome(job)))
  {
    var t := Book(cfg, s, job, outcome(job));
    LogExtends(s.log, Ended(job));
    hide EndedIn, StartedIn, RunningAfter;
    assert job in EndedIn(t.log);
    if s.stop {
      var j :| j in EndedIn(s.log) && Stops(cfg, outcome(j));
      assert j in EndedIn(t.log);
    }
    if s.fatal.Some? {
      var j :| j in EndedIn(s.log) && outcome(j) == Raised(s.fatal.value);
      assert j in EndedIn(t.log);
    }
    assert t.done == EndedResults(t.log, outcome);
  }

  /** `wait(..., FIRST_COMPLETED)`: some non-empty set of running futures is done, in any order. */
  method CompleteSome(cfg: Config, outcome: Job -> Outcome, s: State) returns (t: State)
    requires Valid(cfg, outcome, s) && s.running != []
    ensures Valid(cfg, outcome, t)
    ensures t.pending == s.pending && t.serialNext == s.serialNext && t.groupIndex == s.groupIndex
    ensures |t.running| < |s.running|
  {
    hide Located, Flagged, Disciplined, Without;
    var all := set j | j in s.running;
    assert s.running[0] in all;
    var completed :| completed != {} && completed <= all;
    t := s;
    while completed != {}
      invariant Valid(cfg, outcome, t)
      invariant t.pending == s.pending && t.serialNext == s.serialNext && t.groupIndex == s.groupIndex
      invariant forall j :: j in completed ==> j in t.running
      invariant |t.running| <= |s.running|
      invariant |t.running| == |s.running| ==> completed != {}
      decreases completed
    {
      var job :| job in completed;
      completed := completed - {job};
      BookKeepsValid(cfg, outcome, t, job);
      t := Book(cfg, t, job, outcome(job));
    }
  }

  // ---------------------------------------------------------------- the runner

  /** `_ordered_parallel_commands`: indices by priority, then by position. */
  function OrderedCommands(executor: Executor, commands: seq<string>): seq<nat> {
    Sort(Order(executor, commands), Indices(|commands|))
  }

  function Indices(n: nat): (r: seq<nat>)
    ensures |r| == n && forall i :: 0 <= i < n ==> r[i] == i
  {
    if n == 0 then [] else Indices(n - 1) + [n - 1]
  }

  /** The queue of a group holds each of its commands exactly once, in order. */
  lemma OrderedCommandsComplete(executor: Executor, commands: seq<string>)
    ensures Distinct(OrderedCommands(executor, commands))
    ensures forall i: nat :: i in OrderedCommands(executor, commands) <==> i < |commands|
    ensures Sorted(Order(executor, commands), OrderedCommands(executor, commands))
  {
    var leq := Order(executor, commands);
    var indices := Indices(|commands|);
    OrderIsTotal(executor, commands);
    SortSorts(leq, indices);
    SortKeepsDistinct(leq, indices);
    forall i: nat ensures i in OrderedCommands(executor, commands) <==> i < |commands| {
      SortKeepsMembers(leq, indices, i);
      if i < |commands| { assert indices[i] == i; }
    }
  }

  lemma OrderIsTotal(executor: Executor, commands: seq<string>)
    ensures TotalOrder(Order(executor, commands))
  {
    hide PriorityAt;
  }

  function InitialState(cfg: Config): State {
    State([], seq(|cfg.plan.groups|, g requires 0 <= g < |cfg.plan.groups| =>
            OrderedCommands(cfg.executor, cfg.plan.groups[g])),
          0, 0, false, None, map[], [])
  }

  lemma InitiallyValid(cfg: Config, outcome: Job -> Outcome)
    requires ValidConfig(cfg)
    ensures Valid(cfg, outcome, InitialState(cfg))
  {
    var s := InitialState(cfg);
    forall g | 0 <= g < |s.pending|
      ensures Distinct(s.pending[g]) && forall i: nat :: i in s.pending[g] <==> i < |cfg.plan.groups[g]|
      ensures Sorted(Order(cfg.executor, cfg.plan.groups[g]), s.pending[g])
    {
      OrderedCommandsComplete(cfg.executor, cfg.plan.groups[g]);
    }
    assert Safe(cfg, RunningAfter(s.log[..0]));
  }

  /** With nothing left to dispatch or running, every job has ended. */
  lemma Drained(cfg: Config, outcome: Job -> Outcome, s: State)
    requires Valid(cfg, outcome, s) && s.running == []
    ensures StartedIn(s.log) == EndedIn(s.log)
    ensures s.serialNext == |cfg.plan.serial| && s.groupIndex == |cfg.plan.groups| ==>
      forall j :: IsJob(cfg.plan, j) ==> j in EndedIn(s.log)
  {
    forall j | j in StartedIn(s.log) ensures j in EndedIn(s.log) {
      assert j !in s.running;
    }
    if s.serialNext == |cfg.plan.serial| && s.groupIndex == |cfg.plan.groups| {
      forall j | IsJob(cfg.plan, j) ensures j in EndedIn(s.log) {
        if j.Parallel? {
          assert GroupFinished(cfg, s.log, j.group);
        } else {
          assert !Waiting(cfg, s, j);
        }
      }
    }
  }

  /** What the runner reports once the loop is over. */
  function Report(cfg: Config, s: State): RunOutcome {
    if s.fatal.Some? then Failed(s.fatal.value)
    else
      var results := Collect(AllJobs(cfg.plan), s.done);
      var failed := Failures(results);
      var ok := failed == [] && |results| == |AllJobs(cfg.plan)|;
      Completed(GateResult(ok, results, Summary(ok, FailureTexts(Reportable(failed)))))
  }

  /** The verdict of the report is the plan's own: it passes when every command passes. */
  lemma ReportVerdict(cfg: Config, outcome: Job -> Outcome, s: State)
    requires Valid(cfg, outcome, s) && s.fatal.None?
    requires s.stop || forall j :: IsJob(cfg.plan, j) ==> j in EndedIn(s.log)
    ensures Report(cfg, s).result.ok <==> AllPass(cfg.plan, outcome)
  {
    var jobs := AllJobs(cfg.plan);
    var results := Collect(jobs, s.done);
    CollectComplete(jobs, s.done);
    if Report(cfg, s).result.ok {
      forall j | IsJob(cfg.plan, j) ensures Passes(outcome(j)) {
        AllJobsMembers(cfg.plan, j);
        CollectMembers(jobs, s.done, s.done[j]);
        FailuresMembers(results, s.done[j]);
      }
    }
    if AllPass(cfg.plan, outcome) {
      assert forall k :: k in EndedIn(s.log) ==> IsJob(cfg.plan, k) && Passes(outcome(k));
      forall j | j in jobs ensures j in s.done { AllJobsMembers(cfg.plan, j); }
      forall r | r in results ensures r.ok { CollectMembers(jobs, s.done, r); }
      AllOk(results);
    }
  }

  /** With every job ended and no termination, the report is the plain answer. */
  lemma ReportIsPlain(cfg: Config, outcome: Job -> Outcome, s: State)
    requires Valid(cfg, outcome, s) && Calm(cfg.plan, outcome)
    requires forall j :: IsJob(cfg.plan, j) ==> j in EndedIn(s.log)
    ensures Report(cfg, s) == Completed(PlainAnswer(cfg.plan, outcome))
  {
    var jobs := AllJobs(cfg.plan);
    forall j | j in jobs ensures j in s.done && s.done[j] == ResultOf(outcome(j)) {
      AllJobsMembers(cfg.plan, j);
      assert Ordinary(outcome(j));
    }
    CollectAll(jobs, s.done, outcome);
    var failed := Failures(Collect(jobs, s.done));
    forall r | r in failed ensures r.termination == "" {
      FailuresMembers(Collect(jobs, s.done), r);
      CollectMembers(jobs, s.done, r);
      var j :| j in jobs && j in s.done && s.done[j] == r;
      AllJobsMembers(cfg.plan, j);
      assert Ordinary(outcome(j));
    }
    NothingCancelled(failed);
    forall j | j in EndedIn(s.log) ensures outcome(j).Returned? {
      assert IsJob(cfg.plan, j) && Ordinary(outcome(j));
    }
  }

  /** Everything the runner promises about the answer it reports. */
  lemma ReportCorrect(cfg: Config, outcome: Job -> Outcome, s: State)
    requires Valid(cfg, outcome, s) && s.running == []
    requires s.stop || (s.serialNext == |cfg.plan.serial| && s.groupIndex == |cfg.plan.groups|)
    ensures Disciplined(cfg, outcome, s.log) && StartedIn(s.log) == EndedIn(s.log)
    ensures var r := Report(cfg, s);
      && (r.Completed? ==> (r.result.ok <==> AllPass(cfg.plan, outcome)))
      && (r.Completed? ==> r.result.commands == Collect(AllJobs(cfg.plan), EndedResults(s.log, outcome)))
      && (r.Completed? && r.result.ok ==> r.result.summary == "all commands passed")
      && (r.Completed? && !r.result.ok ==> r.result.summary == Join(FailureTexts(Reportable(Failures(r.result.commands)))))
      && (r.Failed? <==> exists j :: j in EndedIn(s.log) && outcome(j).Raised?)
      && (r.Failed? ==> exists j :: j in EndedIn(s.log) && outcome(j) == Raised(r.error))
      && (cfg.collectAll && Calm(cfg.plan, outcome) ==> r == Completed(PlainAnswer(cfg.plan, outcome)))
  {
    hide Disciplined, EndedIn, StartedIn, RunningAfter, Collect, PlainAnswer, AllPass, AllJobs, Failures;
    Drained(cfg, outcome, s);
    if s.fatal.None? { ReportVerdict(cfg, outcome, s); }
    if cfg.collectAll && Calm(cfg.plan, outcome) {
      forall k | k in EndedIn(s.log) ensures !Stops(cfg, outcome(k)) {
        assert IsJob(cfg.plan, k) && Ordinary(outcome(k));
      }
      ReportIsPlain(cfg, outcome, s);
    }
  }

  /** Only jobs of the plan ever end. */
  lemma {:induction false} EndedAreJobs(cfg: Config, outcome: Job -> Outcome, log: seq<Event>, j: Job)
    requires Disciplined(cfg, outcome, log) && j in EndedIn(log)
    ensures IsJob(cfg.plan, j)
  {
    RunningWereStarted(cfg, outcome, log);
  }

  lemma {:induction false} RunningWereStarted(cfg: Config, outcome: Job -> Outcome, log: seq<Event>)
    requires Disciplined(cfg, outcome, log)
    ensures forall j :: j in RunningAfter(log) || j in EndedIn(log) ==> IsJob(cfg.plan, j)
  {
    hide Safe;
    if log != [] {
      var n := |log| - 1;
      var before := log[..n];
      assert Disciplined(cfg, outcome, before) by {
        assert forall k :: 0 <= k <= n ==> before[..k] == log[..k];
      }
      RunningWereStarted(cfg, outcome, before);
      assert Allowed(cfg, outcome, before, log[n]);
      WithoutMembers(RunningAfter(before), log[n].job);
    }
  }

  lemma {:induction false} WithoutMembers(running: seq<Job>, job: Job)
    ensures forall j :: j in Without(running, job) ==> j in running
  {
    if running != [] && running[0] != job { WithoutMembers(running[1..], job); }
  }

  // ---------------------------------------------------------------- the promises, from the log alone

  /** The configuration has the slots and jobs that the arguments give. */
  ghost predicate Fitting(cfg: Config, run: Run) {
    && run.plan == cfg.plan && run.executor == cfg.executor && run.collectAll == cfg.collectAll
    && cfg.slotCapacity == run.Capacity()
    && cfg.jobCapacity <= run.Capacity() && (cfg.jobCapacity <= 1 || cfg.jobCapacity <= run.workers)
  }

  lemma ConfigureFits(plan: Plan, executor: Executor, workers: int, collectAll: bool)
    ensures Fitting(Configure(plan, executor, workers, collectAll), Run(plan, executor, workers, collectAll))
  {
  }

  lemma SlotsAre(cfg: Config, run: Run, j: Job)
    requires Fitting(cfg, run) && IsJob(cfg.plan, j)
    ensures JobSlots(cfg, j) == Slots(run.Capacity(), run.Asks(j)) && (JobExclusive(cfg, j) <==> run.Exclusive(j))
  {
  }

  lemma {:induction false} StartedMeans(log: seq<Event>, j: Job)
    ensures j in StartedIn(log) <==> Started(j) in log
    ensures j in EndedIn(log) <==> Ended(j) in log
  {
    if log != [] {
      var n := |log| - 1;
      assert log == log[..n] + [log[n]];
      StartedMeans(log[..n], j);
    }
  }

  lemma DisciplinedPrefix(cfg: Config, outcome: Job -> Outcome, log: seq<Event>, n: nat)
    requires Disciplined(cfg, outcome, log) && n <= |log|
    ensures Disciplined(cfg, outcome, log[..n])
  {
    hide Safe, Allowed, RunningAfter;
    assert forall k :: 0 <= k <= n ==> log[..n][..k] == log[..k];
  }

  /** What runs after a log is what it started and has not ended, once each. */
  lemma {:induction false} RunningIs(cfg: Config, outcome: Job -> Outcome, log: seq<Event>)
    requires Disciplined(cfg, outcome, log)
    ensures Distinct(RunningAfter(log))
    ensures forall j :: j in RunningAfter(log) <==> j in StartedIn(log) && j !in EndedIn(log)
    ensures forall j :: j in StartedIn(log) ==> IsJob(cfg.plan, j)
    ensures EndedIn(log) <= StartedIn(log)
  {
    hide Safe, GroupMayStart, FirstToFit;
    if log != [] {
      var n := |log| - 1;
      DisciplinedPrefix(cfg, outcome, log, n);
      RunningIs(cfg, outcome, log[..n]);
      assert log == log[..n] + [log[n]];
      LogExtends(log[..n], log[n]);
      assert Allowed(cfg, outcome, log[..n], log[n]);
      hide RunningAfter, StartedIn, EndedIn;
      if log[n].Ended? { WithoutRemoves(cfg, RunningAfter(log[..n]), log[n].job); }
    }
  }

  lemma RunsIs(cfg: Config, outcome: Job -> Outcome, log: seq<Event>, n: nat)
    requires Disciplined(cfg, outcome, log) && n <= |log|
    ensures Distinct(RunningAfter(log[..n])) && Safe(cfg, RunningAfter(log[..n]))
    ensures forall j :: j in RunningAfter(log[..n]) <==> Runs(log, n, j)
    ensures forall j :: j in RunningAfter(log[..n]) ==> IsJob(cfg.plan, j)
  {
    DisciplinedPrefix(cfg, outcome, log, n);
    RunningIs(cfg, outcome, log[..n]);
    hide Safe, RunningAfter, StartedIn, EndedIn, Allowed;
    forall j ensures j in RunningAfter(log[..n]) <==> Runs(log, n, j) { StartedMeans(log[..n], j); }
  }

  /** Some of what runs takes no more slots, and is no more, than all of it. */
  lemma {:induction false} SomeOfThem(cfg: Config, js: seq<Job>, running: seq<Job>)
    requires Distinct(js) && Distinct(running) && forall j :: j in js ==> j in running
    ensures SlotSum(cfg, js) <= SlotSum(cfg, running) && |js| <= |running|
  {
    hide JobSlots;
    if js != [] {
      var rest := Without(running, js[0]);
      WithoutRemoves(cfg, running, js[0]);
      assert forall j :: j in js[1..] ==> j in js && j != js[0];
      SomeOfThem(cfg, js[1..], rest);
    }
  }

  lemma {:induction false} TotalsAre(cfg: Config, run: Run, js: seq<Job>)
    requires Fitting(cfg, run) && forall j :: j in js ==> IsJob(cfg.plan, j)
    ensures TotalSlots(run, js) == SlotSum(cfg, js)
    ensures (forall j :: j in js ==> 1 <= run.Asks(j) <= run.Capacity()) ==> Total(run, js) == SlotSum(cfg, js)
  {
    hide JobSlots;
    if js != [] {
      SlotsAre(cfg, run, js[0]);
      TotalsAre(cfg, run, js[1..]);
      assert js[0] in js && forall j :: j in js[1..] ==> j in js;
    }
  }

  lemma PairTakes(cfg: Config, run: Run, j: Job, k: Job, running: seq<Job>)
    requires Fitting(cfg, run) && ValidConfig(cfg) && Distinct(running) && j in running && k in running && j != k
    requires IsJob(cfg.plan, j) && IsJob(cfg.plan, k) && SlotSum(cfg, running) <= cfg.slotCapacity
    ensures run.Asks(j) < run.Capacity()
  {
    SlotsAre(cfg, run, j);
    SlotsAre(cfg, run, k);
    SomeOfThem(cfg, [j, k], running);
    assert [j, k][1..] == [k];
    assert SlotSum(cfg, [k]) == JobSlots(cfg, k) by { assert [k][1..] == []; }
    assert SlotSum(cfg, [j, k]) == JobSlots(cfg, j) + JobSlots(cfg, k);
  }

  lemma KeepsBudgets(cfg: Config, run: Run, outcome: Job -> Outcome, log: seq<Event>)
    requires Disciplined(cfg, outcome, log) && Fitting(cfg, run) && ValidConfig(cfg)
    ensures WithinBudgets(run, log)
  {
    hide Disciplined, RunningAfter, JobSlots, SlotSum, Total;
    forall n: nat, js | n <= |log| && AllRun(log, n, js)
      ensures |js| <= run.Capacity() && (|js| <= 1 || |js| <= run.workers)
      ensures (forall j :: j in js ==> 1 <= run.Asks(j) <= run.Capacity()) ==> Total(run, js) <= run.Capacity()
    {
      RunsIs(cfg, outcome, log, n);
      SomeOfThem(cfg, js, RunningAfter(log[..n]));
      TotalsAre(cfg, run, js);
    }
    forall n: nat, j, k | n <= |log| && Runs(log, n, j) && Runs(log, n, k) && run.Asks(j) >= run.Capacity() ensures j == k {
      RunsIs(cfg, outcome, log, n);
      if j != k { PairTakes(cfg, run, j, k, RunningAfter(log[..n])); }
    }
  }

  lemma KeepsApart(cfg: Config, run: Run, outcome: Job -> Outcome, log: seq<Event>)
    requires Disciplined(cfg, outcome, log) && Fitting(cfg, run)
    ensures Apart(run, log)
  {
    hide Disciplined, RunningAfter, JobSlots, SlotSum, JobExclusive, Runs;
    forall n: nat, j, k | n <= |log| && Runs(log, n, j) && Runs(log, n, k)
      ensures run.Exclusive(j) ==> j == k
      ensures j.Serial? && k.Serial? ==> j == k
    {
      RunsIs(cfg, outcome, log, n);
      SlotsAre(cfg, run, j);
      var running := RunningAfter(log[..n]);
      var a, b :| 0 <= a < |running| && 0 <= b < |running| && running[a] == j && running[b] == k;
    }
  }

  lemma KeepsOnce(cfg: Config, run: Run, outcome: Job -> Outcome, log: seq<Event>)
    requires Disciplined(cfg, outcome, log) && Fitting(cfg, run)
    ensures OncePerCommand(run, log)
  {
    hide RunningAfter, Safe, GroupMayStart, FirstToFit, StartedIn, EndedIn;
    forall n | 0 <= n < |log|
      ensures IsJob(run.plan, log[n].job) && log[n] !in log[..n] && (log[n].Ended? ==> Started(log[n].job) in log[..n])
    {
      assert Allowed(cfg, outcome, log[..n], log[n]);
      DisciplinedPrefix(cfg, outcome, log, n);
      RunningIs(cfg, outcome, log[..n]);
      StartedMeans(log[..n], log[n].job);
    }
    forall i, k | 0 <= i < k < |log| ensures log[i] != log[k] { assert log[..k][i] == log[i]; }
  }

  lemma KeepsStops(cfg: Config, run: Run, outcome: Job -> Outcome, log: seq<Event>)
    requires Disciplined(cfg, outcome, log) && Fitting(cfg, run)
    ensures StopsInTime(run, outcome, log)
  {
    hide RunningAfter, Safe, GroupMayStart, FirstToFit, StartedIn, EndedIn;
    forall i, k | 0 <= i < k < |log| && log[i].Ended? && log[k].Started? ensures Goes(run.collectAll, outcome(log[i].job)) {
      assert Allowed(cfg, outcome, log[..k], log[k]);
      StartedMeans(log[..k], log[i].job);
      assert log[..k][i] == log[i];
    }
  }

  lemma KeepsSerialOrder(cfg: Config, run: Run, outcome: Job -> Outcome, log: seq<Event>)
    requires Disciplined(cfg, outcome, log)
    ensures SerialInOrder(log)
  {
    hide RunningAfter, Safe, GroupMayStart, FirstToFit, StartedIn, EndedIn;
    forall n, i: nat, h: nat | 0 <= n < |log| && log[n] == Started(Serial(i)) && h < i ensures Ended(Serial(h)) in log[..n] {
      assert Allowed(cfg, outcome, log[..n], log[n]);
      StartedMeans(log[..n], Serial(h));
    }
  }

  /** A command that does not fit has no room, as there is something beside which it does not. */
  lemma UnfitHasNoRoom(cfg: Config, run: Run, outcome: Job -> Outcome, log: seq<Event>, n: nat, j: Job)
    requires Disciplined(cfg, outcome, log) && Fitting(cfg, run) && ValidConfig(cfg) && n <= |log| && IsJob(cfg.plan, j)
    requires var running := RunningAfter(log[..n]); !Fits(cfg, CommandOf(cfg.plan, j), SlotSum(cfg, running), running == [])
    ensures NoRoom(run, log, n, j)
  {
    var running := RunningAfter(log[..n]);
    RunsIs(cfg, outcome, log, n);
    SlotsAre(cfg, run, j);
    TotalsAre(cfg, run, running);
    hide Disciplined, RunningAfter, Total, Runs;
    assert running == [] ==> SlotSum(cfg, running) == 0;
    assert AllRun(log, n, running);
  }

  lemma KeepsPriority(cfg: Config, run: Run, outcome: Job -> Outcome, log: seq<Event>)
    requires Disciplined(cfg, outcome, log) && Fitting(cfg, run) && ValidConfig(cfg)
    ensures ByPriority(run, log)
  {
    hide RunningAfter, Safe, GroupMayStart, StartedIn, EndedIn, Fits, SlotSum, NoRoom;
    forall n: nat, g: nat, i: nat, h: nat
      | n < |log| && log[n] == Started(Parallel(g, i)) && g < |run.plan.groups| && h < |run.plan.groups[g]| && i < |run.plan.groups[g]|
        && Started(Parallel(g, h)) !in log[..n] && Precedes(run, g, h, i)
      ensures NoRoom(run, log, n, Parallel(g, h))
    {
      assert Allowed(cfg, outcome, log[..n], log[n]);
      StartedMeans(log[..n], Parallel(g, h));
      assert FirstToFit(cfg, log[..n], g, i);
      assert Order(cfg.executor, cfg.plan.groups[g])(h, i);
      assert CommandOf(cfg.plan, Parallel(g, h)) == cfg.plan.groups[g][h];
      UnfitHasNoRoom(cfg, run, outcome, log, n, Parallel(g, h));
    }
  }

  lemma NoneFitsIs(cfg: Config, run: Run, outcome: Job -> Outcome, log: seq<Event>, n: nat, h: nat)
    requires Disciplined(cfg, outcome, log) && Fitting(cfg, run) && ValidConfig(cfg) && n <= |log| && h < |cfg.plan.groups|
    requires NoneFits(cfg, log[..n], h)
    ensures NothingFits(run, log, n, h)
  {
    hide Disciplined, RunningAfter, StartedIn, Fits, SlotSum, NoRoom;
    forall k: nat | k < |run.plan.groups[h]| && Started(Parallel(h, k)) !in log[..n] ensures NoRoom(run, log, n, Parallel(h, k)) {
      StartedMeans(log[..n], Parallel(h, k));
      assert CommandOf(cfg.plan, Parallel(h, k)) == cfg.plan.groups[h][k];
      UnfitHasNoRoom(cfg, run, outcome, log, n, Parallel(h, k));
    }
  }

  lemma BlockedIsStuck(cfg: Config, run: Run, outcome: Job -> Outcome, log: seq<Event>, n: nat, b: nat)
    requires Disciplined(cfg, outcome, log) && Fitting(cfg, run) && ValidConfig(cfg) && n <= |log| && b < |cfg.plan.groups|
    requires Blocked(cfg, log[..n], b)
    ensures GroupStuck(run, log, n, b)
  {
    hide Disciplined, RunningAfter, StartedIn, Fits, SlotSum, NoRoom, NoneFits, NothingFits;
    NoneFitsIs(cfg, run, outcome, log, n, b);
    var i: nat :| i < |cfg.plan.groups[b]| && Parallel(b, i) !in StartedIn(log[..n]);
    StartedMeans(log[..n], Parallel(b, i));
  }

  lemma KeepsGroupOrder(cfg: Config, run: Run, outcome: Job -> Outcome, log: seq<Event>)
    requires Disciplined(cfg, outcome, log) && Fitting(cfg, run) && ValidConfig(cfg)
    ensures GroupsInOrder(run, log)
  {
    hide RunningAfter, Safe, StartedIn, EndedIn, Blocked, GroupStuck, FirstToFit, NoneFits, NothingFits;
    forall n: nat, g: nat, i, h: nat | n < |log| && log[n] == Started(Parallel(g, i)) && h < g < |run.plan.groups|
      ensures GroupOver(run, log, n, h) || (NothingFits(run, log, n, h) && exists b: nat :: b <= h && GroupStuck(run, log, n, b))
    {
      assert Allowed(cfg, outcome, log[..n], log[n]);
      assert GroupMayStart(cfg, log[..n], g);
      if GroupFinished(cfg, log[..n], h) {
        forall k: nat | k < |run.plan.groups[h]| ensures Ended(Parallel(h, k)) in log[..n] { StartedMeans(log[..n], Parallel(h, k)); }
      } else {
        NoneFitsIs(cfg, run, outcome, log, n, h);
        var b: nat :| b <= h && Blocked(cfg, log[..n], b);
        BlockedIsStuck(cfg, run, outcome, log, n, b);
      }
    }
  }

  lemma KeepsComplete(cfg: Config, run: Run, outcome: Job -> Outcome, log: seq<Event>)
    requires Fitting(cfg, run) && StartedIn(log) == EndedIn(log)
    requires (forall j :: IsJob(cfg.plan, j) ==> j in EndedIn(log)) || exists j :: j in EndedIn(log) && Stops(cfg, outcome(j))
    ensures Complete(run, outcome, log)
  {
    hide StartedIn, EndedIn;
    forall j ensures j in StartedIn(log) <==> Started(j) in log ensures j in EndedIn(log) <==> Ended(j) in log { StartedMeans(log, j); }
  }

  /** A disciplined log, with its work done, keeps all that was promised. */
  lemma DisciplineKeepsPromises(cfg: Config, run: Run, outcome: Job -> Outcome, log: seq<Event>)
    requires Disciplined(cfg, outcome, log) && Fitting(cfg, run) && ValidConfig(cfg) && StartedIn(log) == EndedIn(log)
    requires (forall j :: IsJob(cfg.plan, j) ==> j in EndedIn(log)) || exists j :: j in EndedIn(log) && Stops(cfg, outcome(j))
    ensures KeepsPromises(run, outcome, log)
  {
    KeepsComplete(cfg, run, outcome, log);
    hide *;
    KeepsBudgets(cfg, run, outcome, log);
    KeepsApart(cfg, run, outcome, log);
    KeepsOnce(cfg, run, outcome, log);
    KeepsStops(cfg, run, outcome, log);
    KeepsSerialOrder(cfg, run, outcome, log);
    KeepsGroupOrder(cfg, run, outcome, log);
    KeepsPriority(cfg, run, outcome, log);
    AllKept(run, outcome, log);
  }

  lemma AllKept(run: Run, outcome: Job -> Outcome, log: seq<Event>)
    requires WithinBudgets(run, log) && Apart(run, log) && OncePerCommand(run, log) && SerialInOrder(log)
    requires StopsInTime(run, outcome, log) && Complete(run, outcome, log) && GroupsInOrder(run, log) && ByPriority(run, log)
    ensures KeepsPromises(run, outcome, log)
  {
    hide WithinBudgets, Apart, OncePerCommand, SerialInOrder, StopsInTime, Complete, GroupsInOrder, ByPriority;
  }

  lemma EverythingDone(cfg: Config, outcome: Job -> Outcome, s: State)
    requires Valid(cfg, outcome, s) && s.running == []
    requires s.stop || (s.serialNext == |cfg.plan.serial| && s.groupIndex == |cfg.plan.groups|)
    ensures (forall j :: IsJob(cfg.plan, j) ==> j in EndedIn(s.log)) || exists j :: j in EndedIn(s.log) && Stops(cfg, outcome(j))
  {
    hide Disciplined, EndedIn, StartedIn, RunningAfter;
    Drained(cfg, outcome, s);
  }

  /** `_run_overlapped_gate_plan`, for every order in which futures complete. */
  method RunOverlapped(plan: Plan, executor: Executor, workers: int, collectAll: bool, outcome: Job -> Outcome)
    returns (r: RunOutcome, log: seq<Event>)
    // every moment of the run respects the budgets and barriers, and started work is drained
    ensures KeepsPromises(Run(plan, executor, workers, collectAll), outcome, log)
    ensures Disciplined(Configure(plan, executor, workers, collectAll), outcome, log)
    ensures StartedIn(log) == EndedIn(log)
    // the verdict does not depend on the schedule
    ensures r.Completed? ==> (r.result.ok <==> AllPass(plan, outcome))
    ensures r.Completed? ==> r.result.commands == Collect(AllJobs(plan), EndedResults(log, outcome))
    ensures r.Completed? && r.result.ok ==> r.result.summary == "all commands passed"
    ensures r.Completed? && !r.result.ok ==> r.result.summary == Join(FailureTexts(Reportable(Failures(r.result.commands))))
    ensures r.Failed? <==> exists j :: j in EndedIn(log) && outcome(j).Raised?
    ensures r.Failed? ==> exists j :: j in EndedIn(log) && outcome(j) == Raised(r.error)
    // with collect_all and no termination the whole answer is the plain one
    ensures collectAll && Calm(plan, outcome) ==> r == Completed(PlainAnswer(plan, outcome))
  {
    hide Located, Flagged, Disciplined, Report, EndedIn, StartedIn, EndedResults, AllPass, Calm, PlainAnswer, Collect, AllJobs;
    var cfg := Configure(plan, executor, workers, collectAll);
    var s := InitialState(cfg);
    InitiallyValid(cfg, outcome);
    while true
      invariant Valid(cfg, outcome, s)
      decreases Undispatched(cfg, s), |s.running|
    {
      s := AdvanceCompletedGroups(cfg, outcome, s);
      var madeProgress := false;
      if !s.stop {
        var serial, group;
        s, serial := DispatchSerial(cfg, outcome, s);
        s, group := DispatchGroups(cfg, outcome, s);
        madeProgress := serial || group;
      }
      s := AdvanceCompletedGroups(cfg, outcome, s);
      var allDone := s.serialNext == |plan.serial| && s.groupIndex == |plan.groups|;
      if s.running == [] && (s.stop || allDone) {
        break;
      }
      if s.running == [] && !madeProgress {
        // "could not dispatch any remaining command" is never reached
        assert false;
      }
      if madeProgress && |s.running| < cfg.jobCapacity {
        continue;
      }
      s := CompleteSome(cfg, outcome, s);
    }
    r, log := Report(cfg, s), s.log;
    ReportCorrect(cfg, outcome, s);
    EverythingDone(cfg, outcome, s);
    ConfigureFits(plan, executor, workers, collectAll);
    DisciplineKeepsPromises(cfg, Run(plan, executor, workers, collectAll), outcome, log);
  }
}
