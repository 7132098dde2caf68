/** What a scheduled run of a gate plan owes, told from its log of dispatches and completions, the plan, the
    executor's answers and the caller's arguments alone. */
module SchedulePromises {
  import opened GatePlans
  import opened Sorting
  import opened Wrappers

  /** What the scheduler asks of an executor. `capacity` is None when the executor does not tell. */
  datatype Executor = Executor(
    capacity: Option<int>,
    requiredSlots: string -> int,
    exclusive: string -> bool,
    priority: string -> int)

  datatype Event = Started(job: Job) | Ended(job: Job)

  /** The run's arguments. */
  datatype Run = Run(plan: Plan, executor: Executor, workers: int, collectAll: bool) {
    /** Slots there are: as many as the executor or else the caller says, and at least one. */
    function Capacity(): int {
      var told := match executor.capacity case Some(n) => n case None => workers;
      if told < 1 then 1 else told
    }

    function Command(j: Job): string
      requires IsJob(plan, j)
    {
      match j case Serial(i) => plan.serial[i] case Parallel(g, i) => plan.groups[g][i]
    }

    function Asks(j: Job): int {
      if IsJob(plan, j) then executor.requiredSlots(Command(j)) else 0
    }

    predicate Exclusive(j: Job) {
      IsJob(plan, j) && executor.exclusive(Command(j))
    }
  }

  /** The command is under way after the first `n` events. */
  predicate Runs(log: seq<Event>, n: nat, j: Job)
    requires n <= |log|
  {
    Started(j) in log[..n] && Ended(j) !in log[..n]
  }

  ghost predicate AllRun(log: seq<Event>, n: nat, js: seq<Job>)
    requires n <= |log|
  {
    Distinct(js) && forall j :: j in js ==> Runs(log, n, j)
  }

  function Total(run: Run, js: seq<Job>): int {
    if js == [] then 0 else run.Asks(js[0]) + Total(run, js[1..])
  }

  /** Commands under way that ask for between one slot and all never ask for more than there are together;
      one that asks for all or more runs alone; and there are never more commands than slots or workers. */
  ghost predicate WithinBudgets(run: Run, log: seq<Event>) {
    && (forall n: nat, js :: n <= |log| && AllRun(log, n, js) && (forall j :: j in js ==> 1 <= run.Asks(j) <= run.Capacity()) ==>
          Total(run, js) <= run.Capacity())
    && (forall n: nat, j, k :: n <= |log| && Runs(log, n, j) && Runs(log, n, k) && run.Asks(j) >= run.Capacity() ==> j == k)
    && (forall n: nat, js :: n <= |log| && AllRun(log, n, js) ==>
          |js| <= run.Capacity() && (|js| <= 1 || |js| <= run.workers))
  }

  /** An exclusive command runs alone, and of the serial ones there is one at a time. */
  ghost predicate Apart(run: Run, log: seq<Event>) {
    && (forall n: nat, j, k :: n <= |log| && Runs(log, n, j) && Runs(log, n, k) && run.Exclusive(j) ==> j == k)
    && (forall n: nat, j, k :: n <= |log| && Runs(log, n, j) && Runs(log, n, k) && j.Serial? && k.Serial? ==> j == k)
  }

  /** Commands of the plan are dispatched once each, and complete once after that. */
  ghost predicate OncePerCommand(run: Run, log: seq<Event>) {
    && (forall i :: 0 <= i < |log| ==> IsJob(run.plan, log[i].job))
    && (forall i, k :: 0 <= i < k < |log| ==> log[i] != log[k])
    && (forall n :: 0 <= n < |log| && log[n].Ended? ==> Started(log[n].job) in log[..n])
  }

  /** Nothing is dispatched once an executor raised, or a command failed in a way that ends the run. */
  predicate Goes(collectAll: bool, o: Outcome) {
    o.Returned? && (o.result.ok || (collectAll && o.result.termination == "" && !o.result.infrastructure))
  }

  ghost predicate StopsInTime(run: Run, outcome: Job -> Outcome, log: seq<Event>) {
    forall i, k :: 0 <= i < k < |log| && log[i].Ended? && log[k].Started? ==> Goes(run.collectAll, outcome(log[i].job))
  }

  /** Everything dispatched completes, and everything is dispatched unless something ended the run. */
  ghost predicate Complete(run: Run, outcome: Job -> Outcome, log: seq<Event>) {
    && (forall j :: Started(j) in log ==> Ended(j) in log)
    && ((forall j :: IsJob(run.plan, j) ==> Started(j) in log) || exists j :: Ended(j) in log && !Goes(run.collectAll, outcome(j)))
  }

  /** The slots a command takes. */
  function Slots(capacity: int, asked: int): int {
    if asked < 1 then 1 else if asked > capacity then capacity else asked
  }

  function TotalSlots(run: Run, js: seq<Job>): int {
    if js == [] then 0 else Slots(run.Capacity(), run.Asks(js[0])) + TotalSlots(run, js[1..])
  }

  /** The command does not fit beside what runs: it wants to be alone, or its slots are not free. */
  ghost predicate NoRoom(run: Run, log: seq<Event>, n: nat, j: Job)
    requires n <= |log|
  {
    exists js :: AllRun(log, n, js) && js != []
      && (run.Exclusive(j) || TotalSlots(run, js) + Slots(run.Capacity(), run.Asks(j)) > run.Capacity())
  }

  /** The serial commands go in order. */
  ghost predicate SerialInOrder(log: seq<Event>) {
    forall n, i: nat, h: nat :: 0 <= n < |log| && log[n] == Started(Serial(i)) && h < i ==> Ended(Serial(h)) in log[..n]
  }

  ghost predicate GroupOver(run: Run, log: seq<Event>, n: nat, g: nat)
    requires n <= |log| && g < |run.plan.groups|
  {
    forall i: nat :: i < |run.plan.groups[g]| ==> Ended(Parallel(g, i)) in log[..n]
  }

  /** None of the group's commands that are yet to come has room. */
  ghost predicate NothingFits(run: Run, log: seq<Event>, n: nat, g: nat)
    requires n <= |log| && g < |run.plan.groups|
  {
    forall i: nat :: i < |run.plan.groups[g]| && Started(Parallel(g, i)) !in log[..n] ==> NoRoom(run, log, n, Parallel(g, i))
  }

  /** A group with commands yet to come of which none has room. */
  ghost predicate GroupStuck(run: Run, log: seq<Event>, n: nat, g: nat)
    requires n <= |log| && g < |run.plan.groups|
  {
    NothingFits(run, log, n, g) && exists i: nat :: i < |run.plan.groups[g]| && Started(Parallel(g, i)) !in log[..n]
  }

  /** Groups go one after the other, except that a later one fills in behind one that is stuck, with nothing
      in between that fits. */
  ghost predicate GroupsInOrder(run: Run, log: seq<Event>) {
    forall n: nat, g: nat, i, h: nat :: n < |log| && log[n] == Started(Parallel(g, i)) && h < g < |run.plan.groups| ==>
      GroupOver(run, log, n, h) || (NothingFits(run, log, n, h) && exists b: nat :: b <= h && GroupStuck(run, log, n, b))
  }

  /** Lower priority numbers first, then earlier positions. */
  predicate Precedes(run: Run, g: nat, h: nat, i: nat)
    requires g < |run.plan.groups| && h < |run.plan.groups[g]| && i < |run.plan.groups[g]|
  {
    var a, b := run.executor.priority(run.plan.groups[g][h]), run.executor.priority(run.plan.groups[g][i]);
    a < b || (a == b && h < i)
  }

  /** Within a group a command is only passed over when it has no room. */
  ghost predicate ByPriority(run: Run, log: seq<Event>) {
    forall n: nat, g: nat, i: nat, h: nat ::
      (n < |log| && log[n] == Started(Parallel(g, i)) && g < |run.plan.groups| && h < |run.plan.groups[g]| && i < |run.plan.groups[g]|
       && Started(Parallel(g, h)) !in log[..n] && Precedes(run, g, h, i)) ==> NoRoom(run, log, n, Parallel(g, h))
  }

  /** All of it. */
  ghost predicate KeepsPromises(run: Run, outcome: Job -> Outcome, log: seq<Event>) {
    && WithinBudgets(run, log) && Apart(run, log) && OncePerCommand(run, log)
    && StopsInTime(run, outcome, log) && Complete(run, outcome, log)
    && SerialInOrder(log) && GroupsInOrder(run, log) && ByPriority(run, log)
  }
}
