/** Any number of commands on several machines, each taking its leases: local ones all at once in sorted
    order, and those sent to another machine nested, the sender's pool lease around the receiver's host
    lease, with the sender's deadline. */
module ResourceJobs {
  import opened ResourceLocks
  import opened Sorting

  /** A lock file on one machine. */
  datatype Lock = Lock(machine: string, identity: string)

  /** The one order of all locks. */
  predicate LockLeq(a: Lock, b: Lock) {
    if a.machine == b.machine then StringLeq(a.identity, b.identity) else StringLeq(a.machine, b.machine)
  }

  predicate Before(a: Lock, b: Lock) {
    LockLeq(a, b) && a != b
  }

  lemma LockOrder()
    ensures TotalOrder(LockLeq)
  {
    hide StringLeq;
    StringOrder();
  }

  lemma BeforeNotBack(a: Lock, b: Lock)
    ensures Before(a, b) ==> !LockLeq(b, a)
  {
    StringLeqTotal(a.machine, b.machine);
    StringLeqTotal(a.identity, b.identity);
  }

  ghost predicate InOrder(locks: seq<Lock>) {
    forall i, j :: 0 <= i < j < |locks| ==> Before(locks[i], locks[j])
  }

  // ---------------------------------------------------------------- the jobs

  datatype Pc = Taking | Inside | Giving | Out

  /** A job with the locks it wants, in its order, and how many of them it holds. The first `outer` locks
      are a lease of the sender's, around the rest; it is given up at the sender's deadline. */
  datatype Job = Job(locks: seq<Lock>, cancellable: bool, held: nat, pc: Pc, outer: nat)

  datatype World = World(holders: map<Lock, nat>, jobs: seq<Job>)

  datatype Move = Take(job: nat) | Leave(job: nat) | Cancel(job: nat) | Give(job: nat) | Expire(job: nat)

  function Put(w: World, i: nat, j: Job): World
    requires i < |w.jobs|
  {
    w.(jobs := w.jobs[i := j])
  }

  /** The sender waits for the receiver, holding its own lease. */
  predicate MayExpire(j: Job) {
    j.pc != Out && 0 < j.outer <= j.held <= |j.locks|
  }

  /** The sender gives up: its lease goes, and the receiver's part goes on. */
  function Expired(j: Job): Job
    requires MayExpire(j)
  {
    j.(locks := j.locks[j.outer..], held := j.held - j.outer, outer := 0)
  }

  /** One step of one job; a step that is not enabled changes nothing. */
  function Next(w: World, m: Move): World {
    if m.job >= |w.jobs| then w
    else
      var i, j := m.job, w.jobs[m.job];
      match m
      case Take(_) =>
        if j.pc != Taking then w
        else if j.held >= |j.locks| then Put(w, i, j.(pc := Inside))
        else if j.locks[j.held] in w.holders then w
        else Put(w, i, j.(held := j.held + 1)).(holders := w.holders[j.locks[j.held] := i])
      case Leave(_) => if j.pc == Inside then Put(w, i, j.(pc := Giving)) else w
      case Cancel(_) => if j.pc == Taking && j.cancellable then Put(w, i, j.(pc := Giving)) else w
      case Give(_) =>
        if j.pc != Giving then w
        else if j.held == 0 || j.held > |j.locks| then Put(w, i, j.(pc := Out))
        else Put(w, i, j.(held := j.held - 1)).(holders := w.holders - {j.locks[j.held - 1]})
      case Expire(_) =>
        if MayExpire(j) then
          Put(w, i, Expired(j)).(holders := w.holders - (set l | l in j.locks[..j.outer]))
        else w
  }

  function After(w: World, moves: seq<Move>): World {
    if moves == [] then w else Next(After(w, moves[..|moves| - 1]), moves[|moves| - 1])
  }

  /** All jobs about to start, no lock held. */
  ghost predicate Starts(w: World) {
    && w.holders == map[]
    && (forall i :: 0 <= i < |w.jobs| ==> w.jobs[i].held == 0 && w.jobs[i].pc == Taking && Fine(w.jobs[i]))
  }

  /** Each lease in order, and no lock twice. */
  ghost predicate Fine(j: Job) {
    && j.held <= |j.locks| && j.outer <= |j.locks|
    && InOrder(j.locks[..j.outer]) && InOrder(j.locks[j.outer..]) && Distinct(j.locks)
    && (j.pc == Inside ==> j.held == |j.locks|)
    && (j.pc == Out ==> j.held == 0)
  }

  predicate Holds(w: World, i: nat, l: Lock) {
    i < |w.jobs| && w.jobs[i].held <= |w.jobs[i].locks| && l in w.jobs[i].locks[..w.jobs[i].held]
  }

  /** The table of holders is what the jobs hold: in particular each lock has at most one holder. */
  ghost predicate Inv(w: World) {
    && (forall i :: 0 <= i < |w.jobs| ==> Fine(w.jobs[i]))
    && (forall l, i: nat :: Holds(w, i, l) <==> (l in w.holders && w.holders[l] == i && i < |w.jobs|))
    && (forall l :: l in w.holders ==> w.holders[l] < |w.jobs|)
  }

  lemma NextKeepsInv(w: World, m: Move)
    requires Inv(w)
    ensures Inv(Next(w, m)) && |Next(w, m).jobs| == |w.jobs|
  {
    if m.job < |w.jobs| && Next(w, m) != w {
      hide InOrder;
      var i, j, v := m.job, w.jobs[m.job], Next(w, m);
      assert Fine(j);
      if m.Take? && j.held < |j.locks| {
        TakesOne(w, i);
      } else if m.Give? && j.held > 0 {
        GivesOne(w, i);
      } else if m.Expire? {
        GivesOuter(w, i);
      } else {
        forall l, k: nat ensures Holds(v, k, l) <==> Holds(w, k, l) {}
      }
    }
  }

  lemma TakesOne(w: World, i: nat)
    requires Inv(w) && i < |w.jobs| && w.jobs[i].pc == Taking && w.jobs[i].held < |w.jobs[i].locks|
    requires w.jobs[i].locks[w.jobs[i].held] !in w.holders
    ensures Inv(Next(w, Take(i)))
  {
    hide InOrder;
    var j, v := w.jobs[i], Next(w, Take(i));
    var lock := j.locks[j.held];
    assert Fine(j);
    assert j.locks[..j.held + 1] == j.locks[..j.held] + [lock];
    forall l, k: nat ensures Holds(v, k, l) <==> Holds(w, k, l) || (k == i && l == lock) {}
    assert !Holds(w, i, lock);
    hide Holds;
  }

  lemma GivesOne(w: World, i: nat)
    requires Inv(w) && i < |w.jobs| && w.jobs[i].pc == Giving && 0 < w.jobs[i].held <= |w.jobs[i].locks|
    ensures Inv(Next(w, Give(i)))
  {
    hide InOrder;
    var j, v := w.jobs[i], Next(w, Give(i));
    var n := j.held - 1;
    var lock := j.locks[n];
    assert Fine(j);
    assert j.locks[..j.held] == j.locks[..n] + [lock];
    assert lock !in j.locks[..n];
    assert Holds(w, i, lock);
    assert v.jobs == w.jobs[i := j.(held := n)];
    forall l ensures Holds(v, i, l) <==> Holds(w, i, l) && l != lock {
      assert l in j.locks[..j.held] <==> l in j.locks[..n] || l == lock;
    }
    forall l, k: nat | k != i ensures Holds(v, k, l) <==> Holds(w, k, l) {
      assert k < |w.jobs| ==> v.jobs[k] == w.jobs[k];
    }
    hide Holds;
  }

  lemma GivesOuter(w: World, i: nat)
    requires Inv(w) && i < |w.jobs| && MayExpire(w.jobs[i])
    ensures Inv(Next(w, Expire(i)))
  {
    hide InOrder;
    var j, v := w.jobs[i], Next(w, Expire(i));
    assert Fine(j);
    var lease, inner := j.locks[..j.outer], j.locks[j.outer..j.held];
    assert j.locks[..j.held] == lease + inner && j.locks[j.outer..][..j.held - j.outer] == inner;
    ExpiredFine(j);
    assert v.jobs == w.jobs[i := Expired(j)];
    forall l | l in lease ensures l !in inner && Holds(w, i, l) {
      var a :| 0 <= a < |lease| && lease[a] == l;
      assert forall b :: 0 <= b < |inner| ==> inner[b] == j.locks[j.outer + b] && j.locks[a] != j.locks[j.outer + b];
    }
    forall l ensures Holds(v, i, l) <==> Holds(w, i, l) && l !in lease {}
    forall l, k: nat | k != i ensures Holds(v, k, l) <==> Holds(w, k, l) {
      assert k < |w.jobs| ==> v.jobs[k] == w.jobs[k];
    }
    hide Holds, Fine;
  }

  lemma ExpiredFine(j: Job)
    requires Fine(j) && MayExpire(j)
    ensures Fine(Expired(j))
  {
    var e := Expired(j);
    assert e.locks[..0] == [] && e.locks[0..] == e.locks;
  }

  lemma StartInv(w: World)
    requires Starts(w)
    ensures Inv(w)
  {
  }

  lemma {:induction false} InvReached(w: World, moves: seq<Move>)
    requires Inv(w)
    ensures Inv(After(w, moves)) && |After(w, moves).jobs| == |w.jobs|
  {
    if moves != [] {
      InvReached(w, moves[..|moves| - 1]);
      NextKeepsInv(After(w, moves[..|moves| - 1]), moves[|moves| - 1]);
    }
  }

  /** Mutual exclusion: jobs that are inside at the same time share no lock. */
  lemma InsideApart(w: World, i: nat, k: nat)
    requires Inv(w) && i < k < |w.jobs| && w.jobs[i].pc == Inside && w.jobs[k].pc == Inside
    ensures forall l :: l in w.jobs[i].locks ==> l !in w.jobs[k].locks
  {
    assert Fine(w.jobs[i]) && Fine(w.jobs[k]);
    assert w.jobs[i].locks[..w.jobs[i].held] == w.jobs[i].locks;
    assert w.jobs[k].locks[..w.jobs[k].held] == w.jobs[k].locks;
    forall l | l in w.jobs[i].locks ensures l !in w.jobs[k].locks {
      assert Holds(w, i, l);
      assert !Holds(w, k, l);
    }
  }

  // ---------------------------------------------------------------- progress

  predicate CanMove(w: World, i: nat) {
    i < |w.jobs| && w.jobs[i].pc != Out &&
    (w.jobs[i].pc == Taking && w.jobs[i].held < |w.jobs[i].locks| ==> w.jobs[i].locks[w.jobs[i].held] !in w.holders)
  }

  predicate CanExpire(w: World, i: nat) {
    i < |w.jobs| && MayExpire(w.jobs[i])
  }

  /** A lease of one machine around one of another. */
  predicate Nests(j: Job) {
    0 < j.outer < |j.locks|
  }

  /** The step a job has without being cancelled: its own if there is one, or else its deadline's. */
  function StepOf(w: World, i: nat): Move
    requires i < |w.jobs|
  {
    if !CanMove(w, i) then Expire(i)
    else match w.jobs[i].pc case Inside => Leave(i) case Giving => Give(i) case _ => Take(i)
  }

  lemma StepMoves(w: World, i: nat)
    requires Inv(w) && (CanMove(w, i) || CanExpire(w, i))
    ensures Next(w, StepOf(w, i)) != w
  {
    hide InOrder;
    assert Fine(w.jobs[i]);
    assert Next(w, StepOf(w, i)).jobs[i] != w.jobs[i];
  }

  /** The lock a waiting job waits for. */
  function Wanted(j: Job): Lock {
    if j.held < |j.locks| then j.locks[j.held] else Lock("", "")
  }

  /** A job that waits, waits for a job that can go on, or waits itself for a later lock. */
  lemma HolderIsFurther(w: World, i: nat) returns (k: nat)
    requires Inv(w) && i < |w.jobs| && w.jobs[i].pc == Taking && !CanMove(w, i)
    ensures k < |w.jobs| && w.jobs[k].pc != Out
    ensures CanMove(w, k) || CanExpire(w, k) || Before(Wanted(w.jobs[i]), Wanted(w.jobs[k]))
  {
    hide Before;
    var lock := w.jobs[i].locks[w.jobs[i].held];
    k := w.holders[lock];
    assert Holds(w, k, lock);
    var j := w.jobs[k];
    var h: nat :| h < j.held && j.locks[h] == lock;
    assert Fine(j);
    if !CanMove(w, k) && !CanExpire(w, k) {
      if j.outer == 0 {
        assert j.locks[0..] == j.locks;
        assert Before(j.locks[0..][h], j.locks[0..][j.held]);
      } else {
        assert j.held < j.outer;
        assert Before(j.locks[..j.outer][h], j.locks[..j.outer][j.held]);
      }
    }
  }

  /** Among the jobs that are not done there is one that wants the last lock in the order. */
  lemma {:induction false} LastWaiter(w: World, n: nat) returns (last: nat)
    requires 0 < n <= |w.jobs| && exists i :: 0 <= i < n && w.jobs[i].pc != Out
    ensures last < n && w.jobs[last].pc != Out
    ensures forall i :: 0 <= i < n && w.jobs[i].pc != Out ==> LockLeq(Wanted(w.jobs[i]), Wanted(w.jobs[last]))
  {
    hide Wanted, LockLeq;
    LockOrder();
    if exists i :: 0 <= i < n - 1 && w.jobs[i].pc != Out {
      last := LastWaiter(w, n - 1);
      if w.jobs[n - 1].pc != Out && !LockLeq(Wanted(w.jobs[n - 1]), Wanted(w.jobs[last])) { last := n - 1; }
    } else {
      last := n - 1;
    }
  }

  /** No deadlock without an end: as long as some job is not done, some job has a step of its own or a
      deadline to come; and if no job nests leases, one has a step of its own. */
  lemma SomeoneMoves(w: World) returns (i: nat)
    requires Inv(w) && exists k :: 0 <= k < |w.jobs| && w.jobs[k].pc != Out
    ensures (CanMove(w, i) || CanExpire(w, i)) && Next(w, StepOf(w, i)) != w
    ensures (forall k :: 0 <= k < |w.jobs| ==> !Nests(w.jobs[k])) ==> CanMove(w, i)
  {
    hide Inv, Next, Before, LockLeq, StepOf;
    i := LastWaiter(w, |w.jobs|);
    if !CanMove(w, i) && !CanExpire(w, i) {
      WaitingJob(w, i);
      var k := HolderIsFurther(w, i);
      assert LockLeq(Wanted(w.jobs[k]), Wanted(w.jobs[i]));
      BeforeNotBack(Wanted(w.jobs[i]), Wanted(w.jobs[k]));
      i := k;
    }
    StepMoves(w, i);
    if CanExpire(w, i) && !Nests(w.jobs[i]) { UnnestedMoves(w, i); }
  }

  lemma UnnestedMoves(w: World, i: nat)
    requires Inv(w) && CanExpire(w, i) && !Nests(w.jobs[i])
    ensures CanMove(w, i)
  {
  }

  lemma WaitingJob(w: World, i: nat)
    requires i < |w.jobs| && w.jobs[i].pc != Out && !CanMove(w, i)
    ensures w.jobs[i].pc == Taking && w.jobs[i].held < |w.jobs[i].locks|
  {
  }

  function Rank(j: Job): nat {
    match j.pc
    case Taking => 2 * |j.locks| + 3 - (if j.held <= |j.locks| then j.held else |j.locks|)
    case Inside => |j.locks| + 2
    case Giving => if j.held <= |j.locks| then j.held + 1 else |j.locks| + 1
    case Out => 0
  }

  function Ranks(jobs: seq<Job>): nat {
    if jobs == [] then 0 else Ranks(jobs[..|jobs| - 1]) + Rank(jobs[|jobs| - 1])
  }

  lemma {:induction false} RanksAfterUpdate(jobs: seq<Job>, i: nat, j: Job)
    requires i < |jobs|
    ensures Ranks(jobs[i := j]) + Rank(jobs[i]) == Ranks(jobs) + Rank(j)
  {
    hide Rank;
    var n := |jobs| - 1;
    if i == n {
      assert jobs[i := j][..n] == jobs[..n];
    } else {
      assert jobs[i := j][..n] == jobs[..n][i := j];
      RanksAfterUpdate(jobs[..n], i, j);
    }
  }

  /** Every step brings the end nearer, so that, with no deadlock, all jobs end. */
  lemma StepsEnd(w: World, m: Move)
    requires Inv(w) && Next(w, m) != w
    ensures Ranks(Next(w, m).jobs) < Ranks(w.jobs)
  {
    hide InOrder, Ranks;
    assert Fine(w.jobs[m.job]);
    RanksAfterUpdate(w.jobs, m.job, Next(w, m).jobs[m.job]);
  }

  ghost predicate AllOut(w: World) {
    forall i :: 0 <= i < |w.jobs| ==> w.jobs[i].pc == Out
  }

  /** A job nests no more after a step than before it. */
  lemma NestsLess(w: World, m: Move, k: nat)
    requires Inv(w) && k < |w.jobs| && !Nests(w.jobs[k])
    ensures k < |Next(w, m).jobs| && !Nests(Next(w, m).jobs[k])
  {
  }

  /** From every such state there is a way on to the end of all jobs, by their own steps alone unless some
      of them nest leases, and then all locks are free. */
  lemma {:induction false} AllCanEnd(w: World) returns (moves: seq<Move>)
    requires Inv(w)
    ensures AllOut(After(w, moves)) && After(w, moves).holders == map[]
    ensures (forall k :: 0 <= k < |w.jobs| ==> !Nests(w.jobs[k])) ==> forall m :: m in moves ==> !m.Expire?
    decreases Ranks(w.jobs)
  {
    hide Inv, Next, Ranks, Nests, StepOf;
    if AllOut(w) {
      moves := [];
      NothingLeft(w);
    } else {
      var i := SomeoneMoves(w);
      var m := StepOf(w, i);
      OwnStep(w, i);
      StepsEnd(w, m);
      NextKeepsInv(w, m);
      if forall k :: 0 <= k < |w.jobs| ==> !Nests(w.jobs[k]) {
        forall k | 0 <= k < |w.jobs| ensures !Nests(Next(w, m).jobs[k]) { NestsLess(w, m, k); }
      }
      var rest := AllCanEnd(Next(w, m));
      moves := [m] + rest;
      AfterFirst(w, m, rest);
    }
  }

  lemma OwnStep(w: World, i: nat)
    ensures CanMove(w, i) ==> !StepOf(w, i).Expire?
  {
  }

  lemma HoldersHold(w: World)
    requires Inv(w)
    ensures forall l :: l in w.holders ==> exists i: nat :: Holds(w, i, l)
  {
    forall l | l in w.holders ensures exists i: nat :: Holds(w, i, l) {
      assert Holds(w, w.holders[l], l);
    }
  }

  /** All locks are free when all jobs have ended. */
  lemma NothingLeft(w: World)
    requires Inv(w) && AllOut(w)
    ensures w.holders == map[]
  {
    forall i: nat, l ensures !Holds(w, i, l) {
      assert i < |w.jobs| ==> Fine(w.jobs[i]) && w.jobs[i].held == 0;
    }
    HoldersHold(w);
  }

  lemma {:induction false} AfterFirst(w: World, m: Move, rest: seq<Move>)
    ensures After(w, [m] + rest) == After(Next(w, m), rest)
  {
    hide Next;
    if rest == [] {
      assert [m] + rest == [m];
      assert After(w, [m]) == Next(After(w, []), m) by { assert [m][..0] == []; }
    } else {
      var n := |rest| - 1;
      assert ([m] + rest)[..|[m] + rest| - 1] == [m] + rest[..n];
      AfterFirst(w, m, rest[..n]);
    }
  }

  // ---------------------------------------------------------------- commands with declared resources

  /** A gate command, run where it is or sent to a worker on another machine. */
  datatype Command =
    | Local(machine: string, worker: string, resources: seq<string>)
    | Sent(machine: string, to: string, worker: string, resources: seq<string>)

  function OnMachine(machine: string, identities: seq<string>): seq<Lock> {
    seq(|identities|, i requires 0 <= i < |identities| => Lock(machine, identities[i]))
  }

  function WithScope(scope: string, resources: seq<string>): (r: seq<string>)
    ensures forall x :: x in r <==> x in resources && scope <= x
  {
    if resources == [] then []
    else
      var rest := WithScope(scope, resources[1..]);
      assert resources == [resources[0]] + resources[1..];
      if scope <= resources[0] then [resources[0]] + rest else rest
  }

  /** The sender's lease: the pool resources, on its own machine. */
  function OuterLocks(c: Command): seq<Lock> {
    if c.Local? then [] else OnMachine(c.machine, LocksOf("controller", WithScope("pool:", c.resources)))
  }

  function InnerLocks(c: Command): seq<Lock> {
    if c.Local? then OnMachine(c.machine, LocksOf(c.worker, c.resources))
    else OnMachine(c.to, LocksOf(c.worker, WithScope("host:", c.resources)))
  }

  function JobOf(c: Command, cancellable: bool): Job {
    Job(OuterLocks(c) + InnerLocks(c), cancellable, 0, Taking, |OuterLocks(c)|)
  }

  predicate AllDeclared(resources: seq<string>) {
    forall r | r in resources :: Declared(r)
  }

  lemma OnMachineInOrder(machine: string, identities: seq<string>)
    requires Ascending(identities)
    ensures InOrder(OnMachine(machine, identities)) && Distinct(OnMachine(machine, identities))
  {
    var locks := OnMachine(machine, identities);
    forall i, j | 0 <= i < j < |locks| ensures Before(locks[i], locks[j]) && locks[i] != locks[j] {
      assert Less(identities[i], identities[j]);
    }
  }

  /** Lock identities tell the scope of their resources. */
  lemma ScopeOfLocks(worker: string, resources: seq<string>, host: bool, k: nat)
    requires forall r :: r in resources ==> Declared(r) && ("host:" <= r <==> host)
    requires k < |LocksOf(worker, resources)|
    ensures var l := LocksOf(worker, resources)[k]; l != "" && (l[0] == 'h' <==> host)
  {
    hide Identity;
    var ordered := Ordered(resources);
    SortKeepsMembers(StringLeq, Unique(resources), ordered[k]);
    UniqueFacts(resources);
    assert ordered[k] in ordered && ordered[k] in resources;
    IdentityScope(worker, ordered[k]);
  }

  lemma IdentityScope(worker: string, r: string)
    requires Declared(r)
    ensures Identity(worker, r) != "" && (Identity(worker, r)[0] == 'h' <==> "host:" <= r)
  {
    Parts(r);
  }

  lemma HasLocks(worker: string, resources: seq<string>)
    requires AllDeclared(resources)
    ensures |LocksOf(worker, resources)| > 0 <==> |resources| > 0
  {
    if |resources| > 0 {
      LocksAscend(worker, resources);
      assert resources[0] in resources && Identity(worker, resources[0]) in LocksOf(worker, resources);
    } else {
      assert Unique(resources) == resources;
    }
  }

  /** A command with a pool resource here and a host resource there. */
  predicate NestsLeases(c: Command) {
    c.Sent? && (exists r | r in c.resources :: "pool:" <= r) && (exists r | r in c.resources :: "host:" <= r)
  }

  lemma NestsWhen(c: Command, cancellable: bool)
    requires AllDeclared(c.resources)
    ensures Nests(JobOf(c, cancellable)) <==> NestsLeases(c)
  {
    if c.Sent? {
      var pools, hosts := WithScope("pool:", c.resources), WithScope("host:", c.resources);
      HasLocks("controller", pools);
      HasLocks(c.worker, hosts);
      hide LocksOf, WithScope;
      assert |pools| > 0 ==> pools[0] in pools;
      assert |hosts| > 0 ==> hosts[0] in hosts;
    }
  }

  /** A command with declared resources makes a job whose leases are in order and share no lock. */
  lemma JobIsFine(c: Command, cancellable: bool)
    requires AllDeclared(c.resources)
    ensures Fine(JobOf(c, cancellable))
  {
    hide LocksOf, Identity, Ascending, InOrder;
    var outer, inner := OuterLocks(c), InnerLocks(c);
    var all := outer + inner;
    assert all[..|outer|] == outer && all[|outer|..] == inner;
    if c.Local? {
      LocksAscend(c.worker, c.resources);
      OnMachineInOrder(c.machine, LocksOf(c.worker, c.resources));
      NothingInOrder();
    } else {
      var pools, hosts := WithScope("pool:", c.resources), WithScope("host:", c.resources);
      LocksAscend("controller", pools);
      LocksAscend(c.worker, hosts);
      OnMachineInOrder(c.machine, LocksOf("controller", pools));
      OnMachineInOrder(c.to, LocksOf(c.worker, hosts));
      forall i, k | 0 <= i < |outer| && 0 <= k < |inner| ensures outer[i] != inner[k] {
        forall r | r in pools ensures !("host:" <= r) { assert r[0] == 'p'; }
        ScopeOfLocks("controller", pools, false, i);
        ScopeOfLocks(c.worker, hosts, true, k);
      }
    }
    forall i, k | 0 <= i < k < |all| ensures all[i] != all[k] {
      if k < |outer| { assert outer[i] != outer[k]; }
      else if i >= |outer| { assert inner[i - |outer|] != inner[k - |outer|]; }
    }
  }

  lemma NothingInOrder()
    ensures InOrder([])
  {
  }

  function Commands(commands: seq<(Command, bool)>): World {
    World(map[], seq(|commands|, i requires 0 <= i < |commands| => JobOf(commands[i].0, commands[i].1)))
  }

  /** Every state that any commands with declared resources, on any workers of any machines, reach by any
      steps and deadlines: the table of holders is true and all can end, by their own steps alone unless a
      command sent away has both a pool and a host resource. */
  lemma DeclaredCommandsEnd(commands: seq<(Command, bool)>, moves: seq<Move>) returns (rest: seq<Move>)
    requires forall i :: 0 <= i < |commands| ==> AllDeclared(commands[i].0.resources)
    ensures Inv(After(Commands(commands), moves))
    ensures AllOut(After(After(Commands(commands), moves), rest))
    ensures After(After(Commands(commands), moves), rest).holders == map[]
    ensures (forall i :: 0 <= i < |commands| ==> !NestsLeases(commands[i].0)) ==> forall m :: m in rest ==> !m.Expire?
  {
    hide Fine, JobOf, Nests, NestsLeases;
    var w := Commands(commands);
    forall i | 0 <= i < |commands|
      ensures Fine(w.jobs[i]) && w.jobs[i].held == 0 && w.jobs[i].pc == Taking
      ensures !NestsLeases(commands[i].0) ==> !Nests(w.jobs[i])
    {
      NestsWhen(commands[i].0, commands[i].1);
      JobIsFine(commands[i].0, commands[i].1);
      JobStarts(commands[i].0, commands[i].1);
    }
    StartInv(w);
    InvReached(w, moves);
    if forall i :: 0 <= i < |commands| ==> !NestsLeases(commands[i].0) { NeverNests(w, moves); }
    hide Commands;
    rest := AllCanEnd(After(w, moves));
  }

  // ---------------------------------------------------------------- resources exclude one another

  /** The machine the command runs on. */
  function Receiver(c: Command): string {
    if c.Local? then c.machine else c.to
  }

  lemma LockIn(machine: string, worker: string, resources: seq<string>, r: string)
    requires AllDeclared(resources) && r in resources
    ensures Lock(machine, Identity(worker, r)) in OnMachine(machine, LocksOf(worker, resources))
  {
    LocksAscend(worker, resources);
    var identities := LocksOf(worker, resources);
    hide LocksOf, Identity;
    var k :| 0 <= k < |identities| && identities[k] == Identity(worker, r);
    assert OnMachine(machine, identities)[k] == Lock(machine, Identity(worker, r));
  }

  lemma HostLock(c: Command, name: string)
    requires AllDeclared(c.resources) && "host:" + name in c.resources
    ensures Lock(Receiver(c), "host:" + c.worker + ":" + name) in InnerLocks(c)
  {
    var r := "host:" + name;
    NamedParts(c.worker, "host:", name);
    hide Identity, LocksOf;
    if c.Local? {
      LockIn(c.machine, c.worker, c.resources, r);
    } else {
      LockIn(c.to, c.worker, WithScope("host:", c.resources), r);
    }
  }

  lemma PoolLock(c: Command, name: string)
    requires AllDeclared(c.resources) && "pool:" + name in c.resources
    ensures Lock(c.machine, "pool:" + name) in OuterLocks(c) + InnerLocks(c)
  {
    var r := "pool:" + name;
    NamedParts(if c.Local? then c.worker else "controller", "pool:", name);
    hide Identity, LocksOf;
    if c.Local? {
      LockIn(c.machine, c.worker, c.resources, r);
    } else {
      LockIn(c.machine, "controller", WithScope("pool:", c.resources), r);
    }
  }

  lemma NamedParts(worker: string, scope: string, name: string)
    requires scope == "host:" || scope == "pool:"
    ensures scope <= scope + name
    ensures Identity(worker, scope + name) == if scope == "host:" then "host:" + worker + ":" + name else "pool:" + name
  {
    assert scope <= scope + name && (scope + name)[5..] == name;
    Parts(scope + name);
    assert scope == "pool:" ==> !("host:" <= scope + name) by { assert (scope + name)[0] == scope[0]; }
  }

  /** Jobs keep the locks they want, but for the sender's lease once its deadline came. */
  lemma {:induction false} JobKeeps(commands: seq<(Command, bool)>, moves: seq<Move>, i: nat)
    requires i < |commands|
    ensures var w, c := After(Commands(commands), moves), commands[i].0;
      && |w.jobs| == |commands|
      && (|| (w.jobs[i].locks == OuterLocks(c) + InnerLocks(c) && w.jobs[i].outer == |OuterLocks(c)|)
          || (Expire(i) in moves && w.jobs[i].locks == InnerLocks(c) && w.jobs[i].outer == 0))
  {
    hide OuterLocks, InnerLocks;
    if moves != [] {
      var before, m := moves[..|moves| - 1], moves[|moves| - 1];
      JobKeeps(commands, before, i);
      assert m in moves && forall x :: x in before ==> x in moves;
      var outer, inner := OuterLocks(commands[i].0), InnerLocks(commands[i].0);
      assert (outer + inner)[|outer|..] == inner;
    }
  }

  /** In every run of declared commands, those that are inside exclude one another: no two on one machine for
      one worker name the same host resource, and no two sent from one machine, or at home there, name the
      same pool resource, as long as neither of their senders met its deadline. */
  lemma ResourcesExclude(commands: seq<(Command, bool)>, moves: seq<Move>, i: nat, k: nat, name: string)
    requires forall n :: 0 <= n < |commands| ==> AllDeclared(commands[n].0.resources)
    requires i < k < |commands| && |After(Commands(commands), moves).jobs| == |commands|
    requires After(Commands(commands), moves).jobs[i].pc == Inside && After(Commands(commands), moves).jobs[k].pc == Inside
    ensures var (c, d) := (commands[i].0, commands[k].0);
      && !(Receiver(c) == Receiver(d) && c.worker == d.worker && "host:" + name in c.resources && "host:" + name in d.resources)
      && !(c.machine == d.machine && "pool:" + name in c.resources && "pool:" + name in d.resources
           && Expire(i) !in moves && Expire(k) !in moves)
  {
    var w, c, d := After(Commands(commands), moves), commands[i].0, commands[k].0;
    CommandsStart(commands);
    InvReached(Commands(commands), moves);
    InsideApart(w, i, k);
    JobKeeps(commands, moves, i);
    JobKeeps(commands, moves, k);
    hide *;
    HostsApart(c, d, w.jobs[i].locks, w.jobs[k].locks, name);
    if Expire(i) !in moves && Expire(k) !in moves { PoolsApart(c, d, w.jobs[i].locks, w.jobs[k].locks, name); }
  }

  lemma HostsApart(c: Command, d: Command, a: seq<Lock>, b: seq<Lock>, name: string)
    requires AllDeclared(c.resources) && AllDeclared(d.resources)
    requires a == OuterLocks(c) + InnerLocks(c) || a == InnerLocks(c)
    requires b == OuterLocks(d) + InnerLocks(d) || b == InnerLocks(d)
    requires forall l :: l in a ==> l !in b
    ensures !(Receiver(c) == Receiver(d) && c.worker == d.worker && "host:" + name in c.resources && "host:" + name in d.resources)
  {
    hide OuterLocks, InnerLocks;
    if "host:" + name in c.resources { HostLock(c, name); }
    if "host:" + name in d.resources { HostLock(d, name); }
    assert "host:" + name in c.resources ==> Lock(Receiver(c), "host:" + c.worker + ":" + name) in a;
    assert "host:" + name in d.resources ==> Lock(Receiver(d), "host:" + d.worker + ":" + name) in b;
  }

  lemma PoolsApart(c: Command, d: Command, a: seq<Lock>, b: seq<Lock>, name: string)
    requires AllDeclared(c.resources) && AllDeclared(d.resources)
    requires a == OuterLocks(c) + InnerLocks(c) && b == OuterLocks(d) + InnerLocks(d)
    requires forall l :: l in a ==> l !in b
    ensures !(c.machine == d.machine && "pool:" + name in c.resources && "pool:" + name in d.resources)
  {
    hide OuterLocks, InnerLocks;
    if "pool:" + name in c.resources { PoolLock(c, name); }
    if "pool:" + name in d.resources { PoolLock(d, name); }
    assert "pool:" + name in c.resources ==> Lock(c.machine, "pool:" + name) in a;
    assert "pool:" + name in d.resources ==> Lock(d.machine, "pool:" + name) in b;
  }

  lemma CommandsStart(commands: seq<(Command, bool)>)
    requires forall n :: 0 <= n < |commands| ==> AllDeclared(commands[n].0.resources)
    ensures Inv(Commands(commands))
  {
    hide Fine, JobOf;
    var w := Commands(commands);
    forall i | 0 <= i < |commands| ensures Fine(w.jobs[i]) && w.jobs[i].held == 0 && w.jobs[i].pc == Taking {
      JobIsFine(commands[i].0, commands[i].1);
      JobStarts(commands[i].0, commands[i].1);
    }
    StartInv(w);
  }

  lemma JobStarts(c: Command, cancellable: bool)
    ensures JobOf(c, cancellable).held == 0 && JobOf(c, cancellable).pc == Taking
  {
  }

  lemma {:induction false} NeverNests(w: World, moves: seq<Move>)
    requires Inv(w) && forall k :: 0 <= k < |w.jobs| ==> !Nests(w.jobs[k])
    ensures forall k :: 0 <= k < |After(w, moves).jobs| ==> !Nests(After(w, moves).jobs[k])
  {
    hide Next, Nests, Inv;
    if moves != [] {
      var before := moves[..|moves| - 1];
      NeverNests(w, before);
      InvReached(w, before);
      var v, m := After(w, before), moves[|moves| - 1];
      NextKeepsInv(v, m);
      forall k | 0 <= k < |Next(v, m).jobs| ensures !Nests(Next(v, m).jobs[k]) { NestsLess(v, m, k); }
    }
  }

  // ---------------------------------------------------------------- nested leases

  lemma OneLock(worker: string, r: string)
    ensures LocksOf(worker, [r]) == [Identity(worker, r)]
  {
    assert Unique([r]) == [r] by { assert [r][..0] == []; }
    assert Sort(StringLeq, [r]) == [r];
    assert Ordered([r]) == [r];
  }

  /** A host resource and a pool resource: the host lock comes first. */
  lemma TwoLocks(worker: string, host: string, pool: string)
    ensures LocksOf(worker, ["host:" + host, "pool:" + pool]) == ["host:" + worker + ":" + host, "pool:" + pool]
  {
    var h: string, p: string := "host:" + host, "pool:" + pool;
    assert h[0] == 'h' && p[0] == 'p';
    assert Unique([h]) == [h] by { assert [h][..0] == []; }
    assert [h, p][..1] == [h] && [h, p][1..] == [p];
    assert Unique([h, p]) == [h, p];
    assert Sort(StringLeq, [p]) == [p];
    assert Ordered([h, p]) == [h, p];
    NamedIdentity(worker, host, pool);
  }

  lemma NamedIdentity(worker: string, host: string, pool: string)
    ensures Identity(worker, "host:" + host) == "host:" + worker + ":" + host
    ensures Identity(worker, "pool:" + pool) == "pool:" + pool
  {
    Parts("host:" + host);
    Parts("pool:" + pool);
    assert ("host:" + host)[5..] == host && ("pool:" + pool)[5..] == pool;
  }

  /** A command for the other machine, with a pool resource and a host resource. */
  function Away(machine: string, to: string, worker: string, pool: string, host: string): Command {
    Sent(machine, to, worker, ["pool:" + pool, "host:" + host])
  }

  /** A command of the machine's own, with both. */
  function AtHome(machine: string, worker: string, host: string, pool: string): Command {
    Local(machine, worker, ["host:" + host, "pool:" + pool])
  }

  lemma AwayJob(c: Command, machine: string, to: string, worker: string, pool: string, host: string)
    requires c == Away(machine, to, worker, pool, host)
    ensures var outer, inner := Lock(machine, "pool:" + pool), Lock(to, "host:" + worker + ":" + host);
      JobOf(c, false) == Job([outer, inner], false, 0, Taking, 1)
  {
    var h: string, p: string := "host:" + host, "pool:" + pool;
    assert h[0] == 'h' && p[0] == 'p' && "host:" <= h && "pool:" <= p;
    assert [p, h][1..] == [h] && [h][1..] == [];
    assert WithScope("pool:", [h]) == [] && WithScope("host:", [h]) == [h] by { assert WithScope("host:", []) == []; }
    assert WithScope("pool:", c.resources) == [p] && WithScope("host:", c.resources) == [h];
    OneLock("controller", p);
    OneLock(worker, h);
    NamedIdentity(worker, host, pool);
    NamedIdentity("controller", host, pool);
    assert OuterLocks(c) == [Lock(machine, "pool:" + pool)];
    assert InnerLocks(c) == [Lock(to, "host:" + worker + ":" + host)];
  }

  lemma HomeJob(c: Command, machine: string, worker: string, host: string, pool: string)
    requires c == AtHome(machine, worker, host, pool)
    ensures var locks := [Lock(machine, "host:" + worker + ":" + host), Lock(machine, "pool:" + pool)];
      JobOf(c, false) == Job(locks, false, 0, Taking, 0)
  {
    TwoLocks(worker, host, pool);
    assert OuterLocks(c) + InnerLocks(c) == InnerLocks(c);
    assert InnerLocks(c) == [Lock(machine, "host:" + worker + ":" + host), Lock(machine, "pool:" + pool)];
  }

  /** Two machines, each with a command of its own and one for the other. */
  function Four(a: string, b: string, worker: string, other: string, x: string, y: string, u: string, z: string):
    seq<(Command, bool)>
  {
    [(Away(a, b, other, x, y), false), (AtHome(b, other, y, u), false),
     (Away(b, a, worker, u, z), false), (AtHome(a, worker, z, x), false)]
  }

  /** Nesting is what makes commands wait for a deadline: on any two machines, with any workers and any
      resource names, four commands of which two are sent to the other machine can come to hold one lock
      each and to wait for one another. None then has a step but the deadlines of the two senders, and
      the first of these lets the next command go on. */
  lemma NestedLeasesWait(a: string, b: string, worker: string, other: string, x: string, y: string, u: string, z: string)
    requires a != b
    ensures var w := After(Commands(Four(a, b, worker, other, x, y, u, z)), [Take(0), Take(1), Take(2), Take(3)]);
      && |w.jobs| == 4 && (forall i :: 0 <= i < 4 ==> w.jobs[i].pc == Taking && !CanMove(w, i))
      && CanExpire(w, 0) && CanExpire(w, 2) && !CanExpire(w, 1) && !CanExpire(w, 3)
      && CanMove(Next(w, Expire(0)), 3)
  {
    hide CanMove, CanExpire, Next, After, Commands, Four;
    var p, q, r, s := Lock(a, "pool:" + x), Lock(b, "host:" + other + ":" + y), Lock(b, "pool:" + u), Lock(a, "host:" + worker + ":" + z);
    assert p.identity[0] == 'p' && q.identity[0] == 'h' && r.identity[0] == 'p' && s.identity[0] == 'h';
    FourJobs(a, b, worker, other, x, y, u, z);
    FourTake(p, q, r, s);
    FourWait(p, q, r, s);
  }

  lemma FourJobs(a: string, b: string, worker: string, other: string, x: string, y: string, u: string, z: string)
    ensures var p, q := Lock(a, "pool:" + x), Lock(b, "host:" + other + ":" + y);
      var r, s := Lock(b, "pool:" + u), Lock(a, "host:" + worker + ":" + z);
      Commands(Four(a, b, worker, other, x, y, u, z)) == World(map[], FourJobsOf(p, q, r, s, 0))
  {
    hide JobOf, Away, AtHome;
    AwayJob(Away(a, b, other, x, y), a, b, other, x, y);
    HomeJob(AtHome(b, other, y, u), b, other, y, u);
    AwayJob(Away(b, a, worker, u, z), b, a, worker, u, z);
    HomeJob(AtHome(a, worker, z, x), a, worker, z, x);
  }

  function FourJobsOf(p: Lock, q: Lock, r: Lock, s: Lock, held: nat): seq<Job> {
    [Job([p, q], false, held, Taking, 1), Job([q, r], false, held, Taking, 0),
     Job([r, s], false, held, Taking, 1), Job([s, p], false, held, Taking, 0)]
  }

  lemma FourTake(p: Lock, q: Lock, r: Lock, s: Lock)
    requires Distinct([p, q, r, s])
    ensures After(World(map[], FourJobsOf(p, q, r, s, 0)), [Take(0), Take(1), Take(2), Take(3)])
         == World(map[p := 0, q := 1, r := 2, s := 3], FourJobsOf(p, q, r, s, 1))
  {
    AllApart(p, q, r, s);
    var none, one := FourJobsOf(p, q, r, s, 0), FourJobsOf(p, q, r, s, 1);
    var w0 := World(map[], none);
    var w1 := World(map[p := 0], one[..1] + none[1..]);
    var w2 := World(map[p := 0, q := 1], one[..2] + none[2..]);
    var w3 := World(map[p := 0, q := 1, r := 2], one[..3] + none[3..]);
    assert Next(w0, Take(0)) == w1;
    assert Next(w1, Take(1)) == w2;
    assert Next(w2, Take(2)) == w3;
    assert Next(w3, Take(3)) == World(map[p := 0, q := 1, r := 2, s := 3], one);
    AfterFour(w0, Take(0), Take(1), Take(2), Take(3));
  }

  lemma AllApart(p: Lock, q: Lock, r: Lock, s: Lock)
    requires Distinct([p, q, r, s])
    ensures p != q && p != r && p != s && q != r && q != s && r != s
  {
    var all := [p, q, r, s];
    assert all[0] != all[1] && all[0] != all[2] && all[0] != all[3] && all[1] != all[2] && all[1] != all[3] && all[2] != all[3];
  }

  lemma FourWait(p: Lock, q: Lock, r: Lock, s: Lock)
    requires Distinct([p, q, r, s])
    ensures var w := World(map[p := 0, q := 1, r := 2, s := 3], FourJobsOf(p, q, r, s, 1));
      && (forall i :: 0 <= i < 4 ==> w.jobs[i].pc == Taking && !CanMove(w, i))
      && CanExpire(w, 0) && CanExpire(w, 2) && !CanExpire(w, 1) && !CanExpire(w, 3)
      && CanMove(Next(w, Expire(0)), 3)
  {
    AllApart(p, q, r, s);
    assert [p, q][..1] == [p];
  }

  lemma AfterFour(w: World, m0: Move, m1: Move, m2: Move, m3: Move)
    ensures After(w, [m0, m1, m2, m3]) == Next(Next(Next(Next(w, m0), m1), m2), m3)
  {
    hide Next;
    assert [m0, m1, m2, m3][..3] == [m0, m1, m2] && [m0, m1, m2][..2] == [m0, m1] && [m0, m1][..1] == [m0] && [m0][..0] == [];
    assert After(w, [m0]) == Next(w, m0);
    assert After(w, [m0, m1]) == Next(Next(w, m0), m1);
    assert After(w, [m0, m1, m2]) == Next(Next(Next(w, m0), m1), m2);
  }
}
