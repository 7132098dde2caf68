/** Gate commands on several workers: slot accounting, lanes pinned to workers and retries, with any
    number of commands in flight. */
module DistributedGates {

  datatype Endpoint = Endpoint(slots: nat, local: bool, domain: string)

  type Pool = map<string, Endpoint>

  /** The workers and the two configured limits. */
  datatype Site = Site(pool: Pool, retries: nat, workers: nat) {
    function Maximum(): nat {
      if workers < 1 then 1 else workers
    }

    function Domain(e: string): string {
      if e in pool then pool[e].domain else ""
    }
  }

  /** A command: the slots it takes, its lane ("" for none) and the workers that support it. */
  datatype Request = Request(required: nat, lane: string, fits: set<string>)

  datatype Result = Result(ok: bool, termination: string, infrastructure: bool, failureId: string)

  const UNCERTAIN := "remote_state_uncertain"

  /** One execution: a result with the failure marker found in its output ("" for none), an error that
      is caught and reported as an infrastructure failure, or one that escapes. */
  datatype Outcome = Returns(result: Result, marker: string) | Errors | Escapes

  /** `classify_reported_infrastructure_failure` */
  function Classified(r: Result, marker: string): Result {
    if r.ok || r.infrastructure || r.termination != "" || marker == "" then r
    else r.(infrastructure := true, failureId := marker)
  }

  function Received(o: Outcome): Result {
    if o.Returns? then Classified(o.result, o.marker) else Result(false, "infrastructure_error", true, "")
  }

  datatype Verdict = Final | Elsewhere | Reported

  /** What the first loop does with a result. `stateful`: earlier commands of the lane succeeded. */
  function FirstVerdict(r: Result, stateful: bool): Verdict {
    if r.failureId != "" then if stateful then Final else Reported
    else if !r.infrastructure || r.termination == UNCERTAIN || stateful then Final
    else Elsewhere
  }

  /** What the loop over reported failures does with a result. */
  function RetryVerdict(r: Result): Verdict {
    if !r.infrastructure || r.termination == UNCERTAIN then Final else Elsewhere
  }

  /** What an execution comes to: its own result, unless its output names a failure of the infrastructure
      where nothing else explains why it failed; an error that was caught is an infrastructure failure. */
  lemma ReceivedMeans(o: Outcome)
    ensures o.Errors? ==> !Received(o).ok && Received(o).infrastructure && Received(o).failureId == "" && Received(o).termination != UNCERTAIN
    ensures o.Returns? && !o.result.ok && !o.result.infrastructure && o.result.termination == "" && o.marker != "" ==>
      Received(o) == Result(false, "", true, o.marker)
    ensures o.Returns? && (o.result.ok || o.result.infrastructure || o.result.termination != "" || o.marker == "") ==> Received(o) == o.result
  {
  }

  /** Only an infrastructure failure that is certain is tried elsewhere, in the first loop only without a
      name and outside a lane with state; one with a name goes to the other loop. */
  lemma VerdictsMean(r: Result, stateful: bool)
    ensures FirstVerdict(r, stateful) == Reported <==> r.failureId != "" && !stateful
    ensures FirstVerdict(r, stateful) == Elsewhere <==> r.failureId == "" && r.infrastructure && r.termination != UNCERTAIN && !stateful
    ensures RetryVerdict(r) == Elsewhere <==> r.infrastructure && r.termination != UNCERTAIN
    ensures RetryVerdict(r) != Reported
  {
  }

  // ---------------------------------------------------------------- slots

  /** The workers `_acquire_endpoint` may choose from. */
  predicate Candidate(site: Site, q: Request, exclude: set<string>, reuse: bool, e: string) {
    && e in site.pool && e in q.fits && q.required <= site.pool[e].slots
    && (e !in exclude || (reuse && site.pool[e].local && NoneLeft(site, q, exclude)))
  }

  predicate NoneLeft(site: Site, q: Request, exclude: set<string>) {
    forall e | e in site.pool :: e in q.fits && q.required <= site.pool[e].slots ==> e in exclude
  }

  predicate HasRoom(site: Site, active: map<string, nat>, e: string, required: nat) {
    e in site.pool && e in active && active[e] + required <= site.pool[e].slots
  }

  function Taken(active: map<string, nat>, e: string, required: nat): map<string, nat>
    requires e in active
  {
    active[e := active[e] + required]
  }

  function Freed(active: map<string, nat>, e: string, required: nat): map<string, nat>
    requires e in active
  {
    active[e := if active[e] < required then 0 else active[e] - required]
  }

  // ---------------------------------------------------------------- callers

  datatype Pc =
    | Acquiring
    | Waiting(endpoint: string)
    | Choosing
    | Acquired(endpoint: string, pinning: bool)
    | Running(endpoint: string)
    | Judging(endpoint: string, result: Result)
    | Done
    | Raised

  /** One call of `_run_uncached`. `left` counts the turns of its first loop still to come, `retrying`
      tells that it is in the loop over reported failures, `ran` lists the workers that executed the
      command and `since` is the index there of the first reported failure. */
  datatype Caller = Caller(
    request: Request, attempted: set<string>, domains: set<string>, left: nat, retrying: bool,
    ran: seq<string>, since: nat, pc: Pc)

  datatype World = World(
    active: map<string, nat>, pins: map<string, string>, successes: map<string, nat>, callers: seq<Caller>)

  predicate Stateful(w: World, lane: string) {
    lane != "" && lane in w.successes && w.successes[lane] > 0
  }

  predicate Active(c: Caller) {
    !c.pc.Done? && !c.pc.Raised?
  }

  function Newcomer(site: Site, q: Request): Caller {
    Caller(q, {}, {}, site.retries + 1, false, [], 0, Acquiring)
  }

  datatype Move =
    | Arrive(request: Request)
    | Enter(caller: nat)
    | Take(caller: nat, endpoint: string)
    | GiveUp(caller: nat)
    | Begin(caller: nat)
    | Finish(caller: nat, outcome: Outcome)
    | Judge(caller: nat)

  function Put(w: World, i: nat, c: Caller): World
    requires i < |w.callers|
  {
    w.(callers := w.callers[i := c])
  }

  function Unpinned(w: World, lane: string): World {
    if lane == "" then w else w.(pins := w.pins - {lane})
  }

  /** The retry loop's guard: another turn, or over to managed repair. */
  function NextTurn(site: Site, c: Caller): Caller {
    c.(pc := if |c.attempted| < site.Maximum() then Acquiring else Done)
  }

  /** A pinned lane goes back to its worker, if that can still serve it. */
  function EnterStep(site: Site, c: Caller, pins: map<string, string>): Caller {
    if !c.retrying && c.request.lane != "" && c.request.lane in pins then
      var e := pins[c.request.lane];
      c.(pc := if e in site.pool && e in c.request.fits && c.request.required <= site.pool[e].slots then Waiting(e) else Done)
    else c.(pc := Choosing)
  }

  predicate MayTake(site: Site, c: Caller, e: string) {
    || c.pc == Waiting(e)
    || (c.pc == Choosing && Candidate(site, c.request, c.attempted, !c.retrying, e))
  }

  /** Is the worker's failure domain one that failed already? */
  predicate KnownDomain(site: Site, c: Caller, e: string) {
    c.retrying && site.Domain(e) != "" && site.Domain(e) in c.domains
  }

  function Started(site: Site, c: Caller, e: string): Caller {
    c.(attempted := c.attempted + {e}, ran := c.ran + [e], pc := Running(e),
       domains := if c.retrying && site.Domain(e) != "" then c.domains + {site.Domain(e)} else c.domains)
  }

  function BeginStep(site: Site, w: World, i: nat): World
    requires i < |w.callers| && w.callers[i].pc.Acquired? && w.callers[i].pc.endpoint in w.active
  {
    var c, e := w.callers[i], w.callers[i].pc.endpoint;
    if KnownDomain(site, c, e) then
      Put(w, i, NextTurn(site, c.(attempted := c.attempted + {e}))).(active := Freed(w.active, e, c.request.required))
    else
      var started := Put(w, i, Started(site, c, e));
      if c.pc.pinning then started.(pins := w.pins[c.request.lane := e]) else started
  }

  function Reporting(site: Site, c: Caller, e: string): Caller {
    NextTurn(site, c.(retrying := true, since := if |c.ran| > 0 then |c.ran| - 1 else 0,
                      domains := if site.Domain(e) != "" then {site.Domain(e)} else {}))
  }

  function JudgeStep(site: Site, w: World, i: nat): World
    requires i < |w.callers| && w.callers[i].pc.Judging?
  {
    var c, e, r := w.callers[i], w.callers[i].pc.endpoint, w.callers[i].pc.result;
    var lane := c.request.lane;
    if c.retrying then
      Put(w, i, if RetryVerdict(r) == Final then c.(pc := Done) else NextTurn(site, c))
    else
      match FirstVerdict(r, Stateful(w, lane))
      case Final =>
        var done := Put(w, i, c.(pc := Done));
        if lane != "" && r.ok && !r.infrastructure && r.failureId == "" then
          done.(successes := w.successes[lane := 1 + if lane in w.successes then w.successes[lane] else 0])
        else done
      case Reported => Unpinned(Put(w, i, Reporting(site, c, e)), lane)
      case Elsewhere =>
        Unpinned(Put(w, i, if c.left <= 1 then c.(left := 0, pc := Done) else c.(left := c.left - 1, pc := Acquiring)), lane)
  }

  /** One step of one caller; a step that is not enabled changes nothing. */
  function Next(site: Site, w: World, m: Move): World {
    if m.Arrive? then w.(callers := w.callers + [Newcomer(site, m.request)])
    else if m.caller >= |w.callers| then w
    else
      var i, c := m.caller, w.callers[m.caller];
      match m
      case Enter(_) => if c.pc == Acquiring then Put(w, i, EnterStep(site, c, w.pins)) else w
      case Take(_, e) =>
        if MayTake(site, c, e) && HasRoom(site, w.active, e, c.request.required) then
          Put(w, i, c.(pc := Acquired(e, c.pc.Choosing? && !c.retrying && c.request.lane != "")))
            .(active := Taken(w.active, e, c.request.required))
        else w
      case GiveUp(_) => if c.pc.Waiting? || c.pc.Choosing? || c.pc.Acquiring? then Put(w, i, c.(pc := Done)) else w
      case Begin(_) => if c.pc.Acquired? && c.pc.endpoint in w.active then BeginStep(site, w, i) else w
      case Finish(_, o) =>
        if c.pc.Running? && c.pc.endpoint in w.active then
          Put(w, i, c.(pc := if o.Escapes? then Raised else Judging(c.pc.endpoint, Received(o))))
            .(active := Freed(w.active, c.pc.endpoint, c.request.required))
        else w
      case Judge(_) => if c.pc.Judging? then JudgeStep(site, w, i) else w
  }

  function After(site: Site, w: World, moves: seq<Move>): World {
    if moves == [] then w else Next(site, After(site, w, moves[..|moves| - 1]), moves[|moves| - 1])
  }

  function Idle(site: Site): World {
    World(map e | e in site.pool :: 0, map[], map[], [])
  }

  // ---------------------------------------------------------------- slot conservation

  function Holds(c: Caller, e: string): nat {
    if (c.pc.Acquired? || c.pc.Running?) && c.pc.endpoint == e then c.request.required else 0
  }

  function HeldOn(callers: seq<Caller>, e: string): nat {
    if callers == [] then 0 else HeldOn(callers[..|callers| - 1], e) + Holds(callers[|callers| - 1], e)
  }

  lemma {:induction false} HeldAfterUpdate(callers: seq<Caller>, i: nat, c: Caller, e: string)
    requires i < |callers|
    ensures HeldOn(callers[i := c], e) + Holds(callers[i], e) == HeldOn(callers, e) + Holds(c, e)
  {
    var n := |callers| - 1;
    if i == n {
      assert callers[i := c][..n] == callers[..n];
    } else {
      assert callers[i := c][..n] == callers[..n][i := c];
      HeldAfterUpdate(callers[..n], i, c, e);
    }
  }

  lemma {:induction false} HeldAtLeast(callers: seq<Caller>, i: nat, e: string)
    requires i < |callers|
    ensures Holds(callers[i], e) <= HeldOn(callers, e)
  {
    if i < |callers| - 1 { HeldAtLeast(callers[..|callers| - 1], i, e); }
  }

  /** Every worker's count is the sum of the slots its commands hold, and within its capacity. */
  ghost predicate Conserved(site: Site, w: World) {
    && w.active.Keys == site.pool.Keys
    && (forall e :: e in site.pool ==> w.active[e] == HeldOn(w.callers, e) <= site.pool[e].slots)
  }

  /** Updating one caller, with the counts adjusted by what it holds, keeps the books. */
  lemma Rebalanced(site: Site, w: World, v: World, i: nat)
    requires Conserved(site, w) && i < |w.callers| && |v.callers| == |w.callers| && v.callers == w.callers[i := v.callers[i]]
    requires v.active.Keys == w.active.Keys
    requires forall e :: e in site.pool ==> v.active[e] + Holds(w.callers[i], e) == w.active[e] + Holds(v.callers[i], e)
    requires forall e :: e in site.pool ==> v.active[e] <= site.pool[e].slots
    ensures Conserved(site, v)
  {
    forall e | e in site.pool ensures v.active[e] == HeldOn(v.callers, e) {
      HeldAfterUpdate(w.callers, i, v.callers[i], e);
    }
  }

  /** Releasing never needs its clamp at zero. */
  lemma ClampUnused(site: Site, w: World, i: nat)
    requires Conserved(site, w) && i < |w.callers| && (w.callers[i].pc.Acquired? || w.callers[i].pc.Running?)
    requires w.callers[i].pc.endpoint in w.active
    ensures var e, r := w.callers[i].pc.endpoint, w.callers[i].request.required;
      r <= w.active[e] && Freed(w.active, e, r) == w.active[e := w.active[e] - r]
  {
    HeldAtLeast(w.callers, i, w.callers[i].pc.endpoint);
  }

  /** A step that leaves the counts alone and does not change what its caller holds. */
  lemma Untouched(site: Site, w: World, v: World, i: nat)
    requires Conserved(site, w) && i < |w.callers| && |v.callers| == |w.callers| && v.callers == w.callers[i := v.callers[i]]
    requires v.active == w.active
    requires forall e :: Holds(w.callers[i], e) == Holds(v.callers[i], e)
    ensures Conserved(site, v)
  {
    hide HeldOn;
    Rebalanced(site, w, v, i);
  }

  lemma BeginConserves(site: Site, w: World, i: nat)
    requires Conserved(site, w) && i < |w.callers| && w.callers[i].pc.Acquired? && w.callers[i].pc.endpoint in w.active
    ensures Conserved(site, BeginStep(site, w, i))
  {
    hide HeldOn, Conserved, KnownDomain;
    var c, e, v := w.callers[i], w.callers[i].pc.endpoint, BeginStep(site, w, i);
    if KnownDomain(site, c, e) {
      ReleaseConserves(site, w, i, v.callers[i]);
    } else {
      Untouched(site, w, v, i);
    }
  }

  /** Releasing what a caller holds, whatever it does next without holding anything. */
  lemma ReleaseConserves(site: Site, w: World, i: nat, c: Caller)
    requires Conserved(site, w) && i < |w.callers| && (w.callers[i].pc.Acquired? || w.callers[i].pc.Running?)
    requires w.callers[i].pc.endpoint in w.active && !c.pc.Acquired? && !c.pc.Running?
    ensures Conserved(site, Put(w, i, c).(active := Freed(w.active, w.callers[i].pc.endpoint, w.callers[i].request.required)))
  {
    hide HeldOn;
    ClampUnused(site, w, i);
    Rebalanced(site, w, Put(w, i, c).(active := Freed(w.active, w.callers[i].pc.endpoint, w.callers[i].request.required)), i);
  }

  lemma JudgeConserves(site: Site, w: World, i: nat)
    requires Conserved(site, w) && i < |w.callers| && w.callers[i].pc.Judging?
    ensures Conserved(site, JudgeStep(site, w, i))
  {
    hide HeldOn, Conserved, FirstVerdict, RetryVerdict, Stateful;
    Untouched(site, w, JudgeStep(site, w, i), i);
  }

  lemma TakeConserves(site: Site, w: World, i: nat, c: Caller)
    requires Conserved(site, w) && i < |w.callers| && !w.callers[i].pc.Acquired? && !w.callers[i].pc.Running?
    requires c.pc.Acquired? && c.request == w.callers[i].request && HasRoom(site, w.active, c.pc.endpoint, c.request.required)
    ensures Conserved(site, Put(w, i, c).(active := Taken(w.active, c.pc.endpoint, c.request.required)))
  {
    hide HeldOn;
    Rebalanced(site, w, Put(w, i, c).(active := Taken(w.active, c.pc.endpoint, c.request.required)), i);
  }

  lemma NextConserves(site: Site, w: World, m: Move)
    requires Conserved(site, w)
    ensures Conserved(site, Next(site, w, m))
  {
    hide HeldOn, Conserved, Candidate, NoneLeft, JudgeStep, BeginStep, MayTake, HasRoom, EnterStep;
    var v := Next(site, w, m);
    if m.Arrive? {
      ArrivalConserves(site, w, Newcomer(site, m.request));
    } else if m.caller < |w.callers| && v != w {
      var i, c := m.caller, w.callers[m.caller];
      match m
      case Enter(_) => EnterHolds(site, c, w.pins); Untouched(site, w, v, i);
      case Take(_, e) => MayTakeHolds(site, c, e); TakeConserves(site, w, i, v.callers[i]);
      case GiveUp(_) => Untouched(site, w, v, i);
      case Begin(_) => BeginConserves(site, w, i);
      case Finish(_, o) => ReleaseConserves(site, w, i, v.callers[i]);
      case Judge(_) => JudgeConserves(site, w, i);
    }
  }

  lemma EnterHolds(site: Site, c: Caller, pins: map<string, string>)
    requires c.pc == Acquiring
    ensures forall e :: Holds(EnterStep(site, c, pins), e) == 0
  {
  }

  lemma MayTakeHolds(site: Site, c: Caller, e: string)
    requires MayTake(site, c, e)
    ensures !c.pc.Acquired? && !c.pc.Running?
  {
  }

  lemma ArrivalConserves(site: Site, w: World, c: Caller)
    requires Conserved(site, w) && c.pc == Acquiring
    ensures Conserved(site, w.(callers := w.callers + [c]))
  {
    hide HeldOn;
    forall e | e in site.pool ensures HeldOn(w.callers + [c], e) == HeldOn(w.callers, e) { HeldAfterArrival(w.callers, c, e); }
  }

  lemma HeldAfterArrival(callers: seq<Caller>, c: Caller, e: string)
    ensures HeldOn(callers + [c], e) == HeldOn(callers, e) + Holds(c, e)
  {
    assert (callers + [c])[..|callers|] == callers;
  }

  /** Under every interleaving, each worker's count is the sum of the slots held on it. */
  lemma {:induction false} SlotsConserved(site: Site, moves: seq<Move>)
    ensures Conserved(site, After(site, Idle(site), moves))
  {
    if moves != [] {
      SlotsConserved(site, moves[..|moves| - 1]);
      NextConserves(site, After(site, Idle(site), moves[..|moves| - 1]), moves[|moves| - 1]);
    }
  }

  lemma {:induction false} NothingHeld(callers: seq<Caller>, e: string)
    requires forall i :: 0 <= i < |callers| ==> !callers[i].pc.Acquired? && !callers[i].pc.Running?
    ensures HeldOn(callers, e) == 0
  {
    if callers != [] { NothingHeld(callers[..|callers| - 1], e); }
  }

  /** However its commands ended - result, caught error, escaping error, cancellation, a wait given up
      or a known failure domain - a worker with none in flight is back at zero. */
  lemma SlotsReturn(site: Site, moves: seq<Move>)
    ensures var w := After(site, Idle(site), moves);
      (forall i :: 0 <= i < |w.callers| ==> !Active(w.callers[i])) ==> w.active == Idle(site).active
  {
    var w := After(site, Idle(site), moves);
    SlotsConserved(site, moves);
    if forall i :: 0 <= i < |w.callers| ==> !Active(w.callers[i]) {
      forall e | e in site.pool ensures w.active[e] == 0 { NothingHeld(w.callers, e); }
    }
  }

  // ---------------------------------------------------------------- lanes

  /** Commands of one lane come one after the other: the scheduler runs its serial lane that way. */
  ghost predicate Fair(w: World, m: Move) {
    m.Arrive? && m.request.lane != "" ==>
      forall i :: 0 <= i < |w.callers| && Active(w.callers[i]) ==> w.callers[i].request.lane != m.request.lane
  }

  ghost predicate AllFair(site: Site, w: World, moves: seq<Move>) {
    moves == [] ||
    (AllFair(site, w, moves[..|moves| - 1]) && Fair(After(site, w, moves[..|moves| - 1]), moves[|moves| - 1]))
  }

  /** How a command in flight stands to the pin of its lane. */
  predicate LaneOk(c: Caller, pins: map<string, string>) {
    var l := c.request.lane;
    match c.pc
    case Acquiring => l != "" && !c.retrying && c.attempted != {} ==> l !in pins
    case Waiting(e) => l != "" && l in pins && pins[l] == e && c.attempted == {} && !c.retrying
    case Choosing => l != "" && !c.retrying ==> l !in pins
    case Acquired(e, pinning) =>
      if l == "" || c.retrying then !pinning else (pinning <==> l !in pins) && (!pinning ==> pins[l] == e)
    case Running(e) => l != "" && !c.retrying ==> l in pins && pins[l] == e
    case Judging(e, _) => l != "" && !c.retrying ==> l in pins && pins[l] == e
    case Done => true
    case Raised => true
  }

  ghost predicate Solo(w: World) {
    forall i, j | 0 <= i < j < |w.callers| && Active(w.callers[i]) && Active(w.callers[j]) ::
      w.callers[i].request.lane != "" ==> w.callers[i].request.lane != w.callers[j].request.lane
  }

  ghost predicate LaneInv(w: World) {
    && Solo(w)
    && (forall i :: 0 <= i < |w.callers| ==> LaneOk(w.callers[i], w.pins))
    && (forall l :: Stateful(w, l) ==> l in w.pins)
  }

  /** A step of caller `i`: pins and successes change in its own lane at most, and a lane with a success
      keeps its pin. */
  ghost predicate OwnStep(w: World, v: World, i: nat)
    requires i < |w.callers|
  {
    && |v.callers| == |w.callers| && v.callers == w.callers[i := v.callers[i]]
    && v.callers[i].request == w.callers[i].request && (Active(w.callers[i]) || v == w)
    && LaneOk(v.callers[i], v.pins)
    && (forall l :: l == "" || l != w.callers[i].request.lane ==> SamePin(w, v, l))
    && (Stateful(w, w.callers[i].request.lane) ==> Stateful(v, w.callers[i].request.lane) && SamePin(w, v, w.callers[i].request.lane))
    && (Stateful(v, w.callers[i].request.lane) ==> w.callers[i].request.lane in v.pins)
  }

  predicate SamePin(w: World, v: World, l: string) {
    && (l in v.pins <==> l in w.pins) && (l in w.pins ==> v.pins[l] == w.pins[l])
    && (Stateful(v, l) <==> Stateful(w, l))
  }

  /** A step that touches no pin and no success count. */
  lemma OwnSame(w: World, v: World, i: nat)
    requires LaneInv(w) && i < |w.callers| && |v.callers| == |w.callers| && v.callers == w.callers[i := v.callers[i]]
    requires v.callers[i].request == w.callers[i].request && (Active(w.callers[i]) || v == w)
    requires v.pins == w.pins && v.successes == w.successes && LaneOk(v.callers[i], w.pins)
    ensures OwnStep(w, v, i)
  {
    hide Solo, LaneOk;
    assert forall l :: SamePin(w, v, l);
  }

  /** A command in a lane that succeeds on its pinned worker. */
  lemma OwnCounted(w: World, i: nat)
    requires LaneInv(w) && i < |w.callers| && w.callers[i].request.lane in w.pins && Active(w.callers[i])
    ensures var l := w.callers[i].request.lane;
      OwnStep(w, Put(w, i, w.callers[i].(pc := Done))
                   .(successes := w.successes[l := 1 + if l in w.successes then w.successes[l] else 0]), i)
  {
    hide Solo;
  }

  /** A lane without a success loses its pin. */
  lemma OwnUnpinned(w: World, i: nat, c: Caller)
    requires LaneInv(w) && i < |w.callers| && c.request == w.callers[i].request && Active(w.callers[i])
    requires c.pc.Acquiring? || c.pc.Done?
    requires !Stateful(w, c.request.lane)
    ensures OwnStep(w, Unpinned(Put(w, i, c), c.request.lane), i)
  {
    hide Solo;
  }

  lemma JudgeOwn(site: Site, w: World, i: nat)
    requires LaneInv(w) && i < |w.callers| && w.callers[i].pc.Judging?
    ensures OwnStep(w, JudgeStep(site, w, i), i)
  {
    hide Solo, OwnStep, LaneInv, Unpinned, LaneOk, Stateful;
    var c, v := w.callers[i], JudgeStep(site, w, i);
    var l, r := c.request.lane, c.pc.result;
    LaneOf(w, i);
    DoneLaneOk(c.(pc := Done), w.pins);
    if c.retrying {
      DoneLaneOk(NextTurn(site, c), w.pins);
      OwnSame(w, v, i);
    } else if FirstVerdict(r, Stateful(w, l)) == Final {
      if l != "" && r.ok && !r.infrastructure && r.failureId == "" { OwnCounted(w, i); } else { OwnSame(w, v, i); }
    } else {
      OwnUnpinned(w, i, if FirstVerdict(r, Stateful(w, l)) == Reported then Reporting(site, c, c.pc.endpoint)
                        else if c.left <= 1 then c.(left := 0, pc := Done) else c.(left := c.left - 1, pc := Acquiring));
    }
  }

  lemma BeginOwn(site: Site, w: World, i: nat)
    requires LaneInv(w) && i < |w.callers| && w.callers[i].pc.Acquired? && w.callers[i].pc.endpoint in w.active
    ensures OwnStep(w, BeginStep(site, w, i), i)
  {
    hide Solo, KnownDomain;
    var c, v := w.callers[i], BeginStep(site, w, i);
    assert LaneOk(c, w.pins);
    var l := c.request.lane;
    assert Stateful(w, l) ==> l in w.pins;
    assert KnownDomain(site, c, c.pc.endpoint) ==> c.retrying by { KnownOnlyRetrying(site, c); }
  }

  lemma KnownOnlyRetrying(site: Site, c: Caller)
    ensures forall e :: KnownDomain(site, c, e) ==> c.retrying
  {
  }

  lemma EnterOk(site: Site, c: Caller, pins: map<string, string>)
    requires LaneOk(c, pins) && c.pc == Acquiring
    ensures LaneOk(EnterStep(site, c, pins), pins)
  {
  }

  lemma TakeOk(site: Site, c: Caller, pins: map<string, string>, e: string)
    requires LaneOk(c, pins) && MayTake(site, c, e)
    ensures Active(c) && LaneOk(c.(pc := Acquired(e, c.pc.Choosing? && !c.retrying && c.request.lane != "")), pins)
  {
    hide Candidate;
  }

  lemma FinishOk(c: Caller, pins: map<string, string>, o: Outcome)
    requires LaneOk(c, pins) && c.pc.Running?
    ensures LaneOk(c.(pc := if o.Escapes? then Raised else Judging(c.pc.endpoint, Received(o))), pins)
  {
    hide Received;
  }

  lemma StepOwn(site: Site, w: World, m: Move)
    requires LaneInv(w) && !m.Arrive? && m.caller < |w.callers|
    ensures OwnStep(w, Next(site, w, m), m.caller)
  {
    hide Solo, JudgeStep, BeginStep, HasRoom, MayTake, EnterStep, OwnStep, LaneOk, Received;
    var i, c, v := m.caller, w.callers[m.caller], Next(site, w, m);
    assert LaneOk(c, w.pins);
    if v == w {
      OwnSame(w, v, i);
    } else {
      match m
      case Enter(_) => EnterOk(site, c, w.pins); EnterShape(site, c, w.pins); OwnSame(w, v, i);
      case Take(_, e) => TakeOk(site, c, w.pins, e); OwnSame(w, v, i);
      case GiveUp(_) => DoneLaneOk(c.(pc := Done), w.pins); OwnSame(w, v, i);
      case Begin(_) => BeginOwn(site, w, i);
      case Finish(_, o) => FinishOk(c, w.pins, o); OwnSame(w, v, i);
      case Judge(_) => JudgeOwn(site, w, i);
    }
  }

  lemma EnterShape(site: Site, c: Caller, pins: map<string, string>)
    ensures EnterStep(site, c, pins) == c.(pc := EnterStep(site, c, pins).pc)
    ensures var pc := EnterStep(site, c, pins).pc; pc.Waiting? || pc.Choosing? || pc.Done?
    ensures c.request.lane == "" ==> !EnterStep(site, c, pins).pc.Waiting?
  {
  }

  lemma LaneOf(w: World, i: nat)
    requires LaneInv(w) && i < |w.callers| && w.callers[i].pc.Judging?
    ensures var c := w.callers[i]; c.request.lane != "" && !c.retrying ==> c.request.lane in w.pins
  {
    assert LaneOk(w.callers[i], w.pins);
  }

  lemma DoneLaneOk(c: Caller, pins: map<string, string>)
    requires c.pc.Done? || (c.pc == Acquiring && c.retrying)
    ensures LaneOk(c, pins)
  {
  }

  lemma OtherLaneOk(c: Caller, pins: map<string, string>, after: map<string, string>)
    requires LaneOk(c, pins)
    requires var l := c.request.lane; Active(c) && l != "" ==>
      (l in after <==> l in pins) && (l in pins ==> after[l] == pins[l])
    ensures LaneOk(c, after)
  {
  }

  lemma NextKeepsLaneInv(site: Site, w: World, m: Move)
    requires LaneInv(w) && Fair(w, m)
    ensures LaneInv(Next(site, w, m))
    ensures forall l :: Stateful(w, l) ==> Stateful(Next(site, w, m), l) && l in w.pins && SamePin(w, Next(site, w, m), l)
  {
    if m.Arrive? || m.caller >= |w.callers| { return; }
    StepOwn(site, w, m);
    var i, v := m.caller, Next(site, w, m);
    OwnKeepsLaneInv(w, v, i);
  }

  lemma OwnKeepsLaneInv(w: World, v: World, i: nat)
    requires LaneInv(w) && i < |w.callers| && OwnStep(w, v, i)
    ensures LaneInv(v)
    ensures forall l :: Stateful(w, l) ==> Stateful(v, l) && l in w.pins && SamePin(w, v, l)
  {
    hide LaneOk;
    if v == w {
      forall l ensures SamePin(w, v, l) {}
      return;
    }
    var lane := w.callers[i].request.lane;
    forall j | 0 <= j < |v.callers| ensures LaneOk(v.callers[j], v.pins) {
      if j != i {
        var l := w.callers[j].request.lane;
        assert Active(w.callers[j]) && l != "" ==> l != lane;
        assert SamePin(w, v, l) || l == lane;
        OtherLaneOk(w.callers[j], w.pins, v.pins);
      }
    }
    assert forall l :: Stateful(v, l) ==> l == lane || SamePin(w, v, l);
    forall l | Stateful(w, l) ensures Stateful(v, l) && l in w.pins && SamePin(w, v, l) {
      if l != lane { assert SamePin(w, v, l); }
    }
  }

  lemma {:induction false} LaneInvReached(site: Site, moves: seq<Move>)
    requires AllFair(site, Idle(site), moves)
    ensures LaneInv(After(site, Idle(site), moves))
  {
    if moves != [] {
      LaneInvReached(site, moves[..|moves| - 1]);
      NextKeepsLaneInv(site, After(site, Idle(site), moves[..|moves| - 1]), moves[|moves| - 1]);
    }
  }

  /** Once a lane has a recorded success, its worker never changes. */
  lemma {:induction false} PinnedLaneStays(site: Site, moves: seq<Move>, n: nat, lane: string)
    requires n <= |moves| && AllFair(site, Idle(site), moves)
    requires Stateful(After(site, Idle(site), moves[..n]), lane)
    ensures var earlier, now := After(site, Idle(site), moves[..n]), After(site, Idle(site), moves);
      Stateful(now, lane) && lane in earlier.pins && lane in now.pins && now.pins[lane] == earlier.pins[lane]
  {
    if n == |moves| {
      assert moves[..n] == moves;
      LaneInvReached(site, moves);
    } else {
      var m := |moves| - 1;
      assert moves[..m][..n] == moves[..n];
      PinnedLaneStays(site, moves[..m], n, lane);
      LaneInvReached(site, moves[..m]);
      NextKeepsLaneInv(site, After(site, Idle(site), moves[..m]), moves[m]);
    }
  }

  // ---------------------------------------------------------------- retries

  /** No remote worker executed the command twice, and after the first reported failure no failure
      domain was used twice. */
  predicate Disciplined(site: Site, c: Caller) {
    && (forall i, j | 0 <= i < j < |c.ran| :: c.ran[i] == c.ran[j] ==> Local(site, c.ran[i]))
    && (c.retrying ==> forall i, j | c.since <= i < j < |c.ran| ::
          site.Domain(c.ran[i]) == site.Domain(c.ran[j]) ==> site.Domain(c.ran[i]) == "")
  }

  predicate Local(site: Site, e: string) {
    e in site.pool && site.pool[e].local
  }

  /** What keeps it so: everything that ran is excluded, and so are the domains that failed. */
  predicate Orderly(site: Site, c: Caller) {
    && Disciplined(site, c)
    && (forall i | 0 <= i < |c.ran| :: c.ran[i] in c.attempted)
    && (c.retrying ==> c.since < |c.ran|)
    && (c.retrying ==> forall i | c.since <= i < |c.ran| :: site.Domain(c.ran[i]) != "" ==> site.Domain(c.ran[i]) in c.domains)
    && (c.pc.Acquired? ==> c.pc.endpoint !in c.attempted || (!c.retrying && Local(site, c.pc.endpoint)))
    && (c.pc.Running? || c.pc.Judging? ==> |c.ran| > 0 && c.ran[|c.ran| - 1] == c.pc.endpoint)
    && (Active(c) && !c.retrying ==>
          c.left > 0 && c.left + |c.ran| == site.retries + if c.pc.Running? || c.pc.Judging? then 2 else 1)
  }

  lemma BeginOrderly(site: Site, w: World, i: nat)
    requires i < |w.callers| && w.callers[i].pc.Acquired? && w.callers[i].pc.endpoint in w.active && Orderly(site, w.callers[i])
    ensures Orderly(site, BeginStep(site, w, i).callers[i])
  {
    hide Freed;
    var c, e := w.callers[i], w.callers[i].pc.endpoint;
    if !KnownDomain(site, c, e) {
      var s := Started(site, c, e);
      assert Orderly(site, s);
      assert BeginStep(site, w, i).callers[i] == s;
    }
  }

  /** Ending, or going on with the loop over reported failures. */
  lemma SettleOrderly(site: Site, c: Caller, pc: Pc)
    requires Orderly(site, c) && (pc.Done? || (c.retrying && pc == Acquiring))
    ensures Orderly(site, c.(pc := pc))
  {
  }

  lemma ReportOrderly(site: Site, c: Caller)
    requires Orderly(site, c) && c.pc.Judging? && !c.retrying
    ensures Orderly(site, Reporting(site, c, c.pc.endpoint))
  {
    var d := c.(retrying := true, since := |c.ran| - 1,
                domains := if site.Domain(c.pc.endpoint) != "" then {site.Domain(c.pc.endpoint)} else {}, pc := Done);
    assert Orderly(site, d);
    SettleOrderly(site, d, Reporting(site, c, c.pc.endpoint).pc);
  }

  lemma ElsewhereOrderly(site: Site, c: Caller)
    requires Orderly(site, c) && c.pc.Judging? && !c.retrying
    ensures Orderly(site, if c.left <= 1 then c.(left := 0, pc := Done) else c.(left := c.left - 1, pc := Acquiring))
  {
  }

  lemma JudgeOrderly(site: Site, w: World, i: nat)
    requires i < |w.callers| && w.callers[i].pc.Judging? && Orderly(site, w.callers[i])
    ensures Orderly(site, JudgeStep(site, w, i).callers[i])
  {
    hide FirstVerdict, RetryVerdict, Stateful, Orderly, Reporting;
    var c := w.callers[i];
    SettleOrderly(site, c, Done);
    if c.retrying {
      SettleOrderly(site, c, NextTurn(site, c).pc);
    } else {
      ReportOrderly(site, c);
      ElsewhereOrderly(site, c);
    }
  }

  lemma TakeOrderly(site: Site, c: Caller, e: string, pinning: bool)
    requires Orderly(site, c) && MayTake(site, c, e) && (c.pc.Waiting? ==> c.attempted == {})
    ensures Orderly(site, c.(pc := Acquired(e, pinning)))
  {
  }

  lemma NextOrderly(site: Site, w: World, m: Move, i: nat)
    requires i < |w.callers| && Orderly(site, w.callers[i])
    requires w.callers[i].pc.Waiting? ==> w.callers[i].attempted == {}
    ensures Orderly(site, Next(site, w, m).callers[i])
  {
    hide Orderly, JudgeStep, BeginStep, HasRoom, MayTake, Received, EnterStep;
    if m.Arrive? || m.caller != i {
      OthersStay(site, w, m, i);
    } else if Next(site, w, m) != w {
      var c := w.callers[i];
      match m
      case Enter(_) => EnterShape(site, c, w.pins); OrderlyMoves(site, c, EnterStep(site, c, w.pins).pc);
      case Take(_, e) => TakeOrderly(site, c, e, c.pc.Choosing? && !c.retrying && c.request.lane != "");
      case GiveUp(_) => OrderlyMoves(site, c, Done);
      case Begin(_) => BeginOrderly(site, w, i);
      case Finish(_, o) => FinishOrderly(site, c, o);
      case Judge(_) => JudgeOrderly(site, w, i);
    }
  }

  lemma OthersStay(site: Site, w: World, m: Move, i: nat)
    requires i < |w.callers| && (m.Arrive? || m.caller != i)
    ensures i < |Next(site, w, m).callers| && Next(site, w, m).callers[i] == w.callers[i]
  {
    hide EnterStep, MayTake, HasRoom, KnownDomain, FirstVerdict, RetryVerdict, Stateful, Received, Started, Reporting, NextTurn;
  }

  lemma OrderlyMoves(site: Site, c: Caller, pc: Pc)
    requires Orderly(site, c) && Active(c) && (pc.Waiting? || pc.Choosing? || pc.Done?)
    requires c.pc.Acquiring? || c.pc.Choosing? || c.pc.Waiting?
    ensures Orderly(site, c.(pc := pc))
  {
  }

  lemma FinishOrderly(site: Site, c: Caller, o: Outcome)
    requires Orderly(site, c) && c.pc.Running?
    ensures Orderly(site, c.(pc := if o.Escapes? then Raised else Judging(c.pc.endpoint, Received(o))))
  {
    hide Received;
  }

  lemma NewcomerOrderly(site: Site, q: Request)
    ensures Orderly(site, Newcomer(site, q))
  {
  }

  /** In every run with one command per lane at a time, each remote worker executes a command at most
      once and the loop over reported failures never executes in a failure domain it knows. */
  lemma {:induction false} RetriesDisciplined(site: Site, moves: seq<Move>)
    requires AllFair(site, Idle(site), moves)
    ensures forall i :: 0 <= i < |After(site, Idle(site), moves).callers| ==> Orderly(site, After(site, Idle(site), moves).callers[i])
  {
    hide Orderly, LaneOk;
    if moves != [] {
      var before, m := moves[..|moves| - 1], moves[|moves| - 1];
      var w := After(site, Idle(site), before);
      RetriesDisciplined(site, before);
      LaneInvReached(site, before);
      forall i | 0 <= i < |Next(site, w, m).callers| ensures Orderly(site, Next(site, w, m).callers[i]) {
        if i < |w.callers| {
          assert LaneOk(w.callers[i], w.pins);
          WaitingIsFirst(w.callers[i], w.pins);
          NextOrderly(site, w, m, i);
        } else {
          NewArrival(site, w, m, i);
        }
      }
    }
  }

  lemma WaitingIsFirst(c: Caller, pins: map<string, string>)
    requires LaneOk(c, pins)
    ensures c.pc.Waiting? ==> c.attempted == {}
  {
  }

  lemma NewArrival(site: Site, w: World, m: Move, i: nat)
    requires |w.callers| <= i < |Next(site, w, m).callers|
    ensures Orderly(site, Next(site, w, m).callers[i])
  {
    hide JudgeStep, BeginStep, Orderly, EnterStep;
    StepCount(site, w, m);
    NewcomerOrderly(site, m.request);
  }

  lemma StepCount(site: Site, w: World, m: Move)
    ensures |Next(site, w, m).callers| == |w.callers| + if m.Arrive? then 1 else 0
    ensures m.Arrive? ==> Next(site, w, m).callers[|w.callers|] == Newcomer(site, m.request)
  {
  }

  /** The worker supports the command and is large enough for it. */
  predicate Suits(site: Site, q: Request, e: string) {
    e in q.fits && e in site.pool && q.required <= site.pool[e].slots
  }

  /** Everything the command ran on, and what it is at now, suits it. */
  predicate Supported(site: Site, c: Caller) {
    && (forall e | e in c.ran :: Suits(site, c.request, e))
    && (c.pc.Waiting? || c.pc.Acquired? || c.pc.Running? || c.pc.Judging? ==> Suits(site, c.request, c.pc.endpoint))
  }

  lemma BeginSupported(site: Site, w: World, i: nat)
    requires i < |w.callers| && w.callers[i].pc.Acquired? && w.callers[i].pc.endpoint in w.active && Supported(site, w.callers[i])
    ensures Supported(site, BeginStep(site, w, i).callers[i])
  {
    hide Freed, Suits, KnownDomain;
  }

  lemma JudgeSupported(site: Site, w: World, i: nat)
    requires i < |w.callers| && w.callers[i].pc.Judging? && Supported(site, w.callers[i])
    ensures Supported(site, JudgeStep(site, w, i).callers[i])
  {
    hide FirstVerdict, RetryVerdict, Stateful, Suits;
  }

  lemma NextSupported(site: Site, w: World, m: Move, i: nat)
    requires i < |w.callers| && Supported(site, w.callers[i])
    ensures |Next(site, w, m).callers| > i && Supported(site, Next(site, w, m).callers[i])
  {
    StepCount(site, w, m);
    hide Supported, JudgeStep, BeginStep, HasRoom, Received, EnterStep, MayTake;
    if m.Arrive? || m.caller != i {
      OthersStay(site, w, m, i);
    } else if Next(site, w, m) != w {
      var c := w.callers[i];
      match m
      case Enter(_) => EnterSupported(site, c, w.pins);
      case Take(_, e) => TakeSupported(site, c, e, c.pc.Choosing? && !c.retrying && c.request.lane != "");
      case GiveUp(_) => MoveSupported(site, c, Done);
      case Begin(_) => BeginSupported(site, w, i);
      case Finish(_, o) => MoveSupported(site, c, if o.Escapes? then Raised else Judging(c.pc.endpoint, Received(o)));
      case Judge(_) => JudgeSupported(site, w, i);
    }
  }

  lemma MoveSupported(site: Site, c: Caller, pc: Pc)
    requires Supported(site, c) && (pc.Done? || pc.Raised? || (c.pc.Running? && pc.Judging? && pc.endpoint == c.pc.endpoint))
    ensures Supported(site, c.(pc := pc))
  {
  }

  lemma EnterSupported(site: Site, c: Caller, pins: map<string, string>)
    requires Supported(site, c)
    ensures Supported(site, EnterStep(site, c, pins))
  {
  }

  lemma TakeSupported(site: Site, c: Caller, e: string, pinning: bool)
    requires Supported(site, c) && MayTake(site, c, e)
    ensures Supported(site, c.(pc := Acquired(e, pinning)))
  {
  }

  /** In every run a command only ever runs on workers that support it and are large enough, pinned or not. */
  lemma {:induction false} RunsWhereSupported(site: Site, moves: seq<Move>)
    ensures forall c, e :: c in After(site, Idle(site), moves).callers && e in c.ran ==>
      e in c.request.fits && e in site.pool && c.request.required <= site.pool[e].slots
    ensures forall i :: 0 <= i < |After(site, Idle(site), moves).callers| ==> Supported(site, After(site, Idle(site), moves).callers[i])
  {
    if moves != [] {
      var before, m := moves[..|moves| - 1], moves[|moves| - 1];
      var w := After(site, Idle(site), before);
      RunsWhereSupported(site, before);
      StepCount(site, w, m);
      assert Supported(site, Newcomer(site, if m.Arrive? then m.request else Request(0, "", {})));
      hide Supported, Next;
      forall i | 0 <= i < |Next(site, w, m).callers| ensures Supported(site, Next(site, w, m).callers[i]) {
        if i < |w.callers| { NextSupported(site, w, m, i); }
      }
    }
    SupportedMeans(site, After(site, Idle(site), moves));
  }

  lemma SupportedMeans(site: Site, w: World)
    requires forall i :: 0 <= i < |w.callers| ==> Supported(site, w.callers[i])
    ensures forall c, e :: c in w.callers && e in c.ran ==>
      e in c.request.fits && e in site.pool && c.request.required <= site.pool[e].slots
  {
    forall c, e | c in w.callers && e in c.ran ensures Suits(site, c.request, e) {
      var i :| 0 <= i < |w.callers| && w.callers[i] == c;
    }
  }

  /** Commands outside lanes need no such condition. */
  lemma {:induction false} LanelessDisciplined(site: Site, moves: seq<Move>, i: nat)
    requires i < |After(site, Idle(site), moves).callers| && After(site, Idle(site), moves).callers[i].request.lane == ""
    ensures Orderly(site, After(site, Idle(site), moves).callers[i]) && !After(site, Idle(site), moves).callers[i].pc.Waiting?
  {
    hide Orderly;
    var before, m := moves[..|moves| - 1], moves[|moves| - 1];
    var w := After(site, Idle(site), before);
    StepCount(site, w, m);
    if i < |w.callers| {
      StaysLaneless(site, w, m, i);
      LanelessDisciplined(site, before, i);
      NextOrderly(site, w, m, i);
    } else {
      NewArrival(site, w, m, i);
    }
  }

  lemma StaysLaneless(site: Site, w: World, m: Move, i: nat)
    requires i < |w.callers|
    ensures i < |Next(site, w, m).callers| && Next(site, w, m).callers[i].request == w.callers[i].request
    ensures w.callers[i].request.lane == "" && !w.callers[i].pc.Waiting? ==> !Next(site, w, m).callers[i].pc.Waiting?
  {
    hide EnterStep, MayTake, HasRoom, BeginStep, JudgeStep, Received;
    if m.Arrive? || m.caller != i {
      OthersStay(site, w, m, i);
    } else {
      EnterShape(site, w.callers[i], w.pins);
      if w.callers[i].pc.Acquired? && w.callers[i].pc.endpoint in w.active { BeginShape(site, w, i); }
      if w.callers[i].pc.Judging? { JudgeShape(site, w, i); }
    }
  }

  lemma BeginShape(site: Site, w: World, i: nat)
    requires i < |w.callers| && w.callers[i].pc.Acquired? && w.callers[i].pc.endpoint in w.active
    ensures var v := BeginStep(site, w, i);
      |v.callers| == |w.callers| && v.callers[i].request == w.callers[i].request && !v.callers[i].pc.Waiting?
  {
    hide KnownDomain, Freed;
  }

  lemma JudgeShape(site: Site, w: World, i: nat)
    requires i < |w.callers| && w.callers[i].pc.Judging?
    ensures var v := JudgeStep(site, w, i);
      |v.callers| == |w.callers| && v.callers[i].request == w.callers[i].request && !v.callers[i].pc.Waiting?
  {
    hide FirstVerdict, RetryVerdict, Stateful;
  }

  // ---------------------------------------------------------------- uncertain results

  /** The result at hand ends its command: the loop over reported failures is through with it, or it
      names no failure, or its lane has state, or no further worker may be tried. */
  predicate LastResult(site: Site, w: World, i: nat)
    requires i < |w.callers| && w.callers[i].pc.Judging?
  {
    var c := w.callers[i];
    c.retrying || c.pc.result.failureId == "" || Stateful(w, c.request.lane) || |c.attempted| >= site.Maximum()
  }

  lemma UncertainEnds(site: Site, w: World, i: nat)
    requires i < |w.callers| && w.callers[i].pc.Judging? && w.callers[i].pc.result.termination == UNCERTAIN
    ensures JudgeStep(site, w, i).callers[i].pc == (if LastResult(site, w, i) then Done else Acquiring)
  {
  }

  lemma {:induction false} RestingStays(site: Site, w: World, moves: seq<Move>, i: nat)
    requires i < |w.callers| && !Active(w.callers[i])
    ensures i < |After(site, w, moves).callers| && After(site, w, moves).callers[i] == w.callers[i]
  {
    if moves != [] {
      RestingStays(site, w, moves[..|moves| - 1], i);
      StillOrOther(site, After(site, w, moves[..|moves| - 1]), moves[|moves| - 1], i);
    }
  }

  lemma StillOrOther(site: Site, w: World, m: Move, i: nat)
    requires i < |w.callers| && !Active(w.callers[i])
    ensures i < |Next(site, w, m).callers| && Next(site, w, m).callers[i] == w.callers[i]
  {
    hide JudgeStep, BeginStep, EnterStep, Candidate;
    if m.Arrive? || m.caller != i { OthersStay(site, w, m, i); }
  }

  /** An uncertain result that ends its command is never followed by another execution, whatever
      anyone does. */
  lemma {:induction false} UncertainStops(site: Site, w: World, moves: seq<Move>, i: nat)
    requires i < |w.callers| && w.callers[i].pc.Judging? && w.callers[i].pc.result.termination == UNCERTAIN
    requires LastResult(site, w, i)
    ensures i < |After(site, w, moves).callers|
    ensures var v := After(site, w, moves);
      && v.callers[i].ran == w.callers[i].ran
      && (v.callers[i].pc == Done || (v.callers[i] == w.callers[i] && LastResult(site, v, i)))
  {
    hide JudgeStep, Stateful;
    if moves != [] {
      var v, m := After(site, w, moves[..|moves| - 1]), moves[|moves| - 1];
      UncertainStops(site, w, moves[..|moves| - 1], i);
      if v.callers[i].pc == Done {
        StillOrOther(site, v, m, i);
      } else if m.Judge? && m.caller == i {
        UncertainEnds(site, v, i);
        JudgeKeepsRan(site, v, i);
      } else {
        JudgingWaits(site, v, m, i);
        StateStays(site, v, m, w.callers[i].request.lane);
      }
    }
  }

  lemma StateStays(site: Site, w: World, m: Move, lane: string)
    ensures Stateful(w, lane) ==> Stateful(Next(site, w, m), lane)
  {
    hide BeginStep, JudgeStep, EnterStep, Candidate;
    if !m.Arrive? && m.caller < |w.callers| {
      var c := w.callers[m.caller];
      if m.Begin? && c.pc.Acquired? && c.pc.endpoint in w.active { BeginCounts(site, w, m.caller); }
      if m.Judge? && c.pc.Judging? { JudgeCounts(site, w, m.caller, lane); }
    }
  }

  lemma BeginCounts(site: Site, w: World, i: nat)
    requires i < |w.callers| && w.callers[i].pc.Acquired? && w.callers[i].pc.endpoint in w.active
    ensures BeginStep(site, w, i).successes == w.successes
  {
    hide KnownDomain, Freed;
  }

  lemma JudgeCounts(site: Site, w: World, i: nat, lane: string)
    requires i < |w.callers| && w.callers[i].pc.Judging?
    ensures Stateful(w, lane) ==> Stateful(JudgeStep(site, w, i), lane)
  {
    hide FirstVerdict, RetryVerdict;
  }

  /** Any other uncertain result is: as soon as a worker not tried yet has room, the command may run
      there, while its first execution may still be going on. */
  lemma UncertainGoesOn(site: Site, w: World, i: nat, e: string)
    requires i < |w.callers| && w.callers[i].pc.Judging? && w.callers[i].pc.result.termination == UNCERTAIN
    requires !LastResult(site, w, i)
    requires var q := w.callers[i].request; e in q.fits && e !in w.callers[i].attempted && HasRoom(site, w.active, e, q.required)
    requires site.Domain(e) == "" || site.Domain(e) != site.Domain(w.callers[i].pc.endpoint)
    ensures var v := After(site, w, [Judge(i), Enter(i), Take(i, e), Begin(i)]);
      i < |v.callers| && v.callers[i].ran == w.callers[i].ran + [e]
  {
    var c := w.callers[i];
    var w1, w2 := Next(site, w, Judge(i)), Next(site, Next(site, w, Judge(i)), Enter(i));
    assert w1.callers[i].pc == Acquiring && w1.callers[i].retrying && w1.active == w.active;
    assert w2.callers[i] == w1.callers[i].(pc := Choosing) && w2.active == w.active;
    TakenFrom(site, w2, i, e);
    var w3 := Next(site, w2, Take(i, e));
    assert !KnownDomain(site, w3.callers[i], e);
    var w4 := Next(site, w3, Begin(i));
    Chain(site, w, [Judge(i), Enter(i), Take(i, e), Begin(i)], [w, w1, w2, w3, w4]);
  }

  lemma TakenFrom(site: Site, w: World, i: nat, e: string)
    requires i < |w.callers| && w.callers[i].pc == Choosing && w.callers[i].retrying
    requires var q := w.callers[i].request; e in q.fits && e !in w.callers[i].attempted && HasRoom(site, w.active, e, q.required)
    ensures var v := Next(site, w, Take(i, e));
      && |v.callers| == |w.callers| && v.callers[i] == w.callers[i].(pc := Acquired(e, false)) && e in v.active
  {
  }

  lemma JudgeKeepsRan(site: Site, w: World, i: nat)
    requires i < |w.callers| && w.callers[i].pc.Judging?
    ensures |JudgeStep(site, w, i).callers| == |w.callers| && JudgeStep(site, w, i).callers[i].ran == w.callers[i].ran
  {
    hide FirstVerdict, RetryVerdict, Stateful;
  }

  lemma JudgingWaits(site: Site, w: World, m: Move, i: nat)
    requires i < |w.callers| && w.callers[i].pc.Judging? && !(m.Judge? && m.caller == i)
    ensures i < |Next(site, w, m).callers| && Next(site, w, m).callers[i] == w.callers[i]
  {
    hide JudgeStep, BeginStep, EnterStep, Candidate;
    if m.Arrive? || m.caller != i { OthersStay(site, w, m, i); }
  }

  /** The outcomes that running on a worker can have: uncertain results are made in two places, both
      without a failure id, and nothing that a worker reports is one. */
  predicate AsBuilt(o: Outcome) {
    o.Returns? && o.result.termination == UNCERTAIN ==> o.result.failureId == ""
  }

  ghost predicate AllBuilt(moves: seq<Move>) {
    forall m :: m in moves && m.Finish? ==> AsBuilt(m.outcome)
  }

  /** Classification names no failure in a result with a termination reason. */
  lemma ReceivedAsBuilt(o: Outcome)
    requires AsBuilt(o)
    ensures Received(o).termination == UNCERTAIN ==> Received(o).failureId == ""
  {
  }

  /** A command comes to be judged by finishing. */
  lemma NewlyJudging(site: Site, w: World, m: Move, i: nat)
    requires i < |w.callers| && |Next(site, w, m).callers| >= |w.callers|
    requires Next(site, w, m).callers[i].pc.Judging? && Next(site, w, m).callers[i] != w.callers[i]
    ensures m.Finish? && m.caller == i && Next(site, w, m).callers[i].pc.result == Received(m.outcome)
  {
    hide JudgeStep, BeginStep, EnterStep, Candidate, Received;
    if m.Arrive? || m.caller != i {
      OthersStay(site, w, m, i);
    } else {
      EnterShape(site, w.callers[i], w.pins);
      if w.callers[i].pc.Acquired? && w.callers[i].pc.endpoint in w.active { BeginNotJudging(site, w, i); }
      if w.callers[i].pc.Judging? { JudgeNotJudging(site, w, i); }
    }
  }

  lemma BeginNotJudging(site: Site, w: World, i: nat)
    requires i < |w.callers| && w.callers[i].pc.Acquired? && w.callers[i].pc.endpoint in w.active
    ensures |BeginStep(site, w, i).callers| == |w.callers| && !BeginStep(site, w, i).callers[i].pc.Judging?
  {
    hide KnownDomain, Freed;
  }

  lemma JudgeNotJudging(site: Site, w: World, i: nat)
    requires i < |w.callers| && w.callers[i].pc.Judging?
    ensures |JudgeStep(site, w, i).callers| == |w.callers| && !JudgeStep(site, w, i).callers[i].pc.Judging?
  {
    hide FirstVerdict, RetryVerdict, Stateful;
  }

  lemma {:induction false} UncertainUnnamed(site: Site, moves: seq<Move>, i: nat)
    requires AllBuilt(moves) && i < |After(site, Idle(site), moves).callers|
    ensures var pc := After(site, Idle(site), moves).callers[i].pc;
      pc.Judging? && pc.result.termination == UNCERTAIN ==> pc.result.failureId == ""
  {
    hide Next;
    if moves != [] {
      var before, m := moves[..|moves| - 1], moves[|moves| - 1];
      var w := After(site, Idle(site), before);
      assert m in moves && forall k :: k in before ==> k in moves;
      StepCount(site, w, m);
      if i < |w.callers| {
        UncertainUnnamed(site, before, i);
        if Next(site, w, m).callers[i].pc.Judging? && Next(site, w, m).callers[i] != w.callers[i] {
          NewlyJudging(site, w, m, i);
          ReceivedAsBuilt(m.outcome);
        }
      }
    }
  }

  /** In every run of the outcomes the executor can have, an uncertain result is never followed by another
      execution of its command, whatever anyone does and whatever comes later. */
  lemma UncertainNeverFollowed(site: Site, moves: seq<Move>, later: seq<Move>, i: nat)
    requires AllBuilt(moves) && i < |After(site, Idle(site), moves).callers|
    requires var pc := After(site, Idle(site), moves).callers[i].pc; pc.Judging? && pc.result.termination == UNCERTAIN
    ensures var w := After(site, Idle(site), moves);
      var v := After(site, w, later);
      i < |v.callers| && v.callers[i].ran == w.callers[i].ran
  {
    hide After, Next;
    UncertainUnnamed(site, moves, i);
    UncertainStops(site, After(site, Idle(site), moves), later, i);
  }

  /** A first execution, of any command outside lanes on any worker that can take it. */
  lemma FirstRun(site: Site, q: Request, e: string, o: Outcome)
    requires q.lane == "" && Candidate(site, q, {}, true, e) && !o.Escapes?
    ensures After(site, Idle(site), [Arrive(q), Enter(0), Take(0, e), Begin(0), Finish(0, o)]) ==
            World(Idle(site).active, map[], map[],
                  [Newcomer(site, q).(attempted := {e}, ran := [e], pc := Judging(e, Received(o)))])
  {
    hide Received;
    var c, idle := Newcomer(site, q), Idle(site);
    var empty: set<string> := {};
    assert [] + [e] == [e] && empty + {e} == {e} && [] + [c] == [c];
    assert MayTake(site, c.(pc := Choosing), e) && HasRoom(site, idle.active, e, q.required);
    var w2 := idle.(callers := [c.(pc := Choosing)]);
    var w3 := World(Taken(idle.active, e, q.required), map[], map[], [c.(pc := Acquired(e, false))]);
    var w4 := w3.(callers := [c.(attempted := {e}, ran := [e], pc := Running(e))]);
    assert Next(site, w2, Take(0, e)) == w3 && Next(site, w3, Begin(0)) == w4;
    assert Freed(Taken(idle.active, e, q.required), e, q.required) == idle.active;
    var w5 := idle.(callers := [c.(attempted := {e}, ran := [e], pc := Judging(e, Received(o)))]);
    assert Next(site, w4, Finish(0, o)) == w5;
    hide Next;
    Chain(site, idle, [Arrive(q), Enter(0), Take(0, e), Begin(0), Finish(0, o)],
          [idle, idle.(callers := [c]), w2, w3, w4, w5]);
  }

  /** Why the outcomes matter: of any two workers, an uncertain result that named a failure on the one would
      be followed by an execution on the other. */
  lemma UncertainReportRunsAgain(site: Site, q: Request, a: string, b: string, o: Outcome)
    requires q.lane == "" && a != b && Candidate(site, q, {}, true, a) && Candidate(site, q, {}, true, b)
    requires site.Domain(b) == "" || site.Domain(b) != site.Domain(a)
    requires site.Maximum() > 1 && o.Returns? && o.result.termination == UNCERTAIN && !AsBuilt(o)
    ensures var w := After(site, Idle(site), [Arrive(q), Enter(0), Take(0, a), Begin(0), Finish(0, o)]
                                             + [Judge(0), Enter(0), Take(0, b), Begin(0)]);
      |w.callers| > 0 && w.callers[0].ran == [a, b]
  {
    var first, second := [Arrive(q), Enter(0), Take(0, a), Begin(0), Finish(0, o)], [Judge(0), Enter(0), Take(0, b), Begin(0)];
    FirstRun(site, q, a, o);
    AfterConcat(site, Idle(site), first, second);
    var w := After(site, Idle(site), first);
    assert |{a}| == 1 && Received(o) == o.result;
    assert HasRoom(site, w.active, b, q.required);
    hide Next, After;
    UncertainGoesOn(site, w, 0, b);
    assert [a] + [b] == [a, b];
  }

  lemma {:induction false} Chain(site: Site, w: World, moves: seq<Move>, worlds: seq<World>)
    requires |worlds| == |moves| + 1 && worlds[0] == w
    requires forall k :: 0 <= k < |moves| ==> worlds[k + 1] == Next(site, worlds[k], moves[k])
    ensures After(site, w, moves) == worlds[|moves|]
  {
    if moves != [] { Chain(site, w, moves[..|moves| - 1], worlds[..|moves|]); }
  }

  lemma {:induction false} AfterConcat(site: Site, w: World, a: seq<Move>, b: seq<Move>)
    ensures After(site, w, a + b) == After(site, After(site, w, a), b)
  {
    hide Next;
    if b == [] {
      assert a + b == a;
    } else {
      var n := |b| - 1;
      assert (a + b)[..|a + b| - 1] == a + b[..n];
      AfterConcat(site, w, a, b[..n]);
    }
  }

  // ---------------------------------------------------------------- lanes shared at one time

  const WELL := Returns(Result(true, "", false, ""), "")

  /** Why a lane needs its commands one by one. Whenever two of them are at work and one fails in a way that
      sends it elsewhere before the other succeeds, the success is recorded for a lane that has no worker
      any more, so that the next command takes it to any other. */
  lemma SharedLaneMoves(site: Site, w: World, i: nat, j: nat)
    requires i != j && i < |w.callers| && j < |w.callers|
    requires var c, d := w.callers[i], w.callers[j];
      && c.request.lane == d.request.lane != "" && !c.retrying && !d.retrying && !Stateful(w, c.request.lane)
      && c.pc.Judging? && FirstVerdict(c.pc.result, false) != Final
      && d.pc.Running? && d.pc.endpoint in w.active
    ensures var v := After(site, w, [Judge(i), Finish(j, WELL), Judge(j)]);
      Stateful(v, w.callers[i].request.lane) && w.callers[i].request.lane !in v.pins
  {
    var w1 := Next(site, w, Judge(i));
    FailureUnpins(site, w, i, j);
    SuccessCounts(site, w1, j);
    var w2 := Next(site, w1, Finish(j, WELL));
    var w3 := Next(site, w2, Judge(j));
    hide Next;
    Chain(site, w, [Judge(i), Finish(j, WELL), Judge(j)], [w, w1, w2, w3]);
  }

  lemma FailureUnpins(site: Site, w: World, i: nat, j: nat)
    requires i != j && i < |w.callers| && j < |w.callers| && w.callers[i].pc.Judging? && !w.callers[i].retrying
    requires !Stateful(w, w.callers[i].request.lane) && FirstVerdict(w.callers[i].pc.result, false) != Final
    requires w.callers[i].request.lane != ""
    ensures var v := Next(site, w, Judge(i));
      && |v.callers| == |w.callers| && v.callers[j] == w.callers[j] && v.active == w.active
      && w.callers[i].request.lane !in v.pins
  {
    hide FirstVerdict, Stateful;
  }

  lemma SuccessCounts(site: Site, w: World, j: nat)
    requires j < |w.callers| && w.callers[j].pc.Running? && w.callers[j].pc.endpoint in w.active
    requires !w.callers[j].retrying && w.callers[j].request.lane != ""
    ensures var v := Next(site, Next(site, w, Finish(j, WELL)), Judge(j));
      Stateful(v, w.callers[j].request.lane) && v.pins == w.pins
  {
    var w2 := Next(site, w, Finish(j, WELL));
    assert w2.callers[j] == w.callers[j].(pc := Judging(w.callers[j].pc.endpoint, Result(true, "", false, "")));
    assert w2.pins == w.pins && w2.successes == w.successes;
    hide Freed;
  }

  // ---------------------------------------------------------------- termination

  /** What the measure rests on. */
  predicate Tight(site: Site, c: Caller) {
    && (c.retrying && (c.pc.Acquiring? || c.pc.Choosing? || c.pc.Acquired?) ==> |c.attempted| < site.Maximum())
    && (c.retrying ==> !c.pc.Waiting?)
    && (c.retrying && c.pc.Acquired? ==> c.pc.endpoint !in c.attempted)
    && (c.pc.Running? || c.pc.Judging? ==> c.attempted != {})
    && (Active(c) && !c.retrying ==> c.left > 0)
  }

  /** How many steps a command has left at most. */
  function Rank(site: Site, c: Caller): nat {
    if !Active(c) then 0
    else if c.retrying then
      (if |c.attempted| < site.Maximum() then 6 * (site.Maximum() - |c.attempted|) else 0)
      + match c.pc case Running(_) => 8 case Judging(_, _) => 7 case Acquiring => 5 case Acquired(_, _) => 3 case _ => 4
    else
      6 * site.Maximum() + 6 * c.left
      + match c.pc case Running(_) => 2 case Judging(_, _) => 1 case Acquiring => 5 case Acquired(_, _) => 3 case _ => 4
  }

  ghost predicate Progress(site: Site, c: Caller, d: Caller) {
    Tight(site, d) && Rank(site, d) < Rank(site, c)
  }

  lemma BeginProgress(site: Site, w: World, i: nat)
    requires i < |w.callers| && w.callers[i].pc.Acquired? && w.callers[i].pc.endpoint in w.active && Tight(site, w.callers[i])
    ensures Progress(site, w.callers[i], BeginStep(site, w, i).callers[i])
  {
    hide Freed;
    var c, e := w.callers[i], w.callers[i].pc.endpoint;
    if c.retrying { assert |c.attempted + {e}| == |c.attempted| + 1; }
    assert c.attempted + {e} != {};
  }

  lemma JudgeProgress(site: Site, w: World, i: nat)
    requires i < |w.callers| && w.callers[i].pc.Judging? && Tight(site, w.callers[i])
    ensures Progress(site, w.callers[i], JudgeStep(site, w, i).callers[i])
  {
    hide FirstVerdict, RetryVerdict, Stateful;
    assert |w.callers[i].attempted| > 0;
  }

  lemma TakeProgress(site: Site, c: Caller, e: string, pinning: bool)
    requires Tight(site, c) && MayTake(site, c, e)
    ensures Progress(site, c, c.(pc := Acquired(e, pinning)))
  {
  }

  lemma EnterProgress(site: Site, c: Caller, pins: map<string, string>)
    requires Tight(site, c) && c.pc == Acquiring
    ensures Progress(site, c, EnterStep(site, c, pins))
  {
  }

  lemma FinishProgress(site: Site, c: Caller, o: Outcome)
    requires Tight(site, c) && c.pc.Running?
    ensures Progress(site, c, c.(pc := if o.Escapes? then Raised else Judging(c.pc.endpoint, Received(o))))
  {
    hide Received;
  }

  lemma StepProgress(site: Site, w: World, m: Move)
    requires !m.Arrive? && m.caller < |w.callers| && Tight(site, w.callers[m.caller]) && Next(site, w, m) != w
    ensures |Next(site, w, m).callers| == |w.callers|
    ensures Progress(site, w.callers[m.caller], Next(site, w, m).callers[m.caller])
  {
    hide Progress, Tight, JudgeStep, BeginStep, EnterStep, MayTake, HasRoom, Received;
    var c := w.callers[m.caller];
    StepCount(site, w, m);
    match m
    case Enter(_) => EnterProgress(site, c, w.pins);
    case Take(_, e) => TakeProgress(site, c, e, c.pc.Choosing? && !c.retrying && c.request.lane != "");
    case GiveUp(_) => GiveUpProgress(site, c);
    case Begin(_) => BeginProgress(site, w, m.caller);
    case Finish(_, o) => FinishProgress(site, c, o);
    case Judge(_) => JudgeProgress(site, w, m.caller);
  }

  lemma GiveUpProgress(site: Site, c: Caller)
    requires Active(c)
    ensures Progress(site, c, c.(pc := Done))
  {
  }

  /** The steps of one caller that changed something. */
  ghost function Steps(site: Site, moves: seq<Move>, i: nat): nat {
    if moves == [] then 0
    else
      var w, m := After(site, Idle(site), moves[..|moves| - 1]), moves[|moves| - 1];
      Steps(site, moves[..|moves| - 1], i) + if !m.Arrive? && m.caller == i && Next(site, w, m) != w then 1 else 0
  }

  /** Both retry loops terminate: no run lets a command take more steps than this. */
  lemma {:induction false} StepsBounded(site: Site, moves: seq<Move>, i: nat)
    ensures Steps(site, moves, i) <= 6 * site.Maximum() + 6 * (site.retries + 1) + 5
    ensures var w := After(site, Idle(site), moves);
      if i < |w.callers|
      then Tight(site, w.callers[i])
        && Steps(site, moves, i) + Rank(site, w.callers[i]) <= 6 * site.Maximum() + 6 * (site.retries + 1) + 5
      else Steps(site, moves, i) == 0
  {
    hide Next;
    if moves != [] {
      var w, m := After(site, Idle(site), moves[..|moves| - 1]), moves[|moves| - 1];
      StepsBounded(site, moves[..|moves| - 1], i);
      StepCount(site, w, m);
      if m.Arrive? {
        if i < |w.callers| { OthersStay(site, w, m, i); }
      } else if i < |w.callers| {
        if m.caller != i { OthersStay(site, w, m, i); }
        else if Next(site, w, m) != w { StepProgress(site, w, m); }
      } else if m.caller == i {
        Absent(site, w, m);
      }
    }
  }

  lemma Absent(site: Site, w: World, m: Move)
    requires !m.Arrive? && m.caller >= |w.callers|
    ensures Next(site, w, m) == w
  {
  }
}
