/** External calls behind durable receipts: reserve, execute, settle, replay, with any number of
    callers that may die at any point. */
module BusinessCalls {
  import opened BusinessState

  datatype Request = Request(id: string, subject: string, phase: string, model: bool)

  /** How the external function came out. `clean` tells whether an exhausted provider had finished
      cleaning up. */
  datatype Effect =
    | Succeeded(value: string)
    | Unserializable
    | Exhausted(value: string, clean: bool)
    | Failed

  /** Only model calls and deliveries leave receipts; other phases run the function directly. */
  predicate Recorded(q: Request) {
    q.model || q.phase == "deliver"
  }

  /** The receipt an outcome is settled with. */
  function SettledState(q: Request, e: Effect): CallState {
    match e
    case Succeeded(_) => Finished
    case Exhausted(_, clean) => if clean then Finished else Unknown
    case _ => if q.model || q.phase == "deliver" then Unknown else Interrupted
  }

  function SettledResult(e: Effect): string {
    match e
    case Succeeded(v) => v
    case Exhausted(v, clean) => if clean then v else ""
    case _ => ""
  }

  // ---------------------------------------------------------------- one caller, in order

  datatype Answer = Direct(effect: Effect) | Replayed(value: string) | Refused | Returned(effect: Effect) | Died

  /** `perform` by one caller. `lifetime` counts the durable steps it survives: reserving, settling. */
  method Perform(store: BusinessStore, q: Request, e: Effect, lifetime: nat) returns (answer: Answer, executed: bool)
    modifies store`calls
    ensures !Recorded(q) ==> answer == Direct(e) && executed && store.calls == old(store.calls)
    // a receipt that is there decides: a finished one is replayed, any other one refuses
    ensures Recorded(q) && q.id in old(store.calls) ==> !executed && store.calls == old(store.calls)
    ensures Recorded(q) && q.id in old(store.calls) && lifetime > 0 ==>
      answer == if old(store.calls)[q.id].state == Finished then Replayed(old(store.calls)[q.id].result) else Refused
    // a new identity is run, except a model call while another one is unresolved, which is refused
    ensures Recorded(q) && q.id !in old(store.calls) ==>
      (executed <==> lifetime > 0 && (q.model ==> !PendingModelCall(old(store.calls))))
    ensures Recorded(q) && q.id !in old(store.calls) ==>
      (answer == Refused <==> lifetime > 0 && q.model && PendingModelCall(old(store.calls)))
    ensures Recorded(q) && executed && lifetime > 1 ==> answer == Returned(e)
    ensures Recorded(q) && executed && lifetime == 1 ==> answer == Died
    ensures Recorded(q) && lifetime == 0 ==> answer == Died && !executed
    // the function runs between the reservation and the settlement: a success is kept for good, and so is an
    // exhaustion that was cleaned up after; of anything else the outcome is unknown
    ensures Recorded(q) && executed ==> store.calls == old(store.calls)[q.id :=
      if lifetime == 1 then Call(q.subject, q.phase, Dispatched, "", q.model)
      else if e.Succeeded? || (e.Exhausted? && e.clean) then Call(q.subject, q.phase, Finished, e.value, q.model)
      else Call(q.subject, q.phase, Unknown, "", q.model)]
    ensures Recorded(q) && !executed ==> store.calls == old(store.calls)
  {
    if !Recorded(q) { return Direct(e), true; }
    if q.id in store.calls && store.calls[q.id].state == Finished {
      return if lifetime > 0 then Replayed(store.calls[q.id].result) else Died, false;
    }
    if lifetime == 0 { return Died, false; }
    var reservation := store.Reserve(q.id, q.subject, q.phase, q.model);
    match reservation
    case Prior(call) =>
      return if call.state != Finished then Refused else Replayed(call.result), false;
    case OutcomeUnknown =>
      return Refused, false;
    case Reserved =>
      if lifetime == 1 { return Died, true; }
      store.Settle(q.id, SettledResult(e), SettledState(q, e));
      return Returned(e), true;
  }

  // ---------------------------------------------------------------- any number of callers

  datatype Pc =
    | Checking
    | Reserving
    | Executing
    | Settling(effect: Effect)
    | Overwriting   // interrupted after its success was committed, about to settle it as unknown
    | Done(value: string)
    | Stopped

  datatype Caller = Caller(request: Request, pc: Pc)

  /** The shared store, the callers, how often each function ran and what it produced. */
  datatype World = World(
    calls: map<string, Call>, callers: map<nat, Caller>, runs: map<string, nat>, produced: map<string, string>)

  /** One step of one caller, or a death. Steps that are not enabled change nothing. */
  datatype Move =
    | Arrive(caller: nat, request: Request)
    | Check(caller: nat)
    | Reserve(caller: nat)
    | Execute(caller: nat, effect: Effect)
    | Settle(caller: nat)
    | SettleFails(caller: nat)
    | LateInterrupt(caller: nat)
    | Dies(caller: nat)

  function Runs(w: World, id: string): nat {
    if id in w.runs then w.runs[id] else 0
  }

  function Goto(w: World, c: nat, pc: Pc): World
    requires c in w.callers
  {
    w.(callers := w.callers[c := w.callers[c].(pc := pc)])
  }

  /** A committed settlement of the caller's receipt. */
  function Settled(w: World, c: nat, result: string, state: CallState, pc: Pc): World
    requires c in w.callers
  {
    Goto(w, c, pc).(calls := AfterSettle(w.calls, w.callers[c].request.id, result, state))
  }

  function Next(w: World, m: Move): World {
    if m.Arrive? then
      if m.caller in w.callers || !Recorded(m.request) then w
      else w.(callers := w.callers[m.caller := Caller(m.request, Checking)])
    else if m.caller !in w.callers then w
    else
      var c, q, pc := m.caller, w.callers[m.caller].request, w.callers[m.caller].pc;
      match m
      case Check(_) =>
        if pc != Checking then w
        else if q.id in w.calls && w.calls[q.id].state == Finished then Goto(w, c, Done(w.calls[q.id].result))
        else Goto(w, c, Reserving)
      case Reserve(_) =>
        if pc != Reserving then w
        else
          (match ReserveAnswer(w.calls, q.id, q.model)
           case Prior(call) => Goto(w, c, if call.state == Finished then Done(call.result) else Stopped)
           case OutcomeUnknown => Goto(w, c, Stopped)
           case Reserved =>
             Goto(w, c, Executing).(calls := AfterReserve(w.calls, q.id, q.subject, q.phase, q.model)))
      case Execute(_, e) =>
        if pc != Executing then w
        else
          var ran := Goto(w, c, Settling(e)).(runs := w.runs[q.id := Runs(w, q.id) + 1]);
          if SettledState(q, e) == Finished then ran.(produced := w.produced[q.id := SettledResult(e)]) else ran
      case Settle(_) =>
        if pc == Overwriting then Settled(w, c, "", SettledState(q, Failed), Stopped)
        else if !pc.Settling? then w
        else
          var state, result := SettledState(q, pc.effect), SettledResult(pc.effect);
          Settled(w, c, result, state, if state == Finished then Done(result) else Stopped)
      case SettleFails(_) =>
        // a success whose receipt cannot be written is settled as unknown; any other failure escapes
        if pc == Overwriting then Goto(w, c, Stopped)
        else if !pc.Settling? then w
        else if pc.effect.Succeeded? then Goto(w, c, Settling(Failed)) else Goto(w, c, Stopped)
      case LateInterrupt(_) =>
        // the commit is made, and the interrupt comes before the caller returns: a success is caught again
        if !pc.Settling? then w
        else Settled(w, c, SettledResult(pc.effect), SettledState(q, pc.effect), if pc.effect.Succeeded? then Overwriting else Stopped)
      case Dies(_) => Goto(w, c, Stopped)
  }

  function After(w: World, moves: seq<Move>): World {
    if moves == [] then w else Next(After(w, moves[..|moves| - 1]), moves[|moves| - 1])
  }

  /** Past its reservation, and not done with its receipt. */
  predicate Active(w: World, c: nat) {
    c in w.callers && (w.callers[c].pc == Executing || w.callers[c].pc.Settling? || w.callers[c].pc == Overwriting)
  }

  /** A caller past its reservation owns the receipt: dispatched, or finished and about to be overwritten. */
  ghost predicate OwnsReceipt(w: World, c: nat)
    requires Active(w, c)
  {
    var q := w.callers[c].request;
    && Recorded(q)
    && q.id in w.calls && w.calls[q.id].state == (if w.callers[c].pc == Overwriting then Finished else Dispatched)
    && w.calls[q.id].model == q.model
    && Runs(w, q.id) == (if w.callers[c].pc == Executing then 0 else 1)
    && (w.callers[c].pc.Settling? && SettledState(q, w.callers[c].pc.effect) == Finished ==>
          q.id in w.produced && w.produced[q.id] == SettledResult(w.callers[c].pc.effect))
  }

  /** Active callers own their receipts, one each. */
  ghost predicate Owners(w: World) {
    && (forall c :: c in w.callers ==> Recorded(w.callers[c].request))
    && (forall c :: Active(w, c) ==> OwnsReceipt(w, c))
    && (forall c, d :: Active(w, c) && Active(w, d) && w.callers[c].request.id == w.callers[d].request.id ==> c == d)
  }

  /** One run per identity; finished receipts and answers hold what it produced. */
  ghost predicate Ledger(w: World) {
    && (forall id :: Runs(w, id) <= 1 && (Runs(w, id) > 0 ==> id in w.calls))
    && (forall id :: id in w.produced ==> Runs(w, id) == 1)
    && (forall id :: id in w.calls && w.calls[id].state == Finished ==>
          id in w.produced && w.produced[id] == w.calls[id].result)
    && (forall c :: c in w.callers && w.callers[c].pc.Done? ==>
          var id := w.callers[c].request.id;
          id in w.produced && w.produced[id] == w.callers[c].pc.value)
  }

  ghost predicate Inv(w: World) {
    Owners(w) && Ledger(w)
  }

  /** Stopping a caller, or moving one that is not active, keeps the invariant. */
  lemma GotoKeeps(w: World, c: nat, pc: Pc)
    requires Inv(w) && c in w.callers && (pc.Done? || pc == Stopped)
    requires pc.Done? ==>
      var id := w.callers[c].request.id;
      id in w.calls && w.calls[id].state == Finished && w.calls[id].result == pc.value
    ensures Inv(Goto(w, c, pc))
  {
    var t := Goto(w, c, pc);
    forall d | Active(t, d) ensures Active(w, d) && t.callers[d] == w.callers[d] && OwnsReceipt(t, d) {
      assert d != c;
      assert OwnsReceipt(w, d);
    }
    assert forall id :: Runs(t, id) == Runs(w, id);
  }

  lemma ReserveKeeps(w: World, c: nat)
    requires Inv(w) && c in w.callers && w.callers[c].pc == Reserving
    requires ReserveAnswer(w.calls, w.callers[c].request.id, w.callers[c].request.model) == Reserved
    ensures Inv(Next(w, Reserve(c)))
  {
    ReserveKeepsOwners(w, c);
    ReserveKeepsLedger(w, c);
  }

  lemma ReserveKeepsOwners(w: World, c: nat)
    requires Inv(w) && c in w.callers && w.callers[c].pc == Reserving
    requires ReserveAnswer(w.calls, w.callers[c].request.id, w.callers[c].request.model) == Reserved
    ensures Owners(Next(w, Reserve(c)))
  {
    hide Recorded, Unresolved;
    var q, t := w.callers[c].request, Next(w, Reserve(c));
    assert q.id !in w.calls && Runs(w, q.id) == 0;
    hide Ledger, ReserveAnswer;
    forall d | Active(t, d) ensures OwnsReceipt(t, d) && (d != c ==> t.callers[d].request.id != q.id) {
      if d != c { assert Active(w, d) && OwnsReceipt(w, d); }
    }
  }

  lemma ReserveKeepsLedger(w: World, c: nat)
    requires Inv(w) && c in w.callers && w.callers[c].pc == Reserving
    requires ReserveAnswer(w.calls, w.callers[c].request.id, w.callers[c].request.model) == Reserved
    ensures Ledger(Next(w, Reserve(c)))
  {
    hide OwnsReceipt, Owners;
    var t := Next(w, Reserve(c));
    assert forall id :: Runs(t, id) == Runs(w, id);
    hide ReserveAnswer;
  }

  lemma ExecuteKeeps(w: World, c: nat, e: Effect)
    requires Inv(w) && c in w.callers && w.callers[c].pc == Executing
    ensures Inv(Next(w, Execute(c, e)))
  {
    ExecuteKeepsOwners(w, c, e);
    ExecuteKeepsLedger(w, c, e);
  }

  lemma ExecuteKeepsOwners(w: World, c: nat, e: Effect)
    requires Owners(w) && c in w.callers && w.callers[c].pc == Executing
    ensures Owners(Next(w, Execute(c, e)))
  {
    hide Recorded, Unresolved;
    var t := Next(w, Execute(c, e));
    assert Active(w, c) && OwnsReceipt(w, c);
    forall d | Active(t, d) ensures Active(w, d) && OwnsReceipt(t, d) {
      if d != c { assert Active(w, d) && OwnsReceipt(w, d); }
    }
  }

  lemma ExecuteKeepsLedger(w: World, c: nat, e: Effect)
    requires Inv(w) && c in w.callers && w.callers[c].pc == Executing
    ensures Ledger(Next(w, Execute(c, e)))
  {
    hide Recorded, Unresolved;
    var q, t := w.callers[c].request, Next(w, Execute(c, e));
    assert Active(w, c) && OwnsReceipt(w, c);
    hide Owners, OwnsReceipt;
    assert q.id !in w.produced;
    assert forall id :: Runs(t, id) == if id == q.id then 1 else Runs(w, id);
  }

  /** Settling a receipt with what was produced, or as anything but finished, keeps the invariant. */
  lemma SettledKeeps(w: World, c: nat, result: string, state: CallState, pc: Pc)
    requires Inv(w) && Active(w, c) && w.callers[c].pc != Executing && (pc.Done? || pc == Stopped || pc == Overwriting)
    requires state == Finished ==>
      var id := w.callers[c].request.id; id in w.produced && w.produced[id] == result
    requires (pc.Done? ==> pc.value == result) && (pc == Overwriting || pc.Done? ==> state == Finished)
    ensures Inv(Settled(w, c, result, state, pc))
  {
    SettledKeepsOwners(w, c, result, state, pc);
    SettledKeepsLedger(w, c, result, state, pc);
  }

  lemma SettledKeepsOwners(w: World, c: nat, result: string, state: CallState, pc: Pc)
    requires Owners(w) && Active(w, c) && w.callers[c].pc != Executing
    requires pc.Done? || pc == Stopped || (pc == Overwriting && state == Finished)
    ensures Owners(Settled(w, c, result, state, pc))
  {
    hide Recorded;
    var q, t := w.callers[c].request, Settled(w, c, result, state, pc);
    assert OwnsReceipt(w, c);
    assert forall id :: id in w.calls && id != q.id ==> id in t.calls && t.calls[id] == w.calls[id];
    forall d | Active(t, d) ensures Active(w, d) && OwnsReceipt(t, d) {
      assert Active(w, d) && OwnsReceipt(w, d);
    }
  }

  lemma SettledKeepsLedger(w: World, c: nat, result: string, state: CallState, pc: Pc)
    requires Inv(w) && Active(w, c) && w.callers[c].pc != Executing && (pc.Done? || pc == Stopped || pc == Overwriting)
    requires state == Finished ==>
      var id := w.callers[c].request.id; id in w.produced && w.produced[id] == result
    requires (pc.Done? ==> pc.value == result) && (pc == Overwriting || pc.Done? ==> state == Finished)
    ensures Ledger(Settled(w, c, result, state, pc))
  {
    var q, t := w.callers[c].request, Settled(w, c, result, state, pc);
    hide Recorded, Owners, OwnsReceipt, Active;
    assert t.calls.Keys == w.calls.Keys;
    assert forall id :: Runs(t, id) == Runs(w, id);
    assert forall id :: id in w.calls && id != q.id ==> id in t.calls && t.calls[id] == w.calls[id];
    hide Settled;
  }

  lemma ProducedResult(w: World, c: nat)
    requires Inv(w) && Active(w, c) && w.callers[c].pc.Settling?
    ensures var (q, e) := (w.callers[c].request, w.callers[c].pc.effect);
      SettledState(q, e) == Finished ==> q.id in w.produced && w.produced[q.id] == SettledResult(e)
  {
    assert OwnsReceipt(w, c);
  }

  lemma UnknownOverwrites(w: World, c: nat)
    requires Inv(w) && c in w.callers
    ensures SettledState(w.callers[c].request, Failed) == Unknown
  {
  }

  lemma FailKeeps(w: World, c: nat)
    requires Inv(w) && c in w.callers && w.callers[c].pc.Settling? && w.callers[c].pc.effect.Succeeded?
    ensures Inv(Goto(w, c, Settling(Failed)))
  {
    var t := Goto(w, c, Settling(Failed));
    forall d | Active(t, d) ensures Active(w, d) && OwnsReceipt(t, d) {
      assert Active(w, d) && OwnsReceipt(w, d);
    }
    assert forall id :: Runs(t, id) == Runs(w, id);
  }

  lemma StartKeeps(w: World, c: nat, q: Request, pc: Pc)
    requires Inv(w) && Recorded(q) && (pc == Checking || pc == Reserving)
    requires c in w.callers ==> w.callers[c] == Caller(q, Checking)
    ensures Inv(w.(callers := w.callers[c := Caller(q, pc)]))
  {
    var t := w.(callers := w.callers[c := Caller(q, pc)]);
    forall d | Active(t, d) ensures Active(w, d) && OwnsReceipt(t, d) {
      assert Active(w, d) && OwnsReceipt(w, d);
    }
    assert forall id :: Runs(t, id) == Runs(w, id);
  }

  lemma NextKeepsInv(w: World, m: Move)
    requires Inv(w)
    ensures Inv(Next(w, m))
  {
    hide Inv, Runs, AfterReserve, Settled;
    if m.Arrive? {
      if m.caller !in w.callers && Recorded(m.request) { StartKeeps(w, m.caller, m.request, Checking); }
    } else if m.caller in w.callers {
      var c, q, pc := m.caller, w.callers[m.caller].request, w.callers[m.caller].pc;
      match m
      case Check(_) =>
        if pc == Checking {
          if q.id in w.calls && w.calls[q.id].state == Finished {
            GotoKeeps(w, c, Done(w.calls[q.id].result));
          } else {
            AllRecorded(w, c);
            StartKeeps(w, c, q, Reserving);
          }
        }
      case Reserve(_) =>
        if pc == Reserving {
          match ReserveAnswer(w.calls, q.id, q.model)
          case Prior(call) => GotoKeeps(w, c, if call.state == Finished then Done(call.result) else Stopped);
          case OutcomeUnknown => GotoKeeps(w, c, Stopped);
          case Reserved => ReserveKeeps(w, c);
        }
      case Execute(_, e) => if pc == Executing { ExecuteKeeps(w, c, e); }
      case Settle(_) => SettleKeeps(w, c);
      case SettleFails(_) =>
        if pc.Settling? && pc.effect.Succeeded? { FailKeeps(w, c); }
        else if pc.Settling? || pc == Overwriting { GotoKeeps(w, c, Stopped); }
      case LateInterrupt(_) =>
        if pc.Settling? {
          ProducedResult(w, c);
          SettledKeeps(w, c, SettledResult(pc.effect), SettledState(q, pc.effect), if pc.effect.Succeeded? then Overwriting else Stopped);
        }
      case Dies(_) => GotoKeeps(w, c, Stopped);
    }
  }

  lemma SettleKeeps(w: World, c: nat)
    requires Inv(w) && c in w.callers
    ensures Inv(Next(w, Settle(c)))
  {
    hide Inv, Settled;
    var q, pc := w.callers[c].request, w.callers[c].pc;
    if pc == Overwriting {
      UnknownOverwrites(w, c);
      SettledKeeps(w, c, "", Unknown, Stopped);
    } else if pc.Settling? {
      ProducedResult(w, c);
      var state, result := SettledState(q, pc.effect), SettledResult(pc.effect);
      SettledKeeps(w, c, result, state, if state == Finished then Done(result) else Stopped);
    }
  }

  lemma AllRecorded(w: World, c: nat)
    requires Inv(w) && c in w.callers
    ensures Recorded(w.callers[c].request)
  {
  }

  lemma {:induction false} AfterKeepsInv(w: World, moves: seq<Move>)
    requires Inv(w)
    ensures Inv(After(w, moves))
  {
    if moves != [] {
      AfterKeepsInv(w, moves[..|moves| - 1]);
      NextKeepsInv(After(w, moves[..|moves| - 1]), moves[|moves| - 1]);
    }
  }

  const EMPTY_WORLD := World(map[], map[], map[], map[])

  lemma EmptyWorldInv()
    ensures Inv(EMPTY_WORLD)
  {
  }

  /** Over every interleaving and every crash, the function of an identity runs at most once. */
  lemma AtMostOnce(moves: seq<Move>, id: string)
    ensures Runs(After(EMPTY_WORLD, moves), id) <= 1
  {
    EmptyWorldInv();
    AfterKeepsInv(EMPTY_WORLD, moves);
  }

  // ---------------------------------------------------------------- one unresolved model call

  ghost predicate OneUnresolved(w: World) {
    forall a, b :: a in w.calls && b in w.calls && Unresolved(w.calls[a]) && Unresolved(w.calls[b]) ==> a == b
  }

  /** No finished model call is about to be overwritten. */
  ghost predicate Calm(w: World) {
    forall c :: c in w.callers && w.callers[c].pc == Overwriting ==> !w.callers[c].request.model
  }

  /** Nobody is interrupted between the commit of a settlement and its return. */
  predicate Prompt(moves: seq<Move>) {
    forall m | m in moves :: !m.LateInterrupt?
  }

  lemma NextKeepsOne(w: World, m: Move)
    requires Inv(w) && OneUnresolved(w) && Calm(w) && !m.LateInterrupt?
    ensures OneUnresolved(Next(w, m)) && Calm(Next(w, m))
  {
    hide Ledger, OwnsReceipt, Recorded, Owners;
    if m.Settle? && m.caller in w.callers && Active(w, m.caller) && w.callers[m.caller].pc != Executing {
      OwnedCall(w, m.caller);
    }
  }

  lemma OwnedCall(w: World, c: nat)
    requires Inv(w) && Active(w, c)
    ensures var q := w.callers[c].request; q.id in w.calls && w.calls[q.id].model == q.model
    ensures w.callers[c].pc != Overwriting ==> w.calls[w.callers[c].request.id].state == Dispatched
    ensures w.callers[c].pc == Overwriting ==> w.calls[w.callers[c].request.id].state == Finished
  {
    assert OwnsReceipt(w, c);
  }

  lemma {:induction false} AfterKeepsOne(w: World, moves: seq<Move>)
    requires Inv(w) && OneUnresolved(w) && Calm(w) && Prompt(moves)
    ensures OneUnresolved(After(w, moves)) && Calm(After(w, moves))
  {
    hide Inv, OneUnresolved, Calm, Next;
    if moves != [] {
      var earlier, last := moves[..|moves| - 1], moves[|moves| - 1];
      assert moves == earlier + [last] && last in moves;
      AfterKeepsOne(w, earlier);
      AfterKeepsInv(w, earlier);
      NextKeepsOne(After(w, earlier), last);
    }
  }

  /** At most one model call is dispatched or unknown at any time, in every run without late interrupts. */
  lemma OneUnresolvedModelCall(moves: seq<Move>)
    requires Prompt(moves)
    ensures OneUnresolved(After(EMPTY_WORLD, moves))
  {
    EmptyWorldInv();
    AfterKeepsOne(EMPTY_WORLD, moves);
  }

  /** From any state that is ever reached, late interrupts before it included: there will never be two
      unresolved model calls, in all runs without further ones, exactly when there are not two now and no
      finished one is about to be overwritten. */
  lemma OneUnresolvedExactly(moves: seq<Move>)
    ensures var w := After(EMPTY_WORLD, moves);
      (forall later :: Prompt(later) ==> OneUnresolved(After(w, later))) <==> OneUnresolved(w) && Calm(w)
  {
    EmptyWorldInv();
    AfterKeepsInv(EMPTY_WORLD, moves);
    hide Inv, Next, OneUnresolved;
    var w := After(EMPTY_WORLD, moves);
    if OneUnresolved(w) && Calm(w) {
      forall later | Prompt(later) ensures OneUnresolved(After(w, later)) { AfterKeepsOne(w, later); }
    } else if OneUnresolved(w) {
      var c :| c in w.callers && w.callers[c].pc == Overwriting && w.callers[c].request.model;
      var later := SecondUnresolved(w, c);
      assert !OneUnresolved(After(w, later));
    } else {
      assert After(w, []) == w && Prompt([]);
    }
  }

  /** A newcomer's model call is dispatched when nothing is unresolved. */
  function Newcomer(c: nat, q: Request): seq<Move> {
    [Arrive(c, q), Check(c), Reserve(c)]
  }

  lemma AfterThree(w: World, a: Move, b: Move, c: Move)
    ensures After(w, [a, b, c]) == Next(Next(Next(w, a), b), c)
  {
    hide Next;
    assert [a, b, c][..2] == [a, b] && [a, b][..1] == [a] && [a][..0] == [];
    assert After(w, [a]) == Next(w, a) && After(w, [a, b]) == Next(Next(w, a), b);
  }

  lemma NewcomerReserves(w: World, c: nat, q: Request)
    requires c !in w.callers && q.id !in w.calls && q.model && !PendingModelCall(w.calls)
    ensures var t := After(w, Newcomer(c, q));
      && t.callers == w.callers[c := Caller(q, Executing)] && t.runs == w.runs && t.produced == w.produced
      && t.calls == w.calls[q.id := Call(q.subject, q.phase, Dispatched, "", true)]
  {
    AfterThree(w, Arrive(c, q), Check(c), Reserve(c));
    assert w.callers[c := Caller(q, Checking)][c := Caller(q, Reserving)][c := Caller(q, Executing)] == w.callers[c := Caller(q, Executing)];
  }

  /** Overwriting a finished model call while another one is unresolved makes two. */
  lemma OverwriteMakesTwo(w: World, c: nat, b: string)
    requires Inv(w) && c in w.callers && w.callers[c].pc == Overwriting && w.callers[c].request.model
    requires b in w.calls && Unresolved(w.calls[b])
    ensures !OneUnresolved(Next(w, Settle(c)))
  {
    OwnedCall(w, c);
    UnknownOverwrites(w, c);
    var id, t := w.callers[c].request.id, Next(w, Settle(c));
    assert id in t.calls && b in t.calls && id != b && Unresolved(t.calls[id]) && Unresolved(t.calls[b]);
  }

  lemma SecondUnresolved(w: World, c: nat) returns (later: seq<Move>)
    requires Inv(w) && c in w.callers && w.callers[c].pc == Overwriting && w.callers[c].request.model
    ensures Prompt(later) && !OneUnresolved(After(w, later))
  {
    hide Inv, Next, OneUnresolved;
    if PendingModelCall(w.calls) {
      var b :| b in w.calls && Unresolved(w.calls[b]);
      later := [Settle(c)];
      AfterOne(w, Settle(c));
      OverwriteMakesTwo(w, c, b);
    } else {
      var d := FreshNumber(w.callers.Keys);
      var id := FreshText(w.calls.Keys);
      var q := Request(id, "", "", true);
      var earlier := Newcomer(d, q);
      NewcomerReserves(w, d, q);
      AfterKeepsInv(w, earlier);
      later := earlier + [Settle(c)];
      assert later[..|later| - 1] == earlier;
      OverwriteMakesTwo(After(w, earlier), c, id);
    }
  }

  lemma {:induction false} FreshNumber(used: set<nat>) returns (n: nat)
    ensures forall x :: x in used ==> x < n
  {
    n := 0;
    if used != {} {
      var x :| x in used;
      var rest := FreshNumber(used - {x});
      n := if rest > x then rest else x + 1;
      assert used == (used - {x}) + {x};
    }
  }

  lemma FreshText(used: set<string>) returns (s: string)
    ensures s !in used
  {
    var lengths := set x | x in used :: |x|;
    var n := FreshNumber(lengths);
    s := seq(n, _ => 'x');
    assert s in used ==> |s| in lengths;
  }

  /** The failing case: a model call is interrupted right after its success was committed, another one is
      dispatched, and only then the first is overwritten as unknown. Two are unresolved, one of them
      running, and the first receipt was finished before. */
  lemma LateInterruptUnresolves(first: Request, second: Request, value: string)
    requires first.model && second.model && first.id != second.id
    ensures var moves := Newcomer(0, first) + [Execute(0, Succeeded(value)), LateInterrupt(0)] + Newcomer(1, second);
      var w, t := After(EMPTY_WORLD, moves), After(EMPTY_WORLD, moves + [Settle(0)]);
      && first.id in w.calls && w.calls[first.id].state == Finished && w.calls[first.id].result == value
      && first.id in t.calls && Unresolved(t.calls[first.id])
      && second.id in t.calls && Unresolved(t.calls[second.id]) && 1 in t.callers && t.callers[1].pc == Executing
  {
    var more := Newcomer(0, first) + [Execute(0, Succeeded(value)), LateInterrupt(0)];
    var w := After(EMPTY_WORLD, more);
    CommittedThenInterrupted(first, value);
    AfterConcat(EMPTY_WORLD, more, Newcomer(1, second));
    AfterConcat(EMPTY_WORLD, more + Newcomer(1, second), [Settle(0)]);
    AfterOne(After(EMPTY_WORLD, more + Newcomer(1, second)), Settle(0));
    NothingPending(w);
    hide After, Newcomer, PendingModelCall, Next, AfterSettle;
    NewcomerReserves(w, 1, second);
    OverwritesFirst(After(w, Newcomer(1, second)), first, second, value);
  }

  lemma OverwritesFirst(w: World, first: Request, second: Request, value: string)
    requires first.model && second.model && first.id != second.id
    requires w.callers == map[0 := Caller(first, Overwriting)][1 := Caller(second, Executing)]
    requires w.calls == map[first.id := Call(first.subject, first.phase, Finished, value, true)]
                           [second.id := Call(second.subject, second.phase, Dispatched, "", true)]
    ensures var t := Next(w, Settle(0));
      && first.id in t.calls && Unresolved(t.calls[first.id])
      && second.id in t.calls && Unresolved(t.calls[second.id]) && 1 in t.callers && t.callers[1].pc == Executing
  {
  }

  lemma NothingPending(w: World)
    requires forall id :: id in w.calls ==> w.calls[id].state == Finished
    ensures !PendingModelCall(w.calls)
  {
  }

  lemma AfterOne(w: World, m: Move)
    ensures After(w, [m]) == Next(w, m)
  {
    hide Next;
    assert [m][..0] == [];
  }

  lemma AfterTwo(w: World, a: Move, b: Move)
    ensures After(w, [a, b]) == Next(Next(w, a), b)
  {
    hide Next;
    assert [a, b][..1] == [a];
    AfterOne(w, a);
  }

  lemma CommittedThenInterrupted(q: Request, value: string)
    requires q.model
    ensures var w := After(EMPTY_WORLD, Newcomer(0, q) + [Execute(0, Succeeded(value)), LateInterrupt(0)]);
      && w.callers == map[0 := Caller(q, Overwriting)]
      && w.calls == map[q.id := Call(q.subject, q.phase, Finished, value, true)]
  {
    var w := After(EMPTY_WORLD, Newcomer(0, q));
    hide After, Newcomer, Next;
    NothingPending(EMPTY_WORLD);
    NewcomerReserves(EMPTY_WORLD, 0, q);
    assert w.callers == map[0 := Caller(q, Executing)] && w.calls == map[q.id := Call(q.subject, q.phase, Dispatched, "", true)];
    AfterConcat(EMPTY_WORLD, Newcomer(0, q), [Execute(0, Succeeded(value)), LateInterrupt(0)]);
    AfterTwo(w, Execute(0, Succeeded(value)), LateInterrupt(0));
    hide *;
    RunThenInterrupted(w, q, value);
  }

  lemma RunThenInterrupted(w: World, q: Request, value: string)
    requires w.callers == map[0 := Caller(q, Executing)]
    requires w.calls == map[q.id := Call(q.subject, q.phase, Dispatched, "", true)]
    ensures var t := Next(Next(w, Execute(0, Succeeded(value))), LateInterrupt(0));
      && t.callers == map[0 := Caller(q, Overwriting)]
      && t.calls == map[q.id := Call(q.subject, q.phase, Finished, value, true)]
  {
    var ran := Next(w, Execute(0, Succeeded(value)));
    assert ran.callers == map[0 := Caller(q, Settling(Succeeded(value)))] && ran.calls == w.calls;
  }

  lemma {:induction false} AfterConcat(w: World, a: seq<Move>, b: seq<Move>)
    ensures After(w, a + b) == After(After(w, a), b)
  {
    hide Next;
    if b == [] {
      assert a + b == a;
    } else {
      assert (a + b)[..|a + b| - 1] == a + b[..|b| - 1];
      AfterConcat(w, a, b[..|b| - 1]);
    }
  }

  /** When a model call's function starts, every other model call is resolved, in every run without late
      interrupts. */
  lemma ModelCallsRunAlone(moves: seq<Move>, c: nat, other: string)
    requires Prompt(moves)
    requires var w := After(EMPTY_WORLD, moves);
      && c in w.callers && w.callers[c].pc == Executing && w.callers[c].request.model
      && other in w.calls && other != w.callers[c].request.id
    ensures !Unresolved(After(EMPTY_WORLD, moves).calls[other])
  {
    EmptyWorldInv();
    AfterKeepsInv(EMPTY_WORLD, moves);
    AfterKeepsOne(EMPTY_WORLD, moves);
    OwnedCall(After(EMPTY_WORLD, moves), c);
  }

  // ---------------------------------------------------------------- finished receipts

  /** Its one result was produced. */
  ghost predicate Produced(w: World, id: string, value: string) {
    Runs(w, id) == 1 && id in w.produced && w.produced[id] == value
  }

  lemma NextKeepsProduced(w: World, m: Move, id: string, value: string)
    requires Inv(w) && Produced(w, id, value)
    ensures Produced(Next(w, m), id, value)
  {
    hide Ledger;
    if m.Execute? && m.caller in w.callers && w.callers[m.caller].pc == Executing {
      assert Active(w, m.caller) && OwnsReceipt(w, m.caller);
    }
  }

  lemma {:induction false} AfterKeepsProduced(w: World, moves: seq<Move>, id: string, value: string)
    requires Inv(w) && Produced(w, id, value)
    ensures Produced(After(w, moves), id, value)
  {
    hide Inv, Produced, Next;
    if moves != [] {
      AfterKeepsProduced(w, moves[..|moves| - 1], id, value);
      AfterKeepsInv(w, moves[..|moves| - 1]);
      NextKeepsProduced(After(w, moves[..|moves| - 1]), moves[|moves| - 1], id, value);
    }
  }

  /** Once a receipt was finished, whoever gets an answer for its identity, before or later, gets the result
      it was finished with, which the single run produced. */
  lemma FinishedReplays(moves: seq<Move>, later: seq<Move>, id: string, c: nat)
    requires var w := After(EMPTY_WORLD, moves); id in w.calls && w.calls[id].state == Finished
    ensures var w, t := After(EMPTY_WORLD, moves), After(After(EMPTY_WORLD, moves), later);
      && Produced(t, id, w.calls[id].result)
      && (id in t.calls && t.calls[id].state == Finished ==> t.calls[id].result == w.calls[id].result)
      && (c in t.callers && t.callers[c].request.id == id && t.callers[c].pc.Done? ==>
            t.callers[c].pc.value == w.calls[id].result)
  {
    EmptyWorldInv();
    AfterKeepsInv(EMPTY_WORLD, moves);
    var w := After(EMPTY_WORLD, moves);
    AfterKeepsInv(w, later);
    AfterKeepsProduced(w, later, id, w.calls[id].result);
  }

  /** Nobody is about to overwrite the receipt. */
  ghost predicate Final(w: World, id: string) {
    id in w.calls && w.calls[id].state == Finished
    && forall c :: c in w.callers && w.callers[c].pc == Overwriting ==> w.callers[c].request.id != id
  }

  lemma NextKeepsFinal(w: World, m: Move, id: string)
    requires Inv(w) && Final(w, id)
    ensures Final(Next(w, m), id) && Next(w, m).calls[id] == w.calls[id]
  {
    hide Inv;
    if (m.Settle? || m.LateInterrupt?) && m.caller in w.callers && Active(w, m.caller) {
      OwnedCall(w, m.caller);
    }
  }

  lemma {:induction false} AfterKeepsFinal(w: World, moves: seq<Move>, id: string)
    requires Inv(w) && Final(w, id)
    ensures Final(After(w, moves), id) && After(w, moves).calls[id] == w.calls[id]
  {
    hide Inv, Final, Next;
    FinalIsThere(w, id);
    if moves != [] {
      AfterKeepsFinal(w, moves[..|moves| - 1], id);
      AfterKeepsInv(w, moves[..|moves| - 1]);
      FinalIsThere(After(w, moves[..|moves| - 1]), id);
      NextKeepsFinal(After(w, moves[..|moves| - 1]), moves[|moves| - 1], id);
    }
    FinalIsThere(After(w, moves), id);
  }

  lemma FinalIsThere(w: World, id: string)
    ensures Final(w, id) ==> id in w.calls
  {
  }

  /** A finished receipt stays as it is in every later run exactly when nobody is about to overwrite it. */
  lemma FinishedStays(moves: seq<Move>, id: string)
    requires var w := After(EMPTY_WORLD, moves); id in w.calls && w.calls[id].state == Finished
    ensures var w := After(EMPTY_WORLD, moves);
      (forall later :: var t := After(w, later); id in t.calls && t.calls[id] == w.calls[id]) <==> Final(w, id)
  {
    EmptyWorldInv();
    AfterKeepsInv(EMPTY_WORLD, moves);
    var w := After(EMPTY_WORLD, moves);
    hide Inv, Next, Final, After;
    if Final(w, id) {
      forall later ensures id in After(w, later).calls && After(w, later).calls[id] == w.calls[id] {
        AfterKeepsFinal(w, later, id);
        FinalIsThere(After(w, later), id);
      }
    } else {
      var later := NotFinalChanges(w, id);
    }
  }

  lemma NotFinalChanges(w: World, id: string) returns (later: seq<Move>)
    requires Inv(w) && id in w.calls && w.calls[id].state == Finished && !Final(w, id)
    ensures id in After(w, later).calls && After(w, later).calls[id] != w.calls[id]
  {
    var c :| c in w.callers && w.callers[c].pc == Overwriting && w.callers[c].request.id == id;
    hide Next, Final;
    OverwriteChanges(w, c);
    later := [Settle(c)];
    AfterOne(w, Settle(c));
  }

  lemma OverwriteChanges(w: World, c: nat)
    requires Inv(w) && c in w.callers && w.callers[c].pc == Overwriting
    ensures var (id, t) := (w.callers[c].request.id, Next(w, Settle(c)));
      id in t.calls && t.calls[id].state == Unknown
  {
    OwnedCall(w, c);
    UnknownOverwrites(w, c);
  }

  // ---------------------------------------------------------------- abandoned receipts

  /** A receipt with no caller behind it. */
  ghost predicate Abandoned(w: World, id: string) {
    id in w.calls && forall c :: Active(w, c) ==> w.callers[c].request.id != id
  }

  lemma AbandonedStep(w: World, m: Move, id: string)
    requires Abandoned(w, id)
    ensures Abandoned(Next(w, m), id)
    ensures Next(w, m).calls[id] == w.calls[id] && Runs(Next(w, m), id) == Runs(w, id)
  {
    AbandonedKept(w, m, id);
    var t := Next(w, m);
    forall c | Active(t, c) ensures t.callers[c].request.id != id {
      if c in w.callers && !Active(w, c) { BecomesActive(w, m, c); }
    }
  }

  lemma AbandonedKept(w: World, m: Move, id: string)
    requires Abandoned(w, id)
    ensures id in Next(w, m).calls && Next(w, m).calls[id] == w.calls[id] && Runs(Next(w, m), id) == Runs(w, id)
  {
    if !m.Arrive? && m.caller in w.callers && Active(w, m.caller) {
      assert w.callers[m.caller].request.id != id;
    }
  }

  /** A caller becomes active by reserving a new identity. */
  lemma BecomesActive(w: World, m: Move, c: nat)
    requires c in w.callers && !Active(w, c) && Active(Next(w, m), c)
    ensures Next(w, m).callers[c].request == w.callers[c].request && w.callers[c].request.id !in w.calls
  {
  }

  /** An identity whose caller died between reserving and settling is never run again. */
  lemma {:induction false} AbandonedNeverRuns(w: World, moves: seq<Move>, id: string)
    requires Abandoned(w, id)
    ensures var t := After(w, moves);
      Abandoned(t, id) && t.calls[id] == w.calls[id] && Runs(t, id) == Runs(w, id)
  {
    hide Next, Active;
    if moves != [] {
      var earlier, m := moves[..|moves| - 1], moves[|moves| - 1];
      AbandonedNeverRuns(w, earlier, id);
      AbandonedStep(After(w, earlier), m, id);
    }
  }
}
