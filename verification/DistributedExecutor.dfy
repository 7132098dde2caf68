/** The distributed executor as its one object sees it: counters, pins and the two retry loops. */
module DistributedExecution {
  import opened DistributedGates
  import opened Sorting

  datatype Acquisition = Got(endpoint: string) | Unavailable

  /** What the first loop does after a result. */
  datatype Judged = Over | ToReport | Again

  /** How the first loop ends. */
  datatype Ending = Answered | Handed | Escaped | NoWorker | OutOfTurns

  datatype Turn = Nobody | Skips(endpoint: string) | Runs(endpoint: string)

  function Load(site: Site, active: map<string, nat>, e: string): real {
    if e in site.pool && e in active
    then active[e] as real / (if site.pool[e].slots < 1 then 1 else site.pool[e].slots) as real
    else 0.0
  }

  /** Workers in the order they are tried: least loaded, then local ones, then by name. */
  predicate Prefers(site: Site, active: map<string, nat>, a: string, b: string) {
    || Load(site, active, a) < Load(site, active, b)
    || (Load(site, active, a) == Load(site, active, b)
        && ((Local(site, a) && !Local(site, b)) || (Local(site, a) == Local(site, b) && StringLeq(a, b))))
  }

  lemma PrefersOrder(site: Site, active: map<string, nat>)
    ensures TotalOrder((a: string, b: string) => Prefers(site, active, a, b))
  {
    hide Load, Local, StringLeq;
    StringOrder();
  }

  function Those(ran: seq<string>): set<string> {
    set e | e in ran
  }

  class DistributedExecutor {
    const site: Site
    const endpoints: seq<string>
    var active: map<string, nat>
    var pins: map<string, string>
    var successes: map<string, nat>

    constructor (site: Site, endpoints: seq<string>)
      requires Distinct(endpoints) && forall e :: e in endpoints <==> e in site.pool
      ensures Valid() && this.site == site && active == Idle(site).active && pins == map[] && successes == map[]
      ensures forall lane :: !IsStateful(lane)
    {
      this.site, this.endpoints := site, endpoints;
      active, pins, successes := map e | e in site.pool :: 0, map[], map[];
    }

    ghost predicate Valid()
      reads this`active
    {
      && active.Keys == site.pool.Keys && (forall e :: e in endpoints <==> e in site.pool) && Distinct(endpoints)
    }

    predicate IsStateful(lane: string)
      reads this`successes
    {
      lane != "" && lane in successes && successes[lane] > 0
    }

    method TryAcquire(e: string, required: nat) returns (ok: bool)
      requires Valid() && e in site.pool
      modifies this`active
      ensures Valid() && ok == HasRoom(site, old(active), e, required)
      ensures active == if ok then Taken(old(active), e, required) else old(active)
    {
      if active[e] + required > site.pool[e].slots { return false; }
      active := active[e := active[e] + required];
      ok := true;
    }

    method Release(e: string, required: nat)
      requires Valid() && e in site.pool
      modifies this`active
      ensures Valid() && active == Freed(old(active), e, required)
    {
      active := active[e := if active[e] - required > 0 then active[e] - required else 0];
    }

    /** May this worker serve the command at all? */
    predicate Serves(q: Request, e: string) {
      e in site.pool && e in q.fits && q.required <= site.pool[e].slots
    }

    /** The list `candidates`, in the order of the configuration. */
    method Candidates(q: Request, exclude: set<string>, reuse: bool) returns (found: seq<string>)
      requires Valid()
      ensures Distinct(found)
      ensures forall e :: e in found <==> Candidate(site, q, exclude, reuse, e)
    {
      found := Filter(endpoints, (e: string) => Serves(q, e) && e !in exclude);
      if found == [] {
        assert NoneLeft(site, q, exclude) by {
          forall e | e in site.pool ensures Serves(q, e) ==> e in exclude {
            assert e in endpoints && e !in found;
          }
        }
        if reuse { found := Filter(endpoints, (e: string) => Serves(q, e) && Local(site, e)); }
      } else {
        assert found[0] in found;
        assert !NoneLeft(site, q, exclude);
      }
    }

    static method Filter(s: seq<string>, keep: string -> bool) returns (r: seq<string>)
      requires Distinct(s)
      ensures Distinct(r) && forall e :: e in r <==> e in s && keep(e)
    {
      r := [];
      for i := 0 to |s|
        invariant Distinct(r) && forall e :: e in r <==> e in s[..i] && keep(e)
      {
        assert s[i] !in s[..i];
        if keep(s[i]) { r := r + [s[i]]; }
        assert s[..i + 1] == s[..i] + [s[i]];
      }
      assert s[..|s|] == s;
    }

    predicate Pinned(lane: string)
      reads this`pins
    {
      lane != "" && lane in pins
    }

    /** `_acquire_endpoint` with nobody else at work, so that a wait for room ends in its timeout. */
    method AcquireEndpoint(q: Request, exclude: set<string>, lane: string, reuse: bool) returns (a: Acquisition)
      requires Valid()
      modifies this`active, this`pins
      ensures Valid()
      ensures a.Got? ==> HasRoom(site, old(active), a.endpoint, q.required) && active == Taken(old(active), a.endpoint, q.required)
      ensures a.Unavailable? ==> active == old(active) && pins == old(pins)
      // a pinned lane only ever gets its own worker
      ensures old(Pinned(lane)) ==> pins == old(pins)
      ensures old(Pinned(lane)) ==> var e := old(pins)[lane];
        a == if Serves(q, e) && HasRoom(site, old(active), e, q.required) then Got(e) else Unavailable
      // otherwise the most preferred candidate with room
      ensures !old(Pinned(lane)) && a.Got? ==>
        Candidate(site, q, exclude, reuse, a.endpoint) && pins == if lane != "" then old(pins)[lane := a.endpoint] else old(pins)
      ensures !old(Pinned(lane)) ==> forall e :: Candidate(site, q, exclude, reuse, e) && HasRoom(site, old(active), e, q.required) ==>
        a.Got? && Prefers(site, old(active), a.endpoint, e)
    {
      if lane != "" && lane in pins {
        var e := pins[lane];
        if !Serves(q, e) { return Unavailable; }
        var ok := TryAcquire(e, q.required);
        return if ok then Got(e) else Unavailable;
      }
      hide StringLeq, Load, Candidate, NoneLeft, Prefers, TotalOrder;
      var found := Candidates(q, exclude, reuse);
      CandidatesKnown(q, exclude, reuse);
      ghost var start := active;
      var counts := active;
      var order := (a: string, b: string) => Prefers(site, counts, a, b);
      PrefersOrder(site, counts);
      var sorted := Sort(order, found);
      SortSorts(order, found);
      forall e ensures e in sorted <==> e in found { SortKeepsMembers(order, found, e); }
      for i := 0 to |sorted|
        invariant active == start && pins == old(pins) && Valid()
        invariant forall j :: 0 <= j < i ==> !HasRoom(site, start, sorted[j], q.required)
      {
        assert sorted[i] in sorted;
        assert Candidate(site, q, exclude, reuse, sorted[i]);
        var ok := TryAcquire(sorted[i], q.required);
        if ok {
          FirstIsPreferred(start, sorted, i, q.required);
          if lane != "" { pins := pins[lane := sorted[i]]; }
          return Got(sorted[i]);
        }
      }
      a := Unavailable;
    }

    lemma CandidatesKnown(q: Request, exclude: set<string>, reuse: bool)
      ensures forall e :: Candidate(site, q, exclude, reuse, e) ==> e in site.pool && (e !in exclude || (reuse && Local(site, e)))
    {
    }

    lemma FirstIsPreferred(counts: map<string, nat>, sorted: seq<string>, i: nat, required: nat)
      requires i < |sorted| && Sorted((a: string, b: string) => Prefers(site, counts, a, b), sorted)
      requires forall j :: 0 <= j < i ==> !HasRoom(site, counts, sorted[j], required)
      ensures forall e :: e in sorted && HasRoom(site, counts, e, required) ==> Prefers(site, counts, sorted[i], e)
    {
      hide HasRoom;
      var order := (a: string, b: string) => Prefers(site, counts, a, b);
      forall e | e in sorted && HasRoom(site, counts, e, required) ensures Prefers(site, counts, sorted[i], e) {
        var k :| 0 <= k < |sorted| && sorted[k] == e;
        if k == i { PrefersSelf(counts, e); } else { assert order(sorted[i], sorted[k]); }
      }
    }

    lemma PrefersSelf(counts: map<string, nat>, e: string)
      ensures Prefers(site, counts, e, e)
    {
      StringLeqTotal(e, e);
    }

    /** `_retry_reported_infrastructure`, up to managed repair. `script(k)` is how the command's `k`th
        execution comes out. `repair` tells that the result goes on to managed repair. */
    method RetryReported(q: Request, first: Result, worker: string, tried: set<string>, soFar: seq<string>,
            script: nat -> Outcome)
      returns (result: Result, ran: seq<string>, escaped: bool, repair: bool)
      requires Valid() && worker in tried && worker in site.pool && |soFar| > 0 && soFar[|soFar| - 1] == worker
      requires forall e :: e in soFar ==> e in tried
      modifies this`active, this`pins
      ensures Valid() && active == old(active)
      ensures pins == if q.lane != "" && !IsStateful(q.lane) then old(pins) - {q.lane} else old(pins)
      ensures IsStateful(q.lane) ==> ran == soFar && !escaped && !repair
      // every further execution is on a worker not tried before, the most preferred one with room, in no
      // failure domain that failed; it goes on only past infrastructure failures whose outcome is certain
      ensures FurtherRuns(soFar, tried, ran, script) && ChosenFurther(q, old(active), soFar, tried, ran)
      ensures LastIs(soFar, ran, first, result, escaped, script)
      // it gives up only when the limit is reached or nobody is left
      ensures repair <==> !IsStateful(q.lane) && !escaped && (|ran| > |soFar| ==> GoesOn(script(|ran| - 1)))
      ensures repair ==> Exhausted(q, old(active), soFar, tried, ran)
    {
      hide Received, NewDomains, FurtherNew, IsStateful, GoesOn, Exhausted;
      ran, result, escaped, repair := soFar, first, false, false;
      DomainsSame(soFar);
      NoneFurther(q, active, soFar, tried);
      if IsStateful(q.lane) { return; }
      if q.lane != "" { pins := pins - {q.lane}; }
      result, ran, escaped, repair := RetryElsewhere(q, first, worker, tried, soFar, script);
    }

    /** Its loop, for a lane without state. */
    method RetryElsewhere(q: Request, first: Result, worker: string, tried: set<string>, soFar: seq<string>,
            script: nat -> Outcome)
      returns (result: Result, ran: seq<string>, escaped: bool, repair: bool)
      requires Valid() && worker in tried && |soFar| > 0 && soFar[|soFar| - 1] == worker
      requires forall e :: e in soFar ==> e in tried
      modifies this`active, this`pins
      ensures Valid() && active == old(active) && pins == old(pins)
      ensures FurtherRuns(soFar, tried, ran, script) && LastIs(soFar, ran, first, result, escaped, script)
      ensures repair <==> !escaped && (|ran| > |soFar| ==> GoesOn(script(|ran| - 1)))
      ensures repair ==> Exhausted(q, old(active), soFar, tried, ran)
      ensures ChosenFurther(q, old(active), soFar, tried, ran)
    {
      hide Received, Retried, FurtherRuns, GoesOn, Exhausted, ChosenFurther, Accounted, NobodyFor, Chosen;
      ran, result, escaped, repair := soFar, first, false, false;
      var domains := if site.Domain(worker) != "" then {site.Domain(worker)} else {};
      var attempted := tried;
      RetryBegins(soFar, tried, domains, worker, script);
      NoneFurther(q, active, soFar, tried);
      while |attempted| < site.Maximum()
        invariant Valid() && active == old(active) && pins == old(pins) && !escaped
        invariant Retried(soFar, tried, ran, attempted, domains, script)
        invariant Accounted(soFar, tried, ran, attempted) && ChosenFurther(q, active, soFar, tried, ran)
        invariant |ran| > |soFar| ==> |attempted| <= site.Maximum()
        invariant LastIs(soFar, ran, first, result, escaped, script)
        decreases site.Maximum() - |attempted|
      {
        var turn := TakeTurn(q, attempted, domains);
        if turn.Nobody? { break; }
        var e := turn.endpoint;
        assert |attempted + {e}| == |attempted| + 1;
        if turn.Skips? {
          SkipAccounted(soFar, tried, ran, attempted, domains, script, e);
          RetrySkips(soFar, tried, ran, attempted, domains, script, e);
          attempted := attempted + {e};
          continue;
        }
        RetryRuns(soFar, tried, ran, attempted, domains, script, e);
        RunAccounted(q, active, soFar, tried, ran, attempted, domains, script, e);
        VerdictGoesOn(script(|ran|));
        if site.Domain(e) != "" { domains := domains + {site.Domain(e)}; }
        attempted, ran := attempted + {e}, ran + [e];
        if script(|ran| - 1).Escapes? {
          escaped := true;
          return;
        }
        result := Received(script(|ran| - 1));
        if RetryVerdict(result) == Final { return; }
      }
      RetriedMeans(soFar, tried, ran, attempted, domains, script);
      GivenUp(q, active, soFar, tried, ran, attempted);
      repair := true;
    }

    /** Nobody the command could go to has room. */
    ghost predicate NobodyFor(q: Request, counts: map<string, nat>, exclude: set<string>, reuse: bool) {
      forall e :: !(Candidate(site, q, exclude, reuse, e) && HasRoom(site, counts, e, q.required))
    }

    /** The most preferred worker the command could go to. */
    ghost predicate Chosen(q: Request, counts: map<string, nat>, exclude: set<string>, reuse: bool, c: string) {
      && Candidate(site, q, exclude, reuse, c) && HasRoom(site, counts, c, q.required)
      && forall e :: Candidate(site, q, exclude, reuse, e) && HasRoom(site, counts, e, q.required) ==> Prefers(site, counts, c, e)
    }

    /** The worker's failure domain is that of the first reported failure or of a further one. */
    ghost predicate DomainFailed(soFar: seq<string>, ran: seq<string>, e: string) {
      site.Domain(e) != "" && exists i :: 0 <= |soFar| - 1 <= i < |ran| && site.Domain(ran[i]) == site.Domain(e)
    }

    /** Whoever was tried beforehand, ran, or was skipped with a failure domain that had failed. */
    ghost predicate Accounted(soFar: seq<string>, tried: set<string>, ran: seq<string>, attempted: set<string>) {
      && tried <= attempted && (forall e :: e in ran ==> e in attempted)
      && (forall e :: e in attempted ==> e in tried || e in ran || DomainFailed(soFar, ran, e))
    }

    /** The loop over reported failures has nothing left: as many workers tried as the limit allows, skipped
        ones included, or no other one with room. */
    ghost predicate Exhausted(q: Request, counts: map<string, nat>, soFar: seq<string>, tried: set<string>, ran: seq<string>) {
      exists attempted :: Accounted(soFar, tried, ran, attempted)
        && (|attempted| >= site.Maximum() || NobodyFor(q, counts, attempted, false))
    }

    /** Each further execution is on the most preferred worker with room of those not tried, ones with a
        failed domain aside. */
    ghost predicate ChosenFurther(q: Request, counts: map<string, nat>, soFar: seq<string>, tried: set<string>, ran: seq<string>) {
      forall k :: |soFar| <= k < |ran| ==> FurtherChoice(q, counts, soFar, tried, ran[..k], ran[k])
    }

    ghost predicate FurtherChoice(q: Request, counts: map<string, nat>, soFar: seq<string>, tried: set<string>,
            ran: seq<string>, c: string) {
      && c in site.pool && Serves(q, c) && HasRoom(site, counts, c, q.required) && c !in tried && c !in ran
      && forall e :: Serves(q, e) && e !in tried && e !in ran && HasRoom(site, counts, e, q.required) && !DomainFailed(soFar, ran, e)
           ==> Prefers(site, counts, c, e)
    }

    lemma NoneFurther(q: Request, counts: map<string, nat>, soFar: seq<string>, tried: set<string>)
      requires forall e :: e in soFar ==> e in tried
      ensures ChosenFurther(q, counts, soFar, tried, soFar) && Accounted(soFar, tried, soFar, tried)
    {
    }

    lemma SkipAccounted(soFar: seq<string>, tried: set<string>, ran: seq<string>, attempted: set<string>,
            domains: set<string>, script: nat -> Outcome, e: string)
      requires Retried(soFar, tried, ran, attempted, domains, script) && Accounted(soFar, tried, ran, attempted)
      requires site.Domain(e) != "" && site.Domain(e) in domains && |soFar| > 0
      ensures Accounted(soFar, tried, ran, attempted + {e})
    {
      hide Extended, NewDomains, GoesOn;
      assert DomainFailed(soFar, ran, e);
    }

    lemma RunAccounted(q: Request, counts: map<string, nat>, soFar: seq<string>, tried: set<string>, ran: seq<string>,
            attempted: set<string>, domains: set<string>, script: nat -> Outcome, e: string)
      requires Retried(soFar, tried, ran, attempted, domains, script) && Accounted(soFar, tried, ran, attempted)
      requires ChosenFurther(q, counts, soFar, tried, ran) && Chosen(q, counts, attempted, false, e)
      ensures Accounted(soFar, tried, ran + [e], attempted + {e}) && ChosenFurther(q, counts, soFar, tried, ran + [e])
    {
      var more := ran + [e];
      hide Retried, NewDomains, GoesOn, Prefers, HasRoom;
      forall x | DomainFailed(soFar, ran, x) ensures DomainFailed(soFar, more, x) {
        var i :| 0 <= |soFar| - 1 <= i < |ran| && site.Domain(ran[i]) == site.Domain(x);
        assert more[i] == ran[i];
      }
      assert FurtherChoice(q, counts, soFar, tried, ran, e);
      forall k | |soFar| <= k < |more| ensures FurtherChoice(q, counts, soFar, tried, more[..k], more[k]) {
        if k < |ran| { assert more[..k] == ran[..k] && more[k] == ran[k]; } else { assert more[..k] == ran; }
      }
    }

    lemma GivenUp(q: Request, counts: map<string, nat>, soFar: seq<string>, tried: set<string>, ran: seq<string>, attempted: set<string>)
      requires Accounted(soFar, tried, ran, attempted)
      requires |attempted| >= site.Maximum() || NobodyFor(q, counts, attempted, false)
      ensures Exhausted(q, counts, soFar, tried, ran)
    {
    }

    /** The further executions: none on a worker tried before or in a failure domain that failed, no more
        than the limit allows, and each but the last with a result to go past. */
    ghost predicate FurtherRuns(soFar: seq<string>, tried: set<string>, ran: seq<string>, script: nat -> Outcome) {
      && soFar <= ran && FurtherNew(ran, |soFar|) && NewDomains(ran, |soFar| - 1)
      && (|ran| > |soFar| ==> |ran| - |soFar| + |tried| <= site.Maximum())
      && (forall k :: |soFar| <= k < |ran| - 1 ==> GoesOn(script(k)))
    }

    /** The result is the last execution's. */
    predicate LastIs(soFar: seq<string>, ran: seq<string>, first: Result, result: Result, escaped: bool,
            script: nat -> Outcome) {
      && |soFar| <= |ran|
      && (escaped <==> |ran| > |soFar| && script(|ran| - 1).Escapes?)
      && (!escaped ==> result == if |ran| > |soFar| then Received(script(|ran| - 1)) else first)
    }

    lemma VerdictGoesOn(o: Outcome)
      ensures GoesOn(o) <==> !o.Escapes? && RetryVerdict(Received(o)) != Final
    {
    }

    /** One turn of that loop as far as the slots are concerned: they are taken on a worker not tried
        before and given back, whether the command runs there or its failure domain is known. */
    method TakeTurn(q: Request, attempted: set<string>, domains: set<string>) returns (turn: Turn)
      requires Valid()
      modifies this`active, this`pins
      ensures Valid() && active == old(active) && pins == old(pins)
      ensures !turn.Nobody? ==> turn.endpoint !in attempted && turn.endpoint in site.pool
      ensures turn.Nobody? ==> NobodyFor(q, old(active), attempted, false)
      ensures !turn.Nobody? ==> Chosen(q, old(active), attempted, false, turn.endpoint)
      ensures !turn.Nobody? ==> (turn.Skips? <==> site.Domain(turn.endpoint) != "" && site.Domain(turn.endpoint) in domains)
    {
      hide Prefers, Candidate, NoneLeft, Freed, Taken;
      var a := AcquireEndpoint(q, attempted, "", false);
      if a.Unavailable? { return Nobody; }
      CandidatesKnown(q, attempted, false);
      FreedAfterTaken(old(active), a.endpoint, q.required);
      Release(a.endpoint, q.required);
      turn := if site.Domain(a.endpoint) != "" && site.Domain(a.endpoint) in domains then Skips(a.endpoint) else Runs(a.endpoint);
    }

    /** Where the loop over reported failures stands: which workers ran and were tried, which domains
        failed, and that every further result so far was a certain infrastructure failure. */
    ghost predicate Retried(soFar: seq<string>, tried: set<string>, ran: seq<string>, attempted: set<string>,
            domains: set<string>, script: nat -> Outcome) {
      && Extended(soFar, tried, ran, attempted)
      && (forall k :: |soFar| <= k < |ran| ==> GoesOn(script(k)))
      && NewDomains(ran, |soFar| - 1)
      && (forall i | |soFar| - 1 <= i < |ran| && 0 <= i :: site.Domain(ran[i]) != "" ==> site.Domain(ran[i]) in domains)
      && (forall d :: d in domains ==> exists i :: 0 <= |soFar| - 1 <= i < |ran| && site.Domain(ran[i]) == d)
    }

    ghost predicate Extended(soFar: seq<string>, tried: set<string>, ran: seq<string>, attempted: set<string>) {
      && soFar <= ran && tried <= attempted
      && (forall e :: e in ran ==> e in attempted)
      && FurtherNew(ran, |soFar|)
      && |ran| - |soFar| + |tried| <= |attempted|
    }

    predicate GoesOn(o: Outcome) {
      !o.Escapes? && RetryVerdict(Received(o)) == Elsewhere
    }

    /** No worker from index `from` on ran before. */
    ghost predicate FurtherNew(ran: seq<string>, from: nat) {
      forall i, j :: 0 <= i < j < |ran| && j >= from ==> ran[i] != ran[j]
    }

    lemma RetryBegins(soFar: seq<string>, tried: set<string>, domains: set<string>, worker: string,
            script: nat -> Outcome)
      requires |soFar| > 0 && soFar[|soFar| - 1] == worker && forall e :: e in soFar ==> e in tried
      requires domains == if site.Domain(worker) != "" then {site.Domain(worker)} else {}
      ensures Retried(soFar, tried, soFar, tried, domains, script)
    {
    }

    lemma RetrySkips(soFar: seq<string>, tried: set<string>, ran: seq<string>, attempted: set<string>,
            domains: set<string>, script: nat -> Outcome, e: string)
      requires Retried(soFar, tried, ran, attempted, domains, script) && e !in attempted
      ensures Retried(soFar, tried, ran, attempted + {e}, domains, script)
    {
      assert |attempted + {e}| == |attempted| + 1;
    }

    /** One more execution: with a result to go past, the loop's facts hold again; with any other, all
        but that. */
    lemma RetryRuns(soFar: seq<string>, tried: set<string>, ran: seq<string>, attempted: set<string>,
            domains: set<string>, script: nat -> Outcome, e: string)
      requires Retried(soFar, tried, ran, attempted, domains, script) && e !in attempted && |soFar| > 0
      requires site.Domain(e) == "" || site.Domain(e) !in domains
      ensures var after := if site.Domain(e) != "" then domains + {site.Domain(e)} else domains;
        GoesOn(script(|ran|)) ==> Retried(soFar, tried, ran + [e], attempted + {e}, after, script)
      ensures |attempted| < site.Maximum() ==> FurtherRuns(soFar, tried, ran + [e], script)
      ensures |soFar| <= |ran|
    {
      hide GoesOn;
      assert |attempted + {e}| == |attempted| + 1;
      forall i | 0 <= i < |ran| ensures ran[i] != e { assert ran[i] in ran; }
      var more := ran + [e];
      forall d | d in domains || d == site.Domain(e) ensures exists i :: 0 <= |soFar| - 1 <= i < |more| && site.Domain(more[i]) == d {
        if d in domains {
          var i :| 0 <= |soFar| - 1 <= i < |ran| && site.Domain(ran[i]) == d;
          assert more[i] == ran[i];
        } else {
          assert more[|ran|] == e;
        }
      }
    }

    lemma RetriedMeans(soFar: seq<string>, tried: set<string>, ran: seq<string>, attempted: set<string>,
            domains: set<string>, script: nat -> Outcome)
      requires Retried(soFar, tried, ran, attempted, domains, script)
      requires |ran| > |soFar| ==> |attempted| <= site.Maximum()
      ensures FurtherRuns(soFar, tried, ran, script)
      ensures |ran| > |soFar| ==> GoesOn(script(|ran| - 1))
    {
    }

    /** From index `from` on, no two executions share a failure domain. */
    ghost predicate NewDomains(ran: seq<string>, from: int) {
      forall i, j | 0 <= from <= i < j < |ran| :: site.Domain(ran[i]) == site.Domain(ran[j]) ==> site.Domain(ran[i]) == ""
    }

    lemma DomainsSame(ran: seq<string>)
      ensures NewDomains(ran, |ran| - 1) && FurtherNew(ran, |ran|)
    {
    }

    lemma FreedAfterTaken(counts: map<string, nat>, e: string, required: nat)
      requires e in counts
      ensures Freed(Taken(counts, e, required), e, required) == counts
    {
    }

    /** No remote worker twice. */
    ghost predicate RemoteOnce(ran: seq<string>) {
      forall i, j :: 0 <= i < j < |ran| && ran[i] == ran[j] ==> Local(site, ran[i])
    }

    /** A result that the first loop goes past: an infrastructure failure that nobody reported and whose
        outcome is certain. */
    predicate Passable(o: Outcome) {
      !o.Escapes? && Received(o).failureId == "" && Received(o).infrastructure && Received(o).termination != UNCERTAIN
    }

    predicate IsReported(o: Outcome) {
      !o.Escapes? && Received(o).failureId != ""
    }

    /** The outcomes the executor can have never let it go past an uncertain result. */
    lemma NeverPastUncertain(o: Outcome)
      requires AsBuilt(o) && Received(o).termination == UNCERTAIN
      ensures !Passable(o) && !IsReported(o) && !GoesOn(o)
    {
      ReceivedAsBuilt(o);
    }

    predicate CountsForLane(q: Request, o: Outcome) {
      && q.lane != "" && !o.Escapes?
      && Received(o).ok && !Received(o).infrastructure && Received(o).failureId == ""
    }

    /** The worker a turn of the first loop goes to: the one the lane is pinned to, or the most preferred. */
    ghost predicate FirstChoice(q: Request, counts: map<string, nat>, pinned: map<string, string>, exclude: set<string>, c: string) {
      if q.lane != "" && q.lane in pinned then c == pinned[q.lane] && Serves(q, c) && HasRoom(site, counts, c, q.required)
      else Chosen(q, counts, exclude, true, c)
    }

    /** No turn of the first loop is possible. */
    ghost predicate NoTurn(q: Request, counts: map<string, nat>, pinned: map<string, string>, exclude: set<string>) {
      if q.lane != "" && q.lane in pinned then
        !(Serves(q, pinned[q.lane]) && HasRoom(site, counts, pinned[q.lane], q.required))
      else NobodyFor(q, counts, exclude, true)
    }

    /** One turn of the first loop as far as slots and pins are concerned. */
    method TakeFirstTurn(q: Request, attempted: set<string>) returns (a: Acquisition)
      requires Valid() && (Pinned(q.lane) ==> attempted == {})
      modifies this`active, this`pins
      ensures Valid() && active == old(active)
      ensures a.Unavailable? ==> pins == old(pins) && NoTurn(q, old(active), old(pins), attempted)
      ensures a.Got? ==> FirstChoice(q, old(active), old(pins), attempted, a.endpoint)
      ensures a.Got? ==> a.endpoint in site.pool && (a.endpoint !in attempted || Local(site, a.endpoint))
      ensures a.Got? ==> pins == if q.lane != "" then old(pins)[q.lane := a.endpoint] else old(pins)
    {
      hide Prefers, Candidate, NoneLeft, Freed, Taken;
      CandidatesKnown(q, attempted, true);
      a := AcquireEndpoint(q, attempted, q.lane, true);
      if a.Unavailable? { return; }
      FreedAfterTaken(old(active), a.endpoint, q.required);
      Release(a.endpoint, q.required);
    }

    lemma OnceMore(ran: seq<string>, attempted: set<string>, e: string)
      requires RemoteOnce(ran) && (forall r :: r in ran ==> r in attempted)
      requires e !in attempted || Local(site, e)
      ensures RemoteOnce(ran + [e]) && forall r :: r in ran + [e] ==> r in attempted + {e}
    {
      forall i | 0 <= i < |ran| && ran[i] == e ensures Local(site, e) { assert ran[i] in ran; }
    }

    lemma OnceAndNew(soFar: seq<string>, tried: set<string>, ran: seq<string>, script: nat -> Outcome)
      requires FurtherRuns(soFar, tried, ran, script) && RemoteOnce(soFar)
      ensures RemoteOnce(ran) && ran[..|soFar|] == soFar && forall k :: 0 <= k < |soFar| ==> ran[k] == soFar[k] && ran[..k] == soFar[..k]
    {
      forall i, j | 0 <= i < j < |ran| && ran[i] == ran[j] ensures Local(site, ran[i]) {
        assert j < |soFar| ==> soFar[i] == soFar[j];
      }
    }

    /** The answer: the last execution's own result, marked when its lane lost its state, or that nothing ran. */
    function AnswerOf(ran: seq<string>, script: nat -> Outcome, stateful: bool): Result {
      if ran == [] then Result(false, "infrastructure_error", true, "")
      else if stateful && Passable(script(|ran| - 1))
      then Received(script(|ran| - 1)).(termination := "remote_lane_state_lost")
      else Received(script(|ran| - 1))
    }

    lemma NotPinned(q: Request, counts: map<string, nat>, pinned: map<string, string>, exclude: set<string>)
      requires q.lane == "" || q.lane !in pinned
      ensures forall c :: FirstChoice(q, counts, pinned, exclude, c) <==> FirstChoice(q, counts, map[], exclude, c)
      ensures NoTurn(q, counts, pinned, exclude) <==> NoTurn(q, counts, map[], exclude)
    {
    }

    /** The turns of the first loop: each on the pinned worker, or on the most preferred one not tried, with
        room, and after nothing but certain infrastructure failures outside a lane with state. */
    ghost predicate FirstRuns(q: Request, counts: map<string, nat>, pinned: map<string, string>, stateful: bool,
            ran: seq<string>, script: nat -> Outcome) {
      && RemoteOnce(ran) && |ran| <= site.retries + 1
      && (forall k :: 0 <= k < |ran| ==> FirstChoice(q, counts, if k == 0 then pinned else map[], Those(ran[..k]), ran[k]))
      && (forall k :: 0 <= k < |ran| - 1 ==> Passable(script(k)) && !stateful)
    }

    lemma FirstRunsMore(q: Request, counts: map<string, nat>, pinned: map<string, string>, stateful: bool,
            ran: seq<string>, script: nat -> Outcome, e: string)
      requires FirstRuns(q, counts, pinned, stateful, ran, script) && |ran| < site.retries + 1
      requires |ran| > 0 ==> Passable(script(|ran| - 1)) && !stateful
      requires FirstChoice(q, counts, if ran == [] then pinned else map[], Those(ran), e)
      requires e !in Those(ran) || Local(site, e)
      ensures FirstRuns(q, counts, pinned, stateful, ran + [e], script) && Those(ran + [e]) == Those(ran) + {e}
    {
      hide FirstChoice, Passable;
      OnceMore(ran, Those(ran), e);
      var more := ran + [e];
      forall k | 0 <= k < |more| ensures FirstChoice(q, counts, if k == 0 then pinned else map[], Those(more[..k]), more[k]) {
        if k < |ran| { assert more[..k] == ran[..k]; } else { assert more[..k] == ran; }
      }
    }

    /** The loop of `_run_uncached`, up to the call of the other loop. */
    method FirstLoop(q: Request, script: nat -> Outcome) returns (result: Result, ran: seq<string>, end: Ending)
      requires Valid()
      modifies this`active, this`pins, this`successes
      ensures Valid() && active == old(active)
      ensures FirstRuns(q, old(active), old(pins), old(IsStateful(q.lane)), ran, script)
      ensures ran == [] ==> end == NoWorker
      ensures ran != [] ==> var o := script(|ran| - 1);
        && (end == Escaped <==> o.Escapes?) && (end == Handed <==> IsReported(o))
        && (end == NoWorker || end == OutOfTurns <==> Passable(o) && !old(IsStateful(q.lane)))
      // it gives up before its last turn only when none is possible
      ensures end == NoWorker ==> NoTurn(q, old(active), if ran == [] then old(pins) else map[], Those(ran))
      ensures end == OutOfTurns ==> |ran| == site.retries + 1
      ensures end != Escaped ==> result == AnswerOf(ran, script, old(IsStateful(q.lane)))
      ensures successes == if ran != [] && CountsForLane(q, script(|ran| - 1))
                           then CountedFor(q.lane, old(successes)) else old(successes)
      ensures ran == [] || q.lane == "" ==> pins == old(pins)
      ensures ran != [] && q.lane != "" ==>
        pins == if end == NoWorker || end == OutOfTurns then old(pins) - {q.lane} else old(pins)[q.lane := ran[|ran| - 1]]
    {
      hide Valid, Received, Passable, IsReported, CountsForLane, CountedFor, Local, FirstChoice, NoTurn, FirstRuns, Those;
      var attempted: set<string> := {};
      result, ran, end := Result(false, "infrastructure_error", true, ""), [], NoWorker;
      NothingYet(q, active, pins, IsStateful(q.lane), script);
      for turn := 0 to site.retries + 1
        invariant Valid() && active == old(active) && successes == old(successes)
        invariant |ran| == turn && attempted == Those(ran)
        invariant FirstRuns(q, old(active), old(pins), old(IsStateful(q.lane)), ran, script)
        invariant ran == [] || q.lane == "" ==> pins == old(pins)
        invariant ran != [] && q.lane != "" ==> pins == old(pins) - {q.lane}
        invariant ran != [] ==> Passable(script(turn - 1)) && !IsStateful(q.lane)
        invariant result == AnswerOf(ran, script, old(IsStateful(q.lane)))
      {
        if turn > 0 { NotPinned(q, active, pins, attempted); }
        var a := TakeFirstTurn(q, attempted);
        if a.Unavailable? {
          if turn > 0 { PassableOnly(q, script(turn - 1)); }
          return result, ran, NoWorker;
        }
        FirstRunsMore(q, old(active), old(pins), old(IsStateful(q.lane)), ran, script, a.endpoint);
        attempted, ran := attempted + {a.endpoint}, ran + [a.endpoint];
        PassableOnly(q, script(turn));
        if script(turn).Escapes? { return result, ran, Escaped; }
        var judged;
        judged, result := JudgeFirst(q, script(turn));
        if judged.ToReport? { return result, ran, Handed; }
        if judged.Over? { return result, ran, Answered; }
      }
      end := OutOfTurns;
      PassableOnly(q, script(|ran| - 1));
    }

    lemma NothingYet(q: Request, counts: map<string, nat>, pinned: map<string, string>, stateful: bool, script: nat -> Outcome)
      ensures FirstRuns(q, counts, pinned, stateful, [], script) && Those([]) == {}
    {
    }

    /** What an outcome that is gone past, or escapes, is not. */
    lemma PassableOnly(q: Request, o: Outcome)
      ensures Passable(o) ==> !o.Escapes? && !IsReported(o) && !CountsForLane(q, o)
      ensures IsReported(o) ==> !o.Escapes? && !Passable(o) && !CountsForLane(q, o)
      ensures o.Escapes? ==> !CountsForLane(q, o) && !Passable(o) && !IsReported(o) && !GoesOn(o)
    {
    }

    /** `_run_uncached`, up to managed repair. `turns` counts the executions of its own loop. */
    method RunUncached(q: Request, script: nat -> Outcome)
      returns (result: Result, ran: seq<string>, escaped: bool, reported: bool, ghost turns: nat)
      requires Valid()
      modifies this`active, this`pins, this`successes
      // the slots are back, however it ended
      ensures Valid() && active == old(active)
      ensures RemoteOnce(ran)
      ensures turns <= |ran| && FirstRuns(q, old(active), old(pins), old(IsStateful(q.lane)), ran[..turns], script)
      // the loop gives up before its last turn only on an answer, an escape or when no worker is available
      ensures !escaped && !reported && |ran| < site.retries + 1 ==>
        || (ran != [] && (!Passable(script(|ran| - 1)) || old(IsStateful(q.lane))))
        || NoTurn(q, old(active), if ran == [] then old(pins) else map[], Those(ran))
      // a reported failure, and nothing else, goes to the other loop, which is never cut short either
      ensures reported <==> turns > 0 && IsReported(script(turns - 1))
      ensures !reported || old(IsStateful(q.lane)) ==> turns == |ran|
      ensures reported ==> FurtherRuns(ran[..turns], Those(ran[..turns]), ran, script)
      ensures reported ==> ChosenFurther(q, old(active), ran[..turns], Those(ran[..turns]), ran)
      ensures reported && !old(IsStateful(q.lane)) && (|ran| > turns ==> GoesOn(script(|ran| - 1))) ==>
        Exhausted(q, old(active), ran[..turns], Those(ran[..turns]), ran)
      // what comes out
      ensures escaped <==> ran != [] && script(|ran| - 1).Escapes?
      ensures !escaped ==> result == AnswerOf(ran, script, old(IsStateful(q.lane)))
      // a plain success, and nothing else, gives the lane state
      ensures var counted := ran != [] && !reported && CountsForLane(q, script(|ran| - 1));
        && (if counted then successes == old(successes)[q.lane := 1 + if q.lane in old(successes) then old(successes)[q.lane] else 0]
            else successes == old(successes))
        && (counted ==> IsStateful(q.lane))
        && (forall lane :: lane != q.lane || !counted ==> (IsStateful(lane) <==> old(IsStateful(lane))))
      ensures ran == [] || q.lane == "" ==> pins == old(pins)
      ensures ran != [] && q.lane != "" ==>
        pins == if !old(IsStateful(q.lane)) && (reported || Passable(script(|ran| - 1))) then old(pins) - {q.lane}
                else old(pins)[q.lane := ran[|ran| - 1]]
    {
      hide Valid, Received, RemoteOnce, Passable, IsReported, CountsForLane, CountedFor, GoesOn, Chosen,
        NobodyFor, ChosenFurther, Exhausted, FirstChoice, NoTurn, FurtherNew, NewDomains;
      var end;
      result, ran, end := FirstLoop(q, script);
      escaped, reported, turns := end == Escaped, end == Handed, |ran|;
      assert ran[..turns] == ran;
      if ran != [] { PassableOnly(q, script(|ran| - 1)); }
      if reported {
        var soFar, repair := ran, false;
        var worker := soFar[|soFar| - 1];
        FirstInPool(q, old(active), if |soFar| == 1 then old(pins) else map[], Those(soFar[..|soFar| - 1]), worker);
        result, ran, escaped, repair := RetryReported(q, result, worker, Those(soFar), soFar, script);
        OnceAndNew(soFar, Those(soFar), ran, script);
        PassableOnly(q, script(|ran| - 1));
      }
      if ran != [] { LaneOfCounted(q, script(|ran| - 1)); }
      CountedIs(q.lane, old(successes));
    }

    lemma LaneOfCounted(q: Request, o: Outcome)
      ensures CountsForLane(q, o) ==> q.lane != ""
    {
    }

    lemma CountedIs(lane: string, counts: map<string, nat>)
      ensures CountedFor(lane, counts) == counts[lane := 1 + if lane in counts then counts[lane] else 0]
    {
    }

    lemma FirstInPool(q: Request, counts: map<string, nat>, pinned: map<string, string>, exclude: set<string>, c: string)
      ensures FirstChoice(q, counts, pinned, exclude, c) ==> c in site.pool
    {
    }

    /** What the first loop does with one result: go on elsewhere, to the loop over reported failures, or
        end, counting a plain success for its lane. */
    method JudgeFirst(q: Request, o: Outcome) returns (judged: Judged, result: Result)
      requires !o.Escapes?
      modifies this`pins, this`successes
      ensures judged.ToReport? <==> IsReported(o)
      ensures judged.Again? <==> Passable(o) && !old(IsStateful(q.lane))
      ensures !judged.Over? ==> !CountsForLane(q, o)
      ensures result == if Passable(o) && old(IsStateful(q.lane))
                        then Received(o).(termination := "remote_lane_state_lost") else Received(o)
      ensures judged.Again? ==> !Pinned(q.lane)
      ensures pins == if judged.Again? && q.lane != "" then old(pins) - {q.lane} else old(pins)
      ensures successes == if CountsForLane(q, o) then CountedFor(q.lane, old(successes)) else old(successes)
    {
      hide Received, Passable, IsReported, CountsForLane, CountedFor;
      VerdictMeans(q, o);
      result := Received(o);
      if result.failureId != "" { return ToReport, result; }
      if !result.infrastructure {
        if q.lane != "" && result.ok { successes := CountedFor(q.lane, successes); }
        return Over, result;
      }
      if result.termination == UNCERTAIN { return Over, result; }
      if IsStateful(q.lane) { return Over, result.(termination := "remote_lane_state_lost"); }
      if q.lane != "" { pins := pins - {q.lane}; }
      judged := Again;
    }

    lemma OnceEmpty()
      ensures RemoteOnce([])
    {
    }

    lemma VerdictMeans(q: Request, o: Outcome)
      ensures CountsForLane(q, o) <==>
        (!o.Escapes? && q.lane != "" && Received(o).ok && !Received(o).infrastructure && Received(o).failureId == "")
      ensures Passable(o) <==>
        (!o.Escapes? && Received(o).failureId == "" && Received(o).infrastructure && Received(o).termination != UNCERTAIN)
      ensures IsReported(o) <==> !o.Escapes? && Received(o).failureId != ""
    {
    }

    function CountedFor(lane: string, counts: map<string, nat>): map<string, nat> {
      counts[lane := 1 + if lane in counts then counts[lane] else 0]
    }
  }
}
