/** Exclusive resources: each job takes its locks in sorted order and gives them back at the end. */
module ResourceLocks {
  import opened Sorting

  // ---------------------------------------------------------------- which locks, in which order

  function ColonAt(s: string): (n: nat)
    ensures n <= |s|
  {
    if s == "" || s[0] == ':' then 0 else 1 + ColonAt(s[1..])
  }

  function ScopeOf(resource: string): string {
    resource[..ColonAt(resource)]
  }

  function NameOf(resource: string): string {
    var n := ColonAt(resource);
    if n < |resource| then resource[n + 1..] else ""
  }

  /** The lock of a resource: a worker's own, or one that all workers share. */
  function Identity(worker: string, resource: string): string {
    if ScopeOf(resource) == "host" then "host:" + worker + ":" + NameOf(resource) else "pool:" + NameOf(resource)
  }

  /** The two scopes a gate step may declare. */
  predicate Declared(resource: string) {
    "host:" <= resource || "pool:" <= resource
  }

  predicate Less(a: string, b: string) {
    StringLeq(a, b) && a != b
  }

  ghost predicate Ascending(locks: seq<string>) {
    forall i, j :: 0 <= i < j < |locks| ==> Less(locks[i], locks[j])
  }

  lemma {:induction false} PrefixLeq(p: string, a: string, b: string)
    ensures StringLeq(p + a, p + b) <==> StringLeq(a, b)
  {
    if p == "" {
      assert p + a == a && p + b == b;
    } else {
      assert (p + a)[1..] == p[1..] + a && (p + b)[1..] == p[1..] + b;
      PrefixLeq(p[1..], a, b);
    }
  }

  lemma Parts(resource: string)
    requires Declared(resource)
    ensures if "host:" <= resource then ScopeOf(resource) == "host" && NameOf(resource) == resource[5..] && resource == "host:" + resource[5..]
            else ScopeOf(resource) == "pool" && NameOf(resource) == resource[5..] && resource == "pool:" + resource[5..]
  {
    assert resource[4] == ':' && resource[0] != ':' && resource[1] != ':' && resource[2] != ':' && resource[3] != ':';
    ColonFirst(resource, 4);
    if "host:" <= resource { assert resource == "host:" + resource[5..]; } else { assert resource == "pool:" + resource[5..]; }
  }

  lemma {:induction false} ColonFirst(s: string, n: nat)
    requires n < |s| && s[n] == ':' && forall i :: 0 <= i < n ==> s[i] != ':'
    ensures ColonAt(s) == n
  {
    if n > 0 { ColonFirst(s[1..], n - 1); }
  }

  /** On every worker, declared resources in order have locks in the one order of all locks. */
  lemma IdentityOrder(worker: string, a: string, b: string)
    requires Declared(a) && Declared(b) && Less(a, b)
    ensures Less(Identity(worker, a), Identity(worker, b))
  {
    Parts(a);
    Parts(b);
    if "host:" <= a && "host:" <= b {
      var p := "host:" + worker + ":";
      PrefixLeq("host:", a[5..], b[5..]);
      PrefixLeq(p, a[5..], b[5..]);
      assert (p + a[5..])[|p|..] == a[5..] && (p + b[5..])[|p|..] == b[5..];
    } else if "host:" <= a {
      assert Identity(worker, a)[0] == 'h' && Identity(worker, b)[0] == 'p';
    } else {
      assert a[0] == 'p';
      assert Identity(worker, a) == a;
      assert b[0] == 'p' && Identity(worker, b) == b;
    }
  }

  function Ordered(resources: seq<string>): seq<string> {
    Sort(StringLeq, Unique(resources))
  }

  function LocksOf(worker: string, resources: seq<string>): seq<string> {
    var ordered := Ordered(resources);
    seq(|ordered|, i requires 0 <= i < |ordered| => Identity(worker, ordered[i]))
  }

  /** A job with declared resources takes its locks in strictly ascending order. */
  lemma LocksAscend(worker: string, resources: seq<string>)
    requires forall r :: r in resources ==> Declared(r)
    ensures Ascending(LocksOf(worker, resources))
    ensures forall r :: r in resources ==> Identity(worker, r) in LocksOf(worker, resources)
  {
    hide Identity, Declared;
    var ordered := Ordered(resources);
    StringOrder();
    UniqueFacts(resources);
    SortSorts(StringLeq, Unique(resources));
    SortKeepsDistinct(StringLeq, Unique(resources));
    forall r ensures r in ordered <==> r in resources { SortKeepsMembers(StringLeq, Unique(resources), r); }
    var locks := LocksOf(worker, resources);
    forall i, j | 0 <= i < j < |locks| ensures Less(locks[i], locks[j]) {
      assert ordered[i] in ordered && ordered[j] in ordered;
      IdentityOrder(worker, ordered[i], ordered[j]);
    }
    forall r | r in resources ensures Identity(worker, r) in locks {
      var i :| 0 <= i < |ordered| && ordered[i] == r;
      assert locks[i] == Identity(worker, r);
    }
  }

  /** With a scope of any other name two resources may share one lock, which a job then waits for while
      holding it. */
  lemma OtherScopesCollide()
    ensures LocksOf("w", ["pool:x", "a:x"]) == ["pool:x", "pool:x"]
    ensures !Declared("a:x")
  {
    assert Unique(["pool:x"]) == ["pool:x"] by { assert ["pool:x"][..0] == []; }
    assert ["pool:x", "a:x"][..1] == ["pool:x"];
    assert Unique(["pool:x", "a:x"]) == ["pool:x", "a:x"];
    assert Sort(StringLeq, ["a:x"]) == ["a:x"];
    assert ["pool:x", "a:x"][1..] == ["a:x"];
    assert !StringLeq("pool:x", "a:x");
    assert Insert(StringLeq, "pool:x", []) == ["pool:x"];
    assert Ordered(["pool:x", "a:x"]) == ["a:x", "pool:x"];
    ColonFirst("a:x", 1);
    ColonFirst("pool:x", 4);
    assert Identity("w", "a:x") == "pool:x" && Identity("w", "pool:x") == "pool:x";
  }

  // ---------------------------------------------------------------- one lease

  /** The lock files of one machine and who holds them. */
  class LockDirectory {
    var holders: map<string, nat>

    constructor ()
      ensures holders == map[]
    {
      holders := map[];
    }

    /** `exclusive_resource_lease` with its cancel event set: it takes its locks in order and, at the
        first one that is taken - by somebody else or, under a second name, by itself - gives back what
        it took. */
    method TryLease(job: nat, worker: string, resources: seq<string>) returns (entered: bool)
      modifies this
      ensures entered <==> Distinct(LocksOf(worker, resources)) && forall l :: l in LocksOf(worker, resources) ==> l !in old(holders)
      ensures entered ==> holders == Held(old(holders), job, LocksOf(worker, resources))
      ensures !entered ==> holders == old(holders)
    {
      var locks := LocksOf(worker, resources);
      hide LocksOf, Held;
      NothingHeld(holders, job, locks);
      entered := true;
      for i := 0 to |locks|
        invariant holders == Held(old(holders), job, locks[..i]) && Distinct(locks[..i])
        invariant forall k :: 0 <= k < i ==> locks[k] !in old(holders)
      {
        HeldStep(old(holders), job, locks, i);
        if locks[i] in holders {
          Release(job, locks[..i], old(holders));
          return false;
        }
        assert forall k :: 0 <= k < i ==> locks[..i][k] == locks[k] && locks[k] in locks[..i];
        holders := holders[locks[i] := job];
      }
      assert locks[..|locks|] == locks;
    }

    /** Giving locks back, the last one first. */
    method Release(job: nat, locks: seq<string>, ghost others: map<string, nat>)
      requires holders == Held(others, job, locks) && Distinct(locks) && forall l :: l in locks ==> l !in others
      modifies this
      ensures holders == others
    {
      hide Held;
      assert locks[..|locks|] == locks;
      NothingHeld(others, job, locks);
      for i := |locks| downto 0
        invariant holders == Held(others, job, locks[..i])
      {
        HeldStep(others, job, locks, i);
        assert locks[i] in locks && locks[i] !in locks[..i];
        holders := holders - {locks[i]};
      }
    }
  }

  lemma AscendingDistinct(locks: seq<string>)
    requires Ascending(locks)
    ensures Distinct(locks)
  {
    forall i, j | 0 <= i < j < |locks| ensures locks[i] != locks[j] { assert Less(locks[i], locks[j]); }
  }

  /** Declared resources do not get in their own way. */
  lemma DeclaredLease(worker: string, resources: seq<string>)
    requires forall r :: r in resources ==> Declared(r)
    ensures Distinct(LocksOf(worker, resources))
  {
    LocksAscend(worker, resources);
    AscendingDistinct(LocksOf(worker, resources));
  }

  lemma NothingHeld(others: map<string, nat>, job: nat, locks: seq<string>)
    ensures Held(others, job, locks[..0]) == others
  {
  }

  /** One more lock of a job: it was free exactly when nobody had it, the job included. */
  lemma HeldStep(others: map<string, nat>, job: nat, locks: seq<string>, i: nat)
    requires i < |locks|
    ensures Held(others, job, locks[..i + 1]) == Held(others, job, locks[..i])[locks[i] := job]
    ensures locks[i] in Held(others, job, locks[..i]) <==> locks[i] in others || locks[i] in locks[..i]
  {
    assert locks[..i + 1] == locks[..i] + [locks[i]];
    HeldKeys(others, job, locks[..i]);
  }

  function Held(others: map<string, nat>, job: nat, locks: seq<string>): map<string, nat> {
    if locks == [] then others else Held(others, job, locks[..|locks| - 1])[locks[|locks| - 1] := job]
  }

  lemma {:induction false} HeldKeys(others: map<string, nat>, job: nat, locks: seq<string>)
    ensures forall l :: l in Held(others, job, locks) <==> l in others || l in locks
  {
    if locks != [] {
      HeldKeys(others, job, locks[..|locks| - 1]);
      assert locks == locks[..|locks| - 1] + [locks[|locks| - 1]];
    }
  }
}
