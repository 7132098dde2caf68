/** Splitting test targets into balanced batches and into stable shards. */
module TargetBatches {
  import opened Sorting

  function BatchCount(n: nat, limit: int): nat {
    var m := if limit < 1 then 1 else limit;
    if n < m then n else m
  }

  /** Weight of a target: its recorded cost, or its file size, and at least one. */
  function Weight(cost: string -> real, target: string): real {
    if cost(target) < 1.0 then 1.0 else cost(target)
  }

  function Load(cost: string -> real, batch: seq<string>): real {
    if batch == [] then 0.0 else Weight(cost, batch[0]) + Load(cost, batch[1..])
  }

  function Heaviest(cost: string -> real, batch: seq<string>): real {
    if batch == [] then 0.0
    else
      var rest := Heaviest(cost, batch[1..]);
      if rest < Weight(cost, batch[0]) then Weight(cost, batch[0]) else rest
  }

  function Flatten(batches: seq<seq<string>>): seq<string> {
    if batches == [] then [] else batches[0] + Flatten(batches[1..])
  }

  /** The batches hold each of the targets exactly once. */
  ghost predicate Partitions(batches: seq<seq<string>>, targets: seq<string>) {
    multiset(Flatten(batches)) == multiset(targets)
  }

  function LoadSum(cost: string -> real, batches: seq<seq<string>>): real {
    if batches == [] then 0.0 else Load(cost, batches[0]) + LoadSum(cost, batches[1..])
  }

  // ---------------------------------------------------------------- loads and rearrangement

  lemma {:induction false} LoadConcat(cost: string -> real, a: seq<string>, b: seq<string>)
    ensures Load(cost, a + b) == Load(cost, a) + Load(cost, b)
  {
    if a == [] {
      assert a + b == b;
    } else {
      LoadConcat(cost, a[1..], b);
      assert (a + b)[1..] == a[1..] + b;
    }
  }

  lemma {:induction false} LoadInsert(cost: string -> real, leq: (string, string) -> bool, x: string, s: seq<string>)
    ensures Load(cost, Insert(leq, x, s)) == Weight(cost, x) + Load(cost, s)
  {
    if s == [] || leq(x, s[0]) {
      assert ([x] + s)[1..] == s;
    } else {
      LoadInsert(cost, leq, x, s[1..]);
      assert Insert(leq, x, s)[1..] == Insert(leq, x, s[1..]);
    }
  }

  /** Sorting a batch does not change its load. */
  lemma {:induction false} LoadSort(cost: string -> real, leq: (string, string) -> bool, s: seq<string>)
    ensures Load(cost, Sort(leq, s)) == Load(cost, s)
  {
    if s != [] {
      LoadSort(cost, leq, s[1..]);
      LoadInsert(cost, leq, s[0], Sort(leq, s[1..]));
    }
  }

  lemma LoadWithout(cost: string -> real, s: seq<string>, i: nat)
    requires i < |s|
    ensures Load(cost, s) == Weight(cost, s[i]) + Load(cost, s[..i] + s[i + 1..])
  {
    hide Weight;
    LoadConcat(cost, s[..i], s[i + 1..]);
    LoadConcat(cost, s[..i], s[i..]);
    assert s == s[..i] + s[i..] && s[i..][1..] == s[i + 1..];
  }

  lemma MultisetWithout<T>(s: seq<T>, i: nat)
    requires i < |s|
    ensures multiset(s) == multiset(s[..i] + s[i + 1..]) + multiset{s[i]}
  {
    assert s == s[..i] + ([s[i]] + s[i + 1..]);
  }

  /** The load of a list of targets depends only on which targets it holds. */
  lemma {:induction false} LoadOfMultiset(cost: string -> real, a: seq<string>, b: seq<string>)
    requires multiset(a) == multiset(b)
    ensures Load(cost, a) == Load(cost, b)
  {
    if a == [] {
      assert |multiset(b)| == |b|;
    } else {
      assert a[0] in multiset(b);
      var i: nat :| i < |b| && b[i] == a[0];
      MultisetWithout(a, 0);
      MultisetWithout(b, i);
      assert a[..0] + a[1..] == a[1..];
      assert multiset(a[1..]) == multiset(a) - multiset{a[0]} == multiset(b[..i] + b[i + 1..]);
      LoadWithout(cost, b, i);
      LoadOfMultiset(cost, a[1..], b[..i] + b[i + 1..]);
    }
  }

  lemma {:induction false} LoadSumIsLoad(cost: string -> real, batches: seq<seq<string>>)
    ensures LoadSum(cost, batches) == Load(cost, Flatten(batches))
  {
    if batches != [] {
      LoadSumIsLoad(cost, batches[1..]);
      LoadConcat(cost, batches[0], Flatten(batches[1..]));
    }
  }

  lemma {:induction false} HeaviestBounds(cost: string -> real, batch: seq<string>)
    ensures forall t :: t in batch ==> Weight(cost, t) <= Heaviest(cost, batch)
    ensures batch != [] ==> exists t :: t in batch && Weight(cost, t) == Heaviest(cost, batch)
  {
    if batch != [] {
      HeaviestBounds(cost, batch[1..]);
      assert batch[0] in batch;
      assert forall t :: t in batch <==> t == batch[0] || t in batch[1..];
    }
  }

  lemma {:induction false} LoadAtLeast(cost: string -> real, batch: seq<string>, t: string)
    requires t in batch
    ensures Weight(cost, t) <= Load(cost, batch)
  {
    LoadNonNegative(cost, batch[1..]);
    if t != batch[0] { LoadAtLeast(cost, batch[1..], t); }
  }

  lemma {:induction false} LoadNonNegative(cost: string -> real, batch: seq<string>)
    ensures 0.0 <= Load(cost, batch)
    ensures batch != [] ==> 1.0 <= Load(cost, batch)
  {
    if batch != [] { LoadNonNegative(cost, batch[1..]); }
  }

  lemma {:induction false} FlattenMembers(batches: seq<seq<string>>, t: string)
    ensures t in Flatten(batches) <==> exists k :: 0 <= k < |batches| && t in batches[k]
  {
    if batches != [] {
      FlattenMembers(batches[1..], t);
      assert forall k :: 1 <= k < |batches| ==> batches[k] == batches[1..][k - 1];
    }
  }

  lemma {:induction false} FlattenAppend(batches: seq<seq<string>>, k: nat, t: string)
    requires k < |batches|
    ensures multiset(Flatten(batches[k := batches[k] + [t]])) == multiset(Flatten(batches)) + multiset{t}
  {
    var longer := batches[k := batches[k] + [t]];
    if k == 0 {
      assert longer[1..] == batches[1..];
    } else {
      FlattenAppend(batches[1..], k - 1, t);
      assert longer[1..] == batches[1..][k - 1 := batches[1..][k - 1] + [t]];
    }
  }

  // ---------------------------------------------------------------- the bounds

  /** No two loads differ by more than the heaviest target. */
  ghost predicate Balanced(cost: string -> real, batches: seq<seq<string>>, bound: real) {
    forall a, b :: 0 <= a < |batches| && 0 <= b < |batches| ==>
      Load(cost, batches[a]) - Load(cost, batches[b]) <= bound
  }

  lemma OneMore(n: real, x: real)
    ensures (n + 1.0) * x == n * x + x
  {
  }

  lemma {:induction false} SumFromBelow(cost: string -> real, batches: seq<seq<string>>, floor: real)
    requires forall k :: 0 <= k < |batches| ==> floor <= Load(cost, batches[k])
    ensures (|batches| as real) * floor <= LoadSum(cost, batches)
  {
    hide Load;
    if batches != [] {
      assert forall k :: 0 <= k < |batches| - 1 ==> batches[1..][k] == batches[k + 1];
      SumFromBelow(cost, batches[1..], floor);
      var rest := |batches[1..]| as real;
      assert |batches| as real == rest + 1.0;
      OneMore(rest, floor);
      assert LoadSum(cost, batches) == Load(cost, batches[0]) + LoadSum(cost, batches[1..]);
    }
  }

  lemma {:induction false} LoadSumSplit(cost: string -> real, batches: seq<seq<string>>, k: nat)
    requires k < |batches|
    ensures LoadSum(cost, batches) == Load(cost, batches[k]) + LoadSum(cost, batches[..k] + batches[k + 1..])
  {
    var rest := batches[..k] + batches[k + 1..];
    if k == 0 {
      assert rest == batches[1..];
    } else {
      LoadSumSplit(cost, batches[1..], k - 1);
      assert rest[0] == batches[0];
      assert rest[1..] == batches[1..][..k - 1] + batches[1..][k..];
    }
  }

  /** Pairwise balance bounds every load by the average plus (1 - 1/m) of the heaviest target. */
  lemma BalancedBoundsAverage(cost: string -> real, batches: seq<seq<string>>, bound: real, k: nat)
    requires Balanced(cost, batches, bound) && k < |batches|
    ensures (|batches| as real) * Load(cost, batches[k]) <= LoadSum(cost, batches) + ((|batches| - 1) as real) * bound
  {
    hide Load, LoadSum, Balanced;
    var rest := batches[..k] + batches[k + 1..];
    var l := Load(cost, batches[k]);
    RestAbove(cost, batches, bound, k);
    SumFromBelow(cost, rest, l - bound);
    LoadSumSplit(cost, batches, k);
    var m := |rest| as real;
    assert m * (l - bound) <= LoadSum(cost, rest);
    AverageArithmetic(m, l, bound, LoadSum(cost, rest));
    assert |batches| as real == m + 1.0;
  }

  lemma RestAbove(cost: string -> real, batches: seq<seq<string>>, bound: real, k: nat)
    requires Balanced(cost, batches, bound) && k < |batches|
    ensures var rest := batches[..k] + batches[k + 1..];
      forall i :: 0 <= i < |rest| ==> Load(cost, batches[k]) - bound <= Load(cost, rest[i])
  {
    hide Load;
    var rest := batches[..k] + batches[k + 1..];
    forall i | 0 <= i < |rest| ensures Load(cost, batches[k]) - bound <= Load(cost, rest[i]) {
      assert rest[i] == batches[if i < k then i else i + 1];
    }
  }

  lemma AverageArithmetic(m: real, l: real, bound: real, rest: real)
    requires m * (l - bound) <= rest
    ensures (m + 1.0) * l <= (l + rest) + m * bound
  {
    assert m * (l - bound) == m * l - m * bound;
    assert (m + 1.0) * l == m * l + l;
  }

  lemma FactorArithmetic(n: real, l: real, sum: real, bound: real, worst: real)
    requires 1.0 <= n && bound <= worst
    requires n * l <= sum + (n - 1.0) * bound && sum <= n * worst
    ensures n * l <= (2.0 * n - 1.0) * worst
  {
    assert (n - 1.0) * bound <= (n - 1.0) * worst;
    assert (2.0 * n - 1.0) * worst == n * worst + (n - 1.0) * worst;
  }

  function HeaviestBatch(cost: string -> real, batches: seq<seq<string>>): (k: nat)
    requires batches != []
    ensures k < |batches| && forall b :: 0 <= b < |batches| ==> Load(cost, batches[b]) <= Load(cost, batches[k])
  {
    if |batches| == 1 then 0
    else
      var r := HeaviestBatch(cost, batches[1..]);
      assert forall b :: 1 <= b < |batches| ==> batches[b] == batches[1..][b - 1];
      if Load(cost, batches[1..][r]) < Load(cost, batches[0]) then 0 else r + 1
  }

  lemma {:induction false} SumFromAbove(cost: string -> real, batches: seq<seq<string>>, ceiling: real)
    requires forall k :: 0 <= k < |batches| ==> Load(cost, batches[k]) <= ceiling
    ensures LoadSum(cost, batches) <= (|batches| as real) * ceiling
  {
    hide Load;
    if batches != [] {
      assert forall k :: 0 <= k < |batches| - 1 ==> batches[1..][k] == batches[k + 1];
      SumFromAbove(cost, batches[1..], ceiling);
      var rest := |batches[1..]| as real;
      assert |batches| as real == rest + 1.0;
      OneMore(rest, ceiling);
      assert LoadSum(cost, batches) == Load(cost, batches[0]) + LoadSum(cost, batches[1..]);
    }
  }

  /** Some batch of any split carries the heaviest target. */
  lemma HeaviestIsSomewhere(cost: string -> real, targets: seq<string>, other: seq<seq<string>>)
    requires targets != [] && other != [] && Partitions(other, targets)
    ensures Heaviest(cost, targets) <= Load(cost, other[HeaviestBatch(cost, other)])
  {
    HeaviestBounds(cost, targets);
    var t :| t in targets && Weight(cost, t) == Heaviest(cost, targets);
    assert t in multiset(Flatten(other));
    FlattenMembers(other, t);
    var b :| 0 <= b < |other| && t in other[b];
    LoadAtLeast(cost, other[b], t);
  }

  /** Balanced batches are within a factor 2 - 1/m of any other split into as many batches: the
      worst load of ours is at most that multiple of the worst load of the alternative. */
  lemma WithinFactorOfAnySplit(cost: string -> real, targets: seq<string>, batches: seq<seq<string>>,
                               other: seq<seq<string>>, k: nat)
    requires targets != [] && k < |batches| == |other|
    requires Partitions(batches, targets) && Partitions(other, targets)
    requires Balanced(cost, batches, Heaviest(cost, targets))
    ensures var worst := Load(cost, other[HeaviestBatch(cost, other)]);
      (|batches| as real) * Load(cost, batches[k]) <= (2.0 * (|batches| as real) - 1.0) * worst
  {
    hide Load, LoadSum, Balanced, Flatten, Heaviest, HeaviestBatch;
    var worst := Load(cost, other[HeaviestBatch(cost, other)]);
    var bound := Heaviest(cost, targets);
    BalancedBoundsAverage(cost, batches, bound, k);
    LoadSumIsLoad(cost, batches);
    LoadSumIsLoad(cost, other);
    LoadOfMultiset(cost, Flatten(batches), Flatten(other));
    SumFromAbove(cost, other, worst);
    HeaviestIsSomewhere(cost, targets, other);
    var n, l, sum := |batches| as real, Load(cost, batches[k]), LoadSum(cost, batches);
    assert (|batches| - 1) as real == n - 1.0;
    assert n * l <= sum + (n - 1.0) * bound;
    assert sum == LoadSum(cost, other) <= n * worst;
    FactorArithmetic(n, l, sum, bound, worst);
  }

  // ---------------------------------------------------------------- the greedy assignment

  /** `min(range(m), key=...)`: the first index with the least weight. */
  function LightestIndex(weights: seq<real>): (k: nat)
    requires weights != []
    ensures k < |weights|
    ensures forall i :: 0 <= i < |weights| ==> weights[k] <= weights[i]
    ensures forall i :: 0 <= i < k ==> weights[k] < weights[i]
  {
    var n := |weights| - 1;
    if n == 0 then 0
    else
      var r := LightestIndex(weights[..n]);
      assert forall i :: 0 <= i < n ==> weights[i] == weights[..n][i];
      if weights[n] < weights[r] then n else r
  }

  predicate HeavierFirst(cost: string -> real, a: string, b: string) {
    Weight(cost, a) > Weight(cost, b) || (Weight(cost, a) == Weight(cost, b) && StringLeq(a, b))
  }

  /** The distinct targets, heaviest first and by name among equals. */
  function HeaviestFirst(cost: string -> real, targets: seq<string>): seq<string> {
    Sort((a, b) => HeavierFirst(cost, a, b), Unique(targets))
  }

  lemma HeavierOrder(cost: string -> real)
    ensures TotalOrder((a: string, b: string) => HeavierFirst(cost, a, b))
  {
    hide StringLeq, Weight;
    StringOrder();
  }

  lemma HeaviestFirstFacts(cost: string -> real, targets: seq<string>)
    ensures multiset(HeaviestFirst(cost, targets)) == multiset(Unique(targets))
    ensures forall i, j :: 0 <= i < j < |HeaviestFirst(cost, targets)| ==>
      Weight(cost, HeaviestFirst(cost, targets)[j]) <= Weight(cost, HeaviestFirst(cost, targets)[i])
  {
    hide Unique, Weight, StringLeq, Sort, TotalOrder;
    HeavierOrder(cost);
    var order := (a, b) => HeavierFirst(cost, a, b);
    SortPermutes(order, Unique(targets));
    SortSorts(order, Unique(targets));
    var s := HeaviestFirst(cost, targets);
    forall i, j | 0 <= i < j < |s| ensures Weight(cost, s[j]) <= Weight(cost, s[i]) { assert order(s[i], s[j]); }
  }

  ghost predicate GreedyState(cost: string -> real, batches: seq<seq<string>>, weights: seq<real>,
                              placed: seq<string>, bound: real) {
    && |weights| == |batches|
    && (forall k :: 0 <= k < |batches| ==> weights[k] == Load(cost, batches[k]))
    && (forall k :: 0 <= k < |batches| ==> (batches[k] != [] <==> k < |placed|))
    && Partitions(batches, placed)
    && Balanced(cost, batches, bound)
  }

  lemma GreedyStep(cost: string -> real, batches: seq<seq<string>>, weights: seq<real>, placed: seq<string>,
                   bound: real, t: string)
    requires batches != [] && GreedyState(cost, batches, weights, placed, bound)
    requires Weight(cost, t) <= bound
    ensures var k := LightestIndex(weights);
      GreedyState(cost, batches[k := batches[k] + [t]], weights[k := weights[k] + Weight(cost, t)],
                  placed + [t], bound)
  {
    hide Load, Flatten, Weight;
    var k := LightestIndex(weights);
    LightestFillsNext(cost, batches, weights, placed, bound);
    LoadOne(cost, batches[k], t);
    FlattenAppend(batches, k, t);
  }

  lemma LoadOne(cost: string -> real, batch: seq<string>, t: string)
    ensures Load(cost, batch + [t]) == Load(cost, batch) + Weight(cost, t)
    ensures 1.0 <= Weight(cost, t)
  {
    LoadConcat(cost, batch, [t]);
    assert Load(cost, [t]) == Weight(cost, t) + Load(cost, []);
  }

  /** While a batch is empty the lightest one is the first empty one. */
  lemma LightestFillsNext(cost: string -> real, batches: seq<seq<string>>, weights: seq<real>,
                          placed: seq<string>, bound: real)
    requires batches != [] && GreedyState(cost, batches, weights, placed, bound)
    ensures |placed| < |batches| ==> LightestIndex(weights) == |placed|
  {
    if |placed| < |batches| {
      assert batches[|placed|] == [] && weights[|placed|] == 0.0;
      forall i | 0 <= i < |placed| ensures weights[i] >= 1.0 {
        LoadNonNegative(cost, batches[i]);
      }
      forall i | 0 <= i < |batches| ensures weights[i] >= 0.0 {
        LoadNonNegative(cost, batches[i]);
      }
    }
  }

  lemma {:induction false} AllEmpty(batches: seq<seq<string>>)
    requires forall k :: 0 <= k < |batches| ==> batches[k] == []
    ensures Flatten(batches) == []
  {
    if batches != [] { AllEmpty(batches[1..]); }
  }

  lemma GreedyStart(cost: string -> real, batches: seq<seq<string>>, weights: seq<real>, bound: real)
    requires |weights| == |batches| && 0.0 <= bound
    requires forall k :: 0 <= k < |batches| ==> batches[k] == [] && weights[k] == 0.0
    ensures GreedyState(cost, batches, weights, [], bound)
  {
    AllEmpty(batches);
  }

  lemma GreedyDone(cost: string -> real, batches: seq<seq<string>>, weights: seq<real>, placed: seq<string>,
          bound: real)
    requires GreedyState(cost, batches, weights, placed, bound) && |batches| <= |placed|
    ensures forall k :: 0 <= k < |batches| ==> batches[k] != []
    ensures Partitions(batches, placed) && Balanced(cost, batches, bound)
  {
  }

  function SortEach(batches: seq<seq<string>>): seq<seq<string>> {
    if batches == [] then [] else [Sort(StringLeq, batches[0])] + SortEach(batches[1..])
  }

  lemma {:induction false} SortEachFacts(cost: string -> real, batches: seq<seq<string>>)
    ensures |SortEach(batches)| == |batches|
    ensures multiset(Flatten(SortEach(batches))) == multiset(Flatten(batches))
    ensures forall k :: 0 <= k < |batches| ==> SortEach(batches)[k] == Sort(StringLeq, batches[k])
  {
    if batches != [] {
      SortEachFacts(cost, batches[1..]);
      SortPermutes(StringLeq, batches[0]);
    }
  }

  function Singletons(targets: seq<string>): seq<seq<string>> {
    if targets == [] then [] else [[targets[0]]] + Singletons(targets[1..])
  }

  lemma {:induction false} SingletonsFacts(targets: seq<string>)
    ensures |Singletons(targets)| == |targets| && Flatten(Singletons(targets)) == targets
    ensures forall k :: 0 <= k < |targets| ==> Singletons(targets)[k] == [targets[k]]
  {
    if targets != [] { SingletonsFacts(targets[1..]); }
  }

  /** What callers of the batcher rely on. */
  ghost predicate GoodBatches(cost: string -> real, targets: seq<string>, limit: int, batches: seq<seq<string>>) {
    var unique := Unique(targets);
    && |batches| == BatchCount(|unique|, limit)
    && (forall k :: 0 <= k < |batches| ==> batches[k] != [] && Sorted(StringLeq, batches[k]))
    && Partitions(batches, unique)
    && Balanced(cost, batches, Heaviest(cost, unique))
  }

  lemma SingletonsAreGood(cost: string -> real, targets: seq<string>, limit: int)
    requires BatchCount(|Unique(targets)|, limit) == |Unique(targets)|
    ensures GoodBatches(cost, targets, limit, Singletons(Unique(targets)))
  {
    var unique := Unique(targets);
    var batches := Singletons(unique);
    SingletonsFacts(unique);
    HeaviestBounds(cost, unique);
    hide Unique, Singletons, Heaviest, Flatten;
    forall k | 0 <= k < |unique|
      ensures batches[k] == [unique[k]] && 0.0 <= Load(cost, batches[k]) <= Heaviest(cost, unique)
    {
      assert unique[k] in unique;
      LoadOne(cost, [], unique[k]);
      assert [] + [unique[k]] == batches[k];
    }
    hide Load;
    assert Balanced(cost, batches, Heaviest(cost, unique));
  }

  lemma SortedBatchesAreGood(cost: string -> real, targets: seq<string>, limit: int, batches: seq<seq<string>>)
    requires var unique := Unique(targets);
      && |batches| == BatchCount(|unique|, limit)
      && (forall k :: 0 <= k < |batches| ==> batches[k] != [])
      && Partitions(batches, unique) && Balanced(cost, batches, Heaviest(cost, unique))
    ensures GoodBatches(cost, targets, limit, SortEach(batches))
  {
    SortEachFacts(cost, batches);
    StringOrder();
    forall k | 0 <= k < |batches|
      ensures Load(cost, SortEach(batches)[k]) == Load(cost, batches[k])
      ensures SortEach(batches)[k] != [] && Sorted(StringLeq, SortEach(batches)[k])
    {
      LoadSort(cost, StringLeq, batches[k]);
      SortPermutes(StringLeq, batches[k]);
      SortSorts(StringLeq, batches[k]);
    }
  }

  predicate Leads(order: seq<string>, batches: seq<seq<string>>) {
    |batches| <= |order| && forall k | 0 <= k < |batches| :: order[k] in batches[k]
  }

  lemma {:induction false} HeaviestNonNegative(cost: string -> real, batch: seq<string>)
    ensures 0.0 <= Heaviest(cost, batch)
  {
    if batch != [] { HeaviestNonNegative(cost, batch[1..]); }
  }

  /** `_balanced_target_batches`: exactly min(n, limit) non-empty sorted batches that hold each
      distinct target once, with loads no further apart than the heaviest target. */
  method BalancedBatches(targets: seq<string>, limit: int, cost: string -> real) returns (result: seq<seq<string>>)
    ensures GoodBatches(cost, targets, limit, result)
    // as many of the heaviest targets as there are batches are in batches of their own, in order
    ensures |result| < |Unique(targets)| ==> Leads(HeaviestFirst(cost, targets), result)
  {
    hide GreedyState, Sort, Load, Heaviest, HeavierFirst, Unique, HeaviestFirst, StringLeq, Weight;
    HeaviestFirstLength(cost, targets);
    var unique := Unique(targets);
    var m := BatchCount(|unique|, limit);
    if m == |unique| {
      SingletonsAreGood(cost, targets, limit);
      return Singletons(unique);
    }
    var order := HeaviestFirst(cost, targets);
    HeaviestFirstFacts(cost, targets);
    HeaviestBounds(cost, unique);
    HeaviestNonNegative(cost, unique);
    forall t | t in order ensures t in unique { assert t in multiset(order) && t in multiset(unique); }
    var batches := AssignGreedily(order, m, cost, Heaviest(cost, unique));
    SortedBatchesAreGood(cost, targets, limit, batches);
    LeadsSorted(cost, order, batches);
    result := SortEach(batches);
  }

  lemma LeadsSorted(cost: string -> real, order: seq<string>, batches: seq<seq<string>>)
    requires Leads(order, batches)
    ensures Leads(order, SortEach(batches))
  {
    SortEachFacts(cost, batches);
    forall k | 0 <= k < |batches| ensures order[k] in SortEach(batches)[k] { SortKeepsMembers(StringLeq, batches[k], order[k]); }
  }

  /** Each target in turn goes to the first of the lightest batches. */
  method AssignGreedily(order: seq<string>, m: nat, cost: string -> real, ghost bound: real)
    returns (result: seq<seq<string>>)
    requires 0 < m <= |order| && 0.0 <= bound && forall t :: t in order ==> Weight(cost, t) <= bound
    ensures |result| == m && (forall k :: 0 <= k < m ==> result[k] != [])
    ensures Partitions(result, order) && Balanced(cost, result, bound) && Leads(order, result)
  {
    hide GreedyState, Load, Weight, Partitions, Balanced;
    var batches := new seq<string>[m](_ => []);
    var weights := new real[m](_ => 0.0);
    GreedyStart(cost, batches[..], weights[..], bound);
    var i := 0;
    while i < |order|
      invariant 0 <= i <= |order|
      invariant GreedyState(cost, batches[..], weights[..], order[..i], bound)
      invariant forall k :: 0 <= k < i && k < m ==> order[k] in batches[k]
    {
      var t := order[i];
      assert t in order;
      var index := LightestIndex(weights[..]);
      ghost var placed := order[..i];
      assert order[..i + 1] == placed + [t];
      GreedyStep(cost, batches[..], weights[..], placed, bound, t);
      LightestFillsNext(cost, batches[..], weights[..], placed, bound);
      ghost var b, w := batches[..], weights[..];
      batches[index] := batches[index] + [t];
      weights[index] := weights[index] + Weight(cost, t);
      assert batches[..] == b[index := b[index] + [t]];
      assert weights[..] == w[index := w[index] + Weight(cost, t)];
      i := i + 1;
    }
    assert order[..i] == order;
    GreedyDone(cost, batches[..], weights[..], order, bound);
    result := batches[..];
  }

  lemma HeaviestFirstLength(cost: string -> real, targets: seq<string>)
    ensures |HeaviestFirst(cost, targets)| == |Unique(targets)|
  {
    SortPermutes((a, b) => HeavierFirst(cost, a, b), Unique(targets));
  }

  // ---------------------------------------------------------------- stable shards

  function Select(targets: seq<string>, digest: string -> nat, count: nat, index: nat): seq<string>
    requires count > 0
  {
    if targets == [] then []
    else
      var rest := Select(targets[..|targets| - 1], digest, count, index);
      if digest(targets[|targets| - 1]) % count == index then rest + [targets[|targets| - 1]] else rest
  }

  lemma {:induction false} SelectMembers(targets: seq<string>, digest: string -> nat, count: nat, index: nat, t: string)
    requires count > 0
    ensures t in Select(targets, digest, count, index) <==> t in targets && digest(t) % count == index
  {
    if targets != [] {
      var n := |targets| - 1;
      SelectMembers(targets[..n], digest, count, index, t);
      assert targets == targets[..n] + [targets[n]];
    }
  }

  function NonEmpty(shards: seq<seq<string>>): seq<seq<string>> {
    if shards == [] then []
    else (if shards[0] == [] then [] else [shards[0]]) + NonEmpty(shards[1..])
  }

  lemma {:induction false} NonEmptyFacts(shards: seq<seq<string>>, shard: seq<string>)
    ensures shard in NonEmpty(shards) <==> shard in shards && shard != []
    ensures |NonEmpty(shards)| <= |shards|
  {
    if shards != [] { NonEmptyFacts(shards[1..], shard); }
  }

  /** `_stable_target_shards`: a target's shard is told by its digest and the shard count alone. */
  method StableShards(targets: seq<string>, limit: int, digest: string -> nat) returns (result: seq<seq<string>>)
    ensures |result| <= BatchCount(|Unique(targets)|, limit)
    ensures forall shard :: shard in result ==> shard != []
    ensures forall t :: t in targets <==> exists shard :: shard in result && t in shard
    ensures forall shard, t, u :: shard in result && t in shard && u in targets ==>
      (u in shard <==> digest(t) % BatchCount(|Unique(targets)|, limit) == digest(u) % BatchCount(|Unique(targets)|, limit))
  {
    hide Sort, Unique, NonEmpty;
    var unique := Sort(StringLeq, Unique(targets));
    UniqueFacts(targets);
    SortPermutes(StringLeq, Unique(targets));
    forall t ensures t in unique <==> t in targets { SortKeepsMembers(StringLeq, Unique(targets), t); }
    if unique == [] { return []; }
    var count := BatchCount(|unique|, limit);
    var shards := new seq<string>[count](_ => []);
    var i := 0;
    while i < |unique|
      invariant 0 <= i <= |unique|
      invariant forall k :: 0 <= k < count ==> shards[k] == Select(unique[..i], digest, count, k)
    {
      var index := digest(unique[i]) % count;
      assert unique[..i + 1][..i] == unique[..i];
      shards[index] := shards[index] + [unique[i]];
      i := i + 1;
    }
    assert unique[..i] == unique;
    result := NonEmpty(shards[..]);
    forall shard ensures shard in result <==> shard in shards[..] && shard != [] { NonEmptyFacts(shards[..], shard); }
    NonEmptyFacts(shards[..], []);
    forall k, t | 0 <= k < count ensures t in shards[k] <==> t in unique && digest(t) % count == k {
      SelectMembers(unique, digest, count, k, t);
    }
    forall t | t in targets ensures exists shard :: shard in result && t in shard {
      var shard := shards[digest(t) % count];
      assert shard in shards[..] && t in shard;
    }
  }
}
