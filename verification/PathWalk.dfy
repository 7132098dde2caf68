/** Walking a path through symbolic links, as recursive pathname resolution does, with every link
    recorded. Section 4.13 of the Base Definitions volume of POSIX.1-2017 is the reference. */
module PathWalk {
  import opened Wrappers

  /** The components of an absolute path. */
  type Path = seq<string>

  /** Where a link points, from the root or from the directory it is in. */
  datatype Target = Target(absolute: bool, parts: Path)

  datatype Node = Missing | Denied | Directory | File | Link(target: Target)

  const LIMIT := 40

  /** The files, by their real paths, with the checkout and the links its executor registered there. */
  datatype World = World(nodes: map<Path, Node>, sandbox: Path, registered: map<Path, Path>) {
    function At(p: Path): Node {
      if p == [] then Directory else if p in nodes then nodes[p] else Missing
    }

    /** Is this the real path of a directory? */
    predicate RealDirectory(p: Path) {
      forall k | 0 <= k <= |p| :: At(p[..k]) == Directory
    }

    /** The real path of something that is there and is no link. */
    predicate Real(p: Path) {
      RealDirectory(p) || (p != [] && RealDirectory(p[..|p| - 1]) && At(p) == File)
    }

    /** Links inside the checkout are followed only if the executor registered them, to just this
        directory. */
    predicate MayFollow(link: Path, target: Target) {
      sandbox <= link ==>
        var rel := link[|sandbox|..];
        rel in registered && target == Target(true, registered[rel]) && RealDirectory(registered[rel])
    }
  }

  function Parent(p: Path): Path {
    if p == [] then [] else p[..|p| - 1]
  }

  function Start(current: Path, t: Target): Path {
    if t.absolute then [] else current
  }

  // ---------------------------------------------------------------- recursive resolution

  /** How a walk ends. `rest` is what could not be looked up any more. */
  datatype Outcome =
    | Reaches(path: Path)
    | NotThere(at: Path, rest: Path)
    | Forbidden(at: Path, rest: Path)
    | NotDirectory
    | Unregistered
    | TooManyLinks

  /** An outcome with the links that were followed, in order, and those that still may be. */
  datatype Walk = Walk(outcome: Outcome, followed: seq<Path>, left: nat)

  function Later(w: Walk, earlier: seq<Path>): Walk {
    w.(followed := earlier + w.followed)
  }

  /** Going on with `rest` after a link's target has been resolved. */
  function Unresolved(o: Outcome, rest: Path): Outcome {
    match o
    case NotThere(at, r) => NotThere(at, r + rest)
    case Forbidden(at, r) => Forbidden(at, r + rest)
    case _ => o
  }

  /** Pathname resolution: a link in the middle is resolved by itself before the rest is. */
  ghost function Resolve(w: World, current: Path, parts: Path, budget: nat): (r: Walk)
    ensures r.left <= budget
    decreases budget, |parts|
  {
    if parts == [] then Walk(Reaches(current), [], budget)
    else
      var rest := parts[1..];
      if parts[0] == ".." then Resolve(w, Parent(current), rest, budget)
      else
        var here := current + [parts[0]];
        match w.At(here)
        case Missing => Walk(NotThere(here, rest), [], budget)
        case Denied => Walk(Forbidden(here, rest), [], budget)
        case File => Walk(if rest == [] then Reaches(here) else NotDirectory, [], budget)
        case Directory => Resolve(w, here, rest, budget)
        case Link(target) =>
          if !w.MayFollow(here, target) then Walk(Unregistered, [], budget)
          else if budget == 0 then Walk(TooManyLinks, [here], 0)
          else
            var through := Later(Resolve(w, Start(current, target), target.parts, budget - 1), [here]);
            if !through.outcome.Reaches? then through.(outcome := Unresolved(through.outcome, rest))
            else if rest == [] then through
            else if w.At(through.outcome.path) != Directory then through.(outcome := NotDirectory)
            else Later(Resolve(w, through.outcome.path, rest, through.left), through.followed)
  }

  // ---------------------------------------------------------------- one loop

  /** The loop: a link's target goes before the components that are still pending. */
  ghost function Loop(w: World, current: Path, pending: Path, budget: nat): Walk
    decreases budget, |pending|
  {
    if pending == [] then Walk(Reaches(current), [], budget)
    else
      var rest := pending[1..];
      if pending[0] == ".." then Loop(w, Parent(current), rest, budget)
      else
        var here := current + [pending[0]];
        match w.At(here)
        case Missing => Walk(NotThere(here, rest), [], budget)
        case Denied => Walk(Forbidden(here, rest), [], budget)
        case File => if rest == [] then Walk(Reaches(here), [], budget) else Walk(NotDirectory, [], budget)
        case Directory => Loop(w, here, rest, budget)
        case Link(target) =>
          if !w.MayFollow(here, target) then Walk(Unregistered, [], budget)
          else if budget == 0 then Walk(TooManyLinks, [here], 0)
          else Later(Loop(w, Start(current, target), target.parts + rest, budget - 1), [here])
  }

  /** Going on with `rest` from where a walk came to. */
  ghost function Then(w: World, r: Walk, rest: Path): Walk {
    if !r.outcome.Reaches? then r.(outcome := Unresolved(r.outcome, rest))
    else if rest == [] then r
    else if w.At(r.outcome.path) != Directory then r.(outcome := NotDirectory)
    else Later(Loop(w, r.outcome.path, rest, r.left), r.followed)
  }

  lemma NothingEarlier(r: Walk)
    ensures Later(r, []) == r
  {
    assert [] + r.followed == r.followed;
  }

  lemma LaterLater(r: Walk, a: seq<Path>, b: seq<Path>)
    ensures Later(Later(r, b), a) == Later(r, a + b)
  {
    assert a + (b + r.followed) == a + b + r.followed;
  }

  lemma ThenLater(w: World, r: Walk, earlier: seq<Path>, rest: Path)
    ensures Then(w, Later(r, earlier), rest) == Later(Then(w, r, rest), earlier)
  {
    hide Loop;
    if r.outcome.Reaches? { LaterLater(Loop(w, r.outcome.path, rest, r.left), earlier, r.followed); }
  }

  lemma ParentReal(w: World, p: Path)
    requires w.RealDirectory(p)
    ensures w.RealDirectory(Parent(p))
  {
    forall k | 0 <= k <= |Parent(p)| ensures w.At(Parent(p)[..k]) == Directory { assert Parent(p)[..k] == p[..k]; }
  }

  lemma ChildReal(w: World, p: Path, name: string)
    requires w.RealDirectory(p)
    ensures w.At(p + [name]) == Directory ==> w.RealDirectory(p + [name])
    ensures w.At(p + [name]) == File ==> w.Real(p + [name])
    ensures Parent(p + [name]) == p
  {
    var here := p + [name];
    assert here[..|p|] == p && here[..|here|] == here;
    forall k | 0 <= k <= |p| ensures w.At(here[..k]) == Directory { assert here[..k] == p[..k]; }
  }

  lemma StartReal(w: World, current: Path, t: Target)
    requires w.RealDirectory(current)
    ensures w.RealDirectory(Start(current, t))
  {
  }

  /** A walk along two stretches is the first one, continued. */
  lemma {:induction false} LoopAppend(w: World, current: Path, a: Path, b: Path, budget: nat)
    requires w.RealDirectory(current)
    ensures Loop(w, current, a + b, budget) == Then(w, Loop(w, current, a, budget), b)
    decreases budget, |a|
  {
    if a == [] {
      assert a + b == b && current[..|current|] == current;
      NothingEarlier(Loop(w, current, b, budget));
    } else {
      var rest, here := a[1..], current + [a[0]];
      assert (a + b)[1..] == rest + b && (a + b)[0] == a[0];
      ChildReal(w, current, a[0]);
      if a[0] == ".." {
        ParentReal(w, current);
        LoopAppend(w, Parent(current), rest, b, budget);
      } else if w.At(here).Directory? {
        LoopAppend(w, here, rest, b, budget);
      } else if w.At(here).Link? && w.MayFollow(here, w.At(here).target) && budget > 0 {
        var t := w.At(here).target;
        StartReal(w, current, t);
        LoopAppend(w, Start(current, t), t.parts + rest, b, budget - 1);
        assert t.parts + (rest + b) == t.parts + rest + b;
        ThenLater(w, Loop(w, Start(current, t), t.parts + rest, budget - 1), [here], b);
      } else if w.At(here).File? {
        assert rest + b == [] <==> rest == [] && b == [];
      }
    }
  }

  /** What a walk ends at: a real path, or a name in a real directory that is missing or forbidden. */
  ghost predicate Grounded(w: World, o: Outcome) {
    match o
    case Reaches(p) => w.Real(p)
    case NotThere(at, _) => at != [] && w.RealDirectory(Parent(at)) && w.At(at) == Missing
    case Forbidden(at, _) => at != [] && w.RealDirectory(Parent(at)) && w.At(at) == Denied
    case _ => true
  }

  /** Every walk ends at a real path, and has followed as many links as it says, all of them permitted. */
  lemma {:induction false} LoopGrounded(w: World, current: Path, pending: Path, budget: nat)
    requires w.RealDirectory(current)
    ensures var r := Loop(w, current, pending, budget);
      && Grounded(w, r.outcome) && r.left <= budget
      && (r.outcome.TooManyLinks? ==> |r.followed| == budget + 1)
      && (!r.outcome.TooManyLinks? ==> |r.followed| + r.left == budget)
      && (forall f :: f in r.followed ==> w.At(f).Link? && w.MayFollow(f, w.At(f).target))
    decreases budget, |pending|
  {
    if pending != [] {
      var rest, here := pending[1..], current + [pending[0]];
      ChildReal(w, current, pending[0]);
      if pending[0] == ".." {
        ParentReal(w, current);
        LoopGrounded(w, Parent(current), rest, budget);
      } else if w.At(here).Directory? {
        LoopGrounded(w, here, rest, budget);
      } else if w.At(here).Link? && w.MayFollow(here, w.At(here).target) && budget > 0 {
        var t := w.At(here).target;
        StartReal(w, current, t);
        LoopGrounded(w, Start(current, t), t.parts + rest, budget - 1);
      }
    }
  }

  /** The loop is recursive pathname resolution. */
  lemma {:induction false} LoopResolves(w: World, current: Path, parts: Path, budget: nat)
    requires w.RealDirectory(current)
    ensures Loop(w, current, parts, budget) == Resolve(w, current, parts, budget)
    decreases budget, |parts|
  {
    if parts != [] {
      var rest, here := parts[1..], current + [parts[0]];
      ChildReal(w, current, parts[0]);
      if parts[0] == ".." {
        ParentReal(w, current);
        LoopResolves(w, Parent(current), rest, budget);
      } else if w.At(here).Directory? {
        LoopResolves(w, here, rest, budget);
      } else if w.At(here).Link? && w.MayFollow(here, w.At(here).target) && budget > 0 {
        LinkResolves(w, current, parts, budget);
      }
    }
  }

  lemma {:induction false} LinkResolves(w: World, current: Path, parts: Path, budget: nat)
    requires w.RealDirectory(current) && parts != [] && parts[0] != ".." && budget > 0
    requires var here := current + [parts[0]]; w.At(here).Link? && w.MayFollow(here, w.At(here).target)
    ensures Loop(w, current, parts, budget) == Resolve(w, current, parts, budget)
    decreases budget, |parts|, 0
  {
    var rest, here := parts[1..], current + [parts[0]];
    var t := w.At(here).target;
    var start := Start(current, t);
    StartReal(w, current, t);
    LoopAppend(w, start, t.parts, rest, budget - 1);
    LoopResolves(w, start, t.parts, budget - 1);
    LoopGrounded(w, start, t.parts, budget - 1);
    var through := Resolve(w, start, t.parts, budget - 1);
    ThenLater(w, through, [here], rest);
    if through.outcome.Reaches? && rest != [] && w.At(through.outcome.path) == Directory {
      LoopResolves(w, through.outcome.path, rest, through.left);
    }
  }

  /** A walk that stays within its limit does not depend on it. */
  lemma {:induction false} LimitDoesNotMatter(w: World, current: Path, pending: Path, budget: nat, more: nat)
    requires !Loop(w, current, pending, budget).outcome.TooManyLinks?
    ensures var r, s := Loop(w, current, pending, budget), Loop(w, current, pending, budget + more);
      s == r.(left := r.left + more)
    decreases budget, |pending|
  {
    if pending != [] {
      var rest, here := pending[1..], current + [pending[0]];
      if pending[0] == ".." {
        LimitDoesNotMatter(w, Parent(current), rest, budget, more);
      } else if w.At(here).Directory? {
        LimitDoesNotMatter(w, here, rest, budget, more);
      } else if w.At(here).Link? && w.MayFollow(here, w.At(here).target) && budget > 0 {
        var t := w.At(here).target;
        LimitDoesNotMatter(w, Start(current, t), t.parts + rest, budget - 1, more);
      }
    }
  }

  /** ... and one that exceeds it follows more links than that under any larger limit too. */
  lemma {:induction false} TooManyIsTooMany(w: World, current: Path, pending: Path, budget: nat, more: nat)
    requires Loop(w, current, pending, budget).outcome.TooManyLinks?
    ensures |Loop(w, current, pending, budget + more).followed| > budget
    decreases budget, |pending|
  {
    var rest, here := pending[1..], current + [pending[0]];
    if pending[0] == ".." {
      TooManyIsTooMany(w, Parent(current), rest, budget, more);
    } else if w.At(here).Directory? {
      TooManyIsTooMany(w, here, rest, budget, more);
    } else if budget > 0 {
      var t := w.At(here).target;
      TooManyIsTooMany(w, Start(current, t), t.parts + rest, budget - 1, more);
    }
  }

  // ---------------------------------------------------------------- resolution by rewriting from the root

  /** Going down a real directory changes nothing. */
  lemma {:induction false} ThroughReal(w: World, d: Path, rest: Path, budget: nat)
    requires w.RealDirectory(d) && ".." !in d
    ensures Loop(w, [], d + rest, budget) == Loop(w, d, rest, budget)
  {
    if d == [] {
      assert d + rest == rest;
    } else {
      var up, name := d[..|d| - 1], d[|d| - 1];
      assert d == up + [name] && d + rest == up + ([name] + rest) && ([name] + rest)[1..] == rest;
      assert d[..|d|] == d;
      ParentReal(w, d);
      ThroughReal(w, up, [name] + rest, budget);
    }
  }

  /** Told from the root, a real path comes to itself, with no link followed. */
  lemma RealIsItself(w: World, d: Path, name: string, budget: nat)
    requires w.RealDirectory(d) && ".." !in d && name != ".."
    ensures Resolve(w, [], d, budget) == Walk(Reaches(d), [], budget)
    ensures w.At(d + [name]) == File ==> Resolve(w, [], d + [name], budget) == Walk(Reaches(d + [name]), [], budget)
  {
    FromRoot(w, d, budget);
    FromRoot(w, d + [name], budget);
    ThroughReal(w, d, [], budget);
    ThroughReal(w, d, [name], budget);
    assert d + [] == d && [name][1..] == [];
  }

  /** After a real directory a parent step takes its last component away, and at the root nothing. */
  lemma ParentStep(w: World, d: Path, rest: Path, budget: nat)
    requires w.RealDirectory(d) && ".." !in d
    ensures Resolve(w, [], d + [".."] + rest, budget) == Resolve(w, [], d[..if d == [] then 0 else |d| - 1] + rest, budget)
  {
    var up, shorter := [".."] + rest, d[..if d == [] then 0 else |d| - 1];
    assert d + [".."] + rest == d + up && up[1..] == rest;
    FromRoot(w, d + up, budget);
    FromRoot(w, shorter + rest, budget);
    ThroughReal(w, d, up, budget);
    ParentReal(w, d);
    ThroughReal(w, shorter, rest, budget);
  }

  /** After a real directory a permitted link stands for its target, taken from the root when that is
      absolute and from the link's own directory when it is not. */
  lemma LinkStep(w: World, d: Path, name: string, t: Target, rest: Path, budget: nat)
    requires w.RealDirectory(d) && ".." !in d && name != ".." && budget > 0
    requires w.At(d + [name]) == Link(t) && w.MayFollow(d + [name], t)
    ensures Resolve(w, [], d + [name] + rest, budget)
         == Later(Resolve(w, [], (if t.absolute then t.parts else d + t.parts) + rest, budget - 1), [d + [name]])
  {
    var further := [name] + rest;
    assert d + [name] + rest == d + further && further[1..] == rest;
    FromRoot(w, d + further, budget);
    ThroughReal(w, d, further, budget);
    if t.absolute {
      FromRoot(w, t.parts + rest, budget - 1);
    } else {
      assert d + t.parts + rest == d + (t.parts + rest);
      FromRoot(w, d + (t.parts + rest), budget - 1);
      ThroughReal(w, d, t.parts + rest, budget - 1);
    }
  }

  lemma FromRoot(w: World, p: Path, budget: nat)
    ensures Resolve(w, [], p, budget) == Loop(w, [], p, budget)
  {
    LoopResolves(w, [], p, budget);
  }

  /** A link inside the checkout is followed only when the executor registered just that absolute target
      under the link's place, and it is a real directory; one outside always. */
  lemma FollowedRegistered(w: World, parts: Path, budget: nat)
    ensures forall f :: f in Resolve(w, [], parts, budget).followed && w.sandbox <= f ==>
      var rel := f[|w.sandbox|..];
      && rel in w.registered && w.At(f) == Link(Target(true, w.registered[rel]))
      && forall k | 0 <= k <= |w.registered[rel]| :: w.At(w.registered[rel][..k]) == Directory
    ensures Resolve(w, [], parts, budget).outcome.Unregistered? ==>
      exists d: Path, name :: w.RealDirectory(d) && w.sandbox <= d + [name] && w.At(d + [name]).Link? && Refuses(w, d + [name])
  {
    LoopResolves(w, [], parts, budget);
    LoopGrounded(w, [], parts, budget);
    if Resolve(w, [], parts, budget).outcome.Unregistered? { var link := UnregisteredLink(w, [], parts, budget); }
  }

  /** Nothing is registered under the link's place, or something else than its target, or no real directory. */
  predicate Refuses(w: World, f: Path)
    requires w.sandbox <= f && w.At(f).Link?
  {
    var rel, t := f[|w.sandbox|..], w.At(f).target;
    rel !in w.registered || !t.absolute || t.parts != w.registered[rel] || !w.RealDirectory(w.registered[rel])
  }

  lemma {:induction false} UnregisteredLink(w: World, current: Path, pending: Path, budget: nat) returns (link: (Path, string))
    requires w.RealDirectory(current) && Loop(w, current, pending, budget).outcome.Unregistered?
    ensures var f := link.0 + [link.1];
      w.RealDirectory(link.0) && w.sandbox <= f && w.At(f).Link? && Refuses(w, f)
    decreases budget, |pending|
  {
    var rest, here := pending[1..], current + [pending[0]];
    ChildReal(w, current, pending[0]);
    if pending[0] == ".." {
      ParentReal(w, current);
      link := UnregisteredLink(w, Parent(current), rest, budget);
    } else if w.At(here).Directory? {
      link := UnregisteredLink(w, here, rest, budget);
    } else if w.MayFollow(here, w.At(here).target) {
      var t := w.At(here).target;
      StartReal(w, current, t);
      link := UnregisteredLink(w, Start(current, t), t.parts + rest, budget - 1);
    } else {
      link := (current, pending[0]);
    }
  }

  // ---------------------------------------------------------------- the walk as the executor runs it

  datatype Reason = PastMissing | ThroughDenied | ThroughNonDirectory | ProjectLink | LinkLoop

  datatype Observed = Found(path: Path, links: map<Path, Target>, missing: Option<Path>) | Refused(reason: Reason)

  function LinksOf(w: World, followed: seq<Path>): map<Path, Target> {
    map f | f in followed && w.At(f).Link? :: w.At(f).target
  }

  /** What is reported of a walk. */
  function Report(w: World, r: Walk): Observed {
    var links := LinksOf(w, r.followed);
    match r.outcome
    case Reaches(p) => Found(p, links, None)
    case NotThere(at, rest) => if ".." in rest then Refused(PastMissing) else Found(at + rest, links, Some(at))
    case Forbidden(at, rest) => if rest != [] then Refused(ThroughDenied) else Found(at, links, None)
    case NotDirectory => Refused(ThroughNonDirectory)
    case Unregistered => Refused(ProjectLink)
    case TooManyLinks => Refused(LinkLoop)
  }

  /** `_resolve_observed_path` of an absolute path: it terminates on every file system and reports what
      recursive resolution comes to. */
  method ResolveObservedPath(w: World, parts: Path) returns (result: Observed)
    ensures result == Report(w, Resolve(w, [], parts, LIMIT))
  {
    LoopResolves(w, [], parts, LIMIT);
    var current: Path, pending, followed := [], parts, 0;
    var links: map<Path, Target> := map[];
    ghost var done: seq<Path> := [];
    NothingEarlier(Loop(w, [], parts, LIMIT));
    hide Resolve, Loop, Later;
    while pending != []
      invariant followed <= LIMIT && |done| == followed && links == LinksOf(w, done)
      invariant Loop(w, [], parts, LIMIT) == Later(Loop(w, current, pending, LIMIT - followed), done)
      decreases LIMIT - followed, |pending|
    {
      LoopStep(w, current, pending, LIMIT - followed, done);
      var part := pending[0];
      pending := pending[1..];
      if part == ".." {
        current := Parent(current);
        continue;
      }
      var candidate := current + [part];
      match w.At(candidate)
      case Missing =>
        if ".." in pending { return Refused(PastMissing); }
        return Found(candidate + pending, links, Some(candidate));
      case Denied =>
        if pending != [] { return Refused(ThroughDenied); }
        return Found(candidate, links, None);
      case Link(target) =>
        if !w.MayFollow(candidate, target) { return Refused(ProjectLink); }
        links := links[candidate := target];
        followed := followed + 1;
        if followed > LIMIT { return Refused(LinkLoop); }
        LinksGrow(w, done, candidate);
        done := done + [candidate];
        current := Start(current, target);
        pending := target.parts + pending;
      case File =>
        if pending != [] { return Refused(ThroughNonDirectory); }
        current := candidate;
      case Directory =>
        current := candidate;
    }
    Ended(w, current, LIMIT - followed, done);
    result := Found(current, links, None);
  }

  lemma Ended(w: World, current: Path, budget: nat, done: seq<Path>)
    ensures Later(Loop(w, current, [], budget), done) == Walk(Reaches(current), done, budget)
  {
    assert done + [] == done;
  }

  lemma LinksGrow(w: World, done: seq<Path>, link: Path)
    requires w.At(link).Link?
    ensures LinksOf(w, done + [link]) == LinksOf(w, done)[link := w.At(link).target]
  {
  }

  /** One turn of the loop. */
  lemma LoopStep(w: World, current: Path, pending: Path, budget: nat, done: seq<Path>)
    requires pending != []
    ensures var rest, here := pending[1..], current + [pending[0]];
      var r := Later(Loop(w, current, pending, budget), done);
      if pending[0] == ".." then r == Later(Loop(w, Parent(current), rest, budget), done)
      else match w.At(here)
        case Missing => r == Walk(NotThere(here, rest), done, budget)
        case Denied => r == Walk(Forbidden(here, rest), done, budget)
        case File => if rest == [] then r == Later(Loop(w, here, rest, budget), done) else r.outcome == NotDirectory
        case Directory => r == Later(Loop(w, here, rest, budget), done)
        case Link(target) =>
          if !w.MayFollow(here, target) then r.outcome == Unregistered
          else if budget == 0 then r.outcome == TooManyLinks
          else r == Later(Loop(w, Start(current, target), target.parts + rest, budget - 1), done + [here])
  {
    var here := current + [pending[0]];
    assert done + [] == done;
    if pending[0] != ".." && w.At(here).Link? && w.MayFollow(here, w.At(here).target) && budget > 0 {
      LaterLater(Loop(w, Start(current, w.At(here).target), w.At(here).target.parts + pending[1..], budget - 1), done, [here]);
    }
  }

  /** After a real directory, how a walk ends at a name that is missing, forbidden or no directory. */
  lemma EndsAt(w: World, d: Path, name: string, rest: Path)
    requires w.RealDirectory(d) && ".." !in d && name != ".."
    ensures var at, r := d + [name], Report(w, Resolve(w, [], d + [name] + rest, LIMIT));
      && (w.At(at) == Missing ==> r == if ".." in rest then Refused(PastMissing) else Found(at + rest, map[], Some(at)))
      && (w.At(at) == Denied ==> r == if rest == [] then Found(at, map[], None) else Refused(ThroughDenied))
      && (w.At(at) == File && rest != [] ==> r == Refused(ThroughNonDirectory))
  {
    var further := [name] + rest;
    assert d + [name] + rest == d + further && further[1..] == rest;
    FromRoot(w, d + further, LIMIT);
    ThroughReal(w, d, further, LIMIT);
  }

  /** Forty links may be followed, and no more: a path that needs more is refused, and any other comes to
      what it would come to with no limit in the way. */
  lemma FortyLinks(w: World, parts: Path, enough: nat)
    requires !Resolve(w, [], parts, enough).outcome.TooManyLinks?
    ensures var r := Resolve(w, [], parts, LIMIT);
      && (r.outcome.TooManyLinks? <==> |Resolve(w, [], parts, enough).followed| > 40)
      && (!r.outcome.TooManyLinks? ==> r.outcome == Resolve(w, [], parts, enough).outcome)
  {
    FromRoot(w, parts, LIMIT);
    FromRoot(w, parts, enough);
    LoopGrounded(w, [], parts, enough);
    LoopGrounded(w, [], parts, LIMIT);
    hide Loop, Resolve;
    if enough <= LIMIT {
      LimitDoesNotMatter(w, [], parts, enough, LIMIT - enough);
    } else if Loop(w, [], parts, LIMIT).outcome.TooManyLinks? {
      TooManyIsTooMany(w, [], parts, LIMIT, enough - LIMIT);
    } else {
      LimitDoesNotMatter(w, [], parts, LIMIT, enough - LIMIT);
    }
  }

  /** What a found path is: free of links if it is there, a name in a link-free directory if not. */
  lemma FoundIsReal(w: World, parts: Path)
    ensures var r := Report(w, Resolve(w, [], parts, LIMIT));
      r.Found? ==>
        if r.missing.Some? then
          Missing == w.At(r.missing.value) && r.missing.value <= r.path && r.missing.value != []
          && w.RealDirectory(Parent(r.missing.value)) && ".." !in r.path[|r.missing.value|..]
        else w.Real(r.path) || (r.path != [] && w.RealDirectory(Parent(r.path)) && w.At(r.path) == Denied)
  {
    LoopResolves(w, [], parts, LIMIT);
    LoopGrounded(w, [], parts, LIMIT);
    hide Resolve, Loop;
  }

  /** Every link on the way is recorded with its target, was permitted, and nothing else is recorded. */
  lemma FoundLinks(w: World, parts: Path)
    ensures var r, followed := Report(w, Resolve(w, [], parts, LIMIT)), Resolve(w, [], parts, LIMIT).followed;
      r.Found? ==>
        && |followed| <= LIMIT && (forall f :: f in r.links <==> f in followed)
        && (forall f :: f in r.links ==> w.At(f) == Link(r.links[f]) && w.MayFollow(f, r.links[f]))
  {
    LoopResolves(w, [], parts, LIMIT);
    LoopGrounded(w, [], parts, LIMIT);
    var walk := Resolve(w, [], parts, LIMIT);
    hide Resolve, Loop, Grounded;
  }
}
