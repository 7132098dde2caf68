/** Lifecycle of one registered artifact: its durable row, the two places its inode can be, and
    crashes between any two durable effects. */
module ArtifactStorage {
  import opened Wrappers

  datatype Kind =
    | Scratch | Incomplete | Cache | Environment | Log | Evidence | Recovery | Worktree | Permanent

  datatype State = Live | Released | Quarantining | Quarantined | Deleting | Deleted

  /** A process identity: pid, start ticks and boot. */
  type Owner = nat

  /** `trash` tells whether the row names a quarantine path; `pin` is empty when unpinned. */
  datatype Row = Row(
    id: nat, inode: nat, kind: Kind, scope: string, state: State, leases: set<Owner>, references: set<string>,
    pin: string, trash: bool, candidate: bool, revision: nat)

  /** What stands at a path. A directory whose removal was cut short is no longer intact. */
  datatype Object = Nothing | Thing(inode: nat, intact: bool)

  /** The durable world: the row, the original path, the quarantine path, and whether the object
      was ever taken away by someone else (an outsider, or git removing a worktree). */
  datatype World = World(row: Option<Row>, original: Object, trashed: Object, lostOutside: bool)

  predicate Holds(o: Object, r: Row) {
    o.Thing? && o.inode == r.inode
  }

  predicate Maintenance(s: State) {
    s == Quarantining || s == Quarantined || s == Deleting
  }

  predicate Somewhere(w: World)
    requires w.row.Some?
  {
    Holds(w.original, w.row.value) || Holds(w.trashed, w.row.value)
  }

  /** What holds at every moment, also between two durable effects of one operation. */
  ghost predicate Consistent(w: World) {
    // damaged only after the row was saved as deleting
    && (w.original.Thing? && !w.original.intact ==>
          w.row.Some? && Holds(w.original, w.row.value) && w.row.value.state == Deleting)
    && (w.trashed.Thing? && !w.trashed.intact ==>
          w.row.Some? && Holds(w.trashed, w.row.value) && w.row.value.state == Deleting)
    && (w.row.Some? ==>
      var r := w.row.value;
      && !(Holds(w.original, r) && Holds(w.trashed, r))
      && (r.state == Live || r.state == Released ==> !r.trash && !Holds(w.trashed, r))
      && (r.state == Quarantining || r.state == Quarantined ==> r.trash)
      && (r.state == Deleting && r.trash ==> !Holds(w.original, r))
      && (r.state == Deleting && !r.trash ==> !Holds(w.trashed, r))
      && (r.state == Deleted ==> !Somewhere(w))
      && (Maintenance(r.state) ==> r.kind != Worktree)
      // lost only after the row was saved as deleting, or by someone else's hand
      && (!Somewhere(w) ==> r.state == Deleting || r.state == Deleted || w.lostOutside))
  }

  /** The object is gone, and someone else took it. */
  predicate Lost(w: World)
    requires w.row.Some?
  {
    w.lostOutside && !Somewhere(w)
  }

  /** The row says where the inode is, unless it is lost. */
  ghost predicate Agrees(w: World) {
    w.row.Some? ==>
      var r := w.row.value;
      match r.state
      case Live => Holds(w.original, r) || Lost(w)
      case Released => Holds(w.original, r) || Lost(w)
      case Quarantining => Lost(w)
      case Quarantined => Holds(w.trashed, r) || Lost(w)
      case Deleting => Holds(if r.trash then w.trashed else w.original, r)
      case Deleted => !Somewhere(w)
  }

  predicate Alive(o: Owner, dead: set<Owner>) {
    o !in dead
  }

  /** No live lease, no pin, and not permanent. */
  ghost predicate Unprotected(r: Row, dead: set<Owner>) {
    && r.kind != Permanent
    && r.pin == ""
    && forall o :: o in r.leases ==> !Alive(o, dead)
  }

  /** Protected artifacts are never under maintenance. */
  ghost predicate ProtectedStayOut(w: World, dead: set<Owner>) {
    w.row.Some? && Maintenance(w.row.value.state) ==> Unprotected(w.row.value, dead)
  }

  /** `_save`: one committed row write. */
  function Save(w: World, r: Row): World {
    w.(row := Some(r.(revision := r.revision + 1)))
  }

  function Target(w: World): Object
    requires w.row.Some?
  {
    if w.row.value.trash then w.trashed else w.original
  }

  function WithTarget(w: World, o: Object): World
    requires w.row.Some?
  {
    if w.row.value.trash then w.(trashed := o) else w.(original := o)
  }

  function Damage(o: Object): Object {
    if o.Thing? then o.(intact := false) else o
  }

  // ---------------------------------------------------------------- classification

  datatype Reason = IsDeleted | Protected | Missing | Unknown | QuarantineGrace | Retention | Eligible

  /** What the clocks, the retention policy and the reference adapters say at one moment. */
  datatype Surroundings = Surroundings(referencedElsewhere: bool, graceOver: bool, retentionOver: bool)

  predicate IsProtected(r: Row, dead: set<Owner>, around: Surroundings) {
    || r.kind == Permanent
    || r.pin != ""
    || (r.references != {} && !r.candidate)
    || (exists o | o in r.leases :: Alive(o, dead))
    || around.referencedElsewhere
  }

  /** `classify` of the row `r` against the disk of `w`. */
  function Classify(r: Row, w: World, dead: set<Owner>, around: Surroundings): Reason {
    if r.state == Deleted then IsDeleted
    else if IsProtected(r, dead, around) then Protected
    else
      var target := if r.trash then w.trashed else w.original;
      if target.Nothing? then Missing
      else if target.inode != r.inode then Unknown
      else if r.state == Deleting then Eligible
      else if Maintenance(r.state) then (if around.graceOver then Eligible else QuarantineGrace)
      else if around.retentionOver then Eligible else Retention
  }

  // ---------------------------------------------------------------- reconciliation

  /** Does `_reconcile` refuse because something else stands where it looks? */
  predicate ReconcileRefuses(w: World) {
    w.row.Some? && Maintenance(w.row.value.state) &&
    var r := w.row.value;
    if r.trash && w.trashed.Thing? then w.trashed.inode != r.inode
    else w.original.Thing? && r.trash && r.state != Deleting && w.original.inode != r.inode
  }

  function Reconcile(w: World): World {
    if w.row.None? || !Maintenance(w.row.value.state) || ReconcileRefuses(w) then w
    else
      var r := w.row.value;
      if r.trash && w.trashed.Thing? then
        if r.state == Quarantining then Save(w, r.(state := Quarantined)) else w
      else if w.original.Thing? && r.trash && r.state != Deleting then
        Save(w, r.(state := Released, trash := false))
      else if r.state == Deleting && w.original.Nothing? && (!r.trash || w.trashed.Nothing?) then
        Save(w, r.(state := Deleted))
      else w
  }

  /** What one reconciliation can settle: a row that is being quarantined, with its own object or none
      at its quarantine path, and a row that is being deleted, with its object still there or nothing
      at all where `_reconcile` looks. */
  predicate Settles(w: World) {
    w.row.Some? ==>
      var r := w.row.value;
      match r.state
      case Quarantining => (w.trashed.Thing? ==> Holds(w.trashed, r)) || Lost(w)
      case Quarantined => (w.trashed.Thing? ==> Holds(w.trashed, r)) || Lost(w)
      case Deleting => Holds(Target(w), r) || (w.original.Nothing? && (!r.trash || w.trashed.Nothing?))
      case _ => true
  }

  /** From every consistent world, crash points with strangers' objects about included: after one
      reconciliation the row says where the inode is exactly when the world is one it can settle. */
  lemma ReconcileSettles(w: World)
    requires Consistent(w)
    ensures Consistent(Reconcile(w))
    ensures Agrees(Reconcile(w)) <==> Settles(w)
    ensures Reconcile(w).original == w.original && Reconcile(w).trashed == w.trashed
    ensures Reconcile(w).row.Some? <==> w.row.Some?
  {
  }

  /** A second reconciliation finds nothing left to do. */
  lemma ReconcileIdempotent(w: World)
    requires Consistent(w)
    ensures Reconcile(Reconcile(w)) == Reconcile(w)
  {
  }

  // ---------------------------------------------------------------- removal and its crash points

  /** The worlds `_delete` passes through, one durable effect apart. `cutShort` is a removal that
      runs out of time half way. */
  function DeleteTrail(w: World, immediate: bool, cutShort: bool): (trail: seq<World>)
    requires w.row.Some?
    ensures trail != [] && trail[0] == w
  {
    (if w.row.value.candidate then [w, Retired(w)] else [w])
      + RemovalTrail(Retired(w), immediate || w.row.value.candidate, cutShort)
  }

  function RemovalTrail(v: World, immediate: bool, cutShort: bool): seq<World>
    requires v.row.Some?
  {
    var r := v.row.value;
    if r.kind == Worktree then
      var gone := v.(original := Nothing, lostOutside := true);
      [gone, Save(gone, r.(state := Deleted))]
    else if !immediate && !Maintenance(r.state) && r.kind != Scratch && r.kind != Incomplete then
      var announced := Save(v, r.(state := Quarantining, trash := true));
      var moved := announced.(original := Nothing, trashed := v.original);
      [announced, moved, Save(moved, moved.row.value.(state := Quarantined))]
    else
      var announced := Save(v, r.(state := Deleting));
      if cutShort then [announced, WithTarget(announced, Damage(Target(announced)))]
      else
        var removed := WithTarget(announced, Nothing);
        [announced, removed, Save(removed, removed.row.value.(state := Deleted))]
  }

  /** When `_delete` goes ahead: the inode is where the row points. */
  predicate Deletable(w: World) {
    w.row.Some? && w.row.value.state != Deleted && Holds(Target(w), w.row.value)
  }

  /** The world just before removal proper: a retired candidate's references are cleared first. */
  function Retired(w: World): World
    requires w.row.Some?
  {
    if w.row.value.candidate then Save(w, w.row.value.(references := {})) else w
  }

  /** Where the trail is before the removal proper and where it is on it. */
  lemma TrailIndex(w: World, immediate: bool, cutShort: bool)
    requires w.row.Some?
    ensures var trail := DeleteTrail(w, immediate, cutShort);
      var tail := RemovalTrail(Retired(w), immediate || w.row.value.candidate, cutShort);
      var h := if w.row.value.candidate then 2 else 1;
      && |trail| == h + |tail| && trail[0] == w && trail[h - 1] == Retired(w)
      && forall k :: h <= k < |trail| ==> trail[k] == tail[k - h]
  {
    hide RemovalTrail;
  }

  /** A point of the trail is before the removal proper or on it. */
  lemma TrailPoint(w: World, immediate: bool, cutShort: bool, k: nat)
    requires w.row.Some? && k < |DeleteTrail(w, immediate, cutShort)|
    ensures var c := DeleteTrail(w, immediate, cutShort)[k];
      var tail := RemovalTrail(Retired(w), immediate || w.row.value.candidate, cutShort);
      c == w || c == Retired(w) || exists i :: 0 <= i < |tail| && tail[i] == c
  {
    hide RemovalTrail, DeleteTrail;
    TrailIndex(w, immediate, cutShort);
  }

  lemma RemovalHappens(v: World, immediate: bool, cutShort: bool)
    requires v.row.Some?
    ensures RemovalTrail(v, immediate, cutShort) != []
  {
  }

  /** What a world on the way to removal satisfies, whatever the disk holds. */
  ghost predicate GuardedPoint(w: World, dead: set<Owner>, c: World) {
    && ProtectedStayOut(c, dead)
    && w.row.Some? && c.row.Some? && c.row.value.id == w.row.value.id
    && c.row.value.inode == w.row.value.inode
    && w.row.value.revision <= c.row.value.revision
    && (w.row.value.revision == c.row.value.revision ==> c.row == w.row)
  }

  ghost predicate CrashPoint(w: World, dead: set<Owner>, c: World) {
    GuardedPoint(w, dead, c) && (Consistent(w) ==> Consistent(c))
  }

  lemma RemovalCrashSafe(v: World, dead: set<Owner>, immediate: bool, cutShort: bool, i: nat)
    requires Deletable(v) && Unprotected(v.row.value, dead)
    requires i < |RemovalTrail(v, immediate, cutShort)|
    ensures CrashPoint(v, dead, RemovalTrail(v, immediate, cutShort)[i])
  {
    var c := RemovalTrail(v, immediate, cutShort)[i];
    if v.row.value.kind == Worktree {
    } else if !immediate && !Maintenance(v.row.value.state) && v.row.value.kind != Scratch && v.row.value.kind != Incomplete {
      if i == 0 { } else if i == 1 { } else { }
    } else if v.row.value.trash {
      if i == 0 { } else if i == 1 { } else { }
    } else {
      if i == 0 { } else if i == 1 { } else { }
    }
  }

  /** Crashing between any two durable effects of a removal leaves a protected artifact out of it, and a
      consistent world consistent. */
  lemma DeleteCrashSafe(w: World, dead: set<Owner>, immediate: bool, cutShort: bool, k: nat)
    requires Deletable(w) && Unprotected(w.row.value, dead)
    requires k < |DeleteTrail(w, immediate, cutShort)|
    ensures CrashPoint(w, dead, DeleteTrail(w, immediate, cutShort)[k])
  {
    hide DeleteTrail, RemovalTrail;
    TrailPoint(w, immediate, cutShort, k);
    var v := Retired(w);
    var tail := RemovalTrail(v, immediate || w.row.value.candidate, cutShort);
    var c := DeleteTrail(w, immediate, cutShort)[k];
    if c != w && c != v {
      var i :| 0 <= i < |tail| && tail[i] == c;
      RemovalCrashSafe(v, dead, immediate || w.row.value.candidate, cutShort, i);
    }
  }

  lemma NeverLostOutside(w: World, immediate: bool, cutShort: bool, k: nat)
    requires w.row.Some? && w.row.value.kind != Worktree && !w.lostOutside
    requires k < |DeleteTrail(w, immediate, cutShort)|
    ensures !DeleteTrail(w, immediate, cutShort)[k].lostOutside
  {
    TrailPoint(w, immediate, cutShort, k);
  }

  lemma RemovalEnds(c: World)
    requires Consistent(c) && Deletable(c)
    ensures var trail := DeleteTrail(c, true, false);
      trail[|trail| - 1].row.value.state == Deleted && !Somewhere(trail[|trail| - 1])
  {
    TrailIndex(c, true, false);
  }

  /** What is removed at once: scratch and worktrees, what is under maintenance, and retired candidates. */
  predicate AtOnce(r: Row, immediate: bool) {
    immediate || r.candidate || r.kind == Worktree || r.kind == Scratch || r.kind == Incomplete || Maintenance(r.state)
  }

  /** Where an uninterrupted removal ends: with the row deleted and the object gone, or, for what may
      still be wanted, with the object moved as it was to the quarantine path, which the row names. */
  lemma RemovalCompletes(w: World, immediate: bool)
    requires Deletable(w)
    ensures var trail := DeleteTrail(w, immediate, false);
      var end := trail[|trail| - 1];
      && 0 < |trail| <= 5 && end.row.Some? && end.row.value.id == w.row.value.id && end.row.value.inode == w.row.value.inode
      && (AtOnce(w.row.value, immediate) ==> end.row.value.state == Deleted)
      && (!AtOnce(w.row.value, immediate) ==>
            end.row.value.state == Quarantined && end.row.value.trash && end.trashed == w.original && end.original.Nothing?)
      && (Consistent(w) && AtOnce(w.row.value, immediate) ==> !Somewhere(end) && Target(end).Nothing?)
  {
    TrailIndex(w, immediate, false);
  }

  /** A removal that runs out of time half way leaves the object where it is, damaged, and the row saying that
      it is being deleted. */
  lemma RemovalCutShort(w: World, immediate: bool)
    requires Deletable(w) && AtOnce(w.row.value, immediate) && w.row.value.kind != Worktree
    ensures var trail := DeleteTrail(w, immediate, true);
      var end := trail[|trail| - 1];
      && end.row.Some? && end.row.value.state == Deleting && end.row.value.trash == w.row.value.trash
      && Target(end) == Thing(w.row.value.inode, false)
  {
    TrailIndex(w, immediate, true);
  }

  // ---------------------------------------------------------------- recovery

  /** Someone puts an object of their own at the original path, if that is vacant. */
  function Visited(w: World, outsider: Option<nat>): World {
    if outsider.Some? && w.original.Nothing? && (w.row.Some? ==> w.row.value.inode != outsider.value)
    then w.(original := Thing(outsider.value, true)) else w
  }

  /** What a scan or `clean_artifact` leaves of a row it does not remove: reconciled and classified, a
      missing one recorded as deleted. A reconciliation that refuses ends it. */
  function Scanned(w: World, dead: set<Owner>, around: Surroundings): World {
    if w.row.None? || ReconcileRefuses(w) then w
    else
      var c := Reconcile(w);
      Save(c, if Classify(c.row.value, c, dead, around) == Missing then c.row.value.(state := Deleted) else c.row.value)
  }

  /** Something else stands where a row under maintenance says its object is. */
  predicate Blocked(w: World) {
    w.row.Some? &&
    var r := w.row.value;
    && Maintenance(r.state) && Target(w).Thing? && !Holds(Target(w), r)
    && (r.state == Deleting || !Lost(w))
  }

  /** What a scan can settle: every unprotected row that is not blocked, and of the protected ones those
      that reconciliation alone can settle. */
  predicate ScanCan(w: World, dead: set<Owner>, around: Surroundings) {
    w.row.Some? ==> if IsProtected(w.row.value, dead, around) then Settles(w) else !Blocked(w)
  }

  /** For every consistent world: after a scan the row says where the inode is exactly when the world is
      one it can settle. */
  lemma ScanSettles(w: World, dead: set<Owner>, around: Surroundings)
    requires Consistent(w)
    ensures Consistent(Scanned(w, dead, around))
    ensures Agrees(Scanned(w, dead, around)) <==> ScanCan(w, dead, around)
  {
    if w.row.Some? && IsProtected(w.row.value, dead, around) {
      ProtectedScanned(w, dead, around);
      ReconcileSettles(w);
    } else if w.row.Some? {
      UnprotectedScanned(w, dead, around);
    }
  }

  lemma UnprotectedScanned(w: World, dead: set<Owner>, around: Surroundings)
    requires Consistent(w) && w.row.Some? && !IsProtected(w.row.value, dead, around)
    ensures Consistent(Scanned(w, dead, around))
    ensures Agrees(Scanned(w, dead, around)) <==> !Blocked(w)
  {
    if !ReconcileRefuses(w) {
      var c := Reconcile(w);
      ReconcileSettles(w);
      var r := c.row.value;
      assert r.kind == w.row.value.kind && r.leases == w.row.value.leases && !IsProtected(r, dead, around);
      assert Classify(r, c, dead, around) == Missing <==> r.state != Deleted && Target(c).Nothing?;
      hide IsProtected, Classify;
      assert Consistent(c) && (Agrees(c) <==> Settles(w));
      ReconcileLeaves(w);
      hide Reconcile, Settles, Blocked, ReconcileRefuses;
    } else {
      hide Classify, IsProtected;
    }
  }

  /** What is not settled then is missing from its target, and nowhere else, or blocked. */
  lemma ReconcileLeaves(w: World)
    requires Consistent(w) && w.row.Some? && !ReconcileRefuses(w)
    ensures var c := Reconcile(w);
      var missing := c.row.value.state != Deleted && Target(c).Nothing?;
      (missing ==> !Somewhere(c)) && (Blocked(w) <==> !missing && !Settles(w))
  {
  }

  lemma ProtectedScanned(w: World, dead: set<Owner>, around: Surroundings)
    requires Consistent(w) && w.row.Some? && IsProtected(w.row.value, dead, around)
    ensures Consistent(Scanned(w, dead, around))
    ensures Agrees(Scanned(w, dead, around)) <==> Agrees(Reconcile(w))
  {
    ReconcileSettles(w);
    var r := Reconcile(w).row.value;
    assert r.kind == w.row.value.kind && r.leases == w.row.value.leases;
    assert IsProtected(r, dead, around);
    hide Reconcile, IsProtected;
  }

  lemma VisitedKeeps(w: World, dead: set<Owner>, outsider: Option<nat>)
    ensures Consistent(w) ==> Consistent(Visited(w, outsider))
    ensures ProtectedStayOut(w, dead) ==> ProtectedStayOut(Visited(w, outsider), dead)
  {
  }

  /** From any crash point of a removal, whoever took the vacant original path since: reconciliation
      settles the row exactly when it can, a scan exactly unless the row is blocked; while the object is
      where the row points, one uninterrupted immediate removal ends with it deleted and gone, and what
      reconciled to released or quarantined is still whole. */
  lemma DeleteRecovers(w: World, dead: set<Owner>, around: Surroundings, immediate: bool, cutShort: bool, k: nat,
                       outsider: Option<nat>)
    requires Consistent(w) && Deletable(w) && Unprotected(w.row.value, dead)
    requires k < |DeleteTrail(w, immediate, cutShort)|
    ensures var x := Visited(DeleteTrail(w, immediate, cutShort)[k], outsider);
      var c := Reconcile(x);
      && x.row.Some? && c.row.Some? && Consistent(c)
      && (Agrees(c) <==> Settles(x))
      && (Agrees(Scanned(x, dead, around)) <==> ScanCan(x, dead, around))
      && (Deletable(c) ==>
            var trail := DeleteTrail(c, true, false);
            trail[|trail| - 1].row.value.state == Deleted && !Somewhere(trail[|trail| - 1]))
      && (Maintenance(x.row.value.state) && c.row.value.state != Deleting && Deletable(c) ==> Target(c).intact)
  {
    DeleteCrashSafe(w, dead, immediate, cutShort, k);
    var at := DeleteTrail(w, immediate, cutShort)[k];
    hide DeleteTrail, RemovalTrail;
    VisitedKeeps(at, dead, outsider);
    var x := Visited(at, outsider);
    ReconcileSettles(x);
    ScanSettles(x, dead, around);
    if Deletable(Reconcile(x)) { RemovalEnds(Reconcile(x)); }
  }

  /** The row is being deleted in place, its object is gone and someone else has its path. */
  predicate Taken(w: World) {
    w.row.Some? && w.row.value.state == Deleting && !w.row.value.trash && !Somewhere(w) && w.original.Thing?
  }

  lemma BlockedInRemoval(v: World, immediate: bool, cutShort: bool, i: nat, outsider: Option<nat>)
    requires Consistent(v) && Deletable(v) && (v.trashed.Thing? ==> Holds(v.trashed, v.row.value))
    requires i < |RemovalTrail(v, immediate, cutShort)|
    ensures var x := Visited(RemovalTrail(v, immediate, cutShort)[i], outsider);
      x.row.Some? && (Blocked(x) <==> Taken(x))
  {
    var c := RemovalTrail(v, immediate, cutShort)[i];
    if v.row.value.kind == Worktree {
    } else if !immediate && !Maintenance(v.row.value.state) && v.row.value.kind != Scratch && v.row.value.kind != Incomplete {
      if i == 0 { } else if i == 1 { } else { }
    } else if i == 0 { } else if i == 1 { } else { }
  }

  /** Whom a removal can block: with nobody at the quarantine path to begin with, only a row that is
      deleted in place, whose object is gone and whose path someone else took. */
  lemma BlockedMeans(w: World, immediate: bool, cutShort: bool, k: nat, outsider: Option<nat>)
    requires Consistent(w) && Deletable(w)
    requires w.trashed.Thing? ==> Holds(w.trashed, w.row.value)
    requires k < |DeleteTrail(w, immediate, cutShort)|
    ensures var x := Visited(DeleteTrail(w, immediate, cutShort)[k], outsider);
      x.row.Some? && (Blocked(x) <==> Taken(x))
  {
    hide DeleteTrail, RemovalTrail;
    TrailPoint(w, immediate, cutShort, k);
    var tail := RemovalTrail(Retired(w), immediate || w.row.value.candidate, cutShort);
    var c := DeleteTrail(w, immediate, cutShort)[k];
    if c != w && c != Retired(w) {
      var i :| 0 <= i < |tail| && tail[i] == c;
      BlockedInRemoval(Retired(w), immediate || w.row.value.candidate, cutShort, i, outsider);
    }
  }

  const HALF_REMOVED := Row(1, 7, Cache, "user", Quarantined, {}, {}, "", true, false, 3)

  /** The failing case: a quarantined object is removed, the process dies before the last save, and
      someone takes the original path. Reconciliation neither refuses nor changes anything, and the row
      goes on saying that it is being deleted, of an object that is gone. The next scan settles it. */
  lemma StrangerHidesRemoval(around: Surroundings)
    requires !around.referencedElsewhere
    ensures var w := World(Some(HALF_REMOVED), Nothing, Thing(7, true), false);
      var x := Visited(DeleteTrail(w, true, false)[2], Some(9));
      && Consistent(w) && Deletable(w) && Unprotected(HALF_REMOVED, {})
      && !ReconcileRefuses(x) && Reconcile(x) == x && !Agrees(x) && !Settles(x)
      && Agrees(Scanned(x, {}, around)) && Scanned(x, {}, around).row.value.state == Deleted
  {
    var w := World(Some(HALF_REMOVED), Nothing, Thing(7, true), false);
    TrailIndex(w, true, false);
    assert DeleteTrail(w, true, false)[2] == RemovalTrail(w, true, false)[1];
  }

  /** The worlds `restore` passes through. */
  function RestoreTrail(w: World): seq<World>
    requires w.row.Some?
  {
    var moved := w.(original := w.trashed, trashed := Nothing);
    [w, moved, Save(moved, w.row.value.(state := Released, trash := false))]
  }

  predicate Restorable(w: World) {
    && w.row.Some?
    && (w.row.value.state == Quarantined || w.row.value.state == Quarantining)
    && w.original.Nothing?
    && Holds(w.trashed, w.row.value)
  }

  /** Crashing anywhere in a restore is repaired: the object ends whole at its original path once
      restored or reconciled after the rename, and stays whole in quarantine before it. */
  lemma RestoreRecovers(w: World, k: nat)
    requires Consistent(w) && Restorable(w) && k < 3
    ensures var c := RestoreTrail(w)[k];
      && Consistent(c) && Consistent(Reconcile(c)) && Agrees(Reconcile(c))
      && var settled := Reconcile(c);
         if k == 0 then settled.row.value.state == Quarantined && settled.trashed == w.trashed
         else settled.row.value.state == Released && settled.original == w.trashed && !settled.row.value.trash
  {
    ReconcileSettles(RestoreTrail(w)[k]);
  }

  // ---------------------------------------------------------------- a stale scan

  /** The second locked half of `plan`: record the verdict unless the row moved on. */
  function RecordPlan(w: World, snapshot: Row, reason: Reason): World {
    if w.row.None? || w.row.value.id != snapshot.id || w.row.value.revision != snapshot.revision then w
    else if reason == Missing then Save(w, snapshot.(state := Deleted))
    else Save(w, snapshot)
  }

  /** Recording a verdict keeps the world consistent exactly when a row called missing has no inode
      at its original path. Only a row with a quarantine path can fail: `classify` runs outside the
      lock and looks at the quarantine path alone. */
  lemma RecordPlanSound(w: World, snapshot: Row, dead: set<Owner>, around: Surroundings)
    requires Consistent(w) && w.row == Some(snapshot)
    ensures var reason := Classify(snapshot, w, dead, around);
      Consistent(RecordPlan(w, snapshot, reason)) <==>
        !(reason == Missing && snapshot.trash && Holds(w.original, snapshot))
  {
  }

  /** The failing case: a scan reconciles a quarantined row, a restore renames the object back and
      crashes before saving, and the scan then records the restored object as deleted. */
  lemma StaleScanForgetsRestored()
    ensures exists w, dead, around ::
      && Consistent(w) && Restorable(w) && Reconcile(w) == w
      && var crashed := RestoreTrail(w)[1];
         var snapshot := w.row.value;
         var recorded := RecordPlan(crashed, snapshot, Classify(snapshot, crashed, dead, around));
         && recorded.row.Some? && recorded.row.value.state == Deleted
         && Holds(recorded.original, recorded.row.value)
  {
    var r := Row(1, 7, Cache, "user", Quarantined, {}, {}, "", true, false, 3);
    var w := World(Some(r), Nothing, Thing(7, true), false);
    var dead: set<Owner>, around := {}, Surroundings(false, false, false);
    var crashed := RestoreTrail(w)[1];
    assert Classify(r, crashed, dead, around) == Missing;
    var recorded := RecordPlan(crashed, w.row.value, Classify(w.row.value, crashed, dead, around));
    assert Consistent(w) && Restorable(w) && Reconcile(w) == w;
    assert recorded.row.value.state == Deleted && Holds(recorded.original, recorded.row.value);
  }

  // ---------------------------------------------------------------- release

  /** `release`: the body drops the lease and resets the state without looking at it. */
  function Release(w: World, owner: Owner, dead: set<Owner>, reference: Option<string>): World
    requires w.row.Some?
  {
    var r := w.row.value;
    var leases := set o | o in r.leases && o != owner && Alive(o, dead);
    var references := if reference.Some? then r.references - {reference.value} else r.references;
    var state := if leases != {} then r.state
                 else if !r.trash && w.original.Nothing? then Deleted else Released;
    Save(w, r.(leases := leases, references := references, state := state))
  }

  /** Someone else holds a live lease. */
  predicate StillLeased(r: Row, owner: Owner, dead: set<Owner>) {
    exists o | o in r.leases :: o != owner && Alive(o, dead)
  }

  /** The releases that leave the row true: a live lease remains, or the row names no quarantine path
      and is in use, or its path is vacant, or holds its whole object, or holds another one after its own
      was taken away. */
  predicate SafeRelease(w: World, owner: Owner, dead: set<Owner>)
    requires w.row.Some?
  {
    var r := w.row.value;
    StillLeased(r, owner, dead) ||
    (!r.trash &&
      (w.original.Nothing? || r.state == Live || r.state == Released
       || (if Holds(w.original, r) then w.original.intact else w.lostOutside)))
  }

  /** For every caller, holder or not, and every row: the world stays consistent exactly when the release
      is a safe one. Protection stays out of maintenance in any case. */
  lemma ReleaseKeeps(w: World, owner: Owner, dead: set<Owner>, reference: Option<string>)
    requires w.row.Some? && ProtectedStayOut(w, dead)
    ensures Consistent(w) ==> (Consistent(Release(w, owner, dead, reference)) <==> SafeRelease(w, owner, dead))
    ensures ProtectedStayOut(Release(w, owner, dead, reference), dead)
  {
    var leases := set o | o in w.row.value.leases && o != owner && Alive(o, dead);
    assert StillLeased(w.row.value, owner, dead) <==> leases != {} by {
      if StillLeased(w.row.value, owner, dead) {
        var o :| o in w.row.value.leases && o != owner && Alive(o, dead);
        assert o in leases;
      }
    }
  }

  /** A live lease holder may release: its row is not under maintenance. */
  lemma ReleaseByHolder(w: World, owner: Owner, dead: set<Owner>, reference: Option<string>)
    requires Consistent(w) && ProtectedStayOut(w, dead)
    requires w.row.Some? && owner in w.row.value.leases && Alive(owner, dead)
    requires w.row.value.state != Deleted
    ensures Consistent(Release(w, owner, dead, reference))
  {
    ReleaseKeeps(w, owner, dead, reference);
    assert !Maintenance(w.row.value.state);
  }

  /** Anyone's release of a row with a quarantine path breaks it, whatever the disk holds: a row under
      maintenance has no live lease left to keep its state. */
  lemma ReleaseInQuarantine(w: World, owner: Owner, dead: set<Owner>, reference: Option<string>)
    requires Consistent(w) && ProtectedStayOut(w, dead)
    requires w.row.Some? && Maintenance(w.row.value.state) && w.row.value.trash
    ensures !Consistent(Release(w, owner, dead, reference))
  {
    ReleaseKeeps(w, owner, dead, reference);
  }

  // ---------------------------------------------------------------- the store

  datatype Result = Done | Refused | Skipped | Crashed

  /** One line of a cleanup plan. */
  datatype PlanItem = PlanItem(id: nat, revision: nat, reason: Reason)

  function Clip(n: nat, limit: nat): nat { if n < limit then n else limit }

  /** The verdict on a row right after reconciling it. */
  function SettledReason(w: World, dead: set<Owner>, around: Surroundings): Reason
    requires w.row.Some?
  {
    var c := Reconcile(w);
    Classify(c.row.value, c, dead, around)
  }

  /** Under one lock, a row the classifier calls missing right after a reconciliation really is. */
  lemma MissingAfterReconcile(w: World, dead: set<Owner>, around: Surroundings)
    requires Consistent(w) && w.row.Some? && !ReconcileRefuses(w)
    ensures SettledReason(w, dead, around) == Missing ==> !Somewhere(Reconcile(w))
  {
  }

  /** What is eligible: a row in use or under maintenance whose own object stands where it points, that is
      not permanent, not pinned, not leased by a living process and not referred to, and whose time is over:
      the retention while in use, the grace in quarantine, and once being deleted none. */
  lemma EligibleIsDeletable(w: World, dead: set<Owner>, around: Surroundings)
    requires w.row.Some?
    ensures var r := w.row.value;
      var target := if r.trash then w.trashed else w.original;
      Classify(r, w, dead, around) == Eligible <==>
        (&& r.state != Deleted && target.Thing? && target.inode == r.inode
         && r.kind != Permanent && r.pin == "" && (forall o :: o in r.leases ==> o in dead)
         && (r.references == {} || r.candidate) && !around.referencedElsewhere
         && (r.state == Live || r.state == Released ==> around.retentionOver)
         && (r.state == Quarantining || r.state == Quarantined ==> around.graceOver))
    ensures Classify(w.row.value, w, dead, around) == Eligible ==> Deletable(w) && Unprotected(w.row.value, dead)
  {
  }

  /** And what is missing, or not its own: nothing, or another object, where an unprotected row points. */
  lemma ClassifiedOtherwise(w: World, dead: set<Owner>, around: Surroundings)
    requires w.row.Some?
    ensures var r := w.row.value;
      var target := if r.trash then w.trashed else w.original;
      var reason := Classify(r, w, dead, around);
      var free := r.kind != Permanent && r.pin == "" && (forall o :: o in r.leases ==> o in dead)
                  && (r.references == {} || r.candidate) && !around.referencedElsewhere;
      && (reason == IsDeleted <==> r.state == Deleted)
      && (reason == Protected <==> r.state != Deleted && !free)
      && (reason == Missing <==> r.state != Deleted && free && target == Nothing)
      && (reason == Unknown <==> r.state != Deleted && free && target.Thing? && target.inode != r.inode)
      && (reason == QuarantineGrace ==> (r.state == Quarantining || r.state == Quarantined) && !around.graceOver)
      && (reason == Retention ==> (r.state == Live || r.state == Released) && !around.retentionOver)
  {
  }

  /** A new registration of the object at the original path. */
  function Fresh(w: World, id: nat, kind: Kind, scope: string, owner: Owner, references: set<string>): World
    requires w.original.Thing?
  {
    World(Some(Row(id, w.original.inode, kind, scope, Live, {owner}, references, "", false, false, 1)), w.original, Nothing, false)
  }

  /** One more lease on a row in use. */
  function Acquired(w: World, owner: Owner, references: set<string>, dead: set<Owner>): World
    requires w.row.Some?
  {
    var r := w.row.value;
    var leases := (set o | o in r.leases && Alive(o, dead)) + {owner};
    Save(w, r.(state := Live, leases := leases, references := r.references + references))
  }

  lemma FreshKeeps(w: World, id: nat, kind: Kind, scope: string, owner: Owner, references: set<string>, dead: set<Owner>)
    requires w.original.Thing? && (w.row.Some? ==> w.row.value.state == Deleted)
    ensures Consistent(w) ==> Consistent(Fresh(w, id, kind, scope, owner, references))
    ensures ProtectedStayOut(Fresh(w, id, kind, scope, owner, references), dead)
  {
  }

  lemma AcquiredKeeps(w: World, owner: Owner, references: set<string>, dead: set<Owner>)
    requires w.row.Some? && (w.row.value.state == Live || w.row.value.state == Released)
    ensures Consistent(w) ==> Consistent(Acquired(w, owner, references, dead))
    ensures ProtectedStayOut(Acquired(w, owner, references, dead), dead)
  {
  }

  lemma ReconcileGuards(w: World, dead: set<Owner>)
    requires ProtectedStayOut(w, dead)
    ensures ProtectedStayOut(Reconcile(w), dead)
    ensures Consistent(w) ==> Consistent(Reconcile(w))
  {
  }

  /** Recording a row as deleted keeps the world consistent exactly when its object is nowhere. */
  lemma ForgetKeeps(w: World, dead: set<Owner>)
    requires w.row.Some?
    ensures Consistent(w) ==> (Consistent(Save(w, w.row.value.(state := Deleted))) <==> !Somewhere(w))
    ensures ProtectedStayOut(Save(w, w.row.value.(state := Deleted)), dead)
  {
  }

  lemma DeletedIsGone(w: World, dead: set<Owner>, around: Surroundings)
    requires Consistent(w) && w.row.Some? && Classify(w.row.value, w, dead, around) == IsDeleted
    ensures w.row.value.state == Deleted && !Somewhere(w)
  {
  }

  /** Saving a row with fresh measurements only moves its revision. */
  lemma MeasuredKeeps(w: World, dead: set<Owner>, around: Surroundings)
    requires ProtectedStayOut(w, dead) && w.row.Some?
    ensures var m := Save(w, w.row.value);
      && (Consistent(w) ==> Consistent(m)) && ProtectedStayOut(m, dead)
      && Classify(m.row.value, m, dead, around) == Classify(w.row.value, w, dead, around)
  {
  }

  lemma ReconcileKeepsRow(w: World)
    ensures Reconcile(w).row.Some? <==> w.row.Some?
    ensures Reconcile(w).original == w.original && Reconcile(w).trashed == w.trashed
  {
  }

  lemma RefusedStays(w: World)
    requires ReconcileRefuses(w)
    ensures Reconcile(w) == w && w.row.Some?
  {
  }

  lemma ClassifiedDeleted(w: World, dead: set<Owner>, around: Surroundings)
    requires w.row.Some? && Classify(w.row.value, w, dead, around) == IsDeleted
    ensures w.row.value.state == Deleted
  {
  }

  /** Uninterrupted immediate removal of an eligible artifact ends it. */
  lemma ImmediateRemovalEnds(w: World, cutShort: bool)
    requires Deletable(w)
    ensures var trail := DeleteTrail(w, true, cutShort);
      var last := trail[|trail| - 1];
      !cutShort || w.row.value.kind == Worktree ==>
        last.row.Some? && last.row.value.state == Deleted && (Consistent(w) ==> !Somewhere(last))
  {
    TrailIndex(w, true, cutShort);
  }

  /** When `register` accepts: the path holds an object and lies neither under nor over that of another
      row, and a row in use is not under maintenance, still names that object and keeps its kind and scope. */
  predicate Registrable(w: World, kind: Kind, scope: string, overlaps: bool) {
    && w.original.Thing? && !overlaps
    && (w.row.Some? && w.row.value.state != Deleted ==>
          && !Maintenance(w.row.value.state)
          && Holds(w.original, w.row.value)
          && w.row.value.kind == kind && w.row.value.scope == scope)
  }

  /** Same artifact, same pin, and no live lease lost. */
  ghost predicate SameArtifact(before: Row, after: Row, dead: set<Owner>) {
    && after.id == before.id && after.inode == before.inode && after.pin == before.pin
    && forall o :: o in before.leases && Alive(o, dead) ==> o in after.leases
  }

  predicate OnTrail(w: World, immediate: bool, cutShort: bool, effects: nat, c: World) {
    w.row.Some? &&
    var trail := DeleteTrail(w, immediate, cutShort);
    c == trail[Clip(effects, |trail| - 1)]
  }

  /** The store as one artifact's row and disk. Durable fields change one effect at a time; a crash
      is a method that stops after `effects` of them. */
  class ArtifactStore {
    var row: Option<Row>
    var original: Object
    var trashed: Object
    var lostOutside: bool
    var dead: set<Owner>
    var nextId: nat
    // every row a plan may have recorded
    ghost var saved: set<Row>

    function Disk(): World
      reads this
    {
      World(row, original, trashed, lostOutside)
    }

    /** The current row is the newest save of its artifact. */
    ghost predicate Newest()
      reads this
    {
      && (forall r :: r in saved ==> r.id < nextId)
      && (row.Some? ==> row.value.id < nextId)
      && (row.Some? ==> forall r :: r in saved && r.id == row.value.id ==>
            r.revision <= row.value.revision && (r.revision == row.value.revision ==> r == row.value))
    }

    /** What holds in every run: protected artifacts stay out of maintenance, and plans name rows that
        were saved. */
    ghost predicate Guarded()
      reads this
    {
      ProtectedStayOut(Disk(), dead) && Newest()
    }

    constructor (original: Object)
      requires original.Thing? ==> original.intact
      ensures Guarded() && Consistent(Disk()) && row == None && this.original == original && saved == {}
    {
      row, this.original, trashed, lostOutside := None, original, Nothing, false;
      dead, nextId, saved := {}, 0, {};
    }

    method SaveRow(r: Row)
      modifies this`row
      ensures Disk() == Save(old(Disk()), r)
    {
      row := Some(r.(revision := r.revision + 1));
    }

    /** `register`: acquire a lease, creating the row when there is none or a deleted one. */
    method Register(owner: Owner, kind: Kind, scope: string, reference: Option<string>, overlaps: bool) returns (result: Result)
      requires Guarded()
      modifies this
      ensures Guarded() && (old(Consistent(Disk())) ==> Consistent(Disk())) && original == old(original)
      ensures result == Done <==> Registrable(old(Disk()), kind, scope, overlaps)
      ensures result != Done ==> Disk() == old(Disk())
      ensures result == Done ==> row.Some? && row.value.state == Live && owner in row.value.leases
      ensures result == Done ==> Holds(original, row.value) && row.value.kind == kind && row.value.scope == scope
      ensures result == Done && reference.Some? ==> reference.value in row.value.references
      ensures result == Done && old(row).Some? && old(row).value.state == Deleted ==> row.value.id != old(row).value.id
      ensures result == Done && old(row).Some? && old(row).value.state != Deleted ==>
        SameArtifact(old(row).value, row.value, dead)
      // apart from that the new row is as the old one, or blank, and the living old leases are all there are
      ensures result == Done ==>
        var added := if reference.Some? then {reference.value} else {};
        if old(row).None? || old(row).value.state == Deleted then
          row.value == Row(old(nextId), original.inode, kind, scope, Live, {owner}, added, "", false, false, 1)
        else
          var r := old(row).value;
          && row.value.leases == (set o | o in r.leases && o !in dead) + {owner}
          && row.value.references == r.references + added && row.value.revision == r.revision + 1
          && row.value.candidate == r.candidate && row.value.trash == r.trash
    {
      hide Consistent, ProtectedStayOut;
      if row.Some? && row.value.state != Deleted && row.value.state != Released && row.value.state != Live {
        return Refused;
      }
      if original.Nothing? || overlaps { return Refused; }
      var added := if reference.Some? then {reference.value} else {};
      if row.None? || row.value.state == Deleted {
        RegisterNew(owner, kind, scope, added);
      } else {
        if original.inode != row.value.inode || row.value.kind != kind || row.value.scope != scope { return Refused; }
        Reacquire(owner, added);
      }
      return Done;
    }

    method RegisterNew(owner: Owner, kind: Kind, scope: string, references: set<string>)
      requires Guarded() && original.Thing? && (row.Some? ==> row.value.state == Deleted)
      modifies this
      ensures Guarded() && (old(Consistent(Disk())) ==> Consistent(Disk())) && Disk() == Fresh(old(Disk()), old(nextId), kind, scope, owner, references)
      ensures dead == old(dead) && saved == old(saved)
    {
      hide Consistent, ProtectedStayOut;
      FreshKeeps(Disk(), nextId, kind, scope, owner, references, dead);
      lostOutside, trashed := false, Nothing;
      row := Some(Row(nextId, original.inode, kind, scope, Live, {owner}, references, "", false, false, 1));
      nextId := nextId + 1;
    }

    method Reacquire(owner: Owner, references: set<string>)
      requires Guarded() && row.Some? && (row.value.state == Live || row.value.state == Released)
      modifies this`row
      ensures Guarded() && (old(Consistent(Disk())) ==> Consistent(Disk())) && Disk() == Acquired(old(Disk()), owner, references, dead)
    {
      hide Consistent, ProtectedStayOut;
      AcquiredKeeps(Disk(), owner, references, dead);
      var r := row.value;
      var leases := (set o | o in r.leases && Alive(o, dead)) + {owner};
      SaveRow(r.(state := Live, leases := leases, references := r.references + references));
    }

    /** `release`, by whoever calls it. */
    method ReleaseLease(owner: Owner, reference: Option<string>)
      requires Guarded() && row.Some?
      modifies this`row
      ensures Guarded() && Disk() == Release(old(Disk()), owner, dead, reference)
      ensures old(Consistent(Disk())) ==> (Consistent(Disk()) <==> old(SafeRelease(Disk(), owner, dead)))
    {
      ReleaseKeeps(Disk(), owner, dead, reference);
      hide Consistent, SafeRelease;
      var r := row.value;
      var leases := set o | o in r.leases && o != owner && Alive(o, dead);
      var references := if reference.Some? then r.references - {reference.value} else r.references;
      var state := r.state;
      if leases == {} {
        state := Released;
        if !r.trash && original.Nothing? { state := Deleted; }
      }
      SaveRow(r.(leases := leases, references := references, state := state));
    }

    method Promote(kind: Kind) returns (result: Result)
      requires Guarded() && row.Some?
      modifies this`row
      ensures Guarded() && (old(Consistent(Disk())) ==> Consistent(Disk()))
      ensures result == Done <==> old(row).value.state == Live || old(row).value.state == Released
      ensures Disk() == if result == Done then Save(old(Disk()), old(row).value.(kind := kind)) else old(Disk())
    {
      if row.value.state != Live && row.value.state != Released { return Refused; }
      SaveRow(row.value.(kind := kind));
      return Done;
    }

    method Pin(reason: string) returns (result: Result)
      requires Guarded() && row.Some?
      modifies this`row
      ensures Guarded() && (old(Consistent(Disk())) ==> Consistent(Disk()))
      ensures result == Done <==>
        !Maintenance(old(row).value.state) && old(row).value.state != Deleted && Holds(original, old(row).value)
      ensures Disk() == if result == Done then Save(old(Disk()), old(row).value.(pin := reason)) else old(Disk())
    {
      if Maintenance(row.value.state) || row.value.state == Deleted || !Holds(original, row.value) { return Refused; }
      SaveRow(row.value.(pin := reason));
      return Done;
    }

    /** `_reconcile` under the lifecycle lock. */
    method ReconcileRow() returns (result: Result)
      requires Guarded()
      modifies this`row
      ensures Guarded() && (old(Consistent(Disk())) ==> Consistent(Disk())) && Disk() == Reconcile(old(Disk()))
      ensures result == Refused <==> ReconcileRefuses(old(Disk()))
      ensures result == Refused || result == Done
    {
      ReconcileGuards(Disk(), dead);
      if row.None? || !Maintenance(row.value.state) { return Done; }
      var r := row.value;
      if r.trash && trashed.Thing? {
        if trashed.inode != r.inode { return Refused; }
        if r.state == Quarantining { SaveRow(r.(state := Quarantined)); }
      } else if original.Thing? && r.trash && r.state != Deleting {
        if original.inode != r.inode { return Refused; }
        SaveRow(r.(state := Released, trash := false));
      } else if r.state == Deleting && original.Nothing? && (!r.trash || trashed.Nothing?) {
        SaveRow(r.(state := Deleted));
      }
      return Done;
    }

    /** `_delete`: its durable effects one at a time, stopping after `effects` of them in a crash. */
    method Delete(immediate: bool, cutShort: bool, effects: nat) returns (result: Result)
      requires Guarded() && Deletable(Disk()) && Unprotected(row.value, dead)
      modifies this
      ensures dead == old(dead) && saved == old(saved) && nextId == old(nextId)
      ensures Guarded() && (old(Consistent(Disk())) ==> Consistent(Disk()))
      ensures var trail := DeleteTrail(old(Disk()), immediate, cutShort);
        Disk() == trail[Clip(effects, |trail| - 1)] && (result == Crashed <==> effects < |trail| - 1)
      ensures immediate && result == Done ==> !cutShort || old(row).value.kind == Worktree
      ensures result != Skipped && (!cutShort && result != Crashed ==> result == Done)
    {
      ghost var start := Disk();
      ghost var trail := DeleteTrail(start, immediate, cutShort);
      ghost var at := Clip(effects, |trail| - 1);
      DeleteCrashSafe(start, dead, immediate, cutShort, at);
      result := DeleteEffects(immediate, cutShort, effects);
    }

    /** The body of `_delete`, tied to the trail of worlds. */
    method DeleteEffects(immediate: bool, cutShort: bool, effects: nat) returns (result: Result)
      requires Deletable(Disk())
      modifies this`row, this`original, this`trashed, this`lostOutside
      ensures var trail := DeleteTrail(old(Disk()), immediate, cutShort);
        Disk() == trail[Clip(effects, |trail| - 1)] && (result == Crashed <==> effects < |trail| - 1)
      ensures immediate && result == Done ==> !cutShort || old(row).value.kind == Worktree
      ensures result != Skipped && (!cutShort && result != Crashed ==> result == Done)
    {
      TrailIndex(Disk(), immediate, cutShort);
      RemovalHappens(Retired(Disk()), immediate || row.value.candidate, cutShort);
      hide DeleteTrail, RemovalTrail;
      var left, now := effects, immediate;
      if row.value.candidate {
        if left == 0 { return Crashed; }
        SaveRow(row.value.(references := {}));
        left, now := left - 1, true;
      }
      if left == 0 { return Crashed; }
      result := RemovalEffects(now, cutShort, left - 1);
    }

    method RemovalEffects(immediate: bool, cutShort: bool, effects: nat) returns (result: Result)
      requires Deletable(Disk())
      modifies this`row, this`original, this`trashed, this`lostOutside
      ensures var trail := RemovalTrail(old(Disk()), immediate, cutShort);
        Disk() == trail[Clip(effects, |trail| - 1)] && (result == Crashed <==> effects < |trail| - 1)
      ensures immediate && result == Done ==> !cutShort || old(row).value.kind == Worktree
      ensures result != Skipped && (!cutShort && result != Crashed ==> result == Done)
    {
      var r := row.value;
      if r.kind == Worktree {
        original, lostOutside := Nothing, true;
        if effects == 0 { return Crashed; }
        SaveRow(r.(state := Deleted));
      } else if !immediate && !Maintenance(r.state) && r.kind != Scratch && r.kind != Incomplete {
        SaveRow(r.(state := Quarantining, trash := true));
        if effects == 0 { return Crashed; }
        original, trashed := Nothing, original;
        if effects == 1 { return Crashed; }
        SaveRow(row.value.(state := Quarantined));
      } else {
        SaveRow(r.(state := Deleting));
        if effects == 0 { return Crashed; }
        if cutShort {
          if r.trash { trashed := Damage(trashed); } else { original := Damage(original); }
          return Refused;
        }
        if r.trash { trashed := Nothing; } else { original := Nothing; }
        if effects == 1 { return Crashed; }
        SaveRow(row.value.(state := Deleted));
      }
      return Done;
    }

    /** The first locked half of `plan`: reconcile, and read the row to classify. */
    method BeginScan() returns (result: Result, snapshot: Option<Row>)
      requires Guarded()
      modifies this`row, this`saved
      ensures Guarded() && (old(Consistent(Disk())) ==> Consistent(Disk()))
      ensures Disk() == Reconcile(old(Disk())) && old(saved) <= saved
      ensures snapshot.Some? <==> result == Done && row.Some?
      ensures snapshot.Some? ==> snapshot == row && snapshot.value in saved
    {
      result := ReconcileRow();
      if result == Refused || row.None? { return result, None; }
      saved := saved + {row.value};
      snapshot := row;
    }

    /** The second: record what the unlocked classification of that row found, unless it was saved in
        between. Whatever it found, protected artifacts stay out of maintenance; the world stays
        consistent exactly unless an object that is there was called missing. */
    method RecordVerdict(snapshot: Row, reason: Reason) returns (item: Option<PlanItem>)
      requires Guarded() && snapshot in saved
      modifies this`row, this`saved
      ensures Guarded() && old(saved) <= saved
      ensures Disk() == RecordPlan(old(Disk()), snapshot, reason)
      ensures item.Some? ==> old(row) == Some(snapshot) && row.Some? && row.value in saved
      ensures old(Consistent(Disk())) ==>
        (Consistent(Disk()) <==> !(item.Some? && reason == Missing && Somewhere(old(Disk()))))
      ensures item.Some? ==> item.value == PlanItem(row.value.id, row.value.revision, reason)
      ensures item.None? ==> Disk() == old(Disk())
      ensures item.Some? <==> old(row).Some? && old(row).value.id == snapshot.id && old(row).value.revision == snapshot.revision
    {
      if row.None? || row.value.id != snapshot.id || row.value.revision != snapshot.revision { return None; }
      ForgetKeeps(Disk(), dead);
      MeasuredKeeps(Disk(), dead, Surroundings(false, false, false));
      hide Consistent, ProtectedStayOut;
      SaveRow(if reason == Missing then snapshot.(state := Deleted) else snapshot);
      saved := saved + {row.value};
      return Some(PlanItem(row.value.id, row.value.revision, reason));
    }

    /** `apply` of one plan line. Anything it does, it does to the very row the plan recorded, which
        is eligible and unprotected right now. */
    method Apply(item: PlanItem, around: Surroundings, guardHeld: bool, cutShort: bool, effects: nat,
                 ghost planned: Row)
      returns (result: Result)
      requires Guarded()
      requires planned in saved && planned.id == item.id && planned.revision == item.revision
      modifies this
      ensures Guarded() && (old(Consistent(Disk())) ==> Consistent(Disk())) && saved == old(saved) && dead == old(dead)
      ensures Disk() != old(Disk()) ==> old(row) == Some(planned) && Unprotected(planned, dead) && guardHeld
      // a line is carried out exactly when it and its row, not saved since, are eligible and the guard is held
      ensures result == Skipped <==> !old(GoesAhead(item, planned, around, guardHeld))
      ensures result == Skipped ==> Disk() == old(Disk())
      ensures result != Skipped ==> OnTrail(old(Disk()), false, cutShort, effects, Disk())
      // uninterrupted, it ends with the row deleted or its object in quarantine
      ensures result != Skipped && effects >= 4 && !cutShort ==> result == Done && row.Some?
      ensures result != Skipped && effects >= 4 && !cutShort && AtOnce(planned, false) ==>
        row.value.state == Deleted && (old(Consistent(Disk())) ==> !Somewhere(Disk()))
      ensures result != Skipped && effects >= 4 && !cutShort && !AtOnce(planned, false) ==>
        row.value.state == Quarantined && trashed == old(original) && original.Nothing?
    {
      if item.reason != Eligible || row.None? || row.value.id != item.id { return Skipped; }
      if row.value.revision != item.revision { return Skipped; }
      if Classify(row.value, Disk(), dead, around) != Eligible || !guardHeld { return Skipped; }
      EligibleIsDeletable(Disk(), dead, around);
      RemovalCompletes(Disk(), false);
      hide DeleteTrail, Consistent, ProtectedStayOut, Classify;
      result := Delete(false, cutShort, effects);
    }

    ghost predicate GoesAhead(item: PlanItem, planned: Row, around: Surroundings, guardHeld: bool)
      reads this
    {
      item.reason == Eligible && row == Some(planned) && Classify(planned, Disk(), dead, around) == Eligible && guardHeld
    }

    /** `clean_artifact`: reconcile, classify and remove under one lock. What it does not remove it leaves
        as a scan does. Uninterrupted, an eligible artifact is gone afterwards, and one called missing
        really was. */
    method Clean(around: Surroundings, guardHeld: bool, cutShort: bool, effects: nat) returns (result: Result)
      requires Guarded() && row.Some?
      modifies this
      ensures Guarded() && (old(Consistent(Disk())) ==> Consistent(Disk()))
      ensures saved == old(saved) && dead == old(dead)
      ensures result == Done ==> row.Some? && row.value.state == Deleted
      ensures old(Consistent(Disk())) && result == Done ==> !Somewhere(Disk())
      // what is eligible, with the guard held, is removed at once, and anything else is only scanned
      ensures var go := !ReconcileRefuses(old(Disk())) && SettledReason(old(Disk()), dead, around) == Eligible && guardHeld;
        && (!go ==> Disk() == Scanned(old(Disk()), dead, around))
        && (go ==> OnTrail(Scanned(old(Disk()), dead, around), true, cutShort, effects, Disk()))
        && (go && effects >= 4 && !cutShort ==> result == Done)
      ensures result == Refused ==> ReconcileRefuses(old(Disk())) || cutShort
      ensures result == Skipped <==> !ReconcileRefuses(old(Disk())) && Retained(SettledReason(old(Disk()), dead, around), guardHeld)
    {
      hide Consistent, ProtectedStayOut, Reconcile, ReconcileRefuses, Classify, DeleteTrail, RemovalTrail, Scanned;
      var settled, reason := Examine(around);
      if settled == Refused { return Refused; }
      if reason == Missing || reason == IsDeleted { return Done; }
      if reason != Eligible || !guardHeld { return Skipped; }
      EligibleIsDeletable(Disk(), dead, around);
      ImmediateRemovalEnds(Disk(), cutShort);
      RemovalCompletes(Disk(), true);
      result := Delete(true, cutShort, effects);
    }

    predicate Retained(reason: Reason, guardHeld: bool) {
      reason != Missing && reason != IsDeleted && (reason == Eligible ==> !guardHeld)
    }

    /** Reconcile, classify and record under one lock. */
    method Examine(around: Surroundings) returns (settled: Result, reason: Reason)
      requires Guarded() && row.Some?
      modifies this`row
      ensures Guarded() && (old(Consistent(Disk())) ==> Consistent(Disk()))
      ensures row.Some? && Disk() == Scanned(old(Disk()), dead, around)
      ensures settled == (if ReconcileRefuses(old(Disk())) then Refused else Done)
      ensures settled == Done ==> reason == SettledReason(old(Disk()), dead, around)
      ensures settled == Done && (reason == Missing || reason == IsDeleted) ==>
        row.value.state == Deleted && (old(Consistent(Disk())) ==> !Somewhere(Disk()))
      ensures settled == Done && reason != Missing ==> reason == Classify(row.value, Disk(), dead, around)
    {
      hide Consistent, ProtectedStayOut, Reconcile, ReconcileRefuses, Classify;
      ReconcileKeepsRow(Disk());
      settled := ReconcileRow();
      if settled == Refused {
        RefusedStays(old(Disk()));
        return Refused, Unknown;
      }
      reason := Classify(row.value, Disk(), dead, around);
      if Consistent(old(Disk())) { MissingAfterReconcile(old(Disk()), dead, around); }
      MeasuredKeeps(Disk(), dead, around);
      ForgetKeeps(Disk(), dead);
      if reason == IsDeleted {
        ClassifiedDeleted(Disk(), dead, around);
        if Consistent(Disk()) { DeletedIsGone(Disk(), dead, around); }
      }
      SaveRow(if reason == Missing then row.value.(state := Deleted) else row.value);
    }

    /** `restore`, stopping after `effects` durable effects in a crash. */
    method Restore(effects: nat) returns (result: Result)
      requires Guarded()
      modifies this`row, this`original, this`trashed
      ensures Guarded() && (old(Consistent(Disk())) ==> Consistent(Disk()))
      ensures !Restorable(old(Disk())) ==> result == Refused && Disk() == old(Disk())
      ensures Restorable(old(Disk())) ==>
        Disk() == RestoreTrail(old(Disk()))[Clip(effects, 2)] && (result == Crashed <==> effects < 2)
    {
      if !Restorable(Disk()) { return Refused; }
      if Consistent(Disk()) { RestoreRecovers(Disk(), Clip(effects, 2)); }
      if effects == 0 { return Crashed; }
      original, trashed := trashed, Nothing;
      if effects == 1 { return Crashed; }
      SaveRow(row.value.(state := Released, trash := false));
      return Done;
    }

    // -------------------------------------------------------------- the world around the store

    /** A process ends; identities never come back to life. */
    method ProcessEnds(owner: Owner)
      requires Guarded()
      modifies this`dead
      ensures Guarded() && (old(Consistent(Disk())) ==> Consistent(Disk())) && dead == old(dead) + {owner}
    {
      dead := dead + {owner};
    }

    /** Someone puts an object of their own at the vacant original path. */
    method OutsiderPuts(inode: nat)
      requires Guarded() && original.Nothing? && (row.Some? ==> inode != row.value.inode)
      modifies this`original
      ensures Guarded() && (old(Consistent(Disk())) ==> Consistent(Disk())) && original == Thing(inode, true)
    {
      original := Thing(inode, true);
    }

    /** Someone removes what stands at one of the two paths. */
    method OutsiderTakes(fromTrash: bool)
      requires Guarded()
      modifies this`original, this`trashed, this`lostOutside
      ensures Guarded() && (old(Consistent(Disk())) ==> Consistent(Disk()))
      ensures if fromTrash then trashed == Nothing && original == old(original)
        else original == Nothing && trashed == old(trashed)
      ensures row == old(row)
    {
      if row.Some? && Holds(if fromTrash then trashed else original, row.value) { lostOutside := true; }
      if fromTrash { trashed := Nothing; } else { original := Nothing; }
    }
  }
}
