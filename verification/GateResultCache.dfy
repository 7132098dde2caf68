/** Reusing gate results: a complete manifest of what a command read forces the same outcome. */
module GateResultCache {
  import opened Text
  import opened Wrappers

  /** The components of a path relative to the project. */
  type Path = seq<string>

  /** A file or link with its digest, or a directory. */
  datatype Node = File(digest: string) | Directory

  /** The project's files; its root stands for itself. */
  type FileSystem = map<Path, Node>

  /** What looking at a path yields: nothing there, a digest of what is, or the names in a directory. */
  datatype Observation = Missing | Seen(digest: string) | Listed(names: set<string>)

  type Manifest = map<Path, Observation>

  predicate IsDirectory(fs: FileSystem, path: Path) {
    path == [] || (path in fs && fs[path] == Directory)
  }

  predicate IsChild(path: Path, p: Path) {
    |p| == |path| + 1 && path <= p
  }

  function Names(fs: FileSystem, path: Path): set<string> {
    set p | p in fs && IsChild(path, p) :: p[|path|]
  }

  function Look(fs: FileSystem, path: Path): Observation {
    if IsDirectory(fs, path) then Listed(Names(fs, path))
    else if path in fs then Seen(fs[path].digest)
    else Missing
  }

  /** Everything is in a directory. */
  predicate WellFormed(fs: FileSystem) {
    [] !in fs && forall p | p in fs :: forall i | 0 <= i < |p| :: IsDirectory(fs, p[..i])
  }

  /** What a finished command reports. */
  datatype Outcome = Outcome(ok: bool, returncode: int, output: string)

  datatype Action = Reads(path: Path) | Finishes(outcome: Outcome)

  /** A command as a deterministic adaptive reader: what it does next, given all it has seen. */
  type Behaviour = seq<Observation> -> Action

  // ---------------------------------------------------------------- runs and read sets

  /** `seen` is the full list of observations of a run of `b` on `fs` that ends with `o`. */
  ghost predicate IsRun(b: Behaviour, fs: FileSystem, seen: seq<Observation>, o: Outcome) {
    && (forall i :: 0 <= i < |seen| ==> b(seen[..i]).Reads? && seen[i] == Look(fs, b(seen[..i]).path))
    && b(seen) == Finishes(o)
  }

  /** Every path the run looked at, with what it saw there. */
  function ManifestOf(b: Behaviour, seen: seq<Observation>): Manifest {
    if seen == [] then map[]
    else
      var n := |seen| - 1;
      var earlier := ManifestOf(b, seen[..n]);
      if b(seen[..n]).Reads? then earlier[b(seen[..n]).path := seen[n]] else earlier
  }

  /** `manifest_matches`: a non-empty manifest whose every entry has its recorded value now. */
  predicate Matches(fs: FileSystem, m: Manifest) {
    m != map[] && forall p | p in m :: Look(fs, p) == m[p]
  }

  lemma {:induction false} ManifestCovers(b: Behaviour, fs: FileSystem, seen: seq<Observation>, i: nat)
    requires i < |seen|
    requires forall k :: 0 <= k < |seen| ==> b(seen[..k]).Reads? && seen[k] == Look(fs, b(seen[..k]).path)
    ensures var p := b(seen[..i]).path; p in ManifestOf(b, seen) && ManifestOf(b, seen)[p] == seen[i]
    ensures forall p :: p in ManifestOf(b, seen) ==> ManifestOf(b, seen)[p] == Look(fs, p)
  {
    var n := |seen| - 1;
    var earlier := seen[..n];
    assert forall k :: 0 <= k < n ==> earlier[..k] == seen[..k];
    if n > 0 { ManifestCovers(b, fs, earlier, if i < n then i else 0); }
  }

  /** A matching manifest forces the same reads, hence the same outcome. */
  lemma MatchForcesRun(b: Behaviour, before: FileSystem, now: FileSystem, seen: seq<Observation>, o: Outcome)
    requires IsRun(b, before, seen, o) && Matches(now, ManifestOf(b, seen))
    ensures IsRun(b, now, seen, o)
  {
    forall i | 0 <= i < |seen| ensures seen[i] == Look(now, b(seen[..i]).path) {
      ManifestCovers(b, before, seen, i);
    }
  }

  /** On one file system a command has one run. */
  lemma RunIsUnique(b: Behaviour, fs: FileSystem, s1: seq<Observation>, o1: Outcome, s2: seq<Observation>, o2: Outcome)
    requires IsRun(b, fs, s1, o1) && IsRun(b, fs, s2, o2)
    ensures s1 == s2 && o1 == o2
  {
    AgreeUpTo(b, fs, s1, o1, s2, o2, if |s1| < |s2| then |s1| else |s2|);
  }

  lemma {:induction false} AgreeUpTo(b: Behaviour, fs: FileSystem, s1: seq<Observation>, o1: Outcome,
                                     s2: seq<Observation>, o2: Outcome, n: nat)
    requires IsRun(b, fs, s1, o1) && IsRun(b, fs, s2, o2) && n <= |s1| && n <= |s2|
    ensures s1[..n] == s2[..n]
    ensures n == |s1| || n == |s2| ==> s1 == s2 && o1 == o2
  {
    if n > 0 {
      AgreeUpTo(b, fs, s1, o1, s2, o2, n - 1);
      assert s1[..n] == s1[..n - 1] + [s1[n - 1]];
      assert s2[..n] == s2[..n - 1] + [s2[n - 1]];
    }
    assert s1[..|s1|] == s1 && s2[..|s2|] == s2;
    assert (n == |s1| <==> b(s1[..n]).Finishes?) && (n == |s2| <==> b(s2[..n]).Finishes?);
  }

  // ---------------------------------------------------------------- what is stored

  const OUTPUT_LIMIT := 200000
  const MAX_ROWS := 20000
  const CANDIDATE_LIMIT := 20

  function Tail(s: string, n: nat): string {
    if |s| <= n then s else s[|s| - n..]
  }

  /** Outcomes are stored with the last part of their output. */
  function Stored(o: Outcome): Outcome {
    o.(output := Tail(o.output, OUTPUT_LIMIT))
  }

  /** Digests are free constructors: equal keys come from equal parts. */
  datatype Identity = Identity(command: string, environment: string, metadata: string, policy: string)

  datatype Key = CandidateKey(identity: Identity, source: string, context: string)

  /** An output file of a command, with its digest. */
  datatype Artifact = Artifact(absolute: bool, path: Path, digest: string)

  /** The output files of a command, in order. */
  type Artifacts = seq<Artifact>

  /** A command result as the executor hands it to the cache. */
  datatype CommandResult = CommandResult(
    outcome: Outcome, termination: string, cleanupIncomplete: bool, infrastructure: bool, mutated: bool,
    cached: bool, artifacts: Artifacts, inputs: Manifest, traceComplete: bool, network: bool)

  datatype Payload = Payload(
    outcome: Outcome, artifacts: Artifacts, inputs: Manifest, traceComplete: bool, network: bool)

  datatype Success = Success(manifest: Manifest, complete: bool, network: bool)

  /** A table row with the time it was written. */
  datatype Row<+T> = Row(value: T, updated: int)

  datatype Scope = Off | CandidateOnly | ObservedInputs | Auto

  type Certificates = map<Key, Row<Payload>>
  type Successes = map<Key, Row<Success>>

  predicate ObservesInputs(scope: Scope) {
    scope == ObservedInputs || scope == Auto
  }

  function CertificateOf(r: CommandResult, now: int): Row<Payload> {
    Row(Payload(Stored(r.outcome), r.artifacts, r.inputs, r.traceComplete, r.network), now)
  }

  function SuccessOf(r: CommandResult, scope: Scope, now: int): Row<Success> {
    var observed := if ObservesInputs(scope) && r.traceComplete && !r.network then r.inputs else map[];
    Row(Success(observed, observed != map[], r.network), now)
  }

  /** `kept` is `rows` up to the row limit, the newest ones if there are more. */
  ghost predicate Kept<T>(kept: map<Key, Row<T>>, rows: map<Key, Row<T>>) {
    && (forall k :: k in kept ==> k in rows && kept[k] == rows[k])
    && (forall k, j :: k in kept && j in rows && j !in kept ==> rows[j].updated <= rows[k].updated)
    && |kept| == if |rows| < MAX_ROWS then |rows| else MAX_ROWS
  }

  // ---------------------------------------------------------------- what stored rows are worth

  /** What each identified command does in each run context, when it uses no network. */
  type Behaviours = (Identity, string) -> Behaviour

  /** An executor's report is honest: when it says the trace is complete and no network was used, it is
      a run on the present files and the inputs are what that run looked at. */
  ghost predicate Honest(b: Behaviour, fs: FileSystem, r: CommandResult) {
    r.traceComplete && !r.network ==>
      exists seen :: IsRun(b, fs, seen, r.outcome) && r.inputs == ManifestOf(b, seen)
  }

  /** Re-running the command on `fs` gives this stored outcome. */
  ghost predicate RerunGives(b: Behaviour, fs: FileSystem, o: Outcome) {
    exists seen, full :: IsRun(b, fs, seen, full) && Stored(full) == o
  }

  /** ... and no other. */
  lemma RerunUnique(b: Behaviour, fs: FileSystem, o: Outcome, seen: seq<Observation>, full: Outcome)
    requires RerunGives(b, fs, o) && IsRun(b, fs, seen, full)
    ensures Stored(full) == o
  {
    var s, f :| IsRun(b, fs, s, f) && Stored(f) == o;
    RunIsUnique(b, fs, seen, full, s, f);
  }

  /** Some earlier run looked at exactly this manifest and ended with this stored outcome. */
  ghost predicate Certified(b: Behaviour, m: Manifest, o: Outcome) {
    exists fs, seen, full :: IsRun(b, fs, seen, full) && m == ManifestOf(b, seen) && o == Stored(full)
  }

  lemma CertifiedMatch(b: Behaviour, fs: FileSystem, m: Manifest, o: Outcome)
    requires Certified(b, m, o) && Matches(fs, m)
    ensures RerunGives(b, fs, o)
  {
    var before, seen, full :| IsRun(b, before, seen, full) && m == ManifestOf(b, seen) && o == Stored(full);
    MatchForcesRun(b, before, fs, seen, full);
  }

  ghost predicate SoundCertificate(behaviours: Behaviours, k: Key, p: Payload) {
    && p.outcome.ok
    && (p.traceComplete && !p.network ==> Certified(behaviours(k.identity, k.context), p.inputs, p.outcome))
  }

  /** A complete, network-free index row names a manifest that certifies its certificate's outcome. */
  ghost predicate SoundIndex(behaviours: Behaviours, k: Key, s: Success, p: Payload) {
    s.complete && !s.network ==> Certified(behaviours(k.identity, k.context), s.manifest, p.outcome)
  }

  ghost predicate Sound(behaviours: Behaviours, certificates: Certificates, successes: Successes) {
    && (forall k :: k in certificates ==> SoundCertificate(behaviours, k, certificates[k].value))
    && (forall k :: k in successes && k in certificates ==>
          SoundIndex(behaviours, k, successes[k].value, certificates[k].value))
  }

  /** Dropping rows, whichever and for whatever reason, keeps the tables sound. */
  lemma PruneKeepsSound(behaviours: Behaviours, certificates: Certificates, successes: Successes,
                        c: Certificates, s: Successes)
    requires Sound(behaviours, certificates, successes)
    requires forall k :: k in c ==> k in certificates && c[k] == certificates[k]
    requires forall k :: k in s ==> k in successes && s[k] == successes[k]
    ensures Sound(behaviours, c, s)
  {
    hide SoundCertificate, SoundIndex;
  }

  /** Recording an honest result that passed keeps the tables sound. */
  lemma RecordKeepsSound(behaviours: Behaviours, certificates: Certificates, successes: Successes,
                         fs: FileSystem, k: Key, r: CommandResult, scope: Scope, now: int)
    requires Sound(behaviours, certificates, successes)
    requires r.outcome.ok && Honest(behaviours(k.identity, k.context), fs, r)
    ensures Sound(behaviours, certificates[k := CertificateOf(r, now)], successes[k := SuccessOf(r, scope, now)])
  {
    hide IsRun;
    var b := behaviours(k.identity, k.context);
    if r.traceComplete && !r.network {
      var seen :| IsRun(b, fs, seen, r.outcome) && r.inputs == ManifestOf(b, seen);
      assert Certified(b, r.inputs, Stored(r.outcome));
    }
    assert SoundCertificate(behaviours, k, CertificateOf(r, now).value);
    assert SoundIndex(behaviours, k, SuccessOf(r, scope, now).value, CertificateOf(r, now).value);
    hide SoundCertificate, SoundIndex;
  }

  // ---------------------------------------------------------------- where stored rows come from

  /** A result as it was recorded: under which key, for which scope and when. */
  datatype Report = Report(key: Key, result: CommandResult, scope: Scope, at: int)

  /** Nothing is wrong with the result: it passed, ran to its end, left the files alone and is its own. */
  predicate Untainted(r: CommandResult) {
    && r.outcome.ok && r.termination == "" && !r.cleanupIncomplete && !r.infrastructure && !r.mutated && !r.cached
  }

  /** The certificate is this report's. */
  ghost predicate Certifies(p: Report, k: Key, row: Row<Payload>) {
    && p.key == k && Untainted(p.result) && row.updated == p.at
    && row.value.outcome == Stored(p.result.outcome) && row.value.artifacts == p.result.artifacts
    && row.value.inputs == p.result.inputs
    && row.value.traceComplete == p.result.traceComplete && row.value.network == p.result.network
  }

  /** The index row is this report's: what it says to be complete is a full trace, taken where inputs are
      observed and without network. */
  ghost predicate Indexes(p: Report, k: Key, row: Row<Success>) {
    && p.key == k && row.updated == p.at && row.value.network == p.result.network
    && (row.value.complete ==>
          (p.scope == ObservedInputs || p.scope == Auto) && p.result.traceComplete && !p.result.network
          && row.value.manifest == p.result.inputs != map[])
  }

  /** Every certificate is that of a report, and an index row beside it is of the same one. */
  ghost predicate Backed(history: set<Report>, certificates: Certificates, successes: Successes) {
    && (forall k :: k in certificates ==> exists p :: p in history && Certifies(p, k, certificates[k]))
    && (forall k :: k in certificates && k in successes ==>
          exists p :: p in history && Certifies(p, k, certificates[k]) && Indexes(p, k, successes[k]))
  }

  /** The contents of all outputs of the certificates are kept. */
  ghost predicate Held(certificates: Certificates, blobs: set<string>) {
    forall k, a :: k in certificates && a in certificates[k].value.artifacts ==> ArtifactName(a) && a.digest in blobs
  }

  lemma HeldMore(certificates: Certificates, blobs: set<string>, more: set<string>)
    requires Held(certificates, blobs) && blobs <= more
    ensures Held(certificates, more)
  {
  }

  lemma RecordKeepsHeld(certificates: Certificates, blobs: set<string>, k: Key, r: CommandResult, now: int, more: set<string>)
    requires Held(certificates, blobs) && blobs <= more
    requires forall a :: a in r.artifacts ==> ArtifactName(a) && a.digest in more
    ensures Held(certificates[k := CertificateOf(r, now)], more)
  {
  }

  lemma PruneKeepsBacked(history: set<Report>, certificates: Certificates, successes: Successes, c: Certificates, s: Successes)
    requires Backed(history, certificates, successes)
    requires forall k :: k in c ==> k in certificates && c[k] == certificates[k]
    requires forall k :: k in s ==> k in successes && s[k] == successes[k]
    ensures Backed(history, c, s)
  {
    hide Certifies, Indexes;
  }

  lemma RecordKeepsBacked(history: set<Report>, certificates: Certificates, successes: Successes, p: Report)
    requires Backed(history, certificates, successes) && Untainted(p.result)
    ensures Backed(history + {p}, certificates[p.key := CertificateOf(p.result, p.at)],
                   successes[p.key := SuccessOf(p.result, p.scope, p.at)])
  {
    assert Certifies(p, p.key, CertificateOf(p.result, p.at));
    assert Indexes(p, p.key, SuccessOf(p.result, p.scope, p.at));
    hide Certifies, Indexes;
    var more, c, s := history + {p}, certificates[p.key := CertificateOf(p.result, p.at)], successes[p.key := SuccessOf(p.result, p.scope, p.at)];
    forall k | k in c ensures exists q :: q in more && Certifies(q, k, c[k]) {
      if k == p.key { assert p in more; }
      else { var q :| q in history && Certifies(q, k, certificates[k]); assert q in more; }
    }
    forall k | k in c && k in s ensures exists q :: q in more && Certifies(q, k, c[k]) && Indexes(q, k, s[k]) {
      if k == p.key { assert p in more; }
      else { var q :| q in history && Certifies(q, k, certificates[k]) && Indexes(q, k, successes[k]); assert q in more; }
    }
  }

  // ---------------------------------------------------------------- restoring outputs

  /** `b` keeps every file and directory of `a` as it is. */
  predicate Extends(a: FileSystem, b: FileSystem) {
    forall p | p in a :: p in b && b[p] == a[p]
  }

  lemma Unchanged(fs: FileSystem)
    ensures Extends(fs, fs)
  {
  }

  predicate ArtifactName(a: Artifact) {
    !a.absolute && a.path != [] && ".." !in a.path
  }

  /** Can this output be put back: its contents are kept, nothing that is no directory is in its way and
      nothing else is in its place. */
  predicate Restorable(a: Artifact, blobs: set<string>, fs: FileSystem) {
    && ArtifactName(a) && a.digest in blobs
    && (forall i | 1 <= i < |a.path| :: a.path[..i] in fs ==> fs[a.path[..i]] == Directory)
    && (a.path in fs ==> fs[a.path] == File(a.digest))
  }

  /** The directories above a path. */
  function Above(path: Path): set<Path> {
    set i | 1 <= i < |path| :: path[..i]
  }

  /** The files with the directories above a path made. */
  function WithDirectories(fs: FileSystem, path: Path): FileSystem {
    (map p | p in Above(path) :: Directory) + fs
  }

  /** Putting an output back makes the directories it needs. */
  function Write(fs: FileSystem, a: Artifact): FileSystem {
    WithDirectories(fs, a.path)[a.path := File(a.digest)]
  }

  /** Outputs are put back in order, up to the first that cannot be. */
  function Restore(artifacts: Artifacts, blobs: set<string>, fs: FileSystem): (bool, FileSystem) {
    if artifacts == [] then (true, fs)
    else if !Restorable(artifacts[0], blobs, fs) then (false, fs)
    else Restore(artifacts[1..], blobs, Write(fs, artifacts[0]))
  }

  lemma WriteFacts(a: Artifact, blobs: set<string>, fs: FileSystem)
    requires WellFormed(fs) && Restorable(a, blobs, fs)
    ensures WellFormed(Write(fs, a)) && Extends(fs, Write(fs, a))
    ensures a.path in Write(fs, a) && Write(fs, a)[a.path] == File(a.digest)
    ensures forall p :: p in Write(fs, a) && p !in fs ==> p == a.path || p in Above(a.path)
    ensures a.path in fs ==> Write(fs, a) == fs
  {
    var after := Write(fs, a);
    forall p | p in fs ensures p in after && after[p] == fs[p] {}
    forall p, i | p in after && 0 <= i < |p| ensures IsDirectory(after, p[..i]) {
      if p in fs {
        assert IsDirectory(fs, p[..i]);
      } else if p == a.path {
        assert i > 0 ==> p[..i] in Above(a.path);
      } else {
        var k :| 1 <= k < |a.path| && p == a.path[..k];
        assert p[..i] == a.path[..i];
        assert i > 0 ==> p[..i] in Above(a.path);
      }
    }
    if a.path in fs {
      forall p | p in Above(a.path) ensures p in fs {
        var k :| 1 <= k < |a.path| && p == a.path[..k];
        assert IsDirectory(fs, a.path[..k]);
      }
    }
  }

  /** A single output is put back exactly when its name stays inside the project, its contents are kept,
      nothing else is in its place and only directories are on the way there. */
  lemma RestoreOne(a: Artifact, blobs: set<string>, fs: FileSystem)
    requires WellFormed(fs)
    ensures Restore([a], blobs, fs).0 <==>
      (&& !a.absolute && a.path != [] && ".." !in a.path && a.digest in blobs
       && (Look(fs, a.path) == Seen(a.digest) || a.path !in fs)
       && forall p :: p < a.path && p in fs ==> fs[p] == Directory)
    ensures Restore([a], blobs, fs).0 ==> Restore([a], blobs, fs).1 == Write(fs, a)
  {
    assert [a][1..] == [];
    forall p | p < a.path && p in fs && Restorable(a, blobs, fs) ensures fs[p] == Directory {
      assert p == a.path[..|p|] && |p| > 0;
    }
    forall i | 1 <= i < |a.path| ensures a.path[..i] < a.path {}
  }

  /** Is this one of the outputs, or a directory above one? */
  ghost predicate MadeFor(p: Path, node: Node, artifacts: Artifacts) {
    exists a :: a in artifacts && ((p == a.path && node == File(a.digest)) || (p in Above(a.path) && node == Directory))
  }

  /** Restoring never overwrites, makes only outputs and the directories above them, and a success leaves
      every output in place. */
  lemma {:induction false} RestoreFacts(artifacts: Artifacts, blobs: set<string>, fs: FileSystem)
    requires WellFormed(fs)
    ensures var (ok, after) := Restore(artifacts, blobs, fs);
      && WellFormed(after) && Extends(fs, after)
      && (forall p :: p in after && p !in fs ==> MadeFor(p, after[p], artifacts))
      && (ok ==> forall a :: a in artifacts ==> a.path in after && after[a.path] == File(a.digest))
  {
    hide WellFormed, Restorable, Write, Above;
    if artifacts != [] && Restorable(artifacts[0], blobs, fs) {
      var first, rest := artifacts[0], artifacts[1..];
      WriteFacts(first, blobs, fs);
      RestoreFacts(rest, blobs, Write(fs, first));
      var (ok, after) := Restore(rest, blobs, Write(fs, first));
      assert artifacts == [first] + rest;
      forall p | p in after && p !in fs ensures MadeFor(p, after[p], artifacts) {
        if p in Write(fs, first) {
          WrittenNode(fs, first, p);
          assert first in artifacts;
        } else {
          var a :| a in rest && ((p == a.path && after[p] == File(a.digest)) || (p in Above(a.path) && after[p] == Directory));
          assert a in artifacts;
        }
      }
    }
  }

  lemma WrittenNode(fs: FileSystem, a: Artifact, p: Path)
    requires p in Write(fs, a) && p !in fs
    ensures (p == a.path && Write(fs, a)[p] == File(a.digest)) || (p in Above(a.path) && Write(fs, a)[p] == Directory)
  {
  }

  /** Nothing came into being at a path, nor, if it is a directory, in it. */
  predicate SameView(before: FileSystem, after: FileSystem, path: Path) {
    if IsDirectory(before, path) then forall p | p in after && IsChild(path, p) :: p in before
    else path !in after || path in before
  }

  lemma SameViewLooks(before: FileSystem, after: FileSystem, path: Path)
    requires WellFormed(before) && WellFormed(after) && Extends(before, after)
    ensures Look(after, path) == Look(before, path) <==> SameView(before, after, path)
  {
    hide WellFormed;
    if IsDirectory(before, path) {
      if SameView(before, after, path) {
        assert Names(after, path) == Names(before, path);
      } else {
        var p :| p in after && IsChild(path, p) && p !in before;
        var name := p[|path|];
        assert name in Names(after, path);
        forall q | q in before && IsChild(path, q) ensures q[|path|] != name {
          assert q == path + [q[|path|]] && p == path + [name];
        }
      }
    }
  }

  /** After a restoration the manifest still matches exactly when no path it names came into being and no
      directory it names gained an entry: a command that looked for its own output, or listed the
      directory it puts it in, is validated again only while that output is missing. */
  lemma MatchSurvivesRestore(before: FileSystem, after: FileSystem, m: Manifest)
    requires WellFormed(before) && WellFormed(after)
    requires Matches(before, m) && Extends(before, after)
    ensures Matches(after, m) <==> forall p :: p in m ==> SameView(before, after, p)
  {
    hide WellFormed, Look, SameView;
    forall p | p in m ensures Look(after, p) == m[p] <==> SameView(before, after, p) { SameViewLooks(before, after, p); }
  }

  // ---------------------------------------------------------------- looking up

  /** `rows` are the newest of the eligible index rows, newest first, as many as the limit allows. */
  ghost predicate Newest(rows: seq<Key>, eligible: Successes) {
    && (forall i :: 0 <= i < |rows| ==> rows[i] in eligible)
    && (forall i, j :: 0 <= i < j < |rows| ==> rows[i] != rows[j])
    && (forall i, j :: 0 <= i < j < |rows| ==> eligible[rows[j]].updated <= eligible[rows[i]].updated)
    && (forall i, k :: 0 <= i < |rows| && k in eligible && k !in rows ==> eligible[k].updated <= eligible[rows[i]].updated)
    && |rows| == if |eligible| < CANDIDATE_LIMIT then |eligible| else CANDIDATE_LIMIT
  }

  datatype Attempt = Attempt(hit: Option<Key>, files: FileSystem)

  /** The first row whose manifest matches and whose outputs can all be put back answers. What earlier
      rows already put back stays. */
  function TryRows(rows: seq<Key>, successes: Successes, certificates: Certificates, blobs: set<string>,
          fs: FileSystem): Attempt
    requires forall k :: k in rows ==> k in successes && k in certificates
  {
    if rows == [] then Attempt(None, fs)
    else
      var k := rows[0];
      if !Matches(fs, successes[k].value.manifest) then TryRows(rows[1..], successes, certificates, blobs, fs)
      else
        var (ok, after) := Restore(certificates[k].value.artifacts, blobs, fs);
        if ok then Attempt(Some(k), after) else TryRows(rows[1..], successes, certificates, blobs, after)
  }

  /** A row that answers matched the files as they stood just before its own outputs were put back. */
  ghost predicate MatchedOn(mid: FileSystem, k: Key, successes: Successes, certificates: Certificates,
          blobs: set<string>, after: FileSystem)
    requires k in successes && k in certificates
  {
    Matches(mid, successes[k].value.manifest) && Restore(certificates[k].value.artifacts, blobs, mid) == (true, after)
  }

  lemma {:induction false} TryRowsFacts(rows: seq<Key>, successes: Successes, certificates: Certificates,
          blobs: set<string>, fs: FileSystem)
    requires forall k :: k in rows ==> k in successes && k in certificates
    requires WellFormed(fs)
    ensures var a := TryRows(rows, successes, certificates, blobs, fs);
      && WellFormed(a.files) && Extends(fs, a.files)
      && (a.hit.Some? ==> (
            && a.hit.value in rows
            && exists mid :: WellFormed(mid) && Extends(fs, mid) && MatchedOn(mid, a.hit.value, successes, certificates, blobs, a.files)))
  {
    hide Restore, Matches;
    if rows != [] {
      var k := rows[0];
      if !Matches(fs, successes[k].value.manifest) {
        TryRowsFacts(rows[1..], successes, certificates, blobs, fs);
      } else {
        RestoreFacts(certificates[k].value.artifacts, blobs, fs);
        var (ok, after) := Restore(certificates[k].value.artifacts, blobs, fs);
        if ok {
          assert WellFormed(fs) && Extends(fs, fs) && MatchedOn(fs, k, successes, certificates, blobs, after);
        } else {
          TryRowsFacts(rows[1..], successes, certificates, blobs, after);
        }
      }
    }
  }

  /** Nothing valid is passed over: with no earlier row matching, a row that matches and can be
      restored is the one that answers. */
  lemma {:induction false} TryRowsFinds(rows: seq<Key>, i: nat, successes: Successes, certificates: Certificates,
          blobs: set<string>, fs: FileSystem)
    requires forall k :: k in rows ==> k in successes && k in certificates
    requires i < |rows| && Matches(fs, successes[rows[i]].value.manifest)
    requires Restore(certificates[rows[i]].value.artifacts, blobs, fs).0
    requires forall j :: 0 <= j < i ==> !Matches(fs, successes[rows[j]].value.manifest)
    ensures TryRows(rows, successes, certificates, blobs, fs).hit == Some(rows[i])
  {
    hide Restore, Matches;
    if i > 0 {
      assert forall j :: 0 <= j < i - 1 ==> rows[1..][j] == rows[j + 1];
      TryRowsFinds(rows[1..], i - 1, successes, certificates, blobs, fs);
    }
  }

  datatype Lookup = Hit(outcome: Outcome, observed: bool) | Miss(reason: string)

  /** What a hit that rests on a complete, network-free manifest promises: some state of the files
      between the one before the lookup and the one after it - the state just before the outputs were
      put back - on which the command, run again, gives just this outcome. */
  ghost predicate RerunsBetween(b: Behaviour, before: FileSystem, after: FileSystem, o: Outcome) {
    exists mid :: Extends(before, mid) && Extends(mid, after) && RerunGives(b, mid, o)
  }

  lemma RowHitReruns(behaviours: Behaviours, rows: seq<Key>, successes: Successes, certificates: Certificates,
                     blobs: set<string>, fs: FileSystem)
    requires Sound(behaviours, certificates, successes)
    requires forall k :: k in rows ==> k in successes && k in certificates && successes[k].value.complete && !successes[k].value.network
    requires WellFormed(fs)
    ensures var a := TryRows(rows, successes, certificates, blobs, fs);
      && WellFormed(a.files) && Extends(fs, a.files)
      && (a.hit.Some? ==> (
        && a.hit.value in rows && certificates[a.hit.value].value.outcome.ok
        && RerunsBetween(behaviours(a.hit.value.identity, a.hit.value.context), fs, a.files,
                         certificates[a.hit.value].value.outcome)))
  {
    hide TryRows, Restore, Matches;
    TryRowsFacts(rows, successes, certificates, blobs, fs);
    var a := TryRows(rows, successes, certificates, blobs, fs);
    if a.hit.Some? {
      var k := a.hit.value;
      assert SoundCertificate(behaviours, k, certificates[k].value) && SoundIndex(behaviours, k, successes[k].value, certificates[k].value);
      var mid :| WellFormed(mid) && Extends(fs, mid) && MatchedOn(mid, k, successes, certificates, blobs, a.files);
      RestoreFacts(certificates[k].value.artifacts, blobs, mid);
      CertifiedMatch(behaviours(k.identity, k.context), mid, successes[k].value.manifest, certificates[k].value.outcome);
    }
  }

  /** A certificate that names, completely and without network, what its run looked at. */
  predicate ExactlyTraced(p: Payload) {
    p.traceComplete && !p.network && p.inputs != map[]
  }

  /** The exact key: a fresh certificate for this very source and context decides, and never falls
      through to the index. */
  function TryCertificate(p: Payload, blobs: set<string>, fs: FileSystem): (Lookup, FileSystem) {
    if p.inputs != map[] && !Matches(fs, p.inputs) then (Miss("observed_inputs_changed"), fs)
    else
      var (ok, after) := Restore(p.artifacts, blobs, fs);
      (if ok then Hit(p.outcome, false) else Miss("artifact_missing_or_conflicting"), after)
  }

  lemma CertificateHitReruns(behaviours: Behaviours, k: Key, p: Payload, blobs: set<string>, fs: FileSystem)
    requires SoundCertificate(behaviours, k, p) && WellFormed(fs)
    ensures var (found, after) := TryCertificate(p, blobs, fs);
      && WellFormed(after) && Extends(fs, after)
      && (found.Hit? ==> found.outcome.ok)
      && (found.Hit? && ExactlyTraced(p) ==>
            RerunsBetween(behaviours(k.identity, k.context), fs, after, found.outcome))
  {
    hide Restore;
    RestoreFacts(p.artifacts, blobs, fs);
    var (found, after) := TryCertificate(p, blobs, fs);
    if found.Hit? && ExactlyTraced(p) {
      CertifiedMatch(behaviours(k.identity, k.context), fs, p.inputs, p.outcome);
      assert Extends(fs, fs) && Extends(fs, after) && RerunGives(behaviours(k.identity, k.context), fs, p.outcome);
    }
  }

  /** A validated answer stays right for as long as the files it rests on do: outputs that came into
      being aside, re-running after the lookup gives the same outcome. */
  lemma StillReruns(b: Behaviour, m: Manifest, o: Outcome, before: FileSystem, after: FileSystem)
    requires WellFormed(before) && WellFormed(after)
    requires Certified(b, m, o) && Matches(before, m) && Extends(before, after)
    requires forall p :: p in m ==> SameView(before, after, p)
    ensures RerunGives(b, after, o)
  {
    MatchSurvivesRestore(before, after, m);
    CertifiedMatch(b, after, m, o);
  }

  // ---------------------------------------------------------------- what a hit comes from

  /** The outcome as stored: all of it, with the last 200000 characters of the output. */
  predicate EndOf(o: Outcome, full: Outcome) {
    && o.ok == full.ok && o.returncode == full.returncode
    && |o.output| <= |full.output| && o.output == full.output[|full.output| - |o.output|..]
    && |o.output| == if |full.output| <= 200000 then |full.output| else 200000
  }

  /** The answer is this report's: nothing was wrong with it, its outcome comes back as stored, its inputs
      looked as it saw them before its outputs were put back, and these are all in place. */
  ghost predicate AnswersFrom(p: Report, o: Outcome, before: FileSystem, after: FileSystem) {
    && EndOf(o, p.result.outcome)
    && p.result.outcome.ok && p.result.termination == "" && !p.result.cleanupIncomplete
    && !p.result.infrastructure && !p.result.mutated && !p.result.cached
    && (p.result.inputs != map[] ==>
          exists mid :: Extends(before, mid) && Extends(mid, after) && Matches(mid, p.result.inputs))
    && (forall a | a in p.result.artifacts :: a.path in after && after[a.path] == File(a.digest))
  }

  lemma StoredIsEnd(full: Outcome)
    ensures EndOf(Stored(full), full)
  {
  }

  /** An answer from the exact key is the report's that it is the certificate of. */
  lemma CertificateAnswers(history: set<Report>, k: Key, row: Row<Payload>, blobs: set<string>, fs: FileSystem)
    requires WellFormed(fs) && exists p :: p in history && Certifies(p, k, row)
    ensures var (found, after) := TryCertificate(row.value, blobs, fs);
      found.Hit? ==> exists p :: p in history && p.key == k && p.at == row.updated && AnswersFrom(p, found.outcome, fs, after)
  {
    hide Restore, Matches, WellFormed, Stored, EndOf;
    var (found, after) := TryCertificate(row.value, blobs, fs);
    if found.Hit? {
      var p :| p in history && Certifies(p, k, row);
      RestoreFacts(row.value.artifacts, blobs, fs);
      StoredIsEnd(p.result.outcome);
      assert Extends(fs, fs);
      assert AnswersFrom(p, found.outcome, fs, after);
    }
  }

  /** An answer from the index is the report's that its row is of, taken with its inputs observed, fully
      traced and without network. */
  lemma RowAnswers(history: set<Report>, rows: seq<Key>, successes: Successes, certificates: Certificates,
                   blobs: set<string>, fs: FileSystem)
    requires WellFormed(fs) && Backed(history, certificates, successes)
    requires forall k :: k in rows ==> k in successes && k in certificates && successes[k].value.complete
    ensures var a := TryRows(rows, successes, certificates, blobs, fs);
      a.hit.Some? && a.hit.value in certificates && a.hit.value in successes ==>
        exists p :: p in history && p.key == a.hit.value && p.at == successes[a.hit.value].updated && FromTrace(p)
          && AnswersFrom(p, certificates[a.hit.value].value.outcome, fs, a.files)
  {
    hide Restore, Matches, WellFormed, Stored, EndOf, TryRows;
    TryRowsFacts(rows, successes, certificates, blobs, fs);
    var a := TryRows(rows, successes, certificates, blobs, fs);
    if a.hit.Some? {
      var k := a.hit.value;
      var p :| p in history && Certifies(p, k, certificates[k]) && Indexes(p, k, successes[k]);
      var mid :| WellFormed(mid) && Extends(fs, mid) && MatchedOn(mid, k, successes, certificates, blobs, a.files);
      RestoreFacts(certificates[k].value.artifacts, blobs, mid);
      StoredIsEnd(p.result.outcome);
      assert AnswersFrom(p, certificates[k].value.outcome, fs, a.files);
    }
  }

  /** Recorded where inputs are observed, fully traced and without network. */
  predicate FromTrace(p: Report) {
    (p.scope == ObservedInputs || p.scope == Auto) && p.result.traceComplete && !p.result.network && p.result.inputs != map[]
  }

  lemma {:induction false} DistinctSize(rows: seq<Key>)
    requires forall i, j :: 0 <= i < j < |rows| ==> rows[i] != rows[j]
    ensures |set k | k in rows| == |rows|
  {
    if rows != [] {
      var n := |rows| - 1;
      DistinctSize(rows[..n]);
      assert (set k | k in rows) == (set k | k in rows[..n]) + {rows[n]};
    }
  }

  lemma {:induction false} SubsetSize(a: set<Key>, b: set<Key>)
    requires a <= b
    ensures |a| <= |b|
  {
    if a != {} {
      var x :| x in a;
      SubsetSize(a - {x}, b - {x});
    }
  }

  /** Outputs that are all in place need no restoring. */
  lemma {:induction false} NothingToRestore(artifacts: Artifacts, blobs: set<string>, fs: FileSystem)
    requires WellFormed(fs)
    requires forall a :: a in artifacts ==> ArtifactName(a) && a.digest in blobs && a.path in fs && fs[a.path] == File(a.digest)
    ensures Restore(artifacts, blobs, fs) == (true, fs)
  {
    if artifacts != [] {
      var a := artifacts[0];
      assert a in artifacts;
      assert Restorable(a, blobs, fs) by {
        forall i | 1 <= i < |a.path| ensures a.path[..i] in fs ==> fs[a.path[..i]] == Directory {
          assert IsDirectory(fs, a.path[..i]);
        }
      }
      WriteFacts(a, blobs, fs);
      NothingToRestore(artifacts[1..], blobs, fs);
    }
  }

  // ---------------------------------------------------------------- run contexts

  /** The context part of a key: commands that depend on sources alone have none. */
  function ContextOf(cacheScope: string, context: string): string {
    if cacheScope == "source" then "" else context
  }

  /** `_effective_result_cache_scope`: what `auto` comes down to for one command. */
  function EffectiveScope(requested: Scope, cacheScope: string, outputs: bool, exclusive: bool, ports: bool): Scope {
    if requested == Auto && (cacheScope != "source" || outputs || exclusive || ports) then CandidateOnly else requested
  }

  /** A lookup in a run context reads the context-free index exactly when the scope is set to
      `observed_inputs` outright for a command that does not depend on sources alone. */
  lemma IndexInContext(requested: Scope, cacheScope: string, outputs: bool, exclusive: bool, ports: bool,
                       context: string)
    ensures ObservesInputs(EffectiveScope(requested, cacheScope, outputs, exclusive, ports))
            && ContextOf(cacheScope, context) != "" <==>
            requested == ObservedInputs && cacheScope != "source" && context != ""
  {
  }

  /** Scopes of one verification step. */
  datatype Step = Step(cacheScope: string, requested: Scope)

  /** What a single step may declare. */
  predicate DeclaredStep(s: Step) {
    s.requested == ObservedInputs ==> s.cacheScope == "source"
  }

  function ScopeRank(s: Scope): nat {
    match s case ObservedInputs => 0 case Auto => 0 case CandidateOnly => 1 case Off => 2
  }

  /** Steps of one command merged: one context makes a context, and of the result scopes the first of the
      strictest stays. */
  function Merged(steps: seq<Step>): Step
    requires steps != []
  {
    if |steps| == 1 then Step(if steps[0].cacheScope == "source" then "source" else "run_context", steps[0].requested)
    else
      var n := |steps| - 1;
      var before := Merged(steps[..n]);
      Step(if steps[n].cacheScope == "source" then before.cacheScope else "run_context",
           if ScopeRank(before.requested) < ScopeRank(steps[n].requested) then steps[n].requested else before.requested)
  }

  /** Merging keeps the promise of single steps exactly unless the first step observes inputs, none is
      stricter, and a later one brings a context. */
  lemma {:induction false} MergedDeclares(steps: seq<Step>)
    requires steps != [] && forall s :: s in steps ==> DeclaredStep(s)
    ensures Merged(steps).cacheScope == "source" <==> forall s :: s in steps ==> s.cacheScope == "source"
    ensures Merged(steps).requested == ObservedInputs <==>
            steps[0].requested == ObservedInputs && forall s :: s in steps ==> ScopeRank(s.requested) == 0
    ensures ScopeRank(Merged(steps).requested) == 0 <==> forall s :: s in steps ==> ScopeRank(s.requested) == 0
    ensures ScopeRank(Merged(steps).requested) == 0 ==> Merged(steps).requested == steps[0].requested
  {
    if |steps| == 1 {
      assert steps[0] in steps;
    } else {
      var n := |steps| - 1;
      assert steps == steps[..n] + [steps[n]];
      MergedDeclares(steps[..n]);
      assert steps[..n][0] == steps[0] && steps[n] in steps;
    }
  }

  /** One step that switches reuse off switches it off for all. */
  lemma {:induction false} MergedOff(steps: seq<Step>)
    requires steps != []
    ensures Merged(steps).requested == Off <==> exists s :: s in steps && s.requested == Off
  {
    if |steps| == 1 {
      assert steps[0] in steps;
    } else {
      var n := |steps| - 1;
      MergedOff(steps[..n]);
      assert forall s :: s in steps <==> s in steps[..n] || s == steps[n];
    }
  }

  /** How the input arises: two steps of one command, each of them declared as it must be. */
  lemma MergeMakesContext()
    ensures var steps := [Step("source", ObservedInputs), Step("run_context", Auto)];
      && (forall s :: s in steps ==> DeclaredStep(s))
      && Merged(steps) == Step("run_context", ObservedInputs) && !DeclaredStep(Merged(steps))
  {
    var steps := [Step("source", ObservedInputs), Step("run_context", Auto)];
    assert steps[..1] == [Step("source", ObservedInputs)];
  }

  /** Whatever commands do and whatever context-free rows are stored soundly for one of them: an answer
      from the rows is what running it again in context `c` gives. */
  ghost predicate AnswersIn(c: string, behaviours: Behaviours, rows: seq<Key>, successes: Successes,
                            certificates: Certificates, blobs: set<string>, fs: FileSystem)
    requires forall k :: k in rows ==> k in successes && k in certificates
  {
    var a := TryRows(rows, successes, certificates, blobs, fs);
    a.hit.Some? && a.hit.value in certificates ==>
      RerunsBetween(behaviours(a.hit.value.identity, c), fs, a.files, certificates[a.hit.value].value.outcome)
  }

  ghost predicate IndexRows(behaviours: Behaviours, rows: seq<Key>, successes: Successes, certificates: Certificates,
                            fs: FileSystem)
  {
    && Sound(behaviours, certificates, successes) && WellFormed(fs)
    && (forall k :: k in rows ==> k in successes && k in certificates)
    && (forall k :: k in rows ==> k.context == "" && successes[k].value.complete && !successes[k].value.network)
  }

  /** Every answer from the index is right for a lookup without context ... */
  lemma IndexRightWithoutContext(behaviours: Behaviours, rows: seq<Key>, successes: Successes,
                                 certificates: Certificates, blobs: set<string>, fs: FileSystem)
    requires IndexRows(behaviours, rows, successes, certificates, fs)
    ensures AnswersIn("", behaviours, rows, successes, certificates, blobs, fs)
  {
    hide TryRows, Sound, RerunsBetween;
    RowHitReruns(behaviours, rows, successes, certificates, blobs, fs);
  }

  const CONTEXT_ID := Identity("check", "env", "meta", "policy")
  const CONTEXT_ROW := CandidateKey(CONTEXT_ID, "old", "")
  const CONTEXT_FILES: FileSystem := map[["f"] := File("1")]
  const CONTEXT_MANIFEST: Manifest := map[["f"] := Seen("1")]

  function ContextBehaviour(context: string): Behaviour {
    seen => if |seen| == 0 then Reads(["f"]) else Finishes(Outcome(true, 0, context))
  }

  const BEHAVIOURS_BY_CONTEXT: Behaviours := (i: Identity, c: string) => ContextBehaviour(c)
  const CONTEXT_CERTIFICATES: Certificates :=
    map[CONTEXT_ROW := Row(Payload(Outcome(true, 0, ""), [], CONTEXT_MANIFEST, true, false), 0)]
  const CONTEXT_SUCCESSES: Successes := map[CONTEXT_ROW := Row(Success(CONTEXT_MANIFEST, true, false), 0)]

  /** ... and for no lookup with one: in every run context there is a command that does something else
      there, with a sound context-free row that answers all the same. */
  lemma IndexWrongInContext(c: string)
    requires c != ""
    ensures IndexRows(BEHAVIOURS_BY_CONTEXT, [CONTEXT_ROW], CONTEXT_SUCCESSES, CONTEXT_CERTIFICATES, CONTEXT_FILES)
    ensures !AnswersIn(c, BEHAVIOURS_BY_CONTEXT, [CONTEXT_ROW], CONTEXT_SUCCESSES, CONTEXT_CERTIFICATES, {}, CONTEXT_FILES)
  {
    var seen := [Seen("1")];
    var free, inContext, stored := ContextBehaviour(""), ContextBehaviour(c), Outcome(true, 0, "");
    assert seen[..0] == [] && Look(CONTEXT_FILES, ["f"]) == Seen("1");
    assert IsRun(free, CONTEXT_FILES, seen, stored);
    assert ManifestOf(free, seen[..0]) == map[];
    assert ManifestOf(free, seen) == CONTEXT_MANIFEST;
    assert Certified(free, CONTEXT_MANIFEST, Stored(stored));
    assert IsRun(inContext, CONTEXT_FILES, seen, Outcome(true, 0, c));
    assert Stored(Outcome(true, 0, c)).output != "";
    assert TryRows([CONTEXT_ROW], CONTEXT_SUCCESSES, CONTEXT_CERTIFICATES, {}, CONTEXT_FILES)
        == Attempt(Some(CONTEXT_ROW), CONTEXT_FILES);
    forall mid | Extends(CONTEXT_FILES, mid) && Extends(mid, CONTEXT_FILES) ensures !RerunGives(inContext, mid, stored) {
      assert mid == CONTEXT_FILES;
      if RerunGives(inContext, CONTEXT_FILES, stored) {
        RerunUnique(inContext, CONTEXT_FILES, stored, seen, Outcome(true, 0, c));
      }
    }
  }

  /** Is every answer from the index right in context `c`? */
  ghost predicate IndexRightIn(c: string) {
    forall behaviours: Behaviours, rows, successes, certificates, blobs, fs ::
      IndexRows(behaviours, rows, successes, certificates, fs) ==>
      AnswersIn(c, behaviours, rows, successes, certificates, blobs, fs)
  }

  /** Over all commands and all sound tables: every index answer is what re-running gives in the lookup's
      own context exactly when that lookup has none. */
  lemma IndexRightExactly(cacheScope: string, context: string)
    ensures IndexRightIn(ContextOf(cacheScope, context)) <==> ContextOf(cacheScope, context) == ""
  {
    hide AnswersIn;
    var c := ContextOf(cacheScope, context);
    if c != "" {
      IndexWrongInContext(c);
    } else {
      forall behaviours: Behaviours, rows, successes, certificates, blobs, fs | IndexRows(behaviours, rows, successes, certificates, fs)
        ensures AnswersIn(c, behaviours, rows, successes, certificates, blobs, fs)
      {
        IndexRightWithoutContext(behaviours, rows, successes, certificates, blobs, fs);
      }
    }
  }

  // ---------------------------------------------------------------- the cache

  /** The cache, with the project files it validates against. */
  class GateResultCache {
    const environment: string
    const contextFingerprint: string
    const policy: string
    const maxAge: nat
    ghost const behaviours: Behaviours
    var disabled: bool
    var certificates: Certificates
    var successes: Successes
    var blobs: set<string>
    var files: FileSystem
    // every report that was recorded
    ghost var history: set<Report>

    constructor (environment: string, context: string, policy: string, maxAge: int, files: FileSystem,
                 ghost behaviours: Behaviours)
      requires WellFormed(files)
      ensures Valid() && this.files == files && certificates == map[] && successes == map[] && !disabled && history == {}
      ensures this.environment == environment && contextFingerprint == context && this.policy == policy
      ensures this.maxAge >= 1 && (maxAge >= 1 ==> this.maxAge == maxAge) && this.behaviours == behaviours && blobs == {}
    {
      this.environment, this.contextFingerprint, this.policy := environment, context, policy;
      this.maxAge := if maxAge < 1 then 1 else maxAge;
      this.behaviours, this.files := behaviours, files;
      disabled, certificates, successes, blobs, history := false, map[], map[], {}, {};
    }

    ghost predicate Valid()
      reads this
    {
      && Sound(behaviours, certificates, successes) && WellFormed(files)
      && Backed(history, certificates, successes)
      && Held(certificates, blobs)
    }

    function KeyOf(command: string, source: string, cacheScope: string, metadata: string): Key {
      CandidateKey(Identity(Trim(command), environment, metadata, policy), source,
                   ContextOf(cacheScope, contextFingerprint))
    }

    /** Two lookups share a key exactly when nothing but the white space around their commands differs; the
        scope counts only as far as it decides whether a run context is part of the key. */
    lemma KeyMeans(command: string, source: string, cacheScope: string, metadata: string,
                   command': string, source': string, cacheScope': string, metadata': string)
      ensures KeyOf(command, source, cacheScope, metadata) == KeyOf(command', source', cacheScope', metadata') <==>
        && Trim(command) == Trim(command') && source == source' && metadata == metadata'
        && (contextFingerprint == "" || (cacheScope == "source" <==> cacheScope' == "source"))
    {
    }

    predicate Usable(scope: Scope)
      reads this`disabled
    {
      !disabled && !("unavailable:" <= environment) && scope != Off
    }

    /** Someone edits the project. */
    method EditFiles(files: FileSystem)
      requires Valid() && WellFormed(files)
      modifies this`files
      ensures Valid() && this.files == files
    {
      this.files := files;
    }

    predicate InPlaceOne(a: Artifact)
      reads this`files
    {
      ArtifactName(a) && a.path in files && files[a.path] == File(a.digest)
    }

    /** An output is in place when its name stays inside the project and looking there sees its digest. */
    lemma InPlaceMeans(a: Artifact)
      ensures InPlaceOne(a) <==> !a.absolute && a.path != [] && ".." !in a.path && Look(files, a.path) == Seen(a.digest)
    {
    }

    /** Keeps the contents of every output, if every output is there with the digest it claims. */
    method StoreArtifacts(artifacts: Artifacts) returns (ok: bool)
      modifies this`blobs
      ensures ok <==> forall a | a in artifacts :: InPlaceOne(a)
      ensures ok ==> forall a :: a in artifacts ==>
        !a.absolute && a.path != [] && ".." !in a.path && a.path in files && files[a.path] == File(a.digest)
      ensures old(blobs) <= blobs <= old(blobs) + (set a | a in artifacts :: a.digest)
      ensures ok ==> blobs == old(blobs) + (set a | a in artifacts :: a.digest)
    {
      for i := 0 to |artifacts|
        invariant forall j :: 0 <= j < i ==> InPlaceOne(artifacts[j])
        invariant blobs == old(blobs) + set a | a in artifacts[..i] :: a.digest
      {
        assert artifacts[i] in artifacts;
        if !InPlaceOne(artifacts[i]) { return false; }
        blobs := blobs + {artifacts[i].digest};
        assert artifacts[..i + 1] == artifacts[..i] + [artifacts[i]];
      }
      assert artifacts[..|artifacts|] == artifacts;
      ok := true;
    }

    predicate Current(updated: int, now: int) {
      now - maxAge <= updated
    }

    /** What `record` keeps, before the row limit. */
    function FreshCertificates(rows: Certificates, now: int): Certificates {
      map k | k in rows && Current(rows[k].updated, now) :: rows[k]
    }

    function FreshSuccesses(rows: Successes, now: int): Successes {
      map k | k in rows && Current(rows[k].updated, now) :: rows[k]
    }

    lemma FreshKept(withC: Certificates, withS: Successes, c: Certificates, s: Successes, now: int)
      requires Sound(behaviours, withC, withS) && Backed(history, withC, withS) && Held(withC, blobs)
      requires Kept(c, FreshCertificates(withC, now)) && Kept(s, FreshSuccesses(withS, now))
      ensures Sound(behaviours, c, s) && Backed(history, c, s) && Held(c, blobs)
    {
      hide Sound, Backed, ArtifactName;
      PruneKeepsSound(behaviours, withC, withS, c, s);
      PruneKeepsBacked(history, withC, withS, c, s);
    }

    /** `record` of an honest result. Nothing that failed, was cut short, mutated files or was itself
        cached is stored; rows past their age go, and the oldest of those beyond the row limit. */
    method Record(command: string, r: CommandResult, source: string, cacheScope: string, scope: Scope,
                  metadata: string, now: int) returns (recorded: bool)
      requires Valid()
      requires var k := KeyOf(command, source, cacheScope, metadata);
        Honest(behaviours(k.identity, k.context), files, r)
      modifies this`certificates, this`successes, this`blobs, this`history
      ensures Valid()
      ensures recorded <==>
        && !disabled && !("unavailable:" <= environment) && scope != Off
        && r.outcome.ok && r.termination == "" && !r.cleanupIncomplete && !r.infrastructure && !r.mutated && !r.cached
        && forall a | a in r.artifacts :: InPlaceOne(a)
      ensures !recorded ==> certificates == old(certificates) && successes == old(successes) && history == old(history)
      ensures recorded ==> history == old(history) + {Report(KeyOf(command, source, cacheScope, metadata), r, scope, now)}
      ensures var k, added := KeyOf(command, source, cacheScope, metadata), CertificateOf(r, now);
        recorded ==> Kept(certificates, FreshCertificates(old(certificates)[k := added], now))
      ensures var k, added := KeyOf(command, source, cacheScope, metadata), SuccessOf(r, scope, now);
        recorded ==> Kept(successes, FreshSuccesses(old(successes)[k := added], now))
    {
      hide Sound, Honest, Kept, FreshCertificates, FreshSuccesses, InPlaceOne, KeyOf, CertificateOf, SuccessOf, Trim, Backed, Held, WellFormed, ArtifactName;
      if disabled || "unavailable:" <= environment || scope == Off || r.termination != "" || r.cleanupIncomplete
        || r.infrastructure || r.mutated || r.cached || !r.outcome.ok {
        return false;
      }
      var stored := StoreArtifacts(r.artifacts);
      HeldMore(certificates, old(blobs), blobs);
      if !stored { return false; }
      var k := KeyOf(command, source, cacheScope, metadata);
      var withC := certificates[k := CertificateOf(r, now)];
      var withS := successes[k := SuccessOf(r, scope, now)];
      RecordKeepsSound(behaviours, certificates, successes, files, k, r, scope, now);
      RecordKeepsBacked(history, certificates, successes, Report(k, r, scope, now));
      StoredNames(r.artifacts);
      RecordKeepsHeld(certificates, old(blobs), k, r, now, blobs);
      history := history + {Report(k, r, scope, now)};
      certificates := KeepNewest(FreshCertificates(withC, now));
      successes := KeepNewest(FreshSuccesses(withS, now));
      FreshKept(withC, withS, certificates, successes, now);
      recorded := true;
    }

    lemma StoredNames(artifacts: Artifacts)
      requires forall a :: a in artifacts ==> InPlaceOne(a)
      ensures forall a :: a in artifacts ==> ArtifactName(a)
    {
    }

    static method KeepNewest<T>(rows: map<Key, Row<T>>) returns (kept: map<Key, Row<T>>)
      ensures Kept(kept, rows)
    {
      kept := rows;
      while |kept| > MAX_ROWS
        invariant forall k :: k in kept ==> k in rows && kept[k] == rows[k]
        invariant forall k, j :: k in kept && j in rows && j !in kept ==> rows[j].updated <= rows[k].updated
        invariant |kept| == |rows| || MAX_ROWS <= |kept| < |rows|
        decreases |kept|
      {
        var oldest := Oldest(kept);
        assert (kept - {oldest}).Keys == kept.Keys - {oldest};
        kept := kept - {oldest};
      }
    }

    static method Oldest<T>(rows: map<Key, Row<T>>) returns (oldest: Key)
      requires |rows| > 0
      ensures oldest in rows && forall j :: j in rows ==> rows[oldest].updated <= rows[j].updated
    {
      oldest :| oldest in rows;
      var rest := rows.Keys - {oldest};
      while rest != {}
        invariant oldest in rows && rest <= rows.Keys
        invariant forall j :: j in rows && j !in rest ==> rows[oldest].updated <= rows[j].updated
        decreases |rest|
      {
        var k :| k in rest;
        rest := rest - {k};
        if rows[k].updated < rows[oldest].updated { oldest := k; }
      }
    }

    /** The newest eligible rows, newest first. */
    static method NewestRows(eligible: Successes) returns (rows: seq<Key>)
      ensures Newest(rows, eligible)
    {
      rows := [];
      var left := eligible;
      while |left| > 0 && |rows| < CANDIDATE_LIMIT
        invariant Taken(rows, left, eligible) && |rows| <= CANDIDATE_LIMIT
        decreases |left|
      {
        var newest := Latest(left);
        assert (left - {newest}).Keys == left.Keys - {newest};
        TakeNewest(rows, left, eligible, newest);
        left, rows := left - {newest}, rows + [newest];
      }
    }

    /** Taken so far: the newest rows in order, with the rest left. */
    static ghost predicate Taken(rows: seq<Key>, left: Successes, eligible: Successes) {
      && |rows| + |left| == |eligible|
      && (forall i :: 0 <= i < |rows| ==> rows[i] in eligible && rows[i] !in left)
      && (forall i, j :: 0 <= i < j < |rows| ==> rows[i] != rows[j])
      && (forall i, j :: 0 <= i < j < |rows| ==> eligible[rows[j]].updated <= eligible[rows[i]].updated)
      && (forall k :: k in eligible && k !in rows ==> k in left)
      && (forall k :: k in left ==> k in eligible && left[k] == eligible[k])
      && (forall i, k :: 0 <= i < |rows| && k in left ==> left[k].updated <= eligible[rows[i]].updated)
    }

    static lemma TakeNewest(rows: seq<Key>, left: Successes, eligible: Successes, newest: Key)
      requires Taken(rows, left, eligible)
      requires newest in left && forall j :: j in left ==> left[j].updated <= left[newest].updated
      ensures Taken(rows + [newest], left - {newest}, eligible)
    {
      assert (left - {newest}).Keys == left.Keys - {newest};
    }

    static method Latest(rows: Successes) returns (latest: Key)
      requires |rows| > 0
      ensures latest in rows && forall j :: j in rows ==> rows[j].updated <= rows[latest].updated
    {
      latest :| latest in rows;
      var rest := rows.Keys - {latest};
      while rest != {}
        invariant latest in rows && rest <= rows.Keys
        invariant forall j :: j in rows && j !in rest ==> rows[j].updated <= rows[latest].updated
        decreases |rest|
      {
        var k :| k in rest;
        rest := rest - {k};
        if rows[latest].updated < rows[k].updated { latest := k; }
      }
    }

    function Eligible(identity: Identity, now: int): Successes
      reads this`certificates, this`successes
    {
      map k | k in successes && k in certificates && k.identity == identity && k.context == ""
        && successes[k].value.complete && !successes[k].value.network && Current(successes[k].updated, now) :: successes[k]
    }

    /** Is there a certificate for this very source and context, young enough? */
    predicate Exact(k: Key, now: int)
      reads this`certificates
    {
      k in certificates && Current(certificates[k].updated, now)
    }

    /** `lookup_with_reason`. The tables stay; files are only added. A hit is a success, and one that
        rests on a complete, network-free manifest is what re-running the command gives. */
    method LookupWithReason(command: string, source: string, cacheScope: string, scope: Scope,
                            metadata: string, now: int) returns (found: Lookup, ghost rows: seq<Key>)
      requires Valid()
      modifies this`files
      ensures Valid() && Extends(old(files), files)
      ensures !Usable(scope) ==> found == Miss(
        if "unavailable:" <= environment then "environment_identity_unavailable"
        else if disabled then "cache_disabled" else "scope_off") && files == old(files)
      ensures var k := KeyOf(command, source, cacheScope, metadata);
        Usable(scope) && Exact(k, now) ==> (found, files) == TryCertificate(certificates[k].value, blobs, old(files))
      ensures var k := KeyOf(command, source, cacheScope, metadata);
        Usable(scope) && !Exact(k, now) && !ObservesInputs(scope) ==> found == Miss("candidate_key_miss") && files == old(files)
      ensures var k := KeyOf(command, source, cacheScope, metadata);
        Usable(scope) && !Exact(k, now) && ObservesInputs(scope) ==>
          Newest(rows, Eligible(k.identity, now)) && FromRows(found, rows, old(files), files)
      // a hit is the outcome, as stored, of a report recorded under the answering key, not too long ago
      ensures var k := KeyOf(command, source, cacheScope, metadata);
        found.Hit? ==> Reported(found.outcome, k, Exact(k, now), old(files), files, now)
      // the exact key answers whenever its inputs look the same and its outputs are in place
      ensures var k := KeyOf(command, source, cacheScope, metadata);
        !disabled && !("unavailable:" <= environment) && scope != Off && Exact(k, now)
        && (certificates[k].value.inputs != map[] ==> Matches(old(files), certificates[k].value.inputs))
        && (forall a | a in certificates[k].value.artifacts :: a.path in old(files) && old(files)[a.path] == File(a.digest))
        ==> found == Hit(certificates[k].value.outcome, false) && files == old(files)
      // every row that may answer is looked at, unless there are as many as the limit allows
      ensures var k := KeyOf(command, source, cacheScope, metadata);
        Usable(scope) && !Exact(k, now) && ObservesInputs(scope) && |rows| < 20 ==>
          forall j :: MayAnswer(j, k.identity, now) ==> j in rows
      ensures found.Hit? ==> found.outcome.ok
      ensures var k := KeyOf(command, source, cacheScope, metadata);
        found.Hit? && !Exact(k, now) ==> RerunsBetween(behaviours(k.identity, ""), old(files), files, found.outcome)
      ensures var k := KeyOf(command, source, cacheScope, metadata);
        found.Hit? && Exact(k, now) && ExactlyTraced(certificates[k].value) ==>
          RerunsBetween(behaviours(k.identity, k.context), old(files), files, found.outcome)
    {
      hide *;
      rows := [];
      UsableMeans(scope);
      Unchanged(files);
      if "unavailable:" <= environment { return Miss("environment_identity_unavailable"), []; }
      if disabled || scope == Off { return Miss(if disabled then "cache_disabled" else "scope_off"), []; }
      var k := KeyOf(command, source, cacheScope, metadata);
      if Exact(k, now) {
        found := FromCertificate(k, now);
      } else if !ObservesInputs(scope) {
        found := Miss("candidate_key_miss");
      } else {
        found, rows := FromIndex(k, now);
      }
    }

    /** The report may answer for this key: its own when there is a young certificate for it, or else one of
        the same identity that has no context and names its inputs. */
    ghost predicate Answering(p: Report, k: Key, exact: bool) {
      if exact then p.key == k
      else p.key.identity == k.identity && p.key.context == "" && FromTrace(p)
    }

    /** The outcome is what such a report, recorded not too long ago, comes back as. */
    ghost predicate Reported(o: Outcome, k: Key, exact: bool, before: FileSystem, after: FileSystem, now: int)
      reads this`history
    {
      exists p :: p in history && now - maxAge <= p.at && Answering(p, k, exact) && AnswersFrom(p, o, before, after)
    }

    /** A young index row of this identity, free of context and network and complete, with its certificate. */
    ghost predicate MayAnswer(j: Key, identity: Identity, now: int)
      reads this`certificates, this`successes
    {
      && j in successes && j in certificates && j.identity == identity && j.context == ""
      && successes[j].value.complete && !successes[j].value.network && now - maxAge <= successes[j].updated
    }

    lemma UsableMeans(scope: Scope)
      ensures Usable(scope) <==> !disabled && !("unavailable:" <= environment) && scope != Off
    {
    }

    /** The exact key decides. */
    method FromCertificate(k: Key, now: int) returns (found: Lookup)
      requires Valid() && Exact(k, now)
      modifies this`files
      ensures Valid() && Extends(old(files), files)
      ensures (found, files) == TryCertificate(certificates[k].value, blobs, old(files))
      ensures found.Hit? ==> found.outcome.ok && !found.observed
      ensures found.Hit? ==> Reported(found.outcome, k, true, old(files), files, now)
      ensures (certificates[k].value.inputs != map[] ==> Matches(old(files), certificates[k].value.inputs))
        && (forall a | a in certificates[k].value.artifacts :: a.path in old(files) && old(files)[a.path] == File(a.digest))
        ==> found == Hit(certificates[k].value.outcome, false) && files == old(files)
      ensures found.Hit? && ExactlyTraced(certificates[k].value) ==>
          RerunsBetween(behaviours(k.identity, k.context), old(files), files, found.outcome)
    {
      hide Restore, Matches, RerunsBetween, Sound, Extends, Backed, Reported, Held, WellFormed, ExactlyTraced, Exact, TryCertificate;
      ExactMeans(k, now);
      var p := certificates[k].value;
      ghost var before := files;
      CertificateDecides(k, before, now);
      CertificateCases(p, blobs, before);
      if p.inputs != map[] && !Matches(files, p.inputs) { return Miss("observed_inputs_changed"); }
      var restored := RestoreArtifacts(p.artifacts);
      found := if restored then Hit(p.outcome, false) else Miss("artifact_missing_or_conflicting");
    }

    lemma ExactMeans(k: Key, now: int)
      ensures Exact(k, now) <==> k in certificates && now - maxAge <= certificates[k].updated
    {
    }

    lemma CertificateCases(p: Payload, blobs: set<string>, fs: FileSystem)
      ensures TryCertificate(p, blobs, fs) ==
        if p.inputs != map[] && !Matches(fs, p.inputs) then (Miss("observed_inputs_changed"), fs)
        else (if Restore(p.artifacts, blobs, fs).0 then Hit(p.outcome, false) else Miss("artifact_missing_or_conflicting"),
              Restore(p.artifacts, blobs, fs).1)
    {
    }

    lemma CertificateDecides(k: Key, before: FileSystem, now: int)
      requires Sound(behaviours, certificates, successes) && Backed(history, certificates, successes) && WellFormed(before)
      requires Held(certificates, blobs) && k in certificates && now - maxAge <= certificates[k].updated
      ensures var (found, after) := TryCertificate(certificates[k].value, blobs, before);
        && WellFormed(after) && Extends(before, after)
        && (found.Hit? ==> found.outcome.ok && !found.observed && Reported(found.outcome, k, true, before, after, now))
        && (found.Hit? && ExactlyTraced(certificates[k].value) ==>
              RerunsBetween(behaviours(k.identity, k.context), before, after, found.outcome))
        && (&& (certificates[k].value.inputs != map[] ==> Matches(before, certificates[k].value.inputs))
            && (forall a | a in certificates[k].value.artifacts :: a.path in before && before[a.path] == File(a.digest))
            ==> found == Hit(certificates[k].value.outcome, false) && after == before)
    {
      hide Restore, Matches, RerunsBetween, SoundIndex, SoundCertificate, Extends, AnswersFrom, Certifies, Indexes, WellFormed, ExactlyTraced;
      var p := certificates[k].value;
      CertificateHitReruns(behaviours, k, p, blobs, before);
      CertificateAnswers(history, k, certificates[k], blobs, before);
      if forall a | a in p.artifacts :: a.path in before && before[a.path] == File(a.digest) { NothingToRestore(p.artifacts, blobs, before); }
    }

    /** The newest rows of the index decide. */
    method FromIndex(k: Key, now: int) returns (found: Lookup, ghost rows: seq<Key>)
      requires Valid()
      modifies this`files
      ensures Valid() && Extends(old(files), files)
      ensures Newest(rows, Eligible(k.identity, now)) && FromRows(found, rows, old(files), files)
      ensures found.Hit? ==> found.outcome.ok && found.observed
      ensures found.Hit? ==> Reported(found.outcome, k, false, old(files), files, now)
      ensures |rows| < 20 ==> forall j :: MayAnswer(j, k.identity, now) ==> j in rows
      ensures found.Hit? ==> RerunsBetween(behaviours(k.identity, ""), old(files), files, found.outcome)
    {
      hide Restore, Matches, TryRows, RerunsBetween, Sound, Extends, Current, Backed, Reported, MayAnswer, Eligible, Newest, FromRows, WellFormed;
      var newest := NewestRows(Eligible(k.identity, now));
      RowsEligible(newest, k.identity, now);
      ghost var before := files;
      found := FirstMatch(newest);
      rows := newest;
      IndexAnswers(k, rows, found, before, files, now);
    }

    lemma IndexAnswers(k: Key, rows: seq<Key>, found: Lookup, before: FileSystem, after: FileSystem, now: int)
      requires Sound(behaviours, certificates, successes) && Backed(history, certificates, successes) && WellFormed(before)
      requires Newest(rows, Eligible(k.identity, now)) && FromRows(found, rows, before, after)
      ensures WellFormed(after) && Extends(before, after)
      ensures found.Hit? ==> found.outcome.ok && found.observed
      ensures found.Hit? ==> RerunsBetween(behaviours(k.identity, ""), before, after, found.outcome)
      ensures found.Hit? ==> Reported(found.outcome, k, false, before, after, now)
    {
      hide TryRows, RerunsBetween, Sound, Extends, Backed, Reported, MayAnswer, Eligible, Newest, AnswersFrom, FromTrace, WellFormed;
      RowsEligible(rows, k.identity, now);
      RowHitReruns(behaviours, rows, successes, certificates, blobs, before);
      RowAnswers(history, rows, successes, certificates, blobs, before);
      IndexReported(k, rows, found, before, after, now);
    }

    lemma IndexReported(k: Key, rows: seq<Key>, found: Lookup, before: FileSystem, after: FileSystem, now: int)
      requires FromRows(found, rows, before, after)
      requires forall j :: j in rows ==> j in successes && j in certificates && j.identity == k.identity && j.context == ""
      requires forall j :: j in rows ==> now - maxAge <= successes[j].updated
      requires WellFormed(before)
      requires var a := TryRows(rows, successes, certificates, blobs, before);
        a.hit.Some? && a.hit.value in certificates && a.hit.value in successes ==>
          exists p :: p in history && p.key == a.hit.value && p.at == successes[a.hit.value].updated && FromTrace(p)
            && AnswersFrom(p, certificates[a.hit.value].value.outcome, before, a.files)
      ensures found.Hit? ==> Reported(found.outcome, k, false, before, after, now)
    {
      hide AnswersFrom, FromTrace, TryRows, WellFormed;
      TryRowsFacts(rows, successes, certificates, blobs, before);
    }

    lemma RowsEligible(rows: seq<Key>, identity: Identity, now: int)
      requires Newest(rows, Eligible(identity, now))
      ensures forall k :: k in rows ==> k in successes && k in certificates && k.identity == identity
      ensures forall k :: k in rows ==> k.context == "" && successes[k].value.complete && !successes[k].value.network
      ensures forall k :: k in rows ==> now - maxAge <= successes[k].updated
      ensures |rows| < 20 ==> forall j :: MayAnswer(j, identity, now) ==> j in rows
    {
      forall k | k in rows ensures k in Eligible(identity, now) {
        var i :| 0 <= i < |rows| && rows[i] == k;
      }
      if |rows| < 20 { AllEligible(rows, identity, now); }
    }

    lemma AllEligible(rows: seq<Key>, identity: Identity, now: int)
      requires Newest(rows, Eligible(identity, now)) && |rows| < 20
      ensures forall j :: MayAnswer(j, identity, now) ==> j in rows
    {
      var eligible := Eligible(identity, now);
      var listed := set k | k in rows;
      DistinctSize(rows);
      assert listed <= eligible.Keys;
      if exists j :: j in eligible.Keys && j !in listed {
        var j :| j in eligible.Keys && j !in listed;
        SubsetSize(listed + {j}, eligible.Keys);
      }
      forall j | MayAnswer(j, identity, now) ensures j in rows { assert j in eligible; }
    }

    /** The answer the index gives, from these rows. */
    ghost predicate FromRows(found: Lookup, rows: seq<Key>, before: FileSystem, after: FileSystem)
      reads this
    {
      (forall k :: k in rows ==> k in successes && k in certificates) &&
      var a := TryRows(rows, successes, certificates, blobs, before);
      && after == a.files
      && found == if a.hit.Some? && a.hit.value in certificates
                  then Hit(certificates[a.hit.value].value.outcome, true)
                  else Miss(if rows == [] then "not_found" else "observed_inputs_changed")
    }

    /** The loop over the candidate rows. */
    method FirstMatch(rows: seq<Key>) returns (found: Lookup)
      requires WellFormed(files) && forall k :: k in rows ==> k in successes && k in certificates
      modifies this`files
      ensures FromRows(found, rows, old(files), files)
    {
      hide Restore, Matches, WellFormed;
      ghost var start := files;
      assert rows[0..] == rows;
      for i := 0 to |rows|
        invariant WellFormed(files)
        invariant TryRows(rows, successes, certificates, blobs, start)
               == TryRows(rows[i..], successes, certificates, blobs, files)
      {
        assert rows[i..][1..] == rows[i + 1..] && rows[i] in rows;
        if Matches(files, successes[rows[i]].value.manifest) {
          var restored := RestoreArtifacts(certificates[rows[i]].value.artifacts);
          if restored { return Hit(certificates[rows[i]].value.outcome, true); }
        }
      }
      found := Miss(if rows == [] then "not_found" else "observed_inputs_changed");
    }

    /** `_restore_artifacts`: only missing outputs are written, with the directories they need. */
    method RestoreArtifacts(artifacts: Artifacts) returns (ok: bool)
      requires WellFormed(files)
      modifies this`files
      ensures (ok, files) == Restore(artifacts, blobs, old(files))
      ensures WellFormed(files)
    {
      hide WellFormed, Restorable, Write;
      RestoreFacts(artifacts, blobs, files);
      assert artifacts[0..] == artifacts;
      for i := 0 to |artifacts|
        invariant WellFormed(files)
        invariant Restore(artifacts, blobs, old(files)) == Restore(artifacts[i..], blobs, files)
      {
        assert artifacts[i..][1..] == artifacts[i + 1..];
        var written := RestoreOne(artifacts[i]);
        if !written { return false; }
      }
      ok := true;
    }

    /** One output: walk down to its directory, making what is missing, and create it unless it is there. */
    method RestoreOne(a: Artifact) returns (ok: bool)
      requires WellFormed(files)
      modifies this`files
      ensures WellFormed(files) && ok == Restorable(a, blobs, old(files))
      ensures files == if ok then Write(old(files), a) else old(files)
    {
      if !ArtifactName(a) || a.digest !in blobs { return false; }
      ghost var start := files;
      if Restorable(a, blobs, files) { WriteFacts(a, blobs, files); }
      hide WellFormed, Above, Write, WithDirectories;
      NothingAbove(start, a.path);
      for i := 1 to |a.path|
        invariant files == WithDirectories(start, a.path[..i])
        invariant forall k :: 1 <= k < i && a.path[..k] in start ==> start[a.path[..k]] == Directory
      {
        OneMoreAbove(start, a.path, i);
        if a.path[..i] in files {
          if files[a.path[..i]] != Directory { return false; }
        } else {
          files := files[a.path[..i] := Directory];
        }
      }
      assert a.path[..|a.path|] == a.path;
      LastAbove(start, a.path);
      if a.path in files { return files[a.path] == File(a.digest); }
      WriteIs(start, a);
      files := files[a.path := File(a.digest)];
      ok := true;
    }
  }

  lemma NothingAbove(fs: FileSystem, path: Path)
    requires path != []
    ensures WithDirectories(fs, path[..1]) == fs
  {
    assert Above(path[..1]) == {};
  }

  /** One step down: the directories made so far do not stand in the way, and if the next one is there
      none had to be made. */
  lemma OneMoreAbove(fs: FileSystem, path: Path, i: nat)
    requires WellFormed(fs) && 1 <= i < |path|
    ensures var now := WithDirectories(fs, path[..i]);
      && (path[..i] in now <==> path[..i] in fs)
      && (path[..i] in fs ==> now == fs)
      && (if path[..i] in fs then fs[path[..i]] == Directory ==> now == WithDirectories(fs, path[..i + 1])
          else now[path[..i] := Directory] == WithDirectories(fs, path[..i + 1]))
  {
    assert |path[..i]| == i;
    LastAbove(fs, path[..i]);
    AboveStep(path, i);
  }

  lemma AboveStep(path: Path, i: nat)
    requires 1 <= i < |path|
    ensures Above(path[..i + 1]) == Above(path[..i]) + {path[..i]}
  {
    forall p ensures p in Above(path[..i + 1]) <==> p in Above(path[..i]) + {path[..i]} {
      if p in Above(path[..i + 1]) {
        var k :| 1 <= k < i + 1 && p == path[..i + 1][..k];
        if k < i { assert path[..i + 1][..k] == path[..i][..k]; } else { assert path[..i + 1][..k] == path[..i]; }
      }
      if p in Above(path[..i]) {
        var k :| 1 <= k < i && p == path[..i][..k];
        assert path[..i][..k] == path[..i + 1][..k];
      }
      assert path[..i + 1][..i] == path[..i];
    }
  }

  lemma LastAbove(fs: FileSystem, path: Path)
    requires WellFormed(fs) && path != []
    ensures path in WithDirectories(fs, path) <==> path in fs
    ensures path in fs ==> WithDirectories(fs, path) == fs
  {
    forall p | p in Above(path) ensures |p| < |path| && (path in fs ==> p in fs && fs[p] == Directory) {
      var k :| 1 <= k < |path| && p == path[..k];
      if path in fs { assert IsDirectory(fs, path[..k]); }
    }
  }

  lemma WriteIs(fs: FileSystem, a: Artifact)
    ensures Write(fs, a) == WithDirectories(fs, a.path)[a.path := File(a.digest)]
  {
  }
}
