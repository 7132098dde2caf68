/** Retiring a completed candidate: references to its path are rewritten through a durable receipt,
    so that an interrupted retirement can be finished by running it again. */
module CandidateRetirement {
  import opened CandidateDocuments
  import opened Wrappers

  /** Which rule rewrites a document: the file's own name comes first, then its directory. */
  datatype DocumentKind = SessionFile | HandoffFile | SourceFile | OtherFile

  function KindOf(name: Name): DocumentKind {
    if FileOf(name) == "session_state.json" then SessionFile
    else match name
      case Handoff(_) => HandoffFile
      case Source(_) => SourceFile
      case _ => OtherFile
  }

  predicate IsDigits(s: string) {
    s != [] && forall i :: 0 <= i < |s| ==> '0' <= s[i] <= '9'
  }

  /** Position of the last colon, or the length when there is none. */
  function LastColon(s: string): (r: nat)
    ensures r <= |s|
  {
    if s == [] then 0
    else if s[|s| - 1] == ':' then |s| - 1
    else
      var r := LastColon(s[..|s| - 1]);
      if r == |s| - 1 then |s| else r
  }

  /** A path:line reference loses its line. */
  function StripLine(s: string): string {
    var c := LastColon(s);
    if c < |s| && IsDigits(s[c + 1..]) then s[..c] else s
  }

  predicate NamesPath(s: string, target: string) {
    StripLine(s) == target || target + "/" <= StripLine(s)
  }

  /** `_contains`: does any text anywhere in the value name the target or something under it? */
  predicate Contains(v: Json, target: string) {
    match v
    case Null => false
    case Scalar(_) => false
    case Text(s) => NamesPath(s, target)
    case List(items) => exists x | x in items :: Contains(x, target)
    case Object(fields) => exists k | k in fields :: Contains(fields[k], target)
  }

  predicate BodyContains(body: Body, target: string) {
    exists k | k in body :: Contains(body[k], target)
  }

  // ---------------------------------------------------------------- what a mention is

  ghost predicate Digits(s: string) {
    s != "" && forall x :: x in s ==> x in "0123456789"
  }

  /** The path that a reference gives: what is before the line number, when it ends in one. */
  ghost predicate PathIn(s: string, path: string) {
    || (exists line :: Digits(line) && s == path + ":" + line)
    || (s == path && forall q, line :: Digits(line) ==> s != q + ":" + line)
  }

  lemma {:induction false} LastColonIs(s: string)
    ensures var c := LastColon(s); if c < |s| then s[c] == ':' && ':' !in s[c + 1..] else ':' !in s
  {
    if s != [] && s[|s| - 1] == ':' {
      assert s[|s|..] == [];
    } else if s != [] {
      var head := s[..|s| - 1];
      LastColonIs(head);
      var c := LastColon(head);
      assert s == head + [s[|s| - 1]];
      if c < |head| {
        assert s[c + 1..] == head[c + 1..] + [s[|s| - 1]];
      } else {
        assert ':' !in s;
      }
    }
  }

  lemma DigitsAre(s: string)
    ensures IsDigits(s) <==> Digits(s)
  {
    if Digits(s) {
      forall i | 0 <= i < |s| ensures '0' <= s[i] <= '9' { assert s[i] in s; }
    }
  }

  lemma ColonSplits(s: string, q: string, line: string)
    requires s == q + ":" + line && Digits(line)
    ensures LastColon(s) == |q|
  {
    LastColonIs(s);
    var c := LastColon(s);
    assert s[|q|] == ':';
    forall i | c < i < |s| ensures s[i] != ':' { assert s[c + 1..][i - c - 1] == s[i]; }
    forall i | |q| < i < |s| ensures s[i] != ':' { assert line[i - |q| - 1] in line; }
  }

  /** Stripping a reference leaves its path and nothing else. */
  lemma StripLineMeans(s: string, path: string)
    ensures PathIn(s, path) <==> StripLine(s) == path
  {
    var c := LastColon(s);
    LastColonIs(s);
    if c < |s| {
      DigitsAre(s[c + 1..]);
      assert s == s[..c] + ":" + s[c + 1..];
    }
    forall q, line | Digits(line) && s == q + ":" + line ensures c == |q| && s[..c] == q && s[c + 1..] == line {
      ColonSplits(s, q, line);
    }
  }

  /** One step into a value. */
  datatype Way = At(index: nat) | Under(key: string)

  function Follow(v: Json, ways: seq<Way>): Option<Json> {
    if ways == [] then Some(v)
    else match (v, ways[0])
      case (List(items), At(i)) => if i < |items| then Follow(items[i], ways[1..]) else None
      case (Object(fields), Under(k)) => if k in fields then Follow(fields[k], ways[1..]) else None
      case _ => None
  }

  /** At that place in the value a text gives the target's path or one below it. */
  ghost predicate MentionedAt(v: Json, ways: seq<Way>, target: string) {
    exists s, path :: Follow(v, ways) == Some(Text(s)) && PathIn(s, path)
                      && (path == target || exists below :: path == target + "/" + below)
  }

  /** A value mentions the target exactly when some text in it, however deep, is a reference to it or to
      something below it. */
  lemma {:induction false} ContainsMeans(v: Json, target: string)
    ensures Contains(v, target) <==> exists ways :: MentionedAt(v, ways, target)
    decreases v
  {
    hide PathIn, StripLine;
    match v
    case Text(s) =>
      TextMentioned(s, target);
    case List(items) =>
      forall x | x in items ensures Contains(x, target) <==> exists ways :: MentionedAt(x, ways, target) { ContainsMeans(x, target); }
      if x :| x in items && Contains(x, target) {
        var i: nat, ways: seq<Way> :| i < |items| && items[i] == x && MentionedAt(x, ways, target);
        Deeper(v, At(i), ways, target);
      }
      if ways: seq<Way> :| MentionedAt(v, ways, target) {
        Shallower(v, ways, target);
        assert items[ways[0].index] in items;
      }
    case Object(fields) =>
      forall k | k in fields ensures Contains(fields[k], target) <==> exists ways :: MentionedAt(fields[k], ways, target) {
        ContainsMeans(fields[k], target);
      }
      if k :| k in fields && Contains(fields[k], target) {
        var ways :| MentionedAt(fields[k], ways, target);
        Deeper(v, Under(k), ways, target);
      }
      if ways: seq<Way> :| MentionedAt(v, ways, target) {
        Shallower(v, ways, target);
        assert ways[0].key in fields;
      }
    case _ =>
      forall ways: seq<Way> ensures ways == [] || Follow(v, ways) == None { LeafEnds(v, ways); }
  }

  lemma LeafEnds(v: Json, ways: seq<Way>)
    requires !v.List? && !v.Object?
    ensures ways == [] || Follow(v, ways) == None
  {
  }

  lemma TextMentioned(s: string, target: string)
    ensures NamesPath(s, target) <==> exists ways :: MentionedAt(Text(s), ways, target)
  {
    var stripped := StripLine(s);
    hide PathIn, StripLine;
    forall path ensures PathIn(s, path) <==> stripped == path { StripLineMeans(s, path); }
    if NamesPath(s, target) {
      assert Follow(Text(s), []) == Some(Text(s));
      if stripped != target { assert stripped == target + "/" + stripped[|target| + 1..]; }
      assert PathIn(s, stripped);
      assert MentionedAt(Text(s), [], target);
    }
    if ways: seq<Way> :| MentionedAt(Text(s), ways, target) {
      LeafEnds(Text(s), ways);
      if below :| stripped == target + "/" + below {
        assert stripped == (target + "/") + below;
        assert target + "/" <= stripped;
      }
    }
  }

  lemma Deeper(v: Json, way: Way, ways: seq<Way>, target: string)
    requires Follow(v, [way]).Some? && MentionedAt(Follow(v, [way]).value, ways, target)
    ensures MentionedAt(v, [way] + ways, target)
  {
    hide PathIn;
    assert ([way] + ways)[1..] == ways && [way][1..] == [];
  }

  lemma Shallower(v: Json, ways: seq<Way>, target: string)
    requires (v.List? || v.Object?) && MentionedAt(v, ways, target)
    ensures ways != [] && Follow(v, ways[..1]).Some? && MentionedAt(Follow(v, ways[..1]).value, ways[1..], target)
  {
    hide PathIn;
    assert ways != [] ==> ways[..1][1..] == [];
  }

  // ---------------------------------------------------------------- planning the changes

  datatype Change = Change(before: Body, after: Body)

  /** Keys whose value differs, a missing key reading as null. */
  function Differing(before: Body, after: Body): set<string> {
    set k | k in before.Keys + after.Keys && Get(before, k) != Get(after, k)
  }

  function ChangedKeys(change: Change): set<string> {
    Differing(change.before, change.after)
  }

  function Restrict(body: Body, keys: set<string>): Body {
    map k | k in body && k in keys :: body[k]
  }

  function ClearKey(body: Body, key: string, archive: string, target: string, summary: Json): Body {
    if Contains(Get(body, key), target) then body[key := Object(map[])][archive := summary] else body
  }

  /** A handoff section that is not an object makes the rewrite fail. */
  function ClearSection(body: Body, section: string, key: string, target: string, summary: Json): Option<Body> {
    if section !in body then Some(body)
    else match body[section]
      case Object(fields) =>
        if Contains(Get(fields, key), target)
        then Some(body[section := Object(fields[key := Object(map[])][key + "_archive" := summary])])
        else Some(body)
      case _ => None
  }

  /** The document after its references to the target are archived. */
  function Rewrite(kind: DocumentKind, body: Body, workflow: Json, target: string, summary: Json): Option<Body> {
    match kind
    case SessionFile =>
      var a := ClearKey(body, "candidate_custody", "candidate_archive", target, summary);
      Some(ClearKey(a, "source_descriptor", "source_archive", target, summary))
    case HandoffFile =>
      var a := ClearSection(body, "payload", "source_descriptor", target, summary);
      if a.None? then None else ClearSection(a.value, "result", "candidate_delivery", target, summary)
    case SourceFile =>
      Some(map["schema_version" := Scalar(1), "workflow_id" := workflow,
               "source_id" := Get(body, "source_id"), "archive" := summary])
    case OtherFile => Some(body)
  }

  /** A session's two references to the target give way to empty ones, each with the summary beside it. */
  lemma SessionRewritten(body: Body, workflow: Json, target: string, summary: Json, k: string)
    ensures var after := Rewrite(SessionFile, body, workflow, target, summary);
      && after.Some?
      && (k == "candidate_custody" || k == "source_descriptor" ==>
            Get(after.value, k) == if Contains(Get(body, k), target) then Object(map[]) else Get(body, k))
      && (k == "candidate_archive" ==>
            Get(after.value, k) == if Contains(Get(body, "candidate_custody"), target) then summary else Get(body, k))
      && (k == "source_archive" ==>
            Get(after.value, k) == if Contains(Get(body, "source_descriptor"), target) then summary else Get(body, k))
      && (k !in {"candidate_custody", "candidate_archive", "source_descriptor", "source_archive"} ==>
            Get(after.value, k) == Get(body, k))
  {
    hide Contains;
  }

  /** So do a handoff's two, inside its payload and its result; a section that is no object refuses. */
  lemma HandoffRewritten(body: Body, workflow: Json, target: string, summary: Json, k: string)
    ensures var after := Rewrite(HandoffFile, body, workflow, target, summary);
      && (after.Some? <==> forall section :: section in {"payload", "result"} && section in body ==> body[section].Object?)
      && (after.Some? && k == "payload" && k in body ==>
            Get(after.value, k) == Object(Cleared(body[k].fields, "source_descriptor", "source_descriptor_archive", target, summary)))
      && (after.Some? && k == "result" && k in body ==>
            Get(after.value, k) == Object(Cleared(body[k].fields, "candidate_delivery", "candidate_delivery_archive", target, summary)))
      && (after.Some? && (k !in {"payload", "result"} || k !in body) ==> Get(after.value, k) == Get(body, k))
  {
    var payload := ClearSection(body, "payload", "source_descriptor", target, summary);
    assert "source_descriptor" + "_archive" == "source_descriptor_archive";
    assert "candidate_delivery" + "_archive" == "candidate_delivery_archive";
    assert "payload" in {"payload", "result"} && "result" in {"payload", "result"};
    SectionCleared(body, "payload", "source_descriptor", target, summary, "result");
    SectionCleared(body, "payload", "source_descriptor", target, summary, k);
    if payload.Some? {
      SectionCleared(payload.value, "result", "candidate_delivery", target, summary, "payload");
      SectionCleared(payload.value, "result", "candidate_delivery", target, summary, k);
    }
    hide Contains, ClearSection, Cleared;
  }

  lemma SectionCleared(body: Body, section: string, key: string, target: string, summary: Json, k: string)
    ensures var after := ClearSection(body, section, key, target, summary);
      && (after.Some? <==> section in body ==> body[section].Object?)
      && (after.Some? ==> (k in after.value <==> k in body))
      && (after.Some? && k in body && k != section ==> after.value[k] == body[k])
      && (after.Some? && k in body && k == section ==>
            after.value[k] == Object(Cleared(body[k].fields, key, key + "_archive", target, summary)))
  {
    NullNamesNothing(target);
    hide Contains;
  }

  function Cleared(fields: Body, key: string, archive: string, target: string, summary: Json): Body {
    if key in fields && Contains(fields[key], target) then fields + map[key := Object(map[]), archive := summary] else fields
  }

  /** The change one document needs: none when it does not mention the target; a refusal when it
      belongs to another workflow or still mentions the target once rewritten. */
  datatype Needed = NoChange | Refused | Apply(change: Change)

  function NeededChange(c: Candidate, name: Name, body: Body, summary: Json): Needed {
    if !BodyContains(body, c.target) then NoChange
    else if Get(body, "workflow_id") != c.workflow then Refused
    else
      var after := Rewrite(KindOf(name), body, c.workflow, c.target, summary);
      if after.None? || BodyContains(after.value, c.target) then Refused
      else
        var keys := Differing(body, after.value);
        Apply(Change(Restrict(body, keys), Restrict(after.value, keys)))
  }

  /** `_changes` refuses when any document does. */
  predicate Plannable(c: Candidate, docs: Documents, summary: Json) {
    forall n | n in docs :: !NeededChange(c, n, docs[n], summary).Refused?
  }

  function PlanChanges(c: Candidate, docs: Documents, summary: Json): map<Name, Change> {
    map n | n in docs && NeededChange(c, n, docs[n], summary).Apply? ::
      NeededChange(c, n, docs[n], summary).change
  }

  // ---------------------------------------------------------------- redoing the changes

  /** Writing a change over a document touches only its changed keys. */
  function Redo(body: Body, change: Change): Body {
    var keys := ChangedKeys(change);
    map k | k in body.Keys + change.after.Keys && (if k in keys then k in change.after else k in body) ::
      if k in keys then change.after[k] else body[k]
  }

  function RedoSome(docs: Documents, changes: map<Name, Change>, names: set<Name>): Documents {
    map n | n in docs :: if n in names && n in changes then Redo(docs[n], changes[n]) else docs[n]
  }

  function RedoAll(docs: Documents, changes: map<Name, Change>): Documents {
    RedoSome(docs, changes, changes.Keys)
  }

  /** The receipt: what to change, the summary that goes in its place, and the session's log, whose hash
      the summary records. */
  datatype Receipt = Receipt(changes: map<Name, Change>, summary: Json, log: Json)

  /** Every listed key still has its old or its new value. */
  predicate Untouched(body: Body, change: Change) {
    forall k | k in ChangedKeys(change) :: Get(body, k) == Get(change.before, k) || Get(body, k) == Get(change.after, k)
  }

  predicate AllUntouched(docs: Documents, changes: map<Name, Change>) {
    forall n | n in changes :: n in docs && Untouched(docs[n], changes[n])
  }

  /** Every listed document lies under the state directory. */
  predicate InState(changes: map<Name, Change>) {
    forall n | n in changes :: !n.Recovery?
  }

  /** `_verify_archive`, apart from what git says. */
  predicate Verified(c: Candidate, docs: Documents, receipt: Receipt) {
    && Session(c.session) in docs && Log(c, docs) == receipt.log
    && InState(receipt.changes) && AllUntouched(docs, receipt.changes)
  }

  /** A listed key ends with its new value and an unlisted one keeps the current one. */
  lemma RedoKeys(body: Body, change: Change, k: string)
    ensures k in ChangedKeys(change) ==> Get(Redo(body, change), k) == Get(change.after, k)
    ensures k !in ChangedKeys(change) ==>
      (k in Redo(body, change) <==> k in body) && Get(Redo(body, change), k) == Get(body, k)
  {
  }

  /** Redoing twice is redoing once. */
  lemma RedoIdempotent(body: Body, change: Change)
    ensures Redo(Redo(body, change), change) == Redo(body, change)
  {
  }

  /** Redoing some documents and then some more is redoing all of these once. */
  lemma RedoSomeTwice(docs: Documents, changes: map<Name, Change>, first: set<Name>, second: set<Name>)
    ensures RedoSome(RedoSome(docs, changes, first), changes, second) == RedoSome(docs, changes, first + second)
  {
    hide Redo;
    forall n | n in docs && n in changes
      ensures Redo(Redo(docs[n], changes[n]), changes[n]) == Redo(docs[n], changes[n])
    {
      RedoIdempotent(docs[n], changes[n]);
    }
  }

  /** Whatever was redone before a crash, redoing everything gives the same documents. */
  lemma RedoAbsorbsPartial(docs: Documents, changes: map<Name, Change>, names: set<Name>)
    ensures RedoAll(RedoSome(docs, changes, names), changes) == RedoAll(docs, changes)
  {
    hide Redo;
    RedoSomeTwice(docs, changes, names, changes.Keys);
  }

  // ---------------------------------------------------------------- histories of crashes and edits

  /** Between two runs: a run crashed after redoing some documents, or someone edited one key. */
  datatype Event =
    | Interrupted(redone: set<Name>)
    | Edited(name: Name, key: string, value: Option<Json>)

  function Edit(docs: Documents, name: Name, key: string, value: Option<Json>): Documents {
    if name !in docs then docs
    else docs[name := if value.Some? then docs[name][key := value.value] else docs[name] - {key}]
  }

  function Step(docs: Documents, changes: map<Name, Change>, e: Event): Documents {
    match e
    case Interrupted(redone) => RedoSome(docs, changes, redone)
    case Edited(name, key, value) => Edit(docs, name, key, value)
  }

  function After(docs: Documents, changes: map<Name, Change>, events: seq<Event>): Documents {
    if events == [] then docs
    else Step(After(docs, changes, events[..|events| - 1]), changes, events[|events| - 1])
  }

  /** The same history with no interrupted run in it. */
  function EditsOnly(docs: Documents, events: seq<Event>): Documents {
    if events == [] then docs
    else
      var before := EditsOnly(docs, events[..|events| - 1]);
      match events[|events| - 1]
      case Interrupted(_) => before
      case Edited(name, key, value) => Edit(before, name, key, value)
  }

  /** The edit leaves the keys of the receipt alone. */
  predicate Concurrent(changes: map<Name, Change>, e: Event) {
    e.Edited? && e.name in changes ==> e.key !in ChangedKeys(changes[e.name])
  }

  lemma RedoCommutesWithEdit(docs: Documents, changes: map<Name, Change>, names: set<Name>, e: Event)
    requires e.Edited? && Concurrent(changes, e)
    ensures RedoSome(Step(docs, changes, e), changes, names) == Step(RedoSome(docs, changes, names), changes, e)
  {
    hide Redo, ChangedKeys;
    if e.name in docs && e.name in changes {
      RedoCommutesWithKey(docs[e.name], changes[e.name], e.key, e.value);
    }
    assert Step(docs, changes, e).Keys == docs.Keys;
  }

  lemma RedoCommutesWithKey(body: Body, change: Change, key: string, value: Option<Json>)
    requires key !in ChangedKeys(change)
    ensures value.Some? ==> Redo(body[key := value.value], change) == Redo(body, change)[key := value.value]
    ensures Redo(body - {key}, change) == Redo(body, change) - {key}
  {
    hide ChangedKeys;
  }

  /** The documents some run redid before it was interrupted. */
  function Redone(events: seq<Event>): set<Name> {
    if events == [] then {}
    else
      Redone(events[..|events| - 1]) +
      (match events[|events| - 1] case Interrupted(redone) => redone case Edited(_, _, _) => {})
  }

  /** Any history of crashes and other edits amounts to the edits and one partial run over them. */
  lemma {:induction false} HistoryIsPartial(docs: Documents, changes: map<Name, Change>, events: seq<Event>)
    requires forall e :: e in events ==> Concurrent(changes, e)
    ensures After(docs, changes, events) == RedoSome(EditsOnly(docs, events), changes, Redone(events))
  {
    if events != [] {
      var n := |events| - 1;
      var earlier, last := events[..n], events[n];
      assert events == earlier + [last] && last in events;
      HistoryIsPartial(docs, changes, earlier);
      var edits := EditsOnly(docs, earlier);
      match last
      case Interrupted(redone) =>
        RedoSomeTwice(edits, changes, Redone(earlier), redone);
      case Edited(_, _, _) =>
        RedoCommutesWithEdit(edits, changes, Redone(earlier), last);
    }
  }

  /** However often retirement is interrupted and whatever else is edited meanwhile, finishing it
      gives the documents one uninterrupted run would have given with those edits made. */
  lemma InterruptionsDoNotShow(docs: Documents, changes: map<Name, Change>, events: seq<Event>)
    requires forall e :: e in events ==> Concurrent(changes, e)
    ensures RedoAll(After(docs, changes, events), changes) == RedoAll(EditsOnly(docs, events), changes)
  {
    HistoryIsPartial(docs, changes, events);
    RedoAbsorbsPartial(EditsOnly(docs, events), changes, Redone(events));
  }

  /** Listed keys keep an old or a new value. */
  lemma {:induction false} HistoryUntouched(docs: Documents, changes: map<Name, Change>, events: seq<Event>)
    requires AllUntouched(docs, changes)
    requires forall e :: e in events ==> Concurrent(changes, e)
    ensures AllUntouched(After(docs, changes, events), changes)
    ensures After(docs, changes, events).Keys == docs.Keys == EditsOnly(docs, events).Keys
  {
    if events != [] {
      var n := |events| - 1;
      var earlier, last := events[..n], events[n];
      assert events == earlier + [last] && last in events;
      HistoryUntouched(docs, changes, earlier);
      hide AllUntouched;
      StepUntouched(After(docs, changes, earlier), changes, last);
    }
  }

  lemma StepUntouched(docs: Documents, changes: map<Name, Change>, e: Event)
    requires AllUntouched(docs, changes) && Concurrent(changes, e)
    ensures AllUntouched(Step(docs, changes, e), changes)
  {
    hide Redo, ChangedKeys;
    var next := Step(docs, changes, e);
    forall m | m in changes ensures Untouched(next[m], changes[m]) {
      assert Untouched(docs[m], changes[m]);
      forall k | k in ChangedKeys(changes[m])
        ensures Get(next[m], k) == Get(changes[m].before, k) || Get(next[m], k) == Get(changes[m].after, k)
      {
        RedoKeys(docs[m], changes[m], k);
      }
    }
  }

  predicate ListsLog(c: Candidate, changes: map<Name, Change>) {
    Session(c.session) in changes && "execution_log" in ChangedKeys(changes[Session(c.session)])
  }

  lemma RedoKeepsLog(c: Candidate, docs: Documents, changes: map<Name, Change>, names: set<Name>)
    requires Session(c.session) in docs && !ListsLog(c, changes)
    ensures Log(c, RedoSome(docs, changes, names)) == Log(c, docs)
  {
    var n := Session(c.session);
    if n in changes {
      hide ChangedKeys;
      RedoKeys(docs[n], changes[n], "execution_log");
    }
  }

  /** After any such history the receipt check passes exactly when nobody edited the session's log away
      from the recorded one: crashes and other edits never make it refuse. */
  lemma HistoryStaysVerified(c: Candidate, docs: Documents, receipt: Receipt, events: seq<Event>)
    requires Verified(c, docs, receipt) && !ListsLog(c, receipt.changes)
    requires forall e :: e in events ==> Concurrent(receipt.changes, e)
    ensures After(docs, receipt.changes, events).Keys == docs.Keys == EditsOnly(docs, events).Keys
    ensures Verified(c, After(docs, receipt.changes, events), receipt) <==> Log(c, EditsOnly(docs, events)) == receipt.log
  {
    hide Redo, ChangedKeys;
    HistoryUntouched(docs, receipt.changes, events);
    HistoryIsPartial(docs, receipt.changes, events);
    RedoKeepsLog(c, EditsOnly(docs, events), receipt.changes, Redone(events));
  }

  // ---------------------------------------------------------------- what retirement achieves

  /** The receipt of a first run. */
  function ReceiptOf(c: Candidate, docs: Documents, summary: Json): Receipt
    requires Session(c.session) in docs
  {
    Receipt(PlanChanges(c, docs, summary), summary, Log(c, docs))
  }

  /** A first run passes the check it makes of its own receipt exactly when it lists no recovery record. */
  lemma FirstPlanVerified(c: Candidate, docs: Documents, summary: Json)
    requires Session(c.session) in docs
    ensures Verified(c, docs, ReceiptOf(c, docs, summary)) <==> InState(PlanChanges(c, docs, summary))
  {
  }

  /** The failing case: a receipt that lists one is refused from then on, whatever becomes of the documents. */
  lemma RecoveryRecordRefuses(c: Candidate, receipt: Receipt, n: Name, docs: Documents)
    requires n in receipt.changes && n.Recovery?
    ensures !RecoveryProceeds(c, docs, receipt)
  {
  }

  /** The values a planned change writes never mention the target. */
  lemma PlannedAfterIsClean(c: Candidate, docs: Documents, summary: Json, n: Name, k: string)
    requires n in PlanChanges(c, docs, summary) && k in PlanChanges(c, docs, summary)[n].after
    ensures !Contains(PlanChanges(c, docs, summary)[n].after[k], c.target)
  {
  }

  /** An uninterrupted first run leaves no scanned document that mentions the target. */
  lemma FirstRunCleans(c: Candidate, docs: Documents, summary: Json, n: Name)
    requires Plannable(c, docs, summary) && n in docs
    ensures !BodyContains(RedoAll(docs, PlanChanges(c, docs, summary))[n], c.target)
  {
    var changes := PlanChanges(c, docs, summary);
    var needed := NeededChange(c, n, docs[n], summary);
    assert !needed.Refused?;
    if needed.Apply? {
      var after := Rewrite(KindOf(n), docs[n], c.workflow, c.target, summary).value;
      forall k | k in Redo(docs[n], changes[n]) ensures !Contains(Redo(docs[n], changes[n])[k], c.target) {
        if k !in ChangedKeys(changes[n]) {
          KeptValue(docs[n], after, k);
        }
      }
    }
  }

  /** A key that does not differ keeps a value the rewritten document also has, or null. */
  lemma KeptValue(body: Body, after: Body, k: string)
    requires k in body
    requires var keys := Differing(body, after);
      k !in ChangedKeys(Change(Restrict(body, keys), Restrict(after, keys)))
    ensures body[k] == Null || (k in after && after[k] == body[k])
  {
    var keys := Differing(body, after);
    var change := Change(Restrict(body, keys), Restrict(after, keys));
    forall j | j in keys ensures j in ChangedKeys(change) {
      assert Get(change.before, j) == Get(body, j) && Get(change.after, j) == Get(after, j);
    }
  }

  /** When a recovering run goes ahead: the workflow is over, the receipt verifies, no document refuses, and
      none outside the receipt mentions the target. */
  predicate RecoveryProceeds(c: Candidate, docs: Documents, receipt: Receipt) {
    && GraphDone(c, docs)
    && Verified(c, docs, receipt)
    && Plannable(c, docs, receipt.summary)
    && PlanChanges(c, docs, receipt.summary).Keys <= receipt.changes.Keys
  }

  /** A recovering run cleans every scanned document exactly when no key outside the receipt's lists
      mentions the target. The check compares document names, not keys. */
  lemma RecoveryCleans(c: Candidate, docs: Documents, receipt: Receipt)
    requires RecoveryProceeds(c, docs, receipt)
    requires var changes := receipt.changes;
      forall n, k :: n in changes && k in changes[n].after ==> !Contains(changes[n].after[k], c.target)
    ensures var changes := receipt.changes;
      (forall n :: n in docs ==> !BodyContains(RedoAll(docs, changes)[n], c.target)) <==>
      (forall n, k :: n in changes && k in docs[n] && k !in ChangedKeys(changes[n]) ==> !Contains(docs[n][k], c.target))
  {
    var changes, summary := receipt.changes, receipt.summary;
    hide GraphDone;
    forall n | n in docs && n !in changes ensures !BodyContains(docs[n], c.target) {
      assert !NeededChange(c, n, docs[n], summary).Refused?;
      assert n !in PlanChanges(c, docs, summary);
    }
    forall n | n in changes
      ensures !BodyContains(Redo(docs[n], changes[n]), c.target) <==>
        forall k :: k in docs[n] && k !in ChangedKeys(changes[n]) ==> !Contains(docs[n][k], c.target)
    {
      var redone := Redo(docs[n], changes[n]);
      forall k | k in docs[n] && k !in ChangedKeys(changes[n]) ensures k in redone && redone[k] == docs[n][k] { }
    }
  }

  /** An edit that leaves the plan usable: away from the receipt's keys, naming the target nowhere, and in a
      listed document keeping the workflow and the handoff sections objects. */
  predicate Tame(c: Candidate, changes: map<Name, Change>, e: Event) {
    e.Edited? ==>
      && Concurrent(changes, e)
      && (e.value.Some? ==> !Contains(e.value.value, c.target))
      && (e.name in changes ==> e.key != "workflow_id" && KeepsSection(e.name, e.key, e.value))
  }

  predicate KeepsSection(name: Name, key: string, value: Option<Json>) {
    KindOf(name).HandoffFile? && (key == "payload" || key == "result") && value.Some? ==> value.value.Object?
  }

  /** What tame edits make of a listed document: the listed keys as planned, nothing else that names
      the target. */
  predicate Edits(c: Candidate, name: Name, planned: Body, now: Body, keys: set<string>) {
    && (forall k :: k in keys ==> (k in now <==> k in planned) && Get(now, k) == Get(planned, k))
    && (forall k :: k in now && k !in keys ==> !Contains(now[k], c.target))
    && Get(now, "workflow_id") == Get(planned, "workflow_id")
    && (forall k :: k in now ==> KeepsSection(name, k, Some(now[k])))
  }

  lemma {:induction false} HistoryEdits(c: Candidate, docs: Documents, summary: Json, events: seq<Event>, n: Name)
    requires Plannable(c, docs, summary) && n in docs
    requires forall e :: e in events ==> Tame(c, PlanChanges(c, docs, summary), e)
    ensures var changes := PlanChanges(c, docs, summary);
      var edits := EditsOnly(docs, events);
      && edits.Keys == docs.Keys
      && (n in changes ==> Edits(c, n, docs[n], edits[n], ChangedKeys(changes[n])))
      && (n !in changes ==> !BodyContains(edits[n], c.target))
  {
    hide ChangedKeys, NeededChange, KeepsSection, Contains, Edits, BodyContains, PlanChanges, Tame;
    if events == [] {
      PlannedEdits(c, docs, summary, n);
    } else {
      var earlier, last := events[..|events| - 1], events[|events| - 1];
      assert events == earlier + [last] && last in events;
      HistoryEdits(c, docs, summary, earlier, n);
      if last.Edited? && last.name == n { EditKeepsEdits(c, docs, summary, EditsOnly(docs, earlier), last); }
    }
  }

  lemma EditKeepsEdits(c: Candidate, docs: Documents, summary: Json, now: Documents, e: Event)
    requires e.Edited? && Tame(c, PlanChanges(c, docs, summary), e) && e.name in docs && e.name in now
    ensures var (n, changes) := (e.name, PlanChanges(c, docs, summary));
      var edited := Edit(now, n, e.key, e.value)[n];
      && (n in changes && Edits(c, n, docs[n], now[n], ChangedKeys(changes[n])) ==>
            Edits(c, n, docs[n], edited, ChangedKeys(changes[n])))
      && (!BodyContains(now[n], c.target) && n !in changes ==> !BodyContains(edited, c.target))
  {
    hide ChangedKeys, NeededChange, KeepsSection, Contains, Rewrite;
  }

  lemma PlannedEdits(c: Candidate, docs: Documents, summary: Json, n: Name)
    requires Plannable(c, docs, summary) && n in docs
    ensures var changes := PlanChanges(c, docs, summary);
      && (n in changes ==> Edits(c, n, docs[n], docs[n], ChangedKeys(changes[n])))
      && (n !in changes ==> !BodyContains(docs[n], c.target))
  {
    var body := docs[n];
    var needed := NeededChange(c, n, body, summary);
    assert !needed.Refused?;
    if needed.Apply? {
      var after := Rewrite(KindOf(n), body, c.workflow, c.target, summary).value;
      SectionsAreObjects(c, n, body, summary);
      hide Contains, Rewrite, ChangedKeys, KeepsSection;
      forall k | k in body && k !in ChangedKeys(needed.change) ensures !Contains(body[k], c.target) {
        KeptValue(body, after, k);
        NullNamesNothing(c.target);
      }
    }
  }

  lemma NullNamesNothing(target: string)
    ensures !Contains(Null, target) && !Contains(Object(map[]), target)
  {
  }

  lemma SectionsAreObjects(c: Candidate, name: Name, body: Body, summary: Json)
    ensures Rewrite(KindOf(name), body, c.workflow, c.target, summary).Some? <==>
            forall k :: k in body ==> KeepsSection(name, k, Some(body[k]))
  {
    hide Contains;
    if KindOf(name).HandoffFile? {
      var a := ClearSection(body, "payload", "source_descriptor", c.target, summary);
      assert a.Some? <==> "payload" in body ==> KeepsSection(name, "payload", Some(body["payload"]));
      assert a.Some? ==> ("result" in a.value <==> "result" in body) && Get(a.value, "result") == Get(body, "result");
      assert "result" in body ==> (body["result"].Object? <==> KeepsSection(name, "result", Some(body["result"])));
    }
  }

  /** Two documents that mention the target under the same keys, with the same values there. */
  ghost predicate SameMentions(a: Body, b: Body, target: string) {
    forall k :: (Contains(Get(a, k), target) <==> Contains(Get(b, k), target))
                && (Contains(Get(a, k), target) ==> Get(a, k) == Get(b, k))
  }

  lemma CleanIsGet(body: Body, target: string)
    ensures BodyContains(body, target) <==> exists k :: Contains(Get(body, k), target)
  {
    NullNamesNothing(target);
    hide Contains;
    forall k | k in body ensures Get(body, k) == body[k] {}
    if k :| k in body && Contains(body[k], target) {
      assert Contains(Get(body, k), target);
    }
  }

  lemma ClearKeySame(a: Body, b: Body, key: string, archive: string, target: string, summary: Json)
    requires SameMentions(a, b, target)
    ensures SameMentions(ClearKey(a, key, archive, target, summary), ClearKey(b, key, archive, target, summary), target)
  {
    hide Contains;
    var p, q := ClearKey(a, key, archive, target, summary), ClearKey(b, key, archive, target, summary);
    assert Contains(Get(a, key), target) <==> Contains(Get(b, key), target);
    forall k ensures (Get(p, k) == Get(a, k) && Get(q, k) == Get(b, k)) || Get(p, k) == Get(q, k) {}
  }

  lemma ClearSectionSame(a: Body, b: Body, section: string, key: string, target: string, summary: Json)
    requires SameMentions(a, b, target)
    requires ClearSection(a, section, key, target, summary).Some? && ClearSection(b, section, key, target, summary).Some?
    ensures SameMentions(ClearSection(a, section, key, target, summary).value, ClearSection(b, section, key, target, summary).value, target)
  {
    FieldMentions(Get(a, section), key, target);
    FieldMentions(Get(b, section), key, target);
    NullNamesNothing(target);
    hide Contains;
    var p, q := ClearSection(a, section, key, target, summary).value, ClearSection(b, section, key, target, summary).value;
    assert Contains(Get(a, section), target) ==> Get(a, section) == Get(b, section);
    assert Contains(Get(b, section), target) ==> Get(a, section) == Get(b, section);
    forall k ensures (Get(p, k) == Get(a, k) && Get(q, k) == Get(b, k)) || Get(p, k) == Get(q, k) {}
  }

  lemma FieldMentions(v: Json, key: string, target: string)
    ensures v.Object? && Contains(Get(v.fields, key), target) ==> Contains(v, target)
  {
    if v.Object? && key in v.fields {
      assert Contains(v.fields[key], target) ==> Contains(v, target);
    }
  }

  lemma RewriteSame(kind: DocumentKind, a: Body, b: Body, workflow: Json, target: string, summary: Json)
    requires SameMentions(a, b, target)
    requires Rewrite(kind, a, workflow, target, summary).Some? && Rewrite(kind, b, workflow, target, summary).Some?
    ensures SameMentions(Rewrite(kind, a, workflow, target, summary).value, Rewrite(kind, b, workflow, target, summary).value, target)
  {
    hide Contains, ClearKey, ClearSection, SameMentions;
    match kind
    case SessionFile =>
      ClearKeySame(a, b, "candidate_custody", "candidate_archive", target, summary);
      ClearKeySame(ClearKey(a, "candidate_custody", "candidate_archive", target, summary),
        ClearKey(b, "candidate_custody", "candidate_archive", target, summary),
        "source_descriptor", "source_archive", target, summary);
    case HandoffFile =>
      ClearSectionSame(a, b, "payload", "source_descriptor", target, summary);
      ClearSectionSame(ClearSection(a, "payload", "source_descriptor", target, summary).value,
        ClearSection(b, "payload", "source_descriptor", target, summary).value,
        "result", "candidate_delivery", target, summary);
    case SourceFile => SourceSame(a, b, workflow, target, summary);
    case OtherFile =>
  }

  lemma SourceSame(a: Body, b: Body, workflow: Json, target: string, summary: Json)
    requires SameMentions(a, b, target)
    ensures SameMentions(Rewrite(SourceFile, a, workflow, target, summary).value, Rewrite(SourceFile, b, workflow, target, summary).value, target)
  {
    hide Contains;
  }

  /** A key that is not listed names the target nowhere. */
  lemma UnlistedClean(c: Candidate, name: Name, planned: Body, summary: Json, k: string)
    requires NeededChange(c, name, planned, summary).Apply?
    requires k !in ChangedKeys(NeededChange(c, name, planned, summary).change)
    ensures !Contains(Get(planned, k), c.target)
  {
    var after := Rewrite(KindOf(name), planned, c.workflow, c.target, summary).value;
    NullNamesNothing(c.target);
    hide Contains, Rewrite, ChangedKeys;
    if k in planned { KeptValue(planned, after, k); }
  }

  lemma EditsSame(c: Candidate, name: Name, planned: Body, now: Body, summary: Json)
    requires NeededChange(c, name, planned, summary).Apply?
    requires Edits(c, name, planned, now, ChangedKeys(NeededChange(c, name, planned, summary).change))
    ensures SameMentions(planned, now, c.target)
  {
    NullNamesNothing(c.target);
    hide Contains, NeededChange, ChangedKeys, KeepsSection;
    var keys := ChangedKeys(NeededChange(c, name, planned, summary).change);
    forall k | k !in keys ensures !Contains(Get(now, k), c.target) && !Contains(Get(planned, k), c.target) {
      UnlistedClean(c, name, planned, summary, k);
    }
  }

  /** A listed document that was only edited needs a change or none: it is not refused. */
  lemma EditedNotRefused(c: Candidate, name: Name, planned: Body, now: Body, summary: Json)
    requires NeededChange(c, name, planned, summary).Apply?
    requires Edits(c, name, planned, now, ChangedKeys(NeededChange(c, name, planned, summary).change))
    ensures !NeededChange(c, name, now, summary).Refused?
  {
    EditsSame(c, name, planned, now, summary);
    EditsKeep(c, name, planned, now, summary);
    NeededWhen(c, name, planned, summary);
    NeededWhen(c, name, now, summary);
    hide Contains, Rewrite, ChangedKeys, KeepsSection, BodyContains, SameMentions, Edits, NeededChange;
    var kind := KindOf(name);
    SectionsAreObjects(c, name, now, summary);
    RewriteSame(kind, planned, now, c.workflow, c.target, summary);
    SameClean(Rewrite(kind, planned, c.workflow, c.target, summary).value, Rewrite(kind, now, c.workflow, c.target, summary).value, c.target);
  }

  lemma EditsKeep(c: Candidate, name: Name, planned: Body, now: Body, summary: Json)
    requires NeededChange(c, name, planned, summary).Apply?
    requires Edits(c, name, planned, now, ChangedKeys(NeededChange(c, name, planned, summary).change))
    ensures Get(now, "workflow_id") == Get(planned, "workflow_id")
    ensures forall k :: k in now ==> KeepsSection(name, k, Some(now[k]))
  {
  }

  /** When a document is rewritten or refused. */
  lemma NeededWhen(c: Candidate, name: Name, body: Body, summary: Json)
    ensures var after := Rewrite(KindOf(name), body, c.workflow, c.target, summary);
      var kept := Get(body, "workflow_id") == c.workflow && after.Some? && !BodyContains(after.value, c.target);
      && (NeededChange(c, name, body, summary).Apply? <==> BodyContains(body, c.target) && kept)
      && (NeededChange(c, name, body, summary).Refused? <==> BodyContains(body, c.target) && !kept)
  {
    hide Rewrite, BodyContains;
  }

  lemma SameClean(a: Body, b: Body, target: string)
    requires SameMentions(a, b, target)
    ensures BodyContains(a, target) <==> BodyContains(b, target)
  {
    CleanIsGet(a, target);
    CleanIsGet(b, target);
  }

  /** The documents redoing may rewrite without making a check fail: under the state directory, and no
      source record under the name of a run state, which would lose its status. */
  predicate Storable(changes: map<Name, Change>) {
    InState(changes) && Source("run_state.json") !in changes
  }

  /** The keys that rewriting a session or a handoff may write. */
  const WRITTEN: set<string> := {"candidate_custody", "candidate_archive", "source_descriptor", "source_archive", "payload", "result"}

  lemma RewriteKeeps(kind: DocumentKind, body: Body, workflow: Json, target: string, summary: Json, k: string)
    requires Rewrite(kind, body, workflow, target, summary).Some? && Get(body, "workflow_id") == workflow
    requires if kind.SourceFile? then k == "workflow_id" else k !in WRITTEN
    ensures Get(Rewrite(kind, body, workflow, target, summary).value, k) == Get(body, k)
  {
    hide Contains;
  }

  lemma GuardsKept(c: Candidate, n: Name, k: string)
    requires n != Source("run_state.json") && k in GuardKeys(c, n)
    ensures if KindOf(n).SourceFile? then k == "workflow_id" else k !in WRITTEN
  {
  }

  /** What is listed differs. */
  lemma ListedDiffer(body: Body, after: Body, k: string)
    requires Get(after, k) == Get(body, k)
    ensures var keys := Differing(body, after); k !in ChangedKeys(Change(Restrict(body, keys), Restrict(after, keys)))
  {
  }

  /** A planned change leaves the keys alone that the checks read. */
  lemma GuardsUnlisted(c: Candidate, docs: Documents, summary: Json, n: Name, k: string)
    requires n in PlanChanges(c, docs, summary) && n != Source("run_state.json") && k in GuardKeys(c, n)
    ensures k !in ChangedKeys(PlanChanges(c, docs, summary)[n])
  {
    GuardsKept(c, n, k);
    hide GuardKeys, Contains, Rewrite, ChangedKeys, BodyContains;
    var after := Rewrite(KindOf(n), docs[n], c.workflow, c.target, summary).value;
    RewriteKeeps(KindOf(n), docs[n], c.workflow, c.target, summary, k);
    ListedDiffer(docs[n], after, k);
  }

  lemma RedoneAlike(c: Candidate, docs: Documents, summary: Json, now: Documents, names: set<Name>)
    requires Storable(PlanChanges(c, docs, summary))
    ensures AllAlike(c, now, RedoSome(now, PlanChanges(c, docs, summary), names))
  {
    var changes := PlanChanges(c, docs, summary);
    hide Redo, ChangedKeys, PlanChanges, GuardKeys;
    var redone := RedoSome(now, changes, names);
    forall n | n in now ensures Alike(c, n, now[n], redone[n]) {
      if n in changes {
        forall k | k in GuardKeys(c, n) ensures (k in now[n] <==> k in redone[n]) && Get(now[n], k) == Get(redone[n], k) {
          GuardsUnlisted(c, docs, summary, n, k);
          RedoKeys(now[n], changes[n], k);
        }
        WorkflowGuards(c, n);
      }
    }
  }

  lemma WorkflowGuards(c: Candidate, n: Name)
    ensures "workflow_id" in GuardKeys(c, n)
  {
  }

  lemma LogUnlisted(c: Candidate, docs: Documents, summary: Json)
    ensures !ListsLog(c, PlanChanges(c, docs, summary))
  {
    var n := Session(c.session);
    if n in PlanChanges(c, docs, summary) { GuardsUnlisted(c, docs, summary, n, "execution_log"); }
  }

  /** Whatever interruptions and tame edits come after the receipt, the recovering run goes ahead exactly
      when the edits left the workflow over and the session's log as recorded; and once it does it leaves
      no document that mentions the target. */
  lemma RecoveryExact(c: Candidate, docs: Documents, summary: Json, events: seq<Event>)
    requires GraphDone(c, docs) && Plannable(c, docs, summary) && Storable(PlanChanges(c, docs, summary))
    requires forall e :: e in events ==> Tame(c, PlanChanges(c, docs, summary), e)
    ensures var receipt := ReceiptOf(c, docs, summary);
      var now, edits := After(docs, receipt.changes, events), EditsOnly(docs, events);
      && edits.Keys == docs.Keys
      && (RecoveryProceeds(c, now, receipt) <==> GraphDone(c, edits) && Log(c, edits) == receipt.log)
      && forall n :: n in now ==> !BodyContains(RedoAll(now, receipt.changes)[n], c.target)
  {
    var receipt := ReceiptOf(c, docs, summary);
    var changes := receipt.changes;
    var now, edits := After(docs, changes, events), EditsOnly(docs, events);
    LogUnlisted(c, docs, summary);
    FirstPlanVerified(c, docs, summary);
    hide Redo, Contains, NeededChange, ChangedKeys, Rewrite, BodyContains, Edits, GraphDone, Verified;
    HistoryStaysVerified(c, docs, receipt, events);
    HistoryIsPartial(docs, changes, events);
    HistoryPlannable(c, docs, summary, events);
    RedoneAlike(c, docs, summary, edits, Redone(events));
    AlikeBack(c, edits, now);
    if GraphDone(c, edits) { GraphAlike(c, edits, now); }
    if GraphDone(c, now) { GraphAlike(c, now, edits); }
  }

  lemma HistoryPlannable(c: Candidate, docs: Documents, summary: Json, events: seq<Event>)
    requires Plannable(c, docs, summary)
    requires forall e :: e in events ==> Tame(c, PlanChanges(c, docs, summary), e)
    ensures var changes := PlanChanges(c, docs, summary);
      var now := After(docs, changes, events);
      && Plannable(c, now, summary) && PlanChanges(c, now, summary).Keys <= changes.Keys
      && forall n :: n in now ==> !BodyContains(RedoAll(now, changes)[n], c.target)
  {
    var changes := PlanChanges(c, docs, summary);
    var now, edits := After(docs, changes, events), EditsOnly(docs, events);
    hide Redo, Contains, NeededChange, ChangedKeys, Rewrite, BodyContains, Edits;
    HistoryIsPartial(docs, changes, events);
    RedoAbsorbsPartial(edits, changes, Redone(events));
    forall n | n in now
      ensures !NeededChange(c, n, now[n], summary).Refused?
      ensures NeededChange(c, n, now[n], summary).Apply? ==> n in changes
      ensures !BodyContains(RedoAll(now, changes)[n], c.target)
    {
      assert n in docs by { HistoryKeys(docs, changes, events); }
      HistoryEdits(c, docs, summary, events, n);
      CleanNeedsNothing(c, n, now[n], summary);
      if n in changes {
        assert NeededChange(c, n, docs[n], summary).Apply?;
        RedoneIsClean(c, docs, summary, n, edits[n]);
        EditedNotRefused(c, n, docs[n], edits[n], summary);
      }
    }
  }

  lemma {:induction false} HistoryKeys(docs: Documents, changes: map<Name, Change>, events: seq<Event>)
    ensures After(docs, changes, events).Keys == docs.Keys
  {
    if events != [] { HistoryKeys(docs, changes, events[..|events| - 1]); }
  }

  /** A tame edit that also stays away from what the checks read: in a document of the workflow the keys
      they turn on, in any other one the workflow's own name. */
  predicate Harmless(c: Candidate, docs: Documents, changes: map<Name, Change>, e: Event) {
    && Tame(c, changes, e)
    && (e.Edited? && e.name in docs ==>
          if Own(c, docs[e.name]) then e.key !in GuardKeys(c, e.name)
          else e.key == "workflow_id" ==> e.value != Some(c.workflow))
  }

  lemma {:induction false} EditsAlike(c: Candidate, docs: Documents, changes: map<Name, Change>, events: seq<Event>)
    requires c.workflow.Text?
    requires forall e :: e in events ==> Harmless(c, docs, changes, e)
    ensures AllAlike(c, docs, EditsOnly(docs, events))
  {
    hide GuardKeys, Tame;
    if events != [] {
      var earlier, last := events[..|events| - 1], events[|events| - 1];
      assert events == earlier + [last] && last in events;
      EditsAlike(c, docs, changes, earlier);
      hide AllAlike;
      if last.Edited? { EditAlike(c, docs, changes, EditsOnly(docs, earlier), last); }
    }
  }

  lemma EditAlike(c: Candidate, docs: Documents, changes: map<Name, Change>, now: Documents, e: Event)
    requires c.workflow.Text? && AllAlike(c, docs, now) && e.Edited? && Harmless(c, docs, changes, e)
    ensures AllAlike(c, docs, Edit(now, e.name, e.key, e.value))
  {
    WorkflowGuards(c, e.name);
    hide GuardKeys, Tame;
    assert e.name in docs ==> Alike(c, e.name, docs[e.name], now[e.name]);
  }

  /** So any interruptions and harmless edits leave the way to the end open: the recovering run goes ahead
      and leaves no document that mentions the target. */
  lemma CrashesDoNotBlockRecovery(c: Candidate, docs: Documents, summary: Json, events: seq<Event>)
    requires GraphDone(c, docs) && Plannable(c, docs, summary) && Storable(PlanChanges(c, docs, summary))
    requires forall e :: e in events ==> Harmless(c, docs, PlanChanges(c, docs, summary), e)
    ensures var receipt := ReceiptOf(c, docs, summary);
      var now := After(docs, receipt.changes, events);
      && RecoveryProceeds(c, now, receipt)
      && forall n :: n in now ==> !BodyContains(RedoAll(now, receipt.changes)[n], c.target)
  {
    hide Tame, Plannable, PlanChanges, RecoveryProceeds, BodyContains, Storable;
    RecoveryExact(c, docs, summary, events);
    EditsAlike(c, docs, PlanChanges(c, docs, summary), events);
    GraphAlike(c, docs, EditsOnly(docs, events));
  }

  /** Which first runs can be recovered from every crash: exactly those that rewrite storable documents. */
  lemma CrashesRecoverWhen(c: Candidate, docs: Documents, summary: Json)
    requires GraphDone(c, docs) && Plannable(c, docs, summary)
    ensures var receipt := ReceiptOf(c, docs, summary);
      (forall redone :: RecoveryProceeds(c, RedoSome(docs, receipt.changes, redone), receipt)) <==> Storable(receipt.changes)
  {
    var receipt := ReceiptOf(c, docs, summary);
    var odd := Source("run_state.json");
    if Storable(receipt.changes) {
      forall redone: set<Name> ensures RecoveryProceeds(c, RedoSome(docs, receipt.changes, redone), receipt) {
        CrashesDoNotBlockRecovery(c, docs, summary, [Interrupted(redone)]);
        assert [Interrupted(redone)][..0] == [];
      }
    } else if odd in receipt.changes {
      SourceLosesStatus(c, docs, summary);
      assert !RecoveryProceeds(c, RedoSome(docs, receipt.changes, {odd}), receipt);
    } else {
      assert !RecoveryProceeds(c, RedoSome(docs, receipt.changes, {}), receipt);
    }
  }

  /** The failing case among them: redoing such a source record makes the workflow look unfinished. */
  lemma SourceLosesStatus(c: Candidate, docs: Documents, summary: Json)
    requires GraphDone(c, docs) && Source("run_state.json") in PlanChanges(c, docs, summary)
    ensures !GraphDone(c, RedoSome(docs, PlanChanges(c, docs, summary), {Source("run_state.json")}))
  {
    var n, changes := Source("run_state.json"), PlanChanges(c, docs, summary);
    var redone := RedoSome(docs, changes, {n});
    RedoneSource(c, docs, summary, n);
    hide PlanChanges, Redo;
    assert Own(c, redone[n]) && !DocumentDone(c, redone, n);
  }

  lemma RedoneSource(c: Candidate, docs: Documents, summary: Json, n: Name)
    requires n in PlanChanges(c, docs, summary) && KindOf(n).SourceFile? && Completed(docs[n])
    ensures var redone := Redo(docs[n], PlanChanges(c, docs, summary)[n]); Own(c, redone) && !Completed(redone)
  {
    PlannedIs(c, docs, summary, n);
    SourceRewritten(docs[n], c.workflow, c.target, summary);
    hide Contains, BodyContains, Redo, Differing, Restrict, Rewrite, PlanChanges, NeededChange, KindOf;
    var after := Rewrite(KindOf(n), docs[n], c.workflow, c.target, summary).value;
    RedoPlanned(docs[n], after, "status");
    RedoPlanned(docs[n], after, "workflow_id");
  }

  lemma PlannedIs(c: Candidate, docs: Documents, summary: Json, n: Name)
    requires n in PlanChanges(c, docs, summary)
    ensures var after := Rewrite(KindOf(n), docs[n], c.workflow, c.target, summary);
      after.Some? && PlanChanges(c, docs, summary)[n] ==
        var keys := Differing(docs[n], after.value); Change(Restrict(docs[n], keys), Restrict(after.value, keys))
  {
    hide Contains, BodyContains, Rewrite;
  }

  lemma SourceRewritten(body: Body, workflow: Json, target: string, summary: Json)
    ensures var after := Rewrite(SourceFile, body, workflow, target, summary);
      && after.Some? && Get(after.value, "status") == Null && Get(after.value, "workflow_id") == workflow
      && Get(after.value, "source_id") == Get(body, "source_id") && Get(after.value, "archive") == summary
      && Get(after.value, "schema_version") == Scalar(1)
      && after.value.Keys == {"schema_version", "workflow_id", "source_id", "archive"}
  {
  }

  /** Redoing what was planned for a document gives the document that was planned. */
  lemma RedoPlanned(body: Body, after: Body, k: string)
    ensures var keys := Differing(body, after);
      Get(Redo(body, Change(Restrict(body, keys), Restrict(after, keys))), k) == Get(after, k)
  {
    var keys := Differing(body, after);
    var change := Change(Restrict(body, keys), Restrict(after, keys));
    RedoKeys(body, change, k);
    if Get(after, k) == Get(body, k) { ListedDiffer(body, after, k); } else { DifferingListed(body, after, k); }
  }

  /** What differs is listed, with its new value. */
  lemma DifferingListed(body: Body, after: Body, k: string)
    requires Get(after, k) != Get(body, k)
    ensures var keys := Differing(body, after);
      var change := Change(Restrict(body, keys), Restrict(after, keys));
      k in ChangedKeys(change) && Get(change.after, k) == Get(after, k)
  {
    var keys := Differing(body, after);
    assert k in keys;
    assert Get(Restrict(body, keys), k) == Get(body, k) && Get(Restrict(after, keys), k) == Get(after, k);
  }

  lemma CleanNeedsNothing(c: Candidate, name: Name, body: Body, summary: Json)
    ensures !BodyContains(body, c.target) ==> NeededChange(c, name, body, summary).NoChange?
  {
  }

  lemma RedoneIsClean(c: Candidate, docs: Documents, summary: Json, n: Name, now: Body)
    requires n in PlanChanges(c, docs, summary)
    requires Edits(c, n, docs[n], now, ChangedKeys(PlanChanges(c, docs, summary)[n]))
    ensures !BodyContains(Redo(now, PlanChanges(c, docs, summary)[n]), c.target)
  {
    var change := PlanChanges(c, docs, summary)[n];
    hide ChangedKeys, Contains;
    forall k | k in change.after ensures !Contains(change.after[k], c.target) {
      PlannedAfterIsClean(c, docs, summary, n, k);
    }
  }

  // A completed session whose custody record alone is in the receipt, and that later gained a source descriptor.
  const LATE := Candidate("/c", "s", Text("w"))
  const LATE_SUMMARY := Text("sum")
  const LATE_BODY: Body := map[
    "workflow_id" := Text("w"), "status" := Text("completed"),
    "candidate_custody" := Text("/c"), "source_descriptor" := Text("/c")]
  const LATE_WORKFLOW: Body := map[
    "workflow_id" := Text("w"), "status" := Text("completed"), "root" := Object(map["native_id" := Text("s")])]
  const LATE_DOCUMENTS: Documents := map[Session("s") := LATE_BODY, Workflow("w") := LATE_WORKFLOW]
  const LATE_CHANGE := Change(
    map["candidate_custody" := Text("/c")],
    map["candidate_custody" := Object(map[]), "candidate_archive" := Text("sum")])
  const LATE_RECEIPT := Receipt(map[Session("s") := LATE_CHANGE], LATE_SUMMARY, List([]))

  /** The failing case: after the receipt was written for a session's custody record, the session
      gains a source descriptor naming the target. The recovering run accepts and leaves it there. */
  lemma LateReferenceSurvives()
    ensures RecoveryProceeds(LATE, LATE_DOCUMENTS, LATE_RECEIPT)
    ensures BodyContains(RedoAll(LATE_DOCUMENTS, LATE_RECEIPT.changes)[Session("s")], LATE.target)
  {
    LateBodyPlanned();
    LateWorkflowPlanned();
    LateBodyUntouched();
    LateReferenceStays();
    LateGraphDone();
    hide LATE_BODY, LATE_WORKFLOW, LATE_CHANGE, LATE_SUMMARY, NeededChange, Untouched, Redo, BodyContains, GraphDone, Log;
    assert RedoAll(LATE_DOCUMENTS, LATE_RECEIPT.changes)[Session("s")] == Redo(LATE_BODY, LATE_CHANGE);
  }

  lemma LateGraphDone()
    ensures GraphDone(LATE, LATE_DOCUMENTS) && Log(LATE, LATE_DOCUMENTS) == List([])
  {
    assert Session("s") in LATE_DOCUMENTS && Workflow("w") in LATE_DOCUMENTS;
    assert ParticipantDone(LATE, LATE_DOCUMENTS, LATE_WORKFLOW["root"]);
  }

  lemma LateWorkflowPlanned()
    ensures NeededChange(LATE, Workflow("w"), LATE_WORKFLOW, LATE_SUMMARY).NoChange?
  {
    LateTexts();
    NoColon("s");
    assert !Contains(Text("s"), "/c");
    hide NamesPath;
    var root := LATE_WORKFLOW["root"];
    assert forall k :: k in root.fields ==> k == "native_id";
    forall k | k in LATE_WORKFLOW ensures !Contains(LATE_WORKFLOW[k], LATE.target) {
      assert k in {"workflow_id", "status", "root"};
    }
  }

  lemma LateBodyUntouched()
    ensures Untouched(LATE_BODY, LATE_CHANGE)
  {
  }

  lemma LateReferenceStays()
    ensures BodyContains(Redo(LATE_BODY, LATE_CHANGE), LATE.target)
  {
    LateTexts();
    hide NamesPath;
    RedoKeys(LATE_BODY, LATE_CHANGE, "source_descriptor");
    assert "source_descriptor" in Redo(LATE_BODY, LATE_CHANGE);
  }

  lemma {:induction false} NoColon(s: string)
    requires ':' !in s
    ensures StripLine(s) == s && LastColon(s) == |s|
  {
    if s != [] { NoColon(s[..|s| - 1]); }
  }

  lemma LateTexts()
    ensures Contains(Text("/c"), "/c") && !Contains(Text("w"), "/c") && !Contains(Text("sum"), "/c")
    ensures !Contains(Text("completed"), "/c")
  {
    NoColon("completed");
    NoColon("/c");
    NoColon("w");
    NoColon("sum");
  }

  lemma LateBodyPlanned()
    ensures !NeededChange(LATE, Session("s"), LATE_BODY, LATE_SUMMARY).Refused?
  {
    LateTexts();
    hide NamesPath;
    var a := ClearKey(LATE_BODY, "candidate_custody", "candidate_archive", LATE.target, LATE_SUMMARY);
    assert a == LATE_BODY["candidate_custody" := Object(map[])]["candidate_archive" := LATE_SUMMARY];
    var after := ClearKey(a, "source_descriptor", "source_archive", LATE.target, LATE_SUMMARY);
    assert after == a["source_descriptor" := Object(map[])]["source_archive" := LATE_SUMMARY];
    forall k | k in after ensures !Contains(after[k], LATE.target) {
      assert k in {"workflow_id", "status", "candidate_custody", "candidate_archive", "source_descriptor", "source_archive"};
    }
  }

  /** Both records that block recovery arise: each is planned for in a project whose workflow is over. */
  lemma OddRecordsArise(odd: Name)
    requires odd == Recovery("1/attempt-checkpoints", "session_state.json") || odd == Source("run_state.json")
    ensures var docs := LATE_DOCUMENTS[odd := LATE_BODY];
      && GraphDone(LATE, docs) && Plannable(LATE, docs, LATE_SUMMARY)
      && odd in PlanChanges(LATE, docs, LATE_SUMMARY) && !Storable(PlanChanges(LATE, docs, LATE_SUMMARY))
  {
    LateOddPlanned(odd);
    LateOddDone(odd);
    LatePlannable();
    hide *;
    OddListed(LATE, LATE_DOCUMENTS, odd, LATE_BODY, LATE_SUMMARY);
  }

  lemma LatePlannable()
    ensures Plannable(LATE, LATE_DOCUMENTS, LATE_SUMMARY)
  {
    LateBodyPlanned();
    LateWorkflowPlanned();
    hide LATE_BODY, LATE_WORKFLOW, LATE_SUMMARY, NeededChange;
  }

  lemma LateOddPlanned(odd: Name)
    requires odd == Recovery("1/attempt-checkpoints", "session_state.json") || odd == Source("run_state.json")
    ensures NeededChange(LATE, odd, LATE_BODY, LATE_SUMMARY).Apply?
  {
    LateBodyPlanned();
    LateSourcePlanned();
    LateBodyMentions();
    hide LATE_BODY, LATE_WORKFLOW, LATE_SUMMARY, NeededChange, BodyContains;
    if odd.Recovery? { SameNeeded(LATE, Session("s"), odd, LATE_BODY, LATE_SUMMARY); }
    NeededWhen(LATE, odd, LATE_BODY, LATE_SUMMARY);
  }

  lemma OddListed(c: Candidate, docs: Documents, odd: Name, body: Body, summary: Json)
    requires Plannable(c, docs, summary) && NeededChange(c, odd, body, summary).Apply?
    requires odd.Recovery? || odd == Source("run_state.json")
    ensures var more := docs[odd := body];
      Plannable(c, more, summary) && odd in PlanChanges(c, more, summary) && !Storable(PlanChanges(c, more, summary))
  {
    hide NeededChange;
  }

  lemma SameNeeded(c: Candidate, a: Name, b: Name, body: Body, summary: Json)
    requires KindOf(a) == KindOf(b)
    ensures NeededChange(c, a, body, summary) == NeededChange(c, b, body, summary)
  {
  }

  lemma LateBodyMentions()
    ensures BodyContains(LATE_BODY, LATE.target)
  {
    LateTexts();
    assert "candidate_custody" in LATE_BODY;
  }

  lemma LateSourcePlanned()
    ensures !NeededChange(LATE, Source("run_state.json"), LATE_BODY, LATE_SUMMARY).Refused?
  {
    LateTexts();
    hide NamesPath;
    var after := Rewrite(SourceFile, LATE_BODY, LATE.workflow, LATE.target, LATE_SUMMARY).value;
    forall k | k in after ensures !Contains(after[k], LATE.target) {
      assert k in {"schema_version", "workflow_id", "source_id", "archive"};
    }
  }

  lemma LateOddDone(odd: Name)
    requires odd.Recovery? || odd.Source?
    ensures GraphDone(LATE, LATE_DOCUMENTS[odd := LATE_BODY])
  {
    var docs := LATE_DOCUMENTS[odd := LATE_BODY];
    assert Session("s") in docs && Workflow("w") in docs;
    assert ParticipantDone(LATE, docs, LATE_WORKFLOW["root"]);
  }

  // ---------------------------------------------------------------- the project on disk

  datatype Result = Done | Rejected | Stopped

  lemma NothingRedone(docs: Documents, changes: map<Name, Change>)
    ensures RedoSome(docs, changes, {}) == docs
  {
  }

  lemma OneMoreRedone(docs: Documents, changes: map<Name, Change>, redone: set<Name>, n: Name)
    requires n in docs && n in changes && n !in redone
    ensures var now := RedoSome(docs, changes, redone);
      && n in now && now[n] == docs[n]
      && now[n := Redo(docs[n], changes[n])] == RedoSome(docs, changes, redone + {n})
  {
    hide Redo;
  }

  /** So many of the listed documents have been rewritten, and nothing else. */
  ghost predicate PartlyRedone(before: Documents, changes: map<Name, Change>, count: int, now: Documents) {
    exists redone :: redone <= changes.Keys && |redone| == count && now == RedoSome(before, changes, redone)
  }

  /** The project's state documents, the delivery receipt, and the receipt whose hash the artifact's row
      keeps once it is delivered. A crash, or the time budget running out, is a run that stops after
      `effects` durable writes. */
  class Project {
    var documents: Documents
    var receipt: Option<Receipt>
    var delivered: Option<Receipt>

    constructor (documents: Documents)
      ensures this.documents == documents && receipt == None && delivered == None
    {
      this.documents, receipt, delivered := documents, None, None;
    }

    /** Whether a run goes ahead: a fresh one when the workflow is over and its changes can be planned, a
        recovering one when the receipt still fits. `proven` is what git says of the delivery, or of the
        commits in the archive. */
    ghost predicate Proceeds(c: Candidate, summary: Json, proven: bool)
      reads this
    {
      proven &&
      if receipt.None? then GraphDone(c, documents) && Plannable(c, documents, summary)
      else RecoveryProceeds(c, documents, receipt.value) && (delivered.None? || delivered == receipt)
    }

    /** `retire_candidate`: persist the receipt, verify it, then rewrite the documents it lists one by one. */
    method Retire(c: Candidate, summary: Json, proven: bool, effects: nat) returns (result: Result)
      modifies this
      ensures !old(Proceeds(c, summary, proven)) ==> result == Rejected && receipt == old(receipt)
      // a fresh run is refused after the receipt was written exactly when that lists a recovery record
      ensures old(Proceeds(c, summary, proven)) ==>
        (result == Rejected <==>
          old(receipt).None? && effects > 0 && !InState(PlanChanges(c, old(documents), summary)))
      ensures result == Rejected ==> documents == old(documents)
      ensures receipt != old(receipt) ==>
        && old(receipt).None? && Session(c.session) in old(documents)
        && receipt == Some(ReceiptOf(c, old(documents), summary))
      ensures old(Proceeds(c, summary, proven)) && old(receipt).None? ==> (receipt.Some? <==> effects > 0)
      ensures receipt.None? ==> documents == old(documents) && result != Done
      ensures result == Done ==> receipt.Some? && documents == RedoAll(old(documents), receipt.value.changes)
      ensures delivered == if result == Done then receipt else old(delivered)
      // with writes enough for the receipt, if it is new, and each document a run that is not refused is done
      ensures result != Rejected ==>
        (result == Done <==> receipt.Some? && effects >= |receipt.value.changes.Keys| + (if old(receipt).None? then 1 else 0))
      ensures result == Stopped && receipt.Some? ==>
        PartlyRedone(old(documents), receipt.value.changes, effects - (if old(receipt).None? then 1 else 0), documents)
    {
      hide Plannable, PlanChanges, RedoSome, AllUntouched, WorkflowDone, DocumentDone, Log, InState;
      var left := effects;
      if !GraphDone(c, documents) || !proven { return Rejected; }
      if receipt.Some? {
        if delivered.Some? && delivered != receipt { return Rejected; }
        if !RecoveryProceeds(c, documents, receipt.value) { return Rejected; }
      } else {
        if !Plannable(c, documents, summary) { return Rejected; }
        if left == 0 { return Stopped; }
        FirstPlanVerified(c, documents, summary);
        receipt, left := Some(ReceiptOf(c, documents, summary)), left - 1;
        if !Verified(c, documents, receipt.value) { return Rejected; }
      }
      result := RedoDocuments(receipt.value.changes, left);
      if result == Done { delivered := receipt; }
    }

    /** The loop over the documents: all of them when the writes suffice, or else as many as there are. */
    method RedoDocuments(changes: map<Name, Change>, effects: nat) returns (result: Result)
      requires AllUntouched(documents, changes)
      modifies this`documents
      ensures result == if effects >= |changes.Keys| then Done else Stopped
      ensures result == Done ==> documents == RedoAll(old(documents), changes)
      ensures result == Stopped ==> PartlyRedone(old(documents), changes, effects, documents)
    {
      hide Redo, Untouched, RedoSome;
      var left, names, redone := effects, changes.Keys, {};
      NothingRedone(documents, changes);
      while names != {}
        invariant names + redone == changes.Keys && names !! redone
        invariant |names| + |redone| == |changes.Keys| && left + |redone| == effects && left >= 0
        invariant documents == RedoSome(old(documents), changes, redone)
        decreases names
      {
        assert |names| > 0;
        if left == 0 { return Stopped; }
        var n :| n in names;
        OneMoreRedone(old(documents), changes, redone, n);
        var current := Rewritten(documents[n], changes[n]);
        documents, left := documents[n := current], left - 1;
        names, redone := names - {n}, redone + {n};
      }
      assert redone == changes.Keys;
      return Done;
    }

    /** The inner loop: set or drop each changed key. */
    method Rewritten(body: Body, change: Change) returns (current: Body)
      ensures current == Redo(body, change)
    {
      current := body;
      var keys, seen := ChangedKeys(change), {};
      while keys != {}
        invariant keys + seen == ChangedKeys(change) && keys !! seen
        invariant forall k :: k in seen ==> (k in current <==> k in change.after)
        invariant forall k :: k in seen && k in change.after ==> current[k] == change.after[k]
        invariant forall k :: k !in seen ==> (k in current <==> k in body)
        invariant forall k :: k !in seen && k in body ==> current[k] == body[k]
        decreases keys
      {
        var key :| key in keys;
        if key in change.after {
          current := current[key := change.after[key]];
        } else {
          current := current - {key};
        }
        keys, seen := keys - {key}, seen + {key};
      }
    }
  }
}
