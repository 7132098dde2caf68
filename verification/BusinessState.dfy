/** Durable business records: compare-and-swap projections, call receipts and the hash-chained
    workflow journal. Hashes are free constructors, so equal hashes mean equal contents. */
module BusinessState {
  import opened Wrappers

  /** SHA-256 of a canonical encoding. */
  datatype Reference = Sha(encoded: string)

  datatype Record = Record(payload: string, reference: Reference)

  datatype CallState = Dispatched | Finished | Unknown | Interrupted

  datatype Call = Call(subject: string, phase: string, state: CallState, result: string, model: bool)

  datatype Save = Stored(reference: Reference) | StaleProjection

  /** What `reserve` answers: nothing for a new reservation, the row that was there, or a refusal. */
  datatype Reservation = Reserved | Prior(call: Call) | OutcomeUnknown

  predicate Unresolved(c: Call) {
    c.model && (c.state == Dispatched || c.state == Unknown)
  }

  predicate PendingModelCall(calls: map<string, Call>) {
    exists id | id in calls :: Unresolved(calls[id])
  }

  function ReserveAnswer(calls: map<string, Call>, id: string, model: bool): Reservation {
    if id in calls then Prior(calls[id])
    else if model && PendingModelCall(calls) then OutcomeUnknown
    else Reserved
  }

  function AfterReserve(calls: map<string, Call>, id: string, subject: string, phase: string,
          model: bool): map<string, Call> {
    if ReserveAnswer(calls, id, model) == Reserved
    then calls[id := Call(subject, phase, Dispatched, "", model)] else calls
  }

  function AfterSettle(calls: map<string, Call>, id: string, result: string, state: CallState): map<string, Call> {
    if id in calls then calls[id := calls[id].(state := state, result := result)] else calls
  }

  predicate SaveAccepted(records: map<string, Record>, path: string, expected: Option<Reference>) {
    path in records ==> expected == Some(records[path].reference)
  }

  function AfterSave(records: map<string, Record>, path: string, value: string,
          expected: Option<Reference>): map<string, Record> {
    if SaveAccepted(records, path, expected) then records[path := Record(value, Sha(value))] else records
  }

  /** Every record's reference is the hash of its payload. */
  ghost predicate Sealed(records: map<string, Record>) {
    forall p :: p in records ==> records[p].reference == Sha(records[p].payload)
  }

  class BusinessStore {
    var records: map<string, Record>
    var calls: map<string, Call>

    constructor ()
      ensures records == map[] && calls == map[]
    {
      records, calls := map[], map[];
    }

    /** The stored payload, or none; a row whose checksum differs is refused. */
    method Get(path: string) returns (value: Option<Record>, intact: bool)
      ensures intact <==> (path in records ==> records[path].reference == Sha(records[path].payload))
      ensures intact ==> value == if path in records then Some(records[path]) else None
    {
      if path !in records { return None, true; }
      var row := records[path];
      if Sha(row.payload) != row.reference { return None, false; }
      return Some(row), true;
    }

    method SaveRecord(path: string, value: string, expected: Option<Reference>) returns (r: Save)
      modifies this`records
      ensures records == AfterSave(old(records), path, value, expected)
      ensures r == if SaveAccepted(old(records), path, expected) then Stored(Sha(value)) else StaleProjection
    {
      var reference := Sha(value);
      if path in records && expected != Some(records[path].reference) { return StaleProjection; }
      records := records[path := Record(value, reference)];
      return Stored(reference);
    }

    method Reserve(id: string, subject: string, phase: string, model: bool) returns (r: Reservation)
      modifies this`calls
      ensures r == ReserveAnswer(old(calls), id, model)
      ensures calls == AfterReserve(old(calls), id, subject, phase, model)
    {
      if id in calls { return Prior(calls[id]); }
      if model {
        var pending := PendingCalls();
        if pending != {} { return OutcomeUnknown; }
      }
      calls := calls[id := Call(subject, phase, Dispatched, "", model)];
      return Reserved;
    }

    method Settle(id: string, result: string, state: CallState)
      modifies this`calls
      ensures calls == AfterSettle(old(calls), id, result, state)
    {
      if id in calls {
        calls := calls[id := calls[id].(state := state, result := result)];
      }
    }

    method PendingCalls() returns (ids: set<string>)
      ensures forall id :: id in ids <==> id in calls && Unresolved(calls[id])
      ensures ids != {} <==> PendingModelCall(calls)
    {
      ids := set id | id in calls && Unresolved(calls[id]);
    }
  }

  // ---------------------------------------------------------------- no update is lost

  /** Writers of one record: what each last read or wrote there. */
  datatype Editing = Editing(records: map<string, Record>, views: map<nat, string>)

  /** A writer reads the record, or saves what it holds with its own line added. */
  datatype Action = Reads(writer: nat) | Writes(writer: nat, line: string)

  function ViewOf(s: Editing, writer: nat): string {
    if writer in s.views then s.views[writer] else ""
  }

  function ExpectedOf(s: Editing, writer: nat): Option<Reference> {
    if writer in s.views then Some(Sha(s.views[writer])) else None
  }

  function Act(s: Editing, path: string, a: Action): Editing {
    match a
    case Reads(w) =>
      if path in s.records then s.(views := s.views[w := s.records[path].payload]) else s.(views := s.views - {w})
    case Writes(w, line) =>
      if SaveAccepted(s.records, path, ExpectedOf(s, w))
      then Editing(AfterSave(s.records, path, ViewOf(s, w) + line, ExpectedOf(s, w)), s.views[w := ViewOf(s, w) + line])
      else s
  }

  function ActAll(s: Editing, path: string, actions: seq<Action>): Editing {
    if actions == [] then s
    else Act(ActAll(s, path, actions[..|actions| - 1]), path, actions[|actions| - 1])
  }

  /** The lines of those saves that were accepted, in order. */
  function AcceptedLines(s: Editing, path: string, actions: seq<Action>): string {
    if actions == [] then ""
    else
      var earlier, a := actions[..|actions| - 1], actions[|actions| - 1];
      var before := ActAll(s, path, earlier);
      AcceptedLines(s, path, earlier) +
        (if a.Writes? && SaveAccepted(before.records, path, ExpectedOf(before, a.writer)) then a.line else "")
  }

  function PayloadAt(records: map<string, Record>, path: string): string {
    if path in records then records[path].payload else ""
  }

  /** However writers interleave, the record ends with every accepted contribution, in order: a save
      that goes through replaced exactly the value its writer held. */
  lemma {:induction false} NoUpdateLost(s: Editing, path: string, actions: seq<Action>)
    requires Sealed(s.records) && (s.views != map[] ==> path in s.records)
    ensures var t := ActAll(s, path, actions);
      && Sealed(t.records) && (t.views != map[] ==> path in t.records)
      && PayloadAt(t.records, path) == PayloadAt(s.records, path) + AcceptedLines(s, path, actions)
  {
    if actions != [] {
      var earlier, a := actions[..|actions| - 1], actions[|actions| - 1];
      NoUpdateLost(s, path, earlier);
      var before := ActAll(s, path, earlier);
      if a.Writes? && SaveAccepted(before.records, path, ExpectedOf(before, a.writer)) {
        assert ViewOf(before, a.writer) == PayloadAt(before.records, path);
      }
    }
  }

  // ---------------------------------------------------------------- the workflow journal

  /** The hash chain: the empty string, or the hash of an event's material. */
  datatype ChainHash = Genesis | EventSha(material: Material)

  /** An event without its own hash. */
  datatype Material = Material(sequence: int, body: string, previous: ChainHash)

  datatype Event = Event(material: Material, sha: ChainHash)

  /** A stored event row: its payload and the checksum of that payload. */
  datatype EventRow = EventRow(payload: Event, checksum: Event)

  /** The snapshot's view of its journal. */
  datatype Head = Head(sequence: int, last: ChainHash)

  datatype Verdict = Intact(events: seq<Event>) | Broken

  /** The event at `i` has the next number, its own hash, and the hash of the one before. */
  predicate Linked(events: seq<Event>, i: nat)
    requires i < |events|
  {
    && events[i].material.sequence == i + 1
    && events[i].sha == EventSha(events[i].material)
    && events[i].material.previous == (if i == 0 then Genesis else events[i - 1].sha)
  }

  /** Events number 1, 2, ... and each names the hash of the one before. */
  predicate Chained(events: seq<Event>) {
    forall i: nat | i < |events| :: Linked(events, i)
  }

  function LastHash(events: seq<Event>): ChainHash {
    if events == [] then Genesis else events[|events| - 1].sha
  }

  function InsertEvent(e: Event, events: seq<Event>): seq<Event> {
    if events == [] || e.material.sequence <= events[0].material.sequence then [e] + events
    else [events[0]] + InsertEvent(e, events[1..])
  }

  function SortEvents(events: seq<Event>): seq<Event> {
    if events == [] then [] else InsertEvent(events[0], SortEvents(events[1..]))
  }

  function Payloads(rows: seq<EventRow>): seq<Event> {
    if rows == [] then [] else [rows[0].payload] + Payloads(rows[1..])
  }

  ghost predicate JournalAccepted(rows: seq<EventRow>, head: Option<Head>) {
    var events := SortEvents(Payloads(rows));
    && (forall i :: 0 <= i < |rows| ==> rows[i].payload == rows[i].checksum)
    && Chained(events)
    && (head.Some? ==> head.value == Head(|events|, LastHash(events)))
  }

  /** `workflow_events`: check every row, sort, walk the chain, and compare with the snapshot. */
  method WorkflowEvents(rows: seq<EventRow>, head: Option<Head>) returns (v: Verdict)
    ensures v.Intact? <==> JournalAccepted(rows, head)
    ensures v.Intact? ==> v.events == SortEvents(Payloads(rows))
  {
    for i := 0 to |rows|
      invariant forall k :: 0 <= k < i ==> rows[k].payload == rows[k].checksum
    {
      if rows[i].payload != rows[i].checksum { return Broken; }
    }
    var events := SortEvents(Payloads(rows));
    var previous := Genesis;
    for i := 0 to |events|
      invariant Chained(events[..i])
      invariant previous == LastHash(events[..i])
    {
      var record := events[i];
      var expected := EventSha(record.material);
      if record.material.sequence != i + 1 || record.material.previous != previous || record.sha != expected {
        NotChained(events, i);
        return Broken;
      }
      ChainExtends(events[..i], record);
      assert events[..i + 1] == events[..i] + [record];
      previous := expected;
    }
    assert events[..|events|] == events;
    if head.Some? && head.value != Head(|events|, previous) { return Broken; }
    return Intact(events);
  }

  lemma NotChained(events: seq<Event>, i: nat)
    requires i < |events|
    requires var m := events[i].material;
      m.sequence != i + 1 || m.previous != LastHash(events[..i]) || events[i].sha != EventSha(m)
    ensures !Chained(events)
  {
    if i > 0 { assert events[..i][i - 1] == events[i - 1]; }
    assert !Linked(events, i);
  }

  lemma ChainExtends(events: seq<Event>, e: Event)
    requires Chained(events)
    requires e.material.sequence == |events| + 1 && e.sha == EventSha(e.material) && e.material.previous == LastHash(events)
    ensures Chained(events + [e])
  {
    var longer := events + [e];
    forall i: nat | i < |longer| ensures Linked(longer, i) {
      if i < |events| { assert Linked(events, i); }
    }
  }

  lemma ChainPrefix(events: seq<Event>, n: nat)
    requires Chained(events) && n <= |events|
    ensures Chained(events[..n])
    ensures 0 < n ==> events[n - 1].sha == EventSha(events[n - 1].material)
    ensures 0 < n ==> events[n - 1].material.sequence == n
    ensures 0 < n ==> events[n - 1].material.previous == LastHash(events[..n - 1])
  {
    forall i: nat | i < n ensures Linked(events[..n], i) {
      assert Linked(events, i);
    }
    if n > 0 { assert Linked(events, n - 1); }
  }

  /** Two chains with the same last hash and length are the same chain. */
  lemma {:induction false} HeadDeterminesChain(a: seq<Event>, b: seq<Event>)
    requires Chained(a) && Chained(b) && |a| == |b| && LastHash(a) == LastHash(b)
    ensures a == b
  {
    if a != [] {
      var n := |a| - 1;
      ChainPrefix(a, n + 1);
      ChainPrefix(b, n + 1);
      assert a[n] == b[n];
      ChainPrefix(a, n);
      ChainPrefix(b, n);
      HeadDeterminesChain(a[..n], b[..n]);
      assert a == a[..n] + [a[n]] && b == b[..n] + [b[n]];
    }
  }

  lemma {:induction false} InsertKeeps(e: Event, events: seq<Event>)
    ensures multiset(InsertEvent(e, events)) == multiset(events) + multiset{e}
    ensures |InsertEvent(e, events)| == |events| + 1
  {
    if events != [] && e.material.sequence > events[0].material.sequence {
      InsertKeeps(e, events[1..]);
      assert events == [events[0]] + events[1..];
    }
  }

  lemma {:induction false} SortKeeps(events: seq<Event>)
    ensures multiset(SortEvents(events)) == multiset(events) && |SortEvents(events)| == |events|
  {
    if events != [] {
      SortKeeps(events[1..]);
      InsertKeeps(events[0], SortEvents(events[1..]));
      assert events == [events[0]] + events[1..];
    }
  }

  /** Tampering shows: two stores accepted under one head hold the same events, whatever order their
      rows come in. So a dropped, added, reordered or edited event is refused. */
  lemma JournalTamperEvident(rows: seq<EventRow>, others: seq<EventRow>, head: Head)
    requires JournalAccepted(rows, Some(head)) && JournalAccepted(others, Some(head))
    ensures SortEvents(Payloads(rows)) == SortEvents(Payloads(others))
    ensures multiset(Payloads(rows)) == multiset(Payloads(others))
  {
    HeadDeterminesChain(SortEvents(Payloads(rows)), SortEvents(Payloads(others)));
    SortKeeps(Payloads(rows));
    SortKeeps(Payloads(others));
  }

  // ---------------------------------------------------------------- appending

  /** A journal as stored: its rows and the snapshot, if one was saved. */
  datatype Journal = Journal(rows: seq<EventRow>, head: Option<Head>)

  datatype Append = Appended | StaleSnapshot | WrongSequence

  /** `append_workflow_event`. The caller passes the snapshot it means to publish and the head it
      read; without a stored snapshot nothing is checked. */
  function AppendAnswer(j: Journal, read: Option<Head>, e: Event): Append {
    if j.head.Some? && read != j.head then StaleSnapshot
    else if j.head.Some? && e.material.sequence != j.head.value.sequence + 1 then WrongSequence
    else Appended
  }

  function AfterAppend(j: Journal, read: Option<Head>, snapshot: Head, e: Event): Journal {
    if AppendAnswer(j, read, e) == Appended then Journal(j.rows + [EventRow(e, e)], Some(snapshot)) else j
  }

  /** The event and snapshot `append_event` builds on the head it loaded. */
  function NextEvent(read: Head, body: string): Event {
    var m := Material(read.sequence + 1, body, read.last);
    Event(m, EventSha(m))
  }

  function NextHead(e: Event): Head {
    Head(e.material.sequence, e.sha)
  }

  /** Appends by any number of writers, each on the head it last read; stale ones are refused. */
  function AppendAll(j: Journal, attempts: seq<(Head, string)>): Journal {
    if attempts == [] then j
    else
      var before := AppendAll(j, attempts[..|attempts| - 1]);
      var (read, body) := attempts[|attempts| - 1];
      var e := NextEvent(read, body);
      AfterAppend(before, Some(read), NextHead(e), e)
  }

  lemma {:induction false} PayloadsAppend(rows: seq<EventRow>, row: EventRow)
    ensures Payloads(rows + [row]) == Payloads(rows) + [row.payload]
  {
    if rows == [] {
      assert Payloads([row]) == [row.payload] + Payloads([]);
    } else {
      PayloadsAppend(rows[1..], row);
      assert (rows + [row])[1..] == rows[1..] + [row];
    }
  }

  lemma {:induction false} InsertFirst(e: Event, events: seq<Event>)
    requires forall k :: 0 <= k < |events| ==> e.material.sequence <= events[k].material.sequence
    ensures InsertEvent(e, events) == [e] + events
  {
  }

  /** Events stored in chain order are already sorted. */
  lemma {:induction false} SortedChain(events: seq<Event>, from: int)
    requires forall i :: 0 <= i < |events| ==> events[i].material.sequence == from + i
    ensures SortEvents(events) == events
  {
    if events != [] {
      SortedChain(events[1..], from + 1);
      InsertFirst(events[0], events[1..]);
    }
  }

  /** In-order journals: the rows are the chain itself and the snapshot names its end. */
  ghost predicate WellKept(j: Journal) {
    && (forall i :: 0 <= i < |j.rows| ==> j.rows[i].payload == j.rows[i].checksum)
    && Chained(Payloads(j.rows))
    && |Payloads(j.rows)| == |j.rows|
    && j.head == Some(Head(|j.rows|, LastHash(Payloads(j.rows))))
  }

  lemma WellKeptAccepted(j: Journal)
    requires WellKept(j)
    ensures JournalAccepted(j.rows, j.head)
  {
    var events := Payloads(j.rows);
    forall i | 0 <= i < |events| ensures events[i].material.sequence == 1 + i { assert Linked(events, i); }
    SortedChain(events, 1);
  }

  /** An event and a snapshot that carry on from `head`: the event names its last hash and has its own,
      and the snapshot names the event. */
  predicate Honest(head: Head, snapshot: Head, e: Event) {
    e.material.previous == head.last && e.sha == EventSha(e.material) && snapshot == NextHead(e)
  }

  /** The append checks number and snapshot alone. For every well-kept journal and every append it
      accepts, the journal stays well kept, and stays accepted, exactly when the append is an honest one. */
  lemma AppendExact(j: Journal, read: Option<Head>, snapshot: Head, e: Event)
    requires WellKept(j) && AppendAnswer(j, read, e) == Appended
    ensures var after := AfterAppend(j, read, snapshot, e);
      && (WellKept(after) <==> Honest(j.head.value, snapshot, e))
      && (JournalAccepted(after.rows, after.head) <==> Honest(j.head.value, snapshot, e))
  {
    var events, after := Payloads(j.rows), AfterAppend(j, read, snapshot, e);
    PayloadsAppend(j.rows, EventRow(e, e));
    var longer := events + [e];
    assert Payloads(after.rows) == longer;
    forall i | 0 <= i < |longer| ensures longer[i].material.sequence == 1 + i {
      if i < |events| { assert Linked(events, i); }
    }
    SortedChain(longer, 1);
    ChainExtendsExactly(events, e);
    assert LastHash(longer) == e.sha && |after.rows| == |longer|;
  }

  lemma ChainExtendsExactly(events: seq<Event>, e: Event)
    requires Chained(events) && e.material.sequence == |events| + 1
    ensures Chained(events + [e]) <==> e.sha == EventSha(e.material) && e.material.previous == LastHash(events)
  {
    var longer := events + [e];
    if Chained(longer) { assert Linked(longer, |events|); }
    if e.sha == EventSha(e.material) && e.material.previous == LastHash(events) { ChainExtends(events, e); }
  }

  /** The writer takes its head from the durable snapshot, so that its append is accepted and honest. */
  lemma WriterIsHonest(j: Journal, body: string)
    requires WellKept(j)
    ensures var e := NextEvent(j.head.value, body);
      AppendAnswer(j, j.head, e) == Appended && Honest(j.head.value, NextHead(e), e)
  {
  }

  /** Every store reached by well-formed appends, stale ones included, passes the check. */
  lemma {:induction false} AppendsStayIntact(j: Journal, attempts: seq<(Head, string)>)
    requires WellKept(j)
    ensures WellKept(AppendAll(j, attempts))
    ensures JournalAccepted(AppendAll(j, attempts).rows, AppendAll(j, attempts).head)
    ensures j.rows <= AppendAll(j, attempts).rows
  {
    hide WellKept, JournalAccepted;
    if attempts != [] {
      AppendsStayIntact(j, attempts[..|attempts| - 1]);
      var before := AppendAll(j, attempts[..|attempts| - 1]);
      var (read, body) := attempts[|attempts| - 1];
      var e := NextEvent(read, body);
      if AppendAnswer(before, Some(read), e) == Appended {
        HeadOf(before);
        AppendExact(before, Some(read), NextHead(e), e);
      }
    }
    WellKeptAccepted(AppendAll(j, attempts));
  }

  lemma HeadOf(j: Journal)
    requires WellKept(j)
    ensures j.head.Some?
  {
  }

  /** A snapshot saved before any event, as a new workflow has. */
  lemma NewJournalWellKept()
    ensures WellKept(Journal([], Some(Head(0, Genesis))))
  {
  }

  /** The failing case, on every well-kept journal: an event built on a forged hash is stored, and the
      journal is refused. */
  lemma ForgedPreviousBreaksJournal(j: Journal, body: string, forged: ChainHash)
    requires WellKept(j) && forged != j.head.value.last
    ensures var e := NextEvent(Head(j.head.value.sequence, forged), body);
      var after := AfterAppend(j, j.head, NextHead(e), e);
      AppendAnswer(j, j.head, e) == Appended && after.rows == j.rows + [EventRow(e, e)] && !JournalAccepted(after.rows, after.head)
  {
    var e := NextEvent(Head(j.head.value.sequence, forged), body);
    AppendExact(j, j.head, NextHead(e), e);
  }
}
