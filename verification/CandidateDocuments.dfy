/** The state documents a retirement reads, and the check that the candidate's workflow is over. */
module CandidateDocuments {
  datatype Json =
    | Null
    | Scalar(value: int)
    | Text(text: string)
    | List(items: seq<Json>)
    | Object(fields: map<string, Json>)

  /** The top level of a state document. */
  type Body = map<string, Json>

  /** The scanned documents, by where they lie: sessions, handoffs, sources, workflows and the run state
      under the state directory, recovery records of runs outside it. */
  datatype Name =
    | Session(id: string)
    | Handoff(file: string)
    | Source(file: string)
    | Workflow(id: string)
    | RunState
    | Recovery(folder: string, file: string)

  function FileOf(name: Name): string {
    match name
    case Session(_) => "session_state.json"
    case Workflow(_) => "workflow.json"
    case RunState => "run_state.json"
    case Handoff(file) => file
    case Source(file) => file
    case Recovery(_, file) => file
  }

  /** `dict.get`: a missing key reads as null. */
  function Get(body: Body, key: string): Json {
    if key in body then body[key] else Null
  }

  /** What the artifact's row says of the candidate: its path, its session and its workflow. */
  datatype Candidate = Candidate(target: string, session: string, workflow: Json)

  type Documents = map<Name, Body>

  // ---------------------------------------------------------------- the workflow is over

  /** Python's truth of a value. */
  predicate Truthy(v: Json) {
    match v
    case Null => false
    case Scalar(n) => n != 0
    case Text(s) => s != ""
    case List(items) => items != []
    case Object(fields) => fields != map[]
  }

  /** `_component`: one path component. */
  predicate IsComponent(s: string) {
    s != "" && s != "." && s != ".." && '/' !in s
  }

  /** The document belongs to the candidate's workflow. */
  predicate Own(c: Candidate, body: Body) {
    Get(body, "workflow_id") == c.workflow
  }

  predicate Completed(body: Body) {
    Get(body, "status") == Text("completed")
  }

  /** The session or run a root or a handoff names is the workflow's, and completed. */
  predicate ParticipantDone(c: Candidate, docs: Documents, ref: Json) {
    ref.Object? &&
    var id := Get(ref.fields, "native_id");
    if Get(ref.fields, "kind") == Text("run") then
      RunState in docs && Get(docs[RunState], "run_id") == id && Own(c, docs[RunState]) && Completed(docs[RunState])
    else
      id.Text? && IsComponent(id.text) && Session(id.text) in docs
      && Own(c, docs[Session(id.text)]) && Completed(docs[Session(id.text)])
  }

  predicate HasState(name: Name) {
    FileOf(name) == "session_state.json" || FileOf(name) == "run_state.json"
  }

  /** A document of the workflow has nothing left to do. */
  predicate DocumentDone(c: Candidate, docs: Documents, name: Name)
    requires name in docs
  {
    var body := docs[name];
    if HasState(name) then Completed(body) && !Truthy(Get(body, "active_handoff_id"))
    else if name.Handoff? then
      && Completed(body) && Truthy(Get(body, "returned_at"))
      && ParticipantDone(c, docs, Get(body, "parent")) && ParticipantDone(c, docs, Get(body, "child"))
    else true
  }

  predicate WorkflowDone(c: Candidate, docs: Documents) {
    c.workflow.Text? && IsComponent(c.workflow.text) && Workflow(c.workflow.text) in docs &&
    var workflow := docs[Workflow(c.workflow.text)];
    && Own(c, workflow) && Completed(workflow)
    && !Truthy(Get(workflow, "active_handoff_id")) && !Truthy(Get(workflow, "recovery_required"))
    && ParticipantDone(c, docs, Get(workflow, "root"))
  }

  /** `_graph` accepts: the session is the workflow's, and the workflow with all its documents is over. */
  predicate GraphDone(c: Candidate, docs: Documents) {
    && IsComponent(c.session) && Session(c.session) in docs && Own(c, docs[Session(c.session)])
    && WorkflowDone(c, docs)
    && forall n | n in docs :: Own(c, docs[n]) ==> DocumentDone(c, docs, n)
  }

  // ---------------------------------------------------------------- what over means

  ghost predicate Blank(v: Json) {
    v == Null || v == Scalar(0) || v == Text("") || v == List([]) || v == Object(map[])
  }

  /** The participant is there: a document of the workflow that is completed, the run's or the one in the
      directory of that session. */
  ghost predicate EndedIn(c: Candidate, docs: Documents, ref: Json, n: Name) {
    && ref.Object? && n in docs && Get(docs[n], "workflow_id") == c.workflow && Get(docs[n], "status") == Text("completed")
    && (if Get(ref.fields, "kind") == Text("run") then n == RunState && Get(docs[n], "run_id") == Get(ref.fields, "native_id")
        else n.Session? && IsComponent(n.id) && Get(ref.fields, "native_id") == Text(n.id))
  }

  /** Nothing waits in the document: a state is completed with no handoff under way, and a handoff is completed,
      returned and between two ended participants. */
  ghost predicate Settled(c: Candidate, docs: Documents, n: Name)
    requires n in docs
  {
    var body, state := docs[n], FileOf(n) in {"session_state.json", "run_state.json"};
    && (state || n.Handoff? ==> Get(body, "status") == Text("completed"))
    && (state ==> Blank(Get(body, "active_handoff_id")))
    && (n.Handoff? && !state ==> !Blank(Get(body, "returned_at")) && (exists m :: EndedIn(c, docs, Get(body, "parent"), m))
                                 && (exists m :: EndedIn(c, docs, Get(body, "child"), m)))
  }

  lemma ParticipantMeans(c: Candidate, docs: Documents, ref: Json)
    ensures ParticipantDone(c, docs, ref) <==> exists n :: EndedIn(c, docs, ref, n)
  {
    if ref.Object? {
      var id := Get(ref.fields, "native_id");
      if Get(ref.fields, "kind") == Text("run") {
        assert ParticipantDone(c, docs, ref) <==> EndedIn(c, docs, ref, RunState);
      } else if id.Text? {
        assert ParticipantDone(c, docs, ref) <==> EndedIn(c, docs, ref, Session(id.text));
      }
    }
  }

  /** The check accepts exactly when session and workflow are there, the workflow is completed, waits for
      nothing and ended at its root, and nothing waits in any of its documents. */
  lemma GraphDoneMeans(c: Candidate, docs: Documents)
    ensures GraphDone(c, docs) <==>
      (&& IsComponent(c.session) && Session(c.session) in docs && Get(docs[Session(c.session)], "workflow_id") == c.workflow
       && c.workflow.Text? && IsComponent(c.workflow.text) && Workflow(c.workflow.text) in docs
       && (var workflow := docs[Workflow(c.workflow.text)];
           && Get(workflow, "workflow_id") == c.workflow && Get(workflow, "status") == Text("completed")
           && Blank(Get(workflow, "active_handoff_id")) && Blank(Get(workflow, "recovery_required"))
           && exists n :: EndedIn(c, docs, Get(workflow, "root"), n))
       && forall n :: n in docs && Get(docs[n], "workflow_id") == c.workflow ==> Settled(c, docs, n))
  {
    forall v ensures Truthy(v) <==> !Blank(v) {}
    forall ref ensures ParticipantDone(c, docs, ref) <==> exists n :: EndedIn(c, docs, ref, n) { ParticipantMeans(c, docs, ref); }
    hide Truthy, Blank, ParticipantDone, EndedIn, IsComponent;
    forall n | n in docs ensures DocumentDone(c, docs, n) <==> Settled(c, docs, n) {}
  }

  /** A component never leads further down or up. */
  lemma ComponentMeans(s: string)
    ensures IsComponent(s) <==> s != "" && s != "." && s != ".." && forall a, b :: s != a + "/" + b
  {
    if i :| 0 <= i < |s| && s[i] == '/' { assert s == s[..i] + "/" + s[i + 1..]; }
    forall a, b | s == a + "/" + b ensures '/' in s { assert s[|a|] == '/'; }
  }

  /** The session's execution log, empty when it has none. */
  function Log(c: Candidate, docs: Documents): Json
    requires Session(c.session) in docs
  {
    var body := docs[Session(c.session)];
    if "execution_log" in body then body["execution_log"] else List([])
  }

  // ---------------------------------------------------------------- the keys it turns on

  /** The keys of a document that the checks of a retirement read. */
  function GuardKeys(c: Candidate, name: Name): set<string> {
    {"workflow_id"}
    + (if HasState(name) then {"status", "active_handoff_id"}
       else if name.Handoff? then {"status", "returned_at", "parent", "child"} else {})
    + (if name == RunState then {"run_id"} else {})
    + (if name == Session(c.session) then {"execution_log"} else {})
    + (if c.workflow.Text? && name == Workflow(c.workflow.text)
       then {"status", "active_handoff_id", "recovery_required", "root"} else {})
  }

  /** The same for the checks: both are of another workflow, or agree in all keys the checks read. */
  ghost predicate Alike(c: Candidate, name: Name, a: Body, b: Body) {
    && (Own(c, a) <==> Own(c, b))
    && (Own(c, a) ==> forall k :: k in GuardKeys(c, name) ==> (k in a <==> k in b) && Get(a, k) == Get(b, k))
  }

  ghost predicate AllAlike(c: Candidate, a: Documents, b: Documents) {
    a.Keys == b.Keys && forall n :: n in a ==> Alike(c, n, a[n], b[n])
  }

  lemma ParticipantAlike(c: Candidate, a: Documents, b: Documents, ref: Json)
    requires AllAlike(c, a, b)
    ensures ParticipantDone(c, a, ref) ==> ParticipantDone(c, b, ref)
  {
    if ParticipantDone(c, a, ref) {
      var id := Get(ref.fields, "native_id");
      var n := if Get(ref.fields, "kind") == Text("run") then RunState else Session(id.text);
      assert Alike(c, n, a[n], b[n]);
      assert "status" in GuardKeys(c, n) && (n == RunState ==> "run_id" in GuardKeys(c, n));
    }
  }

  /** The workflow is over in one state of the documents when it is in another that is alike. */
  lemma GraphAlike(c: Candidate, a: Documents, b: Documents)
    requires AllAlike(c, a, b) && GraphDone(c, a)
    ensures GraphDone(c, b) && Log(c, b) == Log(c, a)
  {
    hide ParticipantDone;
    var own, workflow := Session(c.session), Workflow(c.workflow.text);
    assert Alike(c, own, a[own], b[own]) && "execution_log" in GuardKeys(c, own);
    assert Alike(c, workflow, a[workflow], b[workflow]);
    assert GuardKeys(c, workflow) >= {"status", "active_handoff_id", "recovery_required", "root"};
    ParticipantAlike(c, a, b, Get(a[workflow], "root"));
    forall n | n in b && Own(c, b[n]) ensures DocumentDone(c, b, n) {
      assert Alike(c, n, a[n], b[n]) && DocumentDone(c, a, n);
      if !HasState(n) && n.Handoff? {
        assert GuardKeys(c, n) >= {"status", "returned_at", "parent", "child"};
        ParticipantAlike(c, a, b, Get(a[n], "parent"));
        ParticipantAlike(c, a, b, Get(a[n], "child"));
      } else if HasState(n) {
        assert GuardKeys(c, n) >= {"status", "active_handoff_id"};
      }
    }
  }

  lemma AlikeBack(c: Candidate, a: Documents, b: Documents)
    requires AllAlike(c, a, b)
    ensures AllAlike(c, b, a)
  {
  }
}
