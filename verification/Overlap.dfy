/** The same machine with index writes taken apart into the statements of their transactions, so
    that registrations also overlap inside the index. */
module Overlap {
  import opened Prelude
  import opened AgentAddr
  import opened World
  import opened Registration
  import opened System
  import C = IndexConcurrent
  import Clock
  import Index

  /** `index` runs the transactions.  The transaction of a registration bears its number, and
      `core.stores.index` shows what is committed. */
  datatype Joint = Joint(core: State, index: C.State)

  datatype JointAction =
    | Core(a: Action)
    | StartPut(q: nat, now: Clock.Instant)
    | Statement(statement: C.Action)
    | EndPut(q: nat)

  const JOINT_START := Joint(START, C.INITIAL)

  /** The registration has its pointer stored and is about to write the index. */
  predicate AtIndex(s: State, q: nat) {
    q in s.processes && s.processes[q].result == None && s.processes[q].written == 2
  }

  function WithProcess(s: State, q: nat, p: Process): State { s.(processes := s.processes[q := p]) }

  /** Opens the transaction with the prepared record, or ends the registration without one. */
  function PutStarted(env: Env, j: Joint, q: nat, now: Clock.Instant): Joint
    requires AtIndex(j.core, q)
  {
    var p := j.core.processes[q];
    match Prepare(env, p.id, p.req)
    case Err(e) => j.(core := WithProcess(j.core, q, Failed(p, e)))
    case Ok(record) => j.(index := C.Step(C.PutRules(env.sha), j.index, C.Begin(q, Index.Offer(p.id, record, now))))
  }

  /** Takes over the result of the transaction. */
  function PutEnded(j: Joint, q: nat): Joint
    requires AtIndex(j.core, q) && q in j.index.txs && j.index.txs[q].phase.Done?
  {
    var p, result := j.core.processes[q], j.index.txs[q].phase.result;
    j.(core := WithProcess(j.core, q, if result == None then p.(written := 3)
        else Failed(p, IndexFailed(result.value))))
  }

  function Executed(env: Env, j: Joint, statement: C.Action): Joint {
    var index := C.Step(C.PutRules(env.sha), j.index, statement);
    Joint(j.core.(stores := j.core.stores.(index := index.tables)), index)
  }

  /** Core actions are those of the other machine, but that a registration at its index write is
      moved by its transaction alone. */
  function JointStep(env: Env, text: ErrorText, j: Joint, a: JointAction): Joint {
    match a
    case Core(c) => if c.Move? && AtIndex(j.core, c.q) then j else j.(core := Step(env, text, j.core, c))
    case StartPut(q, now) => if AtIndex(j.core, q) then PutStarted(env, j, q, now) else j
    case Statement(c) => if c.Begin? then j else Executed(env, j, c)
    case EndPut(q) => if AtIndex(j.core, q) && q in j.index.txs && j.index.txs[q].phase.Done? then PutEnded(j, q) else j
  }

  function JointRun(env: Env, text: ErrorText, actions: seq<JointAction>): Joint {
    if actions == [] then JOINT_START
    else JointStep(env, text, JointRun(env, text, actions[..|actions| - 1]), actions[|actions| - 1])
  }

  function JointTexts(env: Env, actions: seq<JointAction>): set<string> {
    if actions == [] then {}
    else
      var last := actions[|actions| - 1];
      JointTexts(env, actions[..|actions| - 1]) + (if last.Core? && last.a.Begin?
          then RequestTexts(env, last.a.register) else {})
  }

  // ----- what every state keeps -----

  /** The stores a record's references go through hold up every row, written or about to be. */
  ghost predicate RowsBacked(env: Env, s: Stores, index: C.State) {
    C.AllRows(index, (row: Index.Row) => Backed(env, s, row))
    && C.OffersPass(C.PutRules(env.sha), index, (row: Index.Row) => Backed(env, s, row))
  }

  ghost predicate JointSound(env: Env, texts: set<string>, j: Joint) {
    j.core.stores.index == j.index.tables && Referenced(env, texts, j.core) && RowsBacked(env, j.core.stores, j.index)
  }

  lemma GrowthKeepsBacked(env: Env, s: Stores, t: Stores, row: Index.Row)
    requires Backed(env, s, row) && Grows(s, t)
    ensures Backed(env, t, row)
  {}

  lemma RowsMonotone(r: C.Rules, index: C.State, ok: Index.Row -> bool, ok': Index.Row -> bool)
    requires C.AllRows(index, ok) && C.OffersPass(r, index, ok) && forall row :: ok(row) ==> ok'(row)
    ensures C.AllRows(index, ok') && C.OffersPass(r, index, ok')
  {
    forall t | t in index.txs ensures C.PhaseRows(index.txs[t].phase, ok') {
      assert C.PhaseRows(index.txs[t].phase, ok);
    }
  }

  lemma GrowthKeepsRows(env: Env, s: Stores, t: Stores, index: C.State)
    requires RowsBacked(env, s, index) && Grows(s, t)
    ensures RowsBacked(env, t, index)
  {
    forall row | Backed(env, s, row) ensures Backed(env, t, row) { GrowthKeepsBacked(env, s, t, row); }
    RowsMonotone(C.PutRules(env.sha), index, (row: Index.Row) => Backed(env, s, row),
          (row: Index.Row) => Backed(env, t, row));
  }

  /** A registration at its index write offers a record that does not dangle. */
  lemma OfferedIsBacked(env: Env, texts: set<string>, s: Stores, p: Process)
    requires Configured(env) && env.pointerStore && ProcessFits(env, texts, s, p) && p.result == None && p.written == 2
    requires Prepare(env, p.id, p.req).Ok?
    ensures RecordBacked(env, s, Prepare(env, p.id, p.req).value)
    ensures Index.PutChecks(env.sha, p.id, Prepare(env, p.id, p.req).value) == None
  {
    PrepareMeaning(env, p.id, p.req);
    StoredIsRead(env, s, p.req.facts);
  }

  lemma UpsertIsBacked(env: Env, s: Stores, o: Index.Offer, current: Option<Index.Row>)
    requires Index.PutChecks(env.sha, o.agentId, o.record) == None && RecordBacked(env, s, o.record)
    ensures Backed(env, s, Index.UpsertOf(current, o.agentId, o.record, o.now))
  {
    Index.UpsertAgrees(env.sha, current, o.agentId, o.record, o.now);
  }

  // ----- every step keeps it -----

  lemma CoreReferenced(env: Env, text: ErrorText, s: State, a: Action, texts: set<string>)
    requires CollisionFree(env.sha, texts) && Referenced(env, texts, s) && !(a.Move? && AtIndex(s, a.q))
    requires a.Begin? ==> RequestTexts(env, a.register) <= texts
    ensures var t := Step(env, text, s, a);
            Referenced(env, texts, t) && Grows(s.stores, t.stores) && t.stores.index == s.stores.index
  {
    match a
    case Begin(q, req) => if q !in s.processes { BeginReferenced(env, texts, s, q, req); }
    case Move(q, o) => if q in s.processes { CoreMoveReferenced(env, texts, s, q, o); }
    case _ =>
      OtherStepShape(env, text, s, a);
      SameReferenced(env, texts, s, Step(env, text, s, a));
  }

  lemma CoreMoveReferenced(env: Env, texts: set<string>, s: State, q: nat, o: Oracle)
    requires CollisionFree(env.sha, texts) && Referenced(env, texts, s) && q in s.processes && !AtIndex(s, q)
    ensures var t := Moved(env, s, q, o);
            Referenced(env, texts, t) && Grows(s.stores, t.stores) && t.stores.index == s.stores.index
  {
    var p := s.processes[q];
    assert ProcessFits(env, texts, s.stores, p);
    AnyMove(env, texts, s.stores, p, o);
    var (t, p') := Advance(env, s.stores, p, o);
    MoveReferenced(env, texts, s, q, t, p', s.attempts + AttemptsOf(env, p, o));
  }

  /** Replacing a process by one for the same request that has done its first two writes. */
  lemma LaterReferenced(env: Env, texts: set<string>, s: State, q: nat, p: Process)
    requires Referenced(env, texts, s) && AtIndex(s, q)
    requires p.req == s.processes[q].req && p.id == s.processes[q].id && 2 <= p.written <= 4
    ensures Referenced(env, texts, WithProcess(s, q, p))
  {
    assert ProcessFits(env, texts, s.stores, s.processes[q]);
    LaterProcessFits(env, texts, s.stores, s.stores, s.processes[q], p);
    MoveReferenced(env, texts, s, q, s.stores, p, s.attempts);
  }

  lemma StartKeepsRows(env: Env, texts: set<string>, j: Joint, q: nat, now: Clock.Instant)
    requires Configured(env) && env.pointerStore && JointSound(env, texts, j) && AtIndex(j.core, q)
    requires Prepare(env, j.core.processes[q].id, j.core.processes[q].req).Ok?
    ensures RowsBacked(env, j.core.stores, PutStarted(env, j, q, now).index)
    ensures PutStarted(env, j, q, now).index.tables == j.index.tables
  {
    var p := j.core.processes[q];
    assert ProcessFits(env, texts, j.core.stores, p);
    OfferedIsBacked(env, texts, j.core.stores, p);
    var o := Index.Offer(p.id, Prepare(env, p.id, p.req).value, now);
    forall current ensures Backed(env, j.core.stores, C.PutRules(env.sha).upsert(current, o)) {
      UpsertIsBacked(env, j.core.stores, o, current);
    }
    C.StepRows(C.PutRules(env.sha), j.index, C.Begin(q, o), (row: Index.Row) => Backed(env, j.core.stores, row));
  }

  lemma StartSound(env: Env, texts: set<string>, j: Joint, q: nat, now: Clock.Instant)
    requires Configured(env) && env.pointerStore && JointSound(env, texts, j) && AtIndex(j.core, q)
    ensures JointSound(env, texts, PutStarted(env, j, q, now))
  {
    var p := j.core.processes[q];
    if Prepare(env, p.id, p.req).Ok? {
      StartKeepsRows(env, texts, j, q, now);
    } else {
      LaterReferenced(env, texts, j.core, q, Failed(p, Prepare(env, p.id, p.req).error));
    }
  }

  /** Rows and references do not depend on what the index itself holds. */
  lemma BackedIgnoresIndex(env: Env, s: Stores, index: Index.Tables, row: Index.Row)
    ensures Backed(env, s.(index := index), row) == Backed(env, s, row)
  {}

  lemma StatementSound(env: Env, texts: set<string>, j: Joint, c: C.Action)
    requires JointSound(env, texts, j) && !c.Begin?
    ensures JointSound(env, texts, Executed(env, j, c))
  {
    var j' := Executed(env, j, c);
    var ok, ok' := (row: Index.Row) => Backed(env, j.core.stores, row),
          (row: Index.Row) => Backed(env, j'.core.stores, row);
    C.StepRows(C.PutRules(env.sha), j.index, c, ok);
    forall row ensures ok(row) ==> ok'(row) { BackedIgnoresIndex(env, j.core.stores, j'.index.tables, row); }
    RowsMonotone(C.PutRules(env.sha), j'.index, ok, ok');
    SameReferenced(env, texts, j.core, j'.core);
  }

  lemma EndSound(env: Env, texts: set<string>, j: Joint, q: nat)
    requires JointSound(env, texts, j) && AtIndex(j.core, q) && q in j.index.txs && j.index.txs[q].phase.Done?
    ensures JointSound(env, texts, PutEnded(j, q))
  {
    var p := PutEnded(j, q).core.processes[q];
    LaterReferenced(env, texts, j.core, q, p);
  }

  lemma CoreSound(env: Env, text: ErrorText, texts: set<string>, j: Joint, a: Action)
    requires CollisionFree(env.sha, texts) && JointSound(env, texts, j) && !(a.Move? && AtIndex(j.core, a.q))
    requires a.Begin? ==> RequestTexts(env, a.register) <= texts
    ensures JointSound(env, texts, j.(core := Step(env, text, j.core, a)))
  {
    CoreReferenced(env, text, j.core, a, texts);
    GrowthKeepsRows(env, j.core.stores, Step(env, text, j.core, a).stores, j.index);
  }

  lemma {:induction false} JointRunSound(env: Env, text: ErrorText, actions: seq<JointAction>, texts: set<string>)
    requires Configured(env) && env.pointerStore && JointTexts(env, actions) <= texts && CollisionFree(env.sha, texts)
    ensures JointSound(env, texts, JointRun(env, text, actions))
  {
    if actions != [] {
      var front, a := actions[..|actions| - 1], actions[|actions| - 1];
      JointRunSound(env, text, front, texts);
      JointStepSound(env, text, texts, JointRun(env, text, front), a);
    }
  }

  lemma JointStepSound(env: Env, text: ErrorText, texts: set<string>, j: Joint, a: JointAction)
    requires Configured(env) && env.pointerStore && CollisionFree(env.sha, texts) && JointSound(env, texts, j)
    requires a.Core? && a.a.Begin? ==> RequestTexts(env, a.a.register) <= texts
    ensures JointSound(env, texts, JointStep(env, text, j, a))
  {
    match a
    case Core(c) => if !(c.Move? && AtIndex(j.core, c.q)) { CoreSound(env, text, texts, j, c); }
    case StartPut(q, now) => if AtIndex(j.core, q) { StartSound(env, texts, j, q, now); }
    case Statement(c) => if !c.Begin? { StatementSound(env, texts, j, c); }
    case EndPut(q) =>
      if AtIndex(j.core, q) && q in j.index.txs && j.index.txs[q].phase.Done? { EndSound(env, texts, j, q); }
  }

  // ----- no dangling references -----

  lemma NoPointersJoint(env: Env, text: ErrorText, j: Joint, a: JointAction)
    requires !env.pointerStore
    ensures JointStep(env, text, j, a).core.stores.pointers == j.core.stores.pointers
  {
    if a.Core? { NoPointerStep(env, text, j.core, a.a); }
  }

  lemma {:induction false} NoPointersRun(env: Env, text: ErrorText, actions: seq<JointAction>)
    requires !env.pointerStore
    ensures JointRun(env, text, actions).core.stores.pointers == map[]
  {
    if actions != [] {
      NoPointersRun(env, text, actions[..|actions| - 1]);
      NoPointersJoint(env, text, JointRun(env, text, actions[..|actions| - 1]), actions[|actions| - 1]);
    }
  }

  /** At every point of every run, however registrations interleave, inside the index too and first
      inserts for one agent included, and wherever they stop: no current or archived record
      dangles, unless two texts of the run collide or no pointer store is configured; without one,
      every record dangles. */
  lemma OverlappingPutsStayBacked(env: Env, text: ErrorText, actions: seq<JointAction>)
    requires Configured(env) && CollisionFree(env.sha, JointTexts(env, actions))
    ensures var s := JointRun(env, text, actions).core.stores;
            Intact(env, s) <==> env.pointerStore || (s.index.current == map[] && s.index.history == [])
  {
    var j := JointRun(env, text, actions);
    if env.pointerStore {
      JointRunSound(env, text, actions, JointTexts(env, actions));
      assert Intact(env, j.core.stores);
    } else {
      NoPointersRun(env, text, actions);
      UnpointedDangles(env, j.core.stores);
    }
  }
}
