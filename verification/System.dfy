/** The whole registry as one machine: registrations that advance write by write in any
    interleaving and may stop anywhere, status updates, and resolves. */
module System {
  import opened Prelude
  import opened Text
  import opened Clock
  import opened AgentAddr
  import opened AgentFacts
  import opened World
  import opened Registration
  import Admin
  import Facts
  import Index
  import Resolver
  import Revocation

  /** An index write that was reached, in plain terms: no hash, no signature, no pointer. */
  datatype Attempt = Attempt(id: string, sequence: uint32, ttlSeconds: uint16, facts: string, now: Instant)

  /** A status update that has written the table: its event is still to be tried, or was added to
      the log, or was lost. */
  datatype Phase = Unlogged | Logged | Lost

  datatype Update = Update(w: Revocation.Write, phase: Phase)

  datatype State = State(stores: Stores, processes: map<nat, Process>, attempts: seq<Attempt>,
                         updates: map<nat, Update>)

  datatype Action =
    | Begin(q: nat, register: Registration.Request)
    | Move(q: nat, o: Oracle)
    | WriteStatus(u: nat, w: Revocation.Write, taken: bool)
    | LogStatus(u: nat, o: Oracle)
    | Resolve(resolve: Resolver.Request, outcome: Outcome, o: Oracle)

  /** What a resolve found.  Its reads may have been made at different moments, so the machine
      reports whatever they led to; `ReadAcross` below says what that can be. */
  type Outcome = Result<Resolver.Response, Resolver.ResolveError>

  const START := State(NO_DATA, map[], [], map[])

  type ErrorText = Resolver.ResolveError -> string

  function AttemptsOf(env: Env, p: Process, o: Oracle): seq<Attempt> {
    if p.result == None && p.written == 2 && o.up && env.parse(p.req.facts).Some?
    then [Attempt(p.id, p.req.sequence, p.req.ttlSeconds, p.req.facts, o.now)] else []
  }

  function Moved(env: Env, s: State, q: nat, o: Oracle): State
    requires q in s.processes
  {
    var (stores, p) := Advance(env, s.stores, s.processes[q], o);
    s.(stores := stores, processes := s.processes[q := p], attempts := s.attempts + AttemptsOf(env, s.processes[q], o))
  }

  function Step(env: Env, text: ErrorText, s: State, a: Action): State {
    match a
    case Begin(q, req) => if q in s.processes then s else s.(processes := s.processes[q := Started(env, req)])
    case Move(q, o) => if q in s.processes then Moved(env, s, q, o) else s
    case WriteStatus(u, w, taken) => if u in s.updates then s else WroteStatus(s, u, w, taken)
    case LogStatus(u, o) => if u in s.updates && s.updates[u].phase == Unlogged then LoggedStatus(env, s, u, o) else s
    case Resolve(req, outcome, o) =>
      s.(stores := s.stores.(events := Resolver.Audited(env, text, s.stores.events, req, outcome, o).0))
  }

  /** The table write of status update `u`; a refused one leaves no update behind. */
  function WroteStatus(s: State, u: nat, w: Revocation.Write, taken: bool): State {
    var (stores, failed) := Admin.StatusWritten(s.stores, w, taken);
    if failed.Some? then s else s.(stores := stores, updates := s.updates[u := Update(w, Unlogged)])
  }

  /** Its log write. */
  function LoggedStatus(env: Env, s: State, u: nat, o: Oracle): State
    requires u in s.updates
  {
    var (stores, failed) := Admin.StatusLogged(env, s.stores, s.updates[u].w, o);
    s.(stores := stores, updates := s.updates[u := s.updates[u].(phase := if failed.Some? then Lost else Logged)])
  }

  function Run(env: Env, text: ErrorText, actions: seq<Action>): State {
    if actions == [] then START
    else Step(env, text, Run(env, text, actions[..|actions| - 1]), actions[|actions| - 1])
  }

  // ----- the texts a run hashes -----

  function RequestTexts(env: Env, req: Registration.Request): set<string> {
    {req.facts, PointerOf(env, req).Text()} + IdTexts(req.agentId)
  }

  function IdTexts(agentId: string): set<string> {
    match NormalizeAgentID(agentId) case Err(_) => {} case Ok(id) => {id}
  }

  /** The facts, pointers and ids of all requests of a run. */
  function Texts(env: Env, actions: seq<Action>): set<string> {
    if actions == [] then {}
    else
      var last := actions[|actions| - 1];
      Texts(env, actions[..|actions| - 1]) + (if last.Begin? then RequestTexts(env, last.register) else {})
  }

  // ----- the plain map -----

  datatype Entry = Entry(sequence: uint32, ttlSeconds: uint16, facts: string, createdAt: Instant, updatedAt: Instant)

  type PlainMap = map<string, Entry>

  function Offered(m: PlainMap, a: Attempt): PlainMap {
    if a.id in m && a.sequence <= m[a.id].sequence then m
    else m[a.id := Entry(a.sequence, a.ttlSeconds, a.facts, if a.id in m then m[a.id].createdAt else a.now, a.now)]
  }

  /** From each agent to its highest-sequence attempt. */
  function Plain(attempts: seq<Attempt>): PlainMap {
    if attempts == [] then map[] else Offered(Plain(attempts[..|attempts| - 1]), attempts[|attempts| - 1])
  }

  /** Attempt `i` is the first of its agent's attempts with the greatest sequence. */
  ghost predicate IsBest(attempts: seq<Attempt>, i: nat) {
    && i < |attempts|
    && forall j :: 0 <= j < |attempts| && attempts[j].id == attempts[i].id ==>
         attempts[j].sequence <= attempts[i].sequence && (j < i ==> attempts[j].sequence < attempts[i].sequence)
  }

  ghost predicate EntryOf(e: Entry, a: Attempt) {
    e.sequence == a.sequence && e.ttlSeconds == a.ttlSeconds && e.facts == a.facts && e.updatedAt == a.now
  }

  lemma BestStays(front: seq<Attempt>, a: Attempt, i: nat)
    requires IsBest(front, i) && (a.id == front[i].id ==> a.sequence <= front[i].sequence)
    ensures IsBest(front + [a], i)
  {}

  lemma BestIsNew(front: seq<Attempt>, a: Attempt)
    requires forall j :: 0 <= j < |front| && front[j].id == a.id ==> front[j].sequence < a.sequence
    ensures IsBest(front + [a], |front|)
  {}

  ghost predicate HasBest(attempts: seq<Attempt>, id: string, e: Entry) {
    exists i: nat :: IsBest(attempts, i) && attempts[i].id == id && EntryOf(e, attempts[i])
  }

  /** The plain map holds, for every agent ever attempted, its first attempt of greatest sequence. */
  lemma {:induction false} PlainIsBest(attempts: seq<Attempt>, id: string)
    ensures id in Plain(attempts) <==> exists j :: 0 <= j < |attempts| && attempts[j].id == id
    ensures id in Plain(attempts) ==> HasBest(attempts, id, Plain(attempts)[id])
  {
    if attempts != [] {
      var front, a := attempts[..|attempts| - 1], attempts[|attempts| - 1];
      PlainIsBest(front, id);
      assert attempts == front + [a];
      assert forall j :: 0 <= j < |front| ==> front[j] == attempts[j];
      assert attempts[|front|].id == a.id;
      if id in Plain(front) {
        var i: nat :| IsBest(front, i) && front[i].id == id && EntryOf(Plain(front)[id], front[i]);
        if a.id == id && a.sequence > Plain(front)[id].sequence { BestIsNew(front, a); }
            else { BestStays(front, a, i); }
      } else if a.id == id {
        BestIsNew(front, a);
      }
    }
  }

  /** Resolving against the plain map: nothing is hashed, signed or looked up by pointer. */
  function PlainOutcome(env: Env, m: PlainMap, revocations: Revocation.Records, req: Resolver.Request, now: Instant)
    : Result<Resolver.Response, Resolver.ResolveError>
  {
    match NormalizeAgentID(req.agentId)
    case Err(e) => Err(Resolver.InvalidAgentId(e))
    case Ok(id) =>
      if id !in m then Err(Resolver.RecordNotFound)
      else
        match (Resolver.Freshness(m[id].createdAt, m[id].updatedAt, m[id].ttlSeconds, now), env.parse(m[id].facts))
        case (None, _) => Err(Resolver.Expired)
        case (_, None) => Err(Resolver.FactsUndecodable)
        case (Some(freshness), Some(facts)) => match Validate(env.httpsUrl, facts, id, req.requiredCapability, now)
          case Some(e) => Err(Resolver.FactsInvalid(e))
          case None => Resolver.Conclude(req, id, m[id].sequence, freshness, facts.endpoints, now, true,
                                         Resolver.Trusts(env, revocations, req, id, facts, now))
  }

  // ----- content addressing makes the first two stores grow-only -----

  /** Every file lies at the path of its own bytes, every pointer under its own hash. */
  ghost predicate Addressed(env: Env, texts: set<string>, s: Stores) {
    && (forall path :: path in s.files ==>
           path == Facts.DeterministicPath(env.sha, s.files[path]) && s.files[path] in texts)
    && (forall key :: key in s.pointers ==>
          && key == Facts.PointerKey(env.sha, s.pointers[key])
          && s.pointers[key].scheme == Facts.FILESYSTEM_SCHEME && s.pointers[key].Text() in texts)
  }

  ghost predicate Grows(s: Stores, t: Stores) {
    && (forall path :: path in s.files ==> path in t.files && t.files[path] == s.files[path])
    && (forall key :: key in s.pointers ==> key in t.pointers && t.pointers[key] == s.pointers[key])
  }

  predicate Stored(env: Env, s: Stores, facts: string) {
    var path := Facts.DeterministicPath(env.sha, facts);
    path in s.files && s.files[path] == facts
  }

  predicate Pointed(env: Env, s: Stores, facts: string) {
    var pointer := Facts.PointerFor(env.sha, facts);
    var key := Facts.PointerKey(env.sha, pointer);
    key in s.pointers && s.pointers[key] == pointer
  }

  lemma SamePathSameText(env: Env, texts: set<string>, a: string, b: string)
    requires CollisionFree(env.sha, texts) && a in texts && b in texts
    requires Facts.DeterministicPath(env.sha, a) == Facts.DeterministicPath(env.sha, b)
    ensures a == b
  {
    Facts.PathDeterminesDigest(env.sha, a, b);
  }

  lemma FileGrows(env: Env, texts: set<string>, s: Stores, facts: string)
    requires Addressed(env, texts, s) && CollisionFree(env.sha, texts) && facts in texts
    ensures var t := s.(files := Facts.FilePut(env.sha, s.files, facts));
            Addressed(env, texts, t) && Grows(s, t) && Stored(env, t, facts)
  {
    var path := Facts.DeterministicPath(env.sha, facts);
    if path in s.files {
      SamePathSameText(env, texts, s.files[path], facts);
    }
  }

  lemma PointerTextInjective(p: Facts.FactsPointer, q: Facts.FactsPointer)
    requires p.scheme == Facts.FILESYSTEM_SCHEME && q.scheme == Facts.FILESYSTEM_SCHEME && p.Text() == q.Text()
    ensures p == q
  {
    assert p.Text()[3..] == p.path && q.Text()[3..] == q.path;
  }

  lemma PointerGrows(env: Env, texts: set<string>, s: Stores, facts: string)
    requires Addressed(env, texts, s) && CollisionFree(env.sha, texts)
    requires Facts.PointerFor(env.sha, facts).Text() in texts
    ensures var pointer := Facts.PointerFor(env.sha, facts);
            var t := s.(pointers := s.pointers[Facts.PointerKey(env.sha, pointer) := pointer]);
            Addressed(env, texts, t) && Grows(s, t) && Pointed(env, t, facts)
  {
    var pointer := Facts.PointerFor(env.sha, facts);
    var key := Facts.PointerKey(env.sha, pointer);
    if key in s.pointers {
      HexInjective(Facts.PointerHash(env.sha, s.pointers[key]), Facts.PointerHash(env.sha, pointer));
      PointerTextInjective(s.pointers[key], pointer);
    }
  }

  // ----- what rows rest on -----

  /** The row's signed bytes lead to `facts`: they name its pointer and commit to its credentials,
      and both the pointer and the document are in their stores. */
  ghost predicate Carries(env: Env, s: Stores, row: Index.Row, facts: string) {
    && Stored(env, s, facts) && (env.pointerStore ==> Pointed(env, s, facts)) && env.parse(facts).Some?
    && Decoded(row.recordBytes).Ok?
    && Signs(env, Decoded(row.recordBytes).value, row, facts)
  }

  ghost predicate Signs(env: Env, r: AgentAddr120, row: Index.Row, facts: string)
    requires env.parse(facts).Some?
  {
    var p := r.Payload();
    && p.agentIdHash == row.agentHash && p.sequence == row.sequence && p.ttlSeconds == row.ttlSeconds
    && p.factsPtrHash128 == Facts.PointerHash(env.sha, Facts.PointerFor(env.sha, facts))
    && p.credentialSet128 == CredentialSetHash(env.sha, env.parse(facts).value.credentials)
    && (KeysMatch(env) ==> Verify(env.scheme, r, env.publicKey) == None)
  }

  /** A record's pointer hash leads, through the pointer table and the file store, to a document
      with the credentials the record commits to. */
  predicate RecordBacked(env: Env, s: Stores, record: AgentAddr120) {
    match Facts.PointerGet(s.pointers, record.Payload().factsPtrHash128)
    case Err(_) => false
    case Ok(pointer) =>
      Facts.PointerHash(env.sha, pointer) == record.Payload().factsPtrHash128 &&
      match Facts.FileGet(s.files, pointer)
      case Err(_) => false
      case Ok(bytes) => match env.parse(bytes)
        case None => false
        case Some(facts) => CredentialSetHash(env.sha, facts.credentials) == record.Payload().credentialSet128
  }

  predicate Backed(env: Env, s: Stores, row: Index.Row) {
    match Decoded(row.recordBytes) case Err(_) => false case Ok(r) => RecordBacked(env, s, r)
  }

  lemma StoredIsRead(env: Env, s: Stores, facts: string)
    ensures Stored(env, s, facts) ==> Facts.FileGet(s.files, Facts.PointerFor(env.sha, facts)) == Ok(facts)
    ensures Pointed(env, s, facts) ==>
              Facts.PointerGet(s.pointers, Facts.PointerHash(env.sha, Facts.PointerFor(env.sha, facts))) ==
              Ok(Facts.PointerFor(env.sha, facts))
  {
    Facts.GetByContent(env.sha, s.files, facts);
  }

  lemma CarriedIsBacked(env: Env, s: Stores, row: Index.Row, facts: string)
    requires env.pointerStore && Carries(env, s, row, facts)
    ensures Backed(env, s, row)
  {
    StoredIsRead(env, s, facts);
  }

  // ----- the invariant -----

  ghost predicate ProcessFits(env: Env, texts: set<string>, s: Stores, p: Process) {
    && p.written <= 4
    && (p.result == None || p.written > 0 ==>
           ValidateRequest(env, p.req) == Ok(p.id) && RequestTexts(env, p.req) <= texts)
    && (p.written >= 1 ==> Stored(env, s, p.req.facts))
    && (p.written >= 2 && env.pointerStore ==> Pointed(env, s, p.req.facts))
  }

  /** How ids are hashed, and which rows carry which facts: all that the index's part of the
      invariant needs to know. */
  datatype Lens = Lens(hashOf: string -> Hash128, carries: (Index.Row, string) -> bool)

  ghost function LensOf(env: Env, s: Stores): Lens {
    Lens((id: string) => Truncated(env.sha, id), (row: Index.Row, facts: string) => Carries(env, s, row, facts))
  }

  ghost predicate RowFits(v: Lens, texts: set<string>, m: PlainMap, row: Index.Row) {
    && row.agentId in m && row.agentId in texts && row.agentHash == v.hashOf(row.agentId)
    && row.sequence == m[row.agentId].sequence && row.ttlSeconds == m[row.agentId].ttlSeconds
    && row.createdAt == m[row.agentId].createdAt && row.updatedAt == m[row.agentId].updatedAt
    && v.carries(row, m[row.agentId].facts)
  }

  ghost predicate Carried(v: Lens, row: Index.Row) { exists facts :: v.carries(row, facts) }

  ghost predicate TablesFit(v: Lens, texts: set<string>, t: Index.Tables, m: PlainMap) {
    && (forall h :: h in t.current ==> t.current[h].agentHash == h && RowFits(v, texts, m, t.current[h]))
    && (forall id :: id in m ==> id in texts && v.hashOf(id) in t.current)
    && (forall i :: 0 <= i < |t.history| ==> Carried(v, t.history[i].row))
  }

  ghost predicate IndexFits(env: Env, texts: set<string>, s: Stores, m: PlainMap) {
    Index.WellFormed(s.index) && TablesFit(LensOf(env, s), texts, s.index, m)
  }

  /** The first two stores are addressed by content, and hold what every process has put there. */
  ghost predicate Referenced(env: Env, texts: set<string>, s: State) {
    && Addressed(env, texts, s.stores)
    && (forall q :: q in s.processes ==> ProcessFits(env, texts, s.stores, s.processes[q]))
  }

  ghost predicate Sound(env: Env, texts: set<string>, s: State) {
    Referenced(env, texts, s) && IndexFits(env, texts, s.stores, Plain(s.attempts))
  }

  lemma FitMonotone(v: Lens, w: Lens, texts: set<string>, t: Index.Tables, m: PlainMap)
    requires TablesFit(v, texts, t, m) && v.hashOf == w.hashOf
    requires forall row, facts :: v.carries(row, facts) ==> w.carries(row, facts)
    ensures TablesFit(w, texts, t, m)
  {
    forall i | 0 <= i < |t.history| ensures Carried(w, t.history[i].row) {
      assert Carried(v, t.history[i].row);
      var facts :| v.carries(t.history[i].row, facts);
      assert w.carries(t.history[i].row, facts);
    }
  }

  lemma GrowthKeepsCarried(env: Env, s: Stores, t: Stores, row: Index.Row, facts: string)
    requires Carries(env, s, row, facts) && Grows(s, t)
    ensures Carries(env, t, row, facts)
  {}

  lemma GrowthKeepsIndex(env: Env, texts: set<string>, s: Stores, t: Stores, m: PlainMap)
    requires IndexFits(env, texts, s, m) && Grows(s, t) && t.index == s.index
    ensures IndexFits(env, texts, t, m)
  {
    var v, w := LensOf(env, s), LensOf(env, t);
    forall row, facts | v.carries(row, facts) ensures w.carries(row, facts) {
      GrowthKeepsCarried(env, s, t, row, facts);
    }
    assert v.hashOf == w.hashOf;
    FitMonotone(v, w, texts, s.index, m);
  }

  lemma GrowthKeepsProcess(env: Env, texts: set<string>, s: Stores, t: Stores, p: Process)
    requires ProcessFits(env, texts, s, p) && Grows(s, t)
    ensures ProcessFits(env, texts, t, p)
  {}

  ghost predicate TellsApart(hashOf: string -> Hash128, texts: set<string>) {
    forall a, b :: a in texts && b in texts && hashOf(a) == hashOf(b) ==> a == b
  }

  /** An agent has a row exactly when it has a plain entry, and the row is its own. */
  lemma RowIsOwn(v: Lens, texts: set<string>, t: Index.Tables, m: PlainMap, id: string)
    requires TablesFit(v, texts, t, m) && TellsApart(v.hashOf, texts) && id in texts
    ensures v.hashOf(id) in t.current <==> id in m
    ensures id in m ==> t.current[v.hashOf(id)].agentId == id && RowFits(v, texts, m, t.current[v.hashOf(id)])
  {}

  // ----- the index write -----

  function AttemptFor(p: Process, now: Instant): Attempt {
    Attempt(p.id, p.req.sequence, p.req.ttlSeconds, p.req.facts, now)
  }

  /** `row` is what an accepted attempt writes over the row `was`. */
  ghost predicate Writes(v: Lens, row: Index.Row, a: Attempt, was: Option<Index.Row>) {
    && row.agentId == a.id && row.agentHash == v.hashOf(a.id) && row.sequence == a.sequence
         && row.ttlSeconds == a.ttlSeconds
    && row.createdAt == (if was.Some? then was.value.createdAt
         else a.now) && row.updatedAt == a.now && v.carries(row, a.facts)
  }

  lemma ReplacedFits(v: Lens, texts: set<string>, t: Index.Tables, m: PlainMap, row: Index.Row, a: Attempt)
    requires TablesFit(v, texts, t, m) && TellsApart(v.hashOf, texts) && a.id in texts
    requires Writes(v, row, a, Index.Lookup(t, row.agentHash))
    requires a.id in m ==> m[a.id].sequence < a.sequence
    ensures TablesFit(v, texts, Index.Replaced(t, row.agentHash, row, a.now), Offered(m, a))
  {
    var key, m' := row.agentHash, Offered(m, a);
    var t' := Index.Replaced(t, key, row, a.now);
    RowIsOwn(v, texts, t, m, a.id);
    forall h | h in t'.current ensures t'.current[h].agentHash == h && RowFits(v, texts, m', t'.current[h]) {
      if h != key {
        assert RowFits(v, texts, m, t.current[h]);
        assert t.current[h].agentId != a.id;
      }
    }
    forall i | 0 <= i < |t'.history| ensures Carried(v, t'.history[i].row) {
      if i < |t.history| {
        assert Carried(v, t.history[i].row);
      } else {
        assert v.carries(t.current[key], m[t.current[key].agentId].facts);
      }
    }
  }

  /** A put with a given outcome decides as the plain map does, and both change alike. */
  lemma PutFits(v: Lens, texts: set<string>, t: Index.Tables, m: PlainMap, row: Index.Row, a: Attempt, t': Index.Tables)
    requires TablesFit(v, texts, t, m) && TellsApart(v.hashOf, texts) && a.id in texts
    requires Writes(v, row, a, Index.Lookup(t, row.agentHash))
    requires t' == if row.agentHash in t.current ==> t.current[row.agentHash].sequence < a.sequence
                   then Index.Replaced(t, row.agentHash, row, a.now) else t
    ensures TablesFit(v, texts, t', Offered(m, a))
  {
    RowIsOwn(v, texts, t, m, a.id);
    if !(a.id in m && a.sequence <= m[a.id].sequence) {
      ReplacedFits(v, texts, t, m, row, a);
    }
  }

  /** What the index write of a process leaves behind: the put of its prepared record. */
  lemma PutRow(env: Env, s: Stores, p: Process, now: Instant)
    requires Configured(env) && ValidateRequest(env, p.req) == Ok(p.id) && env.parse(p.req.facts).Some?
    requires Stored(env, s, p.req.facts) && (env.pointerStore ==> Pointed(env, s, p.req.facts))
    ensures Prepare(env, p.id, p.req).Ok?
    ensures var record := Prepare(env, p.id, p.req).value;
            var key := Truncated(env.sha, p.id);
            var was := Index.Lookup(s.index, key);
            && Index.PutChecks(env.sha, p.id, record) == None
            && record.Payload().agentIdHash == key && record.Payload().sequence == p.req.sequence
            && Writes(LensOf(env, s), Index.UpsertOf(was, p.id, record, now), AttemptFor(p, now), was)
  {
    PrepareMeaning(env, p.id, p.req);
  }

  /** Writing the index and offering the attempt to the plain map go together. */
  lemma PutIsOffer(env: Env, texts: set<string>, s: Stores, m: PlainMap, p: Process, now: Instant)
    requires Configured(env) && ValidateRequest(env, p.req) == Ok(p.id) && env.parse(p.req.facts).Some?
    requires Stored(env, s, p.req.facts) && (env.pointerStore ==> Pointed(env, s, p.req.facts))
    requires IndexFits(env, texts, s, m) && CollisionFree(env.sha, texts) && p.id in texts
    ensures Prepare(env, p.id, p.req).Ok?
    ensures IndexFits(env, texts,
                      s.(index := Index.PutInto(env.sha, s.index, p.id, Prepare(env, p.id, p.req).value, now).0),
                      Offered(m, AttemptFor(p, now)))
  {
    PutRow(env, s, p, now);
    var record := Prepare(env, p.id, p.req).value;
    var was := Index.Lookup(s.index, Truncated(env.sha, p.id));
    var t' := Index.PutInto(env.sha, s.index, p.id, record, now).0;
    Index.PutCases(env.sha, s.index, Index.Offer(p.id, record, now));
    Index.PutKeepsWellFormed(env.sha, s.index, p.id, record, now);
    PutFits(LensOf(env, s), texts, s.index, m, Index.UpsertOf(was, p.id, record, now), AttemptFor(p, now), t');
    LensIgnoresIndex(env, texts, s, t', Offered(m, AttemptFor(p, now)));
  }

  /** Which rows carry which facts does not depend on the index itself. */
  lemma LensIgnoresIndex(env: Env, texts: set<string>, s: Stores, t: Index.Tables, m: PlainMap)
    requires Index.WellFormed(t) && TablesFit(LensOf(env, s), texts, t, m)
    ensures IndexFits(env, texts, s.(index := t), m)
  {
    var v, w := LensOf(env, s), LensOf(env, s.(index := t));
    forall row, facts | v.carries(row, facts) ensures w.carries(row, facts) {}
    assert v.hashOf == w.hashOf;
    FitMonotone(v, w, texts, t, m);
  }

  // ----- every step keeps the invariant -----

  lemma PlainSnoc(attempts: seq<Attempt>, a: Attempt)
    ensures Plain(attempts + [a]) == Offered(Plain(attempts), a)
  {
    assert (attempts + [a])[..|attempts|] == attempts;
  }

  /** What one move of process `p` must establish: the stores only grow, and hold it up again. */
  ghost predicate MoveFits(env: Env, texts: set<string>, s: Stores, t: Stores, p: Process) {
    Addressed(env, texts, t) && Grows(s, t) && ProcessFits(env, texts, t, p)
  }

  lemma FactsMove(env: Env, texts: set<string>, s: Stores, p: Process, o: Oracle)
    requires CollisionFree(env.sha, texts) && Addressed(env, texts, s) && ProcessFits(env, texts, s, p)
    requires p.result == None && p.written == 0
    ensures var (t, p') := StoreFacts(env, s, p, o); MoveFits(env, texts, s, t, p') && t == s.(files := t.files)
  {
    if o.up { FileGrows(env, texts, s, p.req.facts); }
  }

  lemma PointerMove(env: Env, texts: set<string>, s: Stores, p: Process, o: Oracle)
    requires CollisionFree(env.sha, texts) && Addressed(env, texts, s) && ProcessFits(env, texts, s, p)
    requires p.result == None && p.written == 1
    ensures var (t, p') := StorePointer(env, s, p, o); MoveFits(env, texts, s, t, p') && t == s.(pointers := t.pointers)
  {
    if env.pointerStore && o.up { PointerGrows(env, texts, s, p.req.facts); }
  }

  lemma IndexShape(env: Env, s: Stores, p: Process, o: Oracle)
    ensures var (t, p') := IndexRecord(env, s, p, o);
            && t == s.(index := t.index) && p'.req == p.req && p'.id == p.id
                 && (p'.written == p.written || p'.written == 3)
            && t.index == if Prepare(env, p.id, p.req).Ok?
                             && (o.up || Index.PutChecks(env.sha, p.id, Prepare(env, p.id, p.req).value) != None)
                          then Index.PutInto(env.sha, s.index, p.id, Prepare(env, p.id, p.req).value, o.now).0
                              else s.index
  {}

  lemma AuditShape(env: Env, s: Stores, p: Process, o: Oracle)
    ensures var (t, p') := AuditRecord(env, s, p, o);
            t == s.(events := t.events) && p'.req == p.req && p'.id == p.id
                && (p'.written == p.written || p'.written == 4)
  {}

  /** A later process record for the same request, once the first two writes are done. */
  lemma LaterProcessFits(env: Env, texts: set<string>, s: Stores, t: Stores, p: Process, p': Process)
    requires Addressed(env, texts, s) && ProcessFits(env, texts, s, p) && p.result == None && 2 <= p.written
    requires t.files == s.files && t.pointers == s.pointers
    requires p'.req == p.req && p'.id == p.id && 2 <= p'.written <= 4
    ensures MoveFits(env, texts, s, t, p')
  {}

  lemma IndexMove(env: Env, texts: set<string>, s: Stores, p: Process, o: Oracle)
    requires Addressed(env, texts, s) && ProcessFits(env, texts, s, p) && p.result == None && p.written == 2
    ensures var (t, p') := IndexRecord(env, s, p, o); MoveFits(env, texts, s, t, p')
  {
    IndexShape(env, s, p, o);
    LaterProcessFits(env, texts, s, IndexRecord(env, s, p, o).0, p, IndexRecord(env, s, p, o).1);
  }

  lemma AuditMove(env: Env, texts: set<string>, s: Stores, p: Process, o: Oracle)
    requires Addressed(env, texts, s) && ProcessFits(env, texts, s, p) && p.result == None && p.written == 3
    ensures var (t, p') := AuditRecord(env, s, p, o); MoveFits(env, texts, s, t, p') && t.index == s.index
  {
    AuditShape(env, s, p, o);
    LaterProcessFits(env, texts, s, AuditRecord(env, s, p, o).0, p, AuditRecord(env, s, p, o).1);
  }

  /** Any move. */
  lemma AnyMove(env: Env, texts: set<string>, s: Stores, p: Process, o: Oracle)
    requires CollisionFree(env.sha, texts) && Addressed(env, texts, s) && ProcessFits(env, texts, s, p)
    ensures var (t, p') := Advance(env, s, p, o);
            MoveFits(env, texts, s, t, p') && (p.result.Some? || p.written != 2 ==> t.index == s.index)
  {
    if p.result == None {
      if p.written == 0 { FactsMove(env, texts, s, p, o); }
      else if p.written == 1 { PointerMove(env, texts, s, p, o); }
      else if p.written == 2 { IndexMove(env, texts, s, p, o); }
      else if p.written == 3 { AuditMove(env, texts, s, p, o); }
    }
  }

  lemma IndexWriteFits(env: Env, texts: set<string>, s: Stores, m: PlainMap, p: Process, o: Oracle)
    requires Configured(env) && CollisionFree(env.sha, texts) && IndexFits(env, texts, s, m)
    requires ProcessFits(env, texts, s, p)
    requires p.result == None && p.written == 2 && o.up && Prepare(env, p.id, p.req).Ok?
    ensures IndexFits(env, texts,
                      s.(index := Index.PutInto(env.sha, s.index, p.id, Prepare(env, p.id, p.req).value, o.now).0),
                      Offered(m, AttemptFor(p, o.now)))
  {
    PrepareMeaning(env, p.id, p.req);
    NormalizeIdempotent(p.req.agentId);
    PutIsOffer(env, texts, s, m, p, o.now);
  }

  lemma PlainAttempts(env: Env, attempts: seq<Attempt>, p: Process, o: Oracle)
    requires p.result == None && p.written == 2
    ensures Plain(attempts + AttemptsOf(env, p, o)) ==
            if o.up && env.parse(p.req.facts).Some? then Offered(Plain(attempts), AttemptFor(p, o.now))
                else Plain(attempts)
  {
    PlainSnoc(attempts, AttemptFor(p, o.now));
    assert attempts + [] == attempts;
  }

  /** The index write and the plain map's attempt go together. */
  lemma IndexMoveFits(env: Env, texts: set<string>, s: Stores, m: PlainMap, p: Process, o: Oracle)
    requires Configured(env) && CollisionFree(env.sha, texts) && IndexFits(env, texts, s, m)
    requires ProcessFits(env, texts, s, p)
    requires p.result == None && p.written == 2
    ensures IndexFits(env, texts, IndexRecord(env, s, p, o).0,
                      if o.up && env.parse(p.req.facts).Some? then Offered(m, AttemptFor(p, o.now)) else m)
  {
    IndexShape(env, s, p, o);
    PrepareMeaning(env, p.id, p.req);
    if o.up && env.parse(p.req.facts).Some? { IndexWriteFits(env, texts, s, m, p, o); }
  }

  lemma MoveSound(env: Env, texts: set<string>, s: State, q: nat, o: Oracle)
    requires Configured(env) && CollisionFree(env.sha, texts) && Sound(env, texts, s) && q in s.processes
    ensures Sound(env, texts, Moved(env, s, q, o)) && Grows(s.stores, Moved(env, s, q, o).stores)
  {
    var p := s.processes[q];
    assert ProcessFits(env, texts, s.stores, p);
    var (t, p') := Advance(env, s.stores, p, o);
    var attempts := s.attempts + AttemptsOf(env, p, o);
    AnyMove(env, texts, s.stores, p, o);
    if p.result == None && p.written == 2 {
      IndexMoveFits(env, texts, s.stores, Plain(s.attempts), p, o);
      PlainAttempts(env, s.attempts, p, o);
    } else {
      assert attempts == s.attempts;
      GrowthKeepsIndex(env, texts, s.stores, t, Plain(s.attempts));
    }
    MoveReferenced(env, texts, s, q, t, p', attempts);
  }

  lemma MoveReferenced(env: Env, texts: set<string>, s: State, q: nat, t: Stores, p: Process, attempts: seq<Attempt>)
    requires Referenced(env, texts, s) && MoveFits(env, texts, s.stores, t, p)
    ensures Referenced(env, texts, s.(stores := t, processes := s.processes[q := p], attempts := attempts))
  {
    forall r | r in s.processes ensures ProcessFits(env, texts, t, s.processes[r]) {
      GrowthKeepsProcess(env, texts, s.stores, t, s.processes[r]);
    }
  }

  /** Steps that touch neither facts, pointers nor index keep what depends on those. */
  ghost predicate SameReferences(s: State, t: State) {
    t.processes == s.processes && t.stores.files == s.stores.files && t.stores.pointers == s.stores.pointers
  }

  lemma SameReferenced(env: Env, texts: set<string>, s: State, t: State)
    requires Referenced(env, texts, s) && SameReferences(s, t)
    ensures Referenced(env, texts, t)
  {
    forall r | r in s.processes ensures ProcessFits(env, texts, t.stores, s.processes[r]) {
      GrowthKeepsProcess(env, texts, s.stores, t.stores, s.processes[r]);
    }
  }

  lemma SameSound(env: Env, texts: set<string>, s: State, t: State)
    requires Sound(env, texts, s) && SameReferences(s, t) && t.stores.index == s.stores.index
    requires t.attempts == s.attempts
    ensures Sound(env, texts, t)
  {
    SameReferenced(env, texts, s, t);
    GrowthKeepsIndex(env, texts, s.stores, t.stores, Plain(s.attempts));
  }

  /** Everything but registrations leaves what registrations rely on alone. */
  lemma OtherStepShape(env: Env, text: ErrorText, s: State, a: Action)
    requires a.WriteStatus? || a.LogStatus? || a.Resolve?
    ensures var t := Step(env, text, s, a);
            SameReferences(s, t) && t.stores.index == s.stores.index && t.attempts == s.attempts
  {
    StatusShape(env, s, a);
  }

  lemma StatusShape(env: Env, s: State, a: Action)
    ensures a.WriteStatus? ==>
              var s' := WroteStatus(s, a.u, a.w, a.taken);
              s' == s.(stores := s.stores.(revocations := s'.stores.revocations), updates := s'.updates)
    ensures a.LogStatus? && a.u in s.updates ==>
              var s' := LoggedStatus(env, s, a.u, a.o);
              s' == s.(stores := s.stores.(events := s'.stores.events), updates := s'.updates)
  {}

  lemma BeginReferenced(env: Env, texts: set<string>, s: State, q: nat, req: Registration.Request)
    requires Referenced(env, texts, s) && q !in s.processes && RequestTexts(env, req) <= texts
    ensures Referenced(env, texts, s.(processes := s.processes[q := Started(env, req)]))
  {}

  lemma {:induction false} RunSound(env: Env, text: ErrorText, actions: seq<Action>, texts: set<string>)
    requires Configured(env) && Texts(env, actions) <= texts && CollisionFree(env.sha, texts)
    ensures Sound(env, texts, Run(env, text, actions))
  {
    if actions != [] {
      var front, a := actions[..|actions| - 1], actions[|actions| - 1];
      RunSound(env, text, front, texts);
      StepSound(env, text, Run(env, text, front), a, texts);
    }
  }

  lemma StepSound(env: Env, text: ErrorText, s: State, a: Action, texts: set<string>)
    requires Configured(env) && CollisionFree(env.sha, texts) && Sound(env, texts, s)
    requires a.Begin? ==> RequestTexts(env, a.register) <= texts
    ensures Sound(env, texts, Step(env, text, s, a))
  {
    match a
    case Begin(q, req) => if q !in s.processes { BeginReferenced(env, texts, s, q, req); }
    case Move(q, o) => if q in s.processes { MoveSound(env, texts, s, q, o); }
    case _ =>
      OtherStepShape(env, text, s, a);
      SameSound(env, texts, s, Step(env, text, s, a));
  }

  // ----- referential integrity -----

  /** No record, current or archived, dangles. */
  ghost predicate Intact(env: Env, s: Stores) {
    && (forall h :: h in s.index.current ==> Backed(env, s, s.index.current[h]))
    && (forall i :: 0 <= i < |s.index.history| ==> Backed(env, s, s.index.history[i].row))
  }

  lemma NoPointerMove(env: Env, s: Stores, p: Process, o: Oracle)
    requires !env.pointerStore
    ensures Advance(env, s, p, o).0.pointers == s.pointers
  {
    if p.written == 2 { IndexShape(env, s, p, o); }
    if p.written == 3 { AuditShape(env, s, p, o); }
  }

  lemma NoPointerStep(env: Env, text: ErrorText, s: State, a: Action)
    requires !env.pointerStore
    ensures Step(env, text, s, a).stores.pointers == s.stores.pointers
  {
    if a.Move? && a.q in s.processes { NoPointerMove(env, s.stores, s.processes[a.q], a.o); }
  }

  lemma {:induction false} NoPointers(env: Env, text: ErrorText, actions: seq<Action>)
    requires !env.pointerStore
    ensures Run(env, text, actions).stores.pointers == map[]
  {
    if actions != [] {
      NoPointers(env, text, actions[..|actions| - 1]);
      NoPointerStep(env, text, Run(env, text, actions[..|actions| - 1]), actions[|actions| - 1]);
    }
  }

  lemma UnpointedIsNotBacked(env: Env, s: Stores, row: Index.Row)
    requires s.pointers == map[]
    ensures !Backed(env, s, row)
  {}

  lemma UnpointedDangles(env: Env, s: Stores)
    requires s.pointers == map[]
    ensures Intact(env, s) <==> s.index.current == map[] && s.index.history == []
  {
    if s.index.current != map[] {
      var h :| h in s.index.current;
      UnpointedIsNotBacked(env, s, s.index.current[h]);
    } else if s.index.history != [] {
      UnpointedIsNotBacked(env, s, s.index.history[0].row);
    }
  }

  lemma SoundIsIntact(env: Env, texts: set<string>, s: State)
    requires env.pointerStore && Sound(env, texts, s)
    ensures Intact(env, s.stores)
  {
    var v, t := LensOf(env, s.stores), s.stores.index;
    forall h | h in t.current ensures Backed(env, s.stores, t.current[h]) {
      CarriedIsBacked(env, s.stores, t.current[h], Plain(s.attempts)[t.current[h].agentId].facts);
    }
    forall i | 0 <= i < |t.history| ensures Backed(env, s.stores, t.history[i].row) {
      assert Carried(v, t.history[i].row);
      var facts :| v.carries(t.history[i].row, facts);
      CarriedIsBacked(env, s.stores, t.history[i].row, facts);
    }
  }

  /** At every point of every interleaving, wherever registrations stopped, no record dangles,
      unless two texts of the run collide or no pointer store is configured; without one, every
      record dangles. */
  lemma ReferentialIntegrity(env: Env, text: ErrorText, actions: seq<Action>)
    requires Configured(env) && CollisionFree(env.sha, Texts(env, actions))
    ensures var s := Run(env, text, actions).stores;
            Intact(env, s) <==> env.pointerStore || (s.index.current == map[] && s.index.history == [])
  {
    var s := Run(env, text, actions);
    if env.pointerStore {
      RunSound(env, text, actions, Texts(env, actions));
      SoundIsIntact(env, Texts(env, actions), s);
    } else {
      NoPointers(env, text, actions);
      UnpointedDangles(env, s.stores);
    }
  }

  // ----- resolving is looking up a plain map -----

  predicate IntegrityFailure(e: Resolver.ResolveError) {
    e.BadSignature? || e.IdHashMismatch? || e.PointerNotFound? || e.PointerHashMismatch? || e.FactsNotFound?
    || e.CredentialSetMismatch?
  }

  /** A row that carries facts is found, passes every check on the record, and leads to them. */
  lemma CarriedResolves(env: Env, s: Stores, hash: Hash128, facts: string)
    requires KeysMatch(env) && env.pointerStore && hash in s.index.current && s.index.current[hash].agentHash == hash
    requires Carries(env, s, s.index.current[hash], facts)
    ensures var loaded := Resolver.LoadRecord(env, s, Resolver.ALL_UP, hash);
            && loaded.Ok? && loaded.value.createdAt == s.index.current[hash].createdAt
                 && loaded.value.updatedAt == s.index.current[hash].updatedAt
            && Signs(env, loaded.value.record, s.index.current[hash], facts)
            && Resolver.LoadFacts(env, s, Resolver.ALL_UP, loaded.value.record.Payload()) == Ok(env.parse(facts).value)
  {
    StoredIsRead(env, s, facts);
  }

  /** The checks from freshness on, once record and facts are loaded. */
  lemma LoadedResolves(env: Env, s: Stores, req: Resolver.Request, id: string, m: PlainMap, now: Instant)
    requires NormalizeAgentID(req.agentId) == Ok(id) && id in m && env.parse(m[id].facts).Some?
    requires Resolver.LoadRecord(env, s, Resolver.ALL_UP, Truncated(env.sha, id)).Ok?
    requires var found := Resolver.LoadRecord(env, s, Resolver.ALL_UP, Truncated(env.sha, id)).value;
             var p := found.record.Payload();
             && found.createdAt == m[id].createdAt && found.updatedAt == m[id].updatedAt
             && p.ttlSeconds == m[id].ttlSeconds && p.sequence == m[id].sequence
             && p.credentialSet128 == CredentialSetHash(env.sha, env.parse(m[id].facts).value.credentials)
             && Resolver.LoadFacts(env, s, Resolver.ALL_UP, p) == Ok(env.parse(m[id].facts).value)
    ensures Resolver.ResolveHash(env, s, Resolver.ALL_UP, req, id, Truncated(env.sha, id), now) ==
            PlainOutcome(env, m, s.revocations, req, now)
  {
    JudgedPlainly(env, m, s.revocations, req, id, now);
  }

  /** The plain outcome for an agent with an entry. */
  lemma JudgedPlainly(env: Env, m: PlainMap, revocations: Revocation.Records, req: Resolver.Request, id: string,
      now: Instant)
    requires NormalizeAgentID(req.agentId) == Ok(id) && id in m && env.parse(m[id].facts).Some?
    ensures var facts := env.parse(m[id].facts).value;
            PlainOutcome(env, m, revocations, req, now) ==
            match Resolver.Freshness(m[id].createdAt, m[id].updatedAt, m[id].ttlSeconds, now)
            case None => Err(Resolver.Expired)
            case Some(freshness) =>
              Resolver.JudgeFacts(env, revocations, req, id, m[id].sequence, freshness,
                                  CredentialSetHash(env.sha, facts.credentials), facts, now)
  {}

  lemma RowResolves(env: Env, s: Stores, req: Resolver.Request, id: string, m: PlainMap, now: Instant)
    requires KeysMatch(env) && env.pointerStore && NormalizeAgentID(req.agentId) == Ok(id) && id in m
    requires var hash := Truncated(env.sha, id);
             hash in s.index.current && s.index.current[hash].agentHash == hash && s.index.current[hash].agentId == id
    requires var row := s.index.current[Truncated(env.sha, id)];
             && row.sequence == m[id].sequence && row.ttlSeconds == m[id].ttlSeconds && row.createdAt == m[id].createdAt
             && row.updatedAt == m[id].updatedAt && Carries(env, s, row, m[id].facts)
    ensures Resolver.ResolveHash(env, s, Resolver.ALL_UP, req, id, Truncated(env.sha, id), now) ==
            PlainOutcome(env, m, s.revocations, req, now)
  {
    CarriedResolves(env, s, Truncated(env.sha, id), m[id].facts);
    LoadedResolves(env, s, req, id, m, now);
  }

  lemma MissingResolves(env: Env, s: Stores, req: Resolver.Request, id: string, m: PlainMap, now: Instant)
    requires NormalizeAgentID(req.agentId) == Ok(id) && id !in m && Truncated(env.sha, id) !in s.index.current
    ensures Resolver.ResolveHash(env, s, Resolver.ALL_UP, req, id, Truncated(env.sha, id), now) ==
            PlainOutcome(env, m, s.revocations, req, now)
  {}

  /** Resolving a well-formed id starts at its hash. */
  lemma OutcomeAtHash(env: Env, s: Stores, req: Resolver.Request, id: string, now: Instant)
    requires NormalizeAgentID(req.agentId) == Ok(id)
    ensures Resolver.Outcome(env, s, Resolver.ALL_UP, req, now) ==
            Resolver.ResolveHash(env, s, Resolver.ALL_UP, req, id, Truncated(env.sha, id), now)
  {
    NormalizeIdempotent(req.agentId);
  }

  // ----- reads at different moments -----

  lemma StepGrows(env: Env, text: ErrorText, s: State, a: Action, texts: set<string>)
    requires Configured(env) && CollisionFree(env.sha, texts) && Sound(env, texts, s)
    ensures Grows(s.stores, Step(env, text, s, a).stores)
  {
    match a
    case Move(q, o) => if q in s.processes { MoveSound(env, texts, s, q, o); }
    case Begin(_, _) =>
    case _ => OtherStepShape(env, text, s, a);
  }

  lemma TextsTake(env: Env, actions: seq<Action>, i: nat)
    requires i <= |actions|
    ensures Texts(env, actions[..i]) <= Texts(env, actions)
    decreases |actions| - i
  {
    if i < |actions| {
      assert actions[..i + 1][..i] == actions[..i];
      TextsTake(env, actions, i + 1);
    } else {
      assert actions[..i] == actions;
    }
  }

  /** Facts and pointers only accumulate along a run. */
  lemma {:induction false} RunGrows(env: Env, text: ErrorText, actions: seq<Action>, texts: set<string>, i: nat, j: nat)
    requires Configured(env) && CollisionFree(env.sha, texts) && Texts(env, actions) <= texts && i <= j <= |actions|
    ensures Grows(Run(env, text, actions[..i]).stores, Run(env, text, actions[..j]).stores)
  {
    if i < j {
      RunGrows(env, text, actions, texts, i, j - 1);
      TextsTake(env, actions, j - 1);
      LastGrows(env, text, actions[..j - 1], actions[j - 1], texts);
      assert actions[..j - 1] + [actions[j - 1]] == actions[..j];
    }
  }

  lemma LastGrows(env: Env, text: ErrorText, actions: seq<Action>, a: Action, texts: set<string>)
    requires Configured(env) && CollisionFree(env.sha, texts) && Texts(env, actions) <= texts
    ensures Grows(Run(env, text, actions).stores, Run(env, text, actions + [a]).stores)
  {
    RunSound(env, text, actions, texts);
    StepGrows(env, text, Run(env, text, actions), a, texts);
    assert (actions + [a])[..|actions|] == actions;
  }

  /** The four moments at which a resolve reads index, pointer, document and statuses, as positions
      in a run; it reads them in this order. */
  datatype Moments = Moments(index: nat, pointer: nat, document: nat, statuses: nat)

  predicate InOrder(at: Moments, actions: seq<Action>) {
    at.index <= at.pointer <= at.document <= at.statuses <= |actions|
  }

  /** What such a resolve gets to see. */
  function ReadAcross(env: Env, text: ErrorText, actions: seq<Action>, at: Moments): Stores
    requires InOrder(at, actions)
  {
    Stores(Run(env, text, actions[..at.document]).stores.files, Run(env, text, actions[..at.pointer]).stores.pointers,
           Run(env, text, actions[..at.index]).stores.index, Run(env, text, actions[..at.statuses]).stores.revocations,
           [])
  }

  lemma SeenFits(env: Env, text: ErrorText, actions: seq<Action>, at: Moments, texts: set<string>)
    requires Configured(env) && CollisionFree(env.sha, texts) && Texts(env, actions) <= texts && InOrder(at, actions)
    ensures IndexFits(env, texts, ReadAcross(env, text, actions, at),
              Plain(Run(env, text, actions[..at.index]).attempts))
  {
    TextsTake(env, actions, at.index);
    RunSound(env, text, actions[..at.index], texts);
    RunGrows(env, text, actions, texts, at.index, at.pointer);
    RunGrows(env, text, actions, texts, at.index, at.document);
    var s := Run(env, text, actions[..at.index]);
    GrowthKeepsIndex(env, texts, s.stores, ReadAcross(env, text, actions, at), Plain(s.attempts));
  }

  lemma FittingResolves(env: Env, s: Stores, m: PlainMap, texts: set<string>, req: Resolver.Request, now: Instant)
    requires KeysMatch(env) && env.pointerStore && CollisionFree(env.sha, texts) && IdTexts(req.agentId) <= texts
    requires IndexFits(env, texts, s, m)
    ensures Resolver.Outcome(env, s, Resolver.ALL_UP, req, now) == PlainOutcome(env, m, s.revocations, req, now)
  {
    if NormalizeAgentID(req.agentId).Ok? {
      IdResolves(env, s, m, texts, req, NormalizeAgentID(req.agentId).value, now);
    }
  }

  lemma IdResolves(env: Env, s: Stores, m: PlainMap, texts: set<string>, req: Resolver.Request, id: string,
        now: Instant)
    requires KeysMatch(env) && env.pointerStore && CollisionFree(env.sha, texts) && id in texts
    requires IndexFits(env, texts, s, m)
    requires NormalizeAgentID(req.agentId) == Ok(id)
    ensures Resolver.Outcome(env, s, Resolver.ALL_UP, req, now) == PlainOutcome(env, m, s.revocations, req, now)
  {
    OutcomeAtHash(env, s, req, id, now);
    RowIsOwn(LensOf(env, s), texts, s.index, m, id);
    if id in m { RowResolves(env, s, req, id, m, now); } else { MissingResolves(env, s, req, id, m, now); }
  }

  /** In every run, whatever happens between its reads, resolving an agent gives exactly what the
      plain map gave when the index was read, under the statuses read last; or two texts of the run
      collide.  With matching keys no integrity check ever fails. */
  lemma ResolveIsPlainLookup(env: Env, text: ErrorText, actions: seq<Action>, at: Moments, req: Resolver.Request,
      now: Instant)
    requires KeysMatch(env) && env.pointerStore && CollisionFree(env.sha, Texts(env, actions) + IdTexts(req.agentId))
    requires InOrder(at, actions)
    ensures var seen := ReadAcross(env, text, actions, at);
            var r := Resolver.Outcome(env, seen, Resolver.ALL_UP, req, now);
            r == PlainOutcome(env, Plain(Run(env, text, actions[..at.index]).attempts), seen.revocations, req, now)
            && (r.Err? ==> !IntegrityFailure(r.error))
  {
    var texts := Texts(env, actions) + IdTexts(req.agentId);
    var m, seen := Plain(Run(env, text, actions[..at.index]).attempts), ReadAcross(env, text, actions, at);
    SeenFits(env, text, actions, at, texts);
    FittingResolves(env, seen, m, texts, req, now);
    PlainNeverFailsIntegrity(env, m, seen.revocations, req, now);
  }

  lemma TrustsRefuses(env: Env, revocations: Revocation.Records, req: Resolver.Request, id: string, facts: AgentFacts,
      now: Instant)
    ensures var r := Resolver.Trusts(env, revocations, req, id, facts, now); r.Some? ==> Resolver.IsTrustDenial(r.value)
  {}

  lemma PlainNeverFailsIntegrity(env: Env, m: PlainMap, revocations: Revocation.Records, req: Resolver.Request,
      now: Instant)
    ensures var r := PlainOutcome(env, m, revocations, req, now); r.Err? ==> !IntegrityFailure(r.error)
  {
    if NormalizeAgentID(req.agentId).Ok? {
      var id := NormalizeAgentID(req.agentId).value;
      if id in m && env.parse(m[id].facts).Some? {
        TrustsRefuses(env, revocations, req, id, env.parse(m[id].facts).value, now);
        ConcludeRefuses(req, id, m[id].sequence,
                        Resolver.Freshness(m[id].createdAt, m[id].updatedAt, m[id].ttlSeconds, now),
                        env.parse(m[id].facts).value.endpoints, now,
                        Resolver.Trusts(env, revocations, req, id, env.parse(m[id].facts).value, now));
      }
    }
  }

  lemma ConcludeRefuses(req: Resolver.Request, id: string, sequence: uint32, freshness: Option<int>,
      endpoints: seq<Endpoint>, now: Instant,
                        refused: Option<Resolver.ResolveError>)
    requires refused.Some? ==> Resolver.IsTrustDenial(refused.value)
    ensures freshness.Some? ==>
              var r := Resolver.Conclude(req, id, sequence, freshness.value, endpoints, now, true, refused); r.Err? ==>
                    !IntegrityFailure(r.error)
  {}
}
