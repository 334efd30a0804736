/** Registering and then resolving. */
module EndToEnd {
  import opened Prelude
  import opened Clock
  import opened AgentAddr
  import opened World
  import opened Registration
  import opened System
  import Index
  import Replay
  import Resolver
  import Revocation

  // ----- a registration that nothing interrupts -----

  /** The actions of one registration with nothing in between. */
  function Registering(q: nat, req: Registration.Request, o: Oracles): seq<Action> {
    [Begin(q, req), Move(q, o.facts), Move(q, o.pointer), Move(q, o.index), Move(q, o.audit)]
  }

  predicate AllTaken(o: Oracles) { o.facts.up && o.pointer.up && o.index.up && Replay.Recorded(o.audit) }

  /** How a list of actions leads to a state, one action leads on, and which states are sound. */
  datatype Machine = Machine(run: seq<Action> -> State, next: (State, Action) -> State, sound: State -> bool)

  ghost predicate Follows(env: Env, text: ErrorText, texts: set<string>, m: Machine) {
    && (forall actions, a :: m.run(actions + [a]) == m.next(m.run(actions), a))
    && (forall s, a {:trigger Step(env, text, s, a)} :: m.next(s, a) == Step(env, text, s, a))
    && (forall s {:trigger Sound(env, texts, s)} :: m.sound(s) <==> Sound(env, texts, s))
  }

  ghost function RunMachine(env: Env, text: ErrorText, texts: set<string>): Machine {
    Machine((actions: seq<Action>) => Run(env, text, actions), (s: State, a: Action) => Step(env, text, s, a),
          (s: State) => Sound(env, texts, s))
  }

  lemma RunFollows(env: Env, text: ErrorText, texts: set<string>)
    ensures Follows(env, text, texts, RunMachine(env, text, texts))
  {
    forall actions: seq<Action>, a
      ensures Run(env, text, actions + [a]) == Step(env, text, Run(env, text, actions), a)
    {
      assert (actions + [a])[..|actions|] == actions;
    }
  }

  lemma PutAccepts(sha: Sha, t: Index.Tables, o: Index.Offer)
    requires Index.WellFormed(t) && Index.PutChecks(sha, o.agentId, o.record) == None
    requires var key := o.record.Payload().agentIdHash; key in t.current ==>
               t.current[key].sequence < o.record.Payload().sequence
    ensures Index.PutInto(sha, t, o.agentId, o.record, o.now).1 == None
  {
    var key := o.record.Payload().agentIdHash;
    Index.PutDecides(sha, t, o);
    if key in t.current { Index.DecideCases(t.current[key], o.record); }
  }

  lemma AcceptedWrite(env: Env, s: Stores, p: Process, o: Oracle)
    requires Prepare(env, p.id, p.req).Ok? && o.up
    requires Index.PutInto(env.sha, s.index, p.id, Prepare(env, p.id, p.req).value, o.now).1 == None
    ensures IndexRecord(env, s, p, o).1 == p.(written := 3)
  {}

  /** What the current row says is below what the plain map is above. */
  lemma RowBelow(env: Env, texts: set<string>, s: Stores, m: PlainMap, id: string, sequence: uint32)
    requires IndexFits(env, texts, s, m) && TellsApart(LensOf(env, s).hashOf, texts) && id in texts
    requires id in m ==> m[id].sequence < sequence
    ensures var key := Truncated(env.sha, id); key in s.index.current ==> s.index.current[key].sequence < sequence
  {
    RowIsOwn(LensOf(env, s), texts, s.index, m, id);
  }

  lemma IdFits(env: Env, texts: set<string>, p: Process)
    requires Configured(env) && ValidateRequest(env, p.req) == Ok(p.id) && RequestTexts(env, p.req) <= texts
    ensures p.id in texts
  {
    NormalizeIdempotent(p.req.agentId);
  }

  /** An index write of a higher sequence is accepted. */
  lemma IndexAccepts(env: Env, texts: set<string>, s: Stores, m: PlainMap, p: Process, o: Oracle)
    requires Configured(env) && CollisionFree(env.sha, texts) && IndexFits(env, texts, s, m)
    requires ProcessFits(env, texts, s, p)
    requires p.result == None && p.written == 2 && o.up && env.parse(p.req.facts).Some?
    requires p.id in m ==> m[p.id].sequence < p.req.sequence
    ensures IndexRecord(env, s, p, o).1 == p.(written := 3)
  {
    IdFits(env, texts, p);
    PutRow(env, s, p, o.now);
    RowBelow(env, texts, s, m, p.id, p.req.sequence);
    PutAccepts(env.sha, s.index, Index.Offer(p.id, Prepare(env, p.id, p.req).value, o.now));
    AcceptedWrite(env, s, p, o);
  }

  /** `s` is where `actions` lead; there process `q` has written `written` stores and not ended. */
  ghost predicate At(m: Machine, actions: seq<Action>, s: State, q: nat, p: Process, written: nat) {
    && s == m.run(actions) && m.sound(s)
    && q in s.processes && s.processes[q] == p.(written := written) && p.result == None
  }

  lemma DoBegin(env: Env, text: ErrorText, m: Machine, texts: set<string>, actions: seq<Action>, q: nat,
      req: Registration.Request) returns (s': State)
    requires Follows(env, text, texts, m) && RequestTexts(env, req) <= texts && m.sound(m.run(actions))
    requires q !in m.run(actions).processes && ValidateRequest(env, req).Ok?
    ensures At(m, actions + [Begin(q, req)], s', q, Started(env, req), 0)
    ensures s'.attempts == m.run(actions).attempts && s'.stores.revocations == m.run(actions).stores.revocations
  {
    var s := m.run(actions);
    assert Sound(env, texts, s);
    BeginReferenced(env, texts, s, q, req);
    s' := Step(env, text, s, Begin(q, req));
    assert Sound(env, texts, s');
  }

  lemma DoMove(env: Env, text: ErrorText, m: Machine, texts: set<string>, actions: seq<Action>, s: State, q: nat,
      o: Oracle, p: Process, written: nat) returns (s': State)
    requires Follows(env, text, texts, m) && Configured(env) && CollisionFree(env.sha, texts)
    requires At(m, actions, s, q, p, written)
    ensures s' == Moved(env, s, q, o) && s' == m.run(actions + [Move(q, o)]) && m.sound(s')
  {
    assert Sound(env, texts, s);
    MoveSound(env, texts, s, q, o);
    s' := Step(env, text, s, Move(q, o));
    assert s' == Moved(env, s, q, o);
  }

  /** The first two writes. */
  lemma DoStore(env: Env, text: ErrorText, m: Machine, texts: set<string>, actions: seq<Action>, s: State, q: nat,
      o: Oracle, p: Process, written: nat) returns (s': State)
    requires Follows(env, text, texts, m) && Configured(env) && CollisionFree(env.sha, texts)
    requires At(m, actions, s, q, p, written) && written < 2 && o.up
    ensures At(m, actions + [Move(q, o)], s', q, p, written + 1)
    ensures s'.attempts == s.attempts && s'.stores.revocations == s.stores.revocations
  {
    s' := DoMove(env, text, m, texts, actions, s, q, o, p, written);
  }

  lemma DoIndex(env: Env, text: ErrorText, m: Machine, texts: set<string>, actions: seq<Action>, s: State, q: nat,
      o: Oracle, p: Process) returns (s': State)
    requires Follows(env, text, texts, m) && Configured(env) && CollisionFree(env.sha, texts)
    requires At(m, actions, s, q, p, 2) && o.up
    requires env.parse(p.req.facts).Some?
    requires (p.id in Plain(s.attempts) ==> Plain(s.attempts)[p.id].sequence < p.req.sequence)
    ensures At(m, actions + [Move(q, o)], s', q, p, 3) && s'.stores.revocations == s.stores.revocations
    ensures Plain(s'.attempts) == Offered(Plain(s.attempts), AttemptFor(p, o.now))
  {
    s' := DoMove(env, text, m, texts, actions, s, q, o, p, 2);
    assert Sound(env, texts, s);
    IndexAccepts(env, texts, s.stores, Plain(s.attempts), s.processes[q], o);
    IndexShape(env, s.stores, s.processes[q], o);
    PlainAttempts(env, s.attempts, s.processes[q], o);
  }

  lemma DoAudit(env: Env, text: ErrorText, m: Machine, texts: set<string>, actions: seq<Action>, s: State, q: nat,
      o: Oracle, p: Process) returns (s': State)
    requires Follows(env, text, texts, m) && Configured(env) && CollisionFree(env.sha, texts)
    requires At(m, actions, s, q, p, 3) && Replay.Recorded(o)
    requires ValidateRequest(env, p.req) == Ok(p.id) && env.parse(p.req.facts).Some?
    ensures s' == m.run(actions + [Move(q, o)]) && Plain(s'.attempts) == Plain(s.attempts)
    ensures q in s'.processes && s'.processes[q].result.Some? && s'.processes[q].result.value.Ok?
    ensures s'.stores.revocations == s.stores.revocations
  {
    s' := DoMove(env, text, m, texts, actions, s, q, o, p, 3);
    assert s.attempts + AttemptsOf(env, s.processes[q], o) == s.attempts;
    Replay.AuditStage(env, s.stores, s.processes[q], o);
  }

  lemma Succeeds(env: Env, text: ErrorText, m: Machine, texts: set<string>, actions: seq<Action>, q: nat,
      req: Registration.Request, o: Oracles, id: string)
    requires Follows(env, text, texts, m) && Configured(env) && CollisionFree(env.sha, texts)
    requires RequestTexts(env, req) <= texts && m.sound(m.run(actions))
    requires q !in m.run(actions).processes && ValidateRequest(env, req) == Ok(id) && env.parse(req.facts).Some?
    requires AllTaken(o)
    requires id in Plain(m.run(actions).attempts) ==> Plain(m.run(actions).attempts)[id].sequence < req.sequence
    ensures var s, s' := m.run(actions), m.run(actions + Registering(q, req, o));
            && q in s'.processes && s'.processes[q].result.Some? && s'.processes[q].result.value.Ok?
            && Plain(s'.attempts) == Offered(Plain(s.attempts),
                   Attempt(id, req.sequence, req.ttlSeconds, req.facts, o.index.now))
            && s'.stores.revocations == s.stores.revocations
  {
    var p, a3 := Started(env, req), actions + [Begin(q, req), Move(q, o.facts), Move(q, o.pointer)];
    var s3 := DoStores(env, text, m, texts, actions, q, req, o);
    RegisteringJoins(actions, q, req, o);
    var s5 := DoFinish(env, text, m, texts, a3, s3, q, o, p);
  }

  lemma RegisteringJoins(actions: seq<Action>, q: nat, req: Registration.Request, o: Oracles)
    ensures actions + [Begin(q, req), Move(q, o.facts), Move(q, o.pointer)] + [Move(q, o.index), Move(q, o.audit)] ==
            actions + Registering(q, req, o)
  {}

  lemma DoStores(env: Env, text: ErrorText, m: Machine, texts: set<string>, actions: seq<Action>, q: nat,
      req: Registration.Request, o: Oracles) returns (s': State)
    requires Follows(env, text, texts, m) && Configured(env) && CollisionFree(env.sha, texts)
    requires RequestTexts(env, req) <= texts && m.sound(m.run(actions))
    requires q !in m.run(actions).processes && ValidateRequest(env, req).Ok? && o.facts.up && o.pointer.up
    ensures At(m, actions + [Begin(q, req), Move(q, o.facts), Move(q, o.pointer)], s', q, Started(env, req), 2)
    ensures s'.attempts == m.run(actions).attempts && s'.stores.revocations == m.run(actions).stores.revocations
  {
    var p, a1 := Started(env, req), actions + [Begin(q, req)];
    var s1 := DoBegin(env, text, m, texts, actions, q, req);
    var s2 := DoStore(env, text, m, texts, a1, s1, q, o.facts, p, 0);
    s' := DoStore(env, text, m, texts, a1 + [Move(q, o.facts)], s2, q, o.pointer, p, 1);
    assert a1 + [Move(q, o.facts)] + [Move(q, o.pointer)] ==
           actions + [Begin(q, req), Move(q, o.facts), Move(q, o.pointer)];
  }

  lemma DoFinish(env: Env, text: ErrorText, m: Machine, texts: set<string>, actions: seq<Action>, s: State, q: nat,
      o: Oracles, p: Process) returns (s': State)
    requires Follows(env, text, texts, m) && Configured(env) && CollisionFree(env.sha, texts)
    requires At(m, actions, s, q, p, 2)
    requires ValidateRequest(env, p.req) == Ok(p.id) && env.parse(p.req.facts).Some? && o.index.up
    requires Replay.Recorded(o.audit)
    requires p.id in Plain(s.attempts) ==> Plain(s.attempts)[p.id].sequence < p.req.sequence
    ensures s' == m.run(actions + [Move(q, o.index), Move(q, o.audit)])
    ensures q in s'.processes && s'.processes[q].result.Some? && s'.processes[q].result.value.Ok?
    ensures Plain(s'.attempts) == Offered(Plain(s.attempts), AttemptFor(p, o.index.now))
    ensures s'.stores.revocations == s.stores.revocations
  {
    var s4 := DoIndex(env, text, m, texts, actions, s, q, o.index, p);
    s' := DoAudit(env, text, m, texts, actions + [Move(q, o.index)], s4, q, o.audit, p);
    assert actions + [Move(q, o.index)] + [Move(q, o.audit)] == actions + [Move(q, o.index), Move(q, o.audit)];
  }

  /** After any run, a valid registration of a higher sequence that all stores take succeeds, and
      from then on its agent resolves to exactly that registration. */
  lemma RegisterThenResolve(env: Env, text: ErrorText, actions: seq<Action>, q: nat, req: Registration.Request,
        o: Oracles,
                            resolve: Resolver.Request, now: Instant)
    requires KeysMatch(env) && env.pointerStore && q !in Run(env, text, actions).processes && AllTaken(o)
    requires CollisionFree(env.sha, Texts(env, actions) + RequestTexts(env, req))
    requires ValidateRequest(env, req).Ok? && env.parse(req.facts).Some?
    requires NormalizeAgentID(resolve.agentId) == NormalizeAgentID(req.agentId)
    requires var m, id := Plain(Run(env, text, actions).attempts), NormalizeAgentID(req.agentId).value;
             id in m ==> m[id].sequence < req.sequence
    ensures var s, s' := Run(env, text, actions), Run(env, text, actions + Registering(q, req, o));
            var m, id := Plain(s.attempts), NormalizeAgentID(req.agentId).value;
            var created := if id in m then m[id].createdAt else o.index.now;
            && q in s'.processes && s'.processes[q].result.Some? && s'.processes[q].result.value.Ok?
            && Resolver.Outcome(env, s'.stores, Resolver.ALL_UP, resolve, now) ==
               PlainOutcome(env, map[id := Entry(req.sequence, req.ttlSeconds, req.facts, created, o.index.now)],
                     s.stores.revocations, resolve, now)
  {
    var texts := Texts(env, actions) + RequestTexts(env, req);
    var id := NormalizeAgentID(req.agentId).value;
    var all := actions + Registering(q, req, o);
    RunSucceeds(env, text, texts, actions, q, req, o, id);
    RegisteringTexts(env, actions, q, req, o);
    assert Texts(env, all) + IdTexts(resolve.agentId) <= texts;
    AtTheEnd(env, text, all, resolve, now);
    SameEntry(env, Plain(Run(env, text, all).attempts),
              map[id := Plain(Run(env, text, all).attempts)[id]], Run(env, text, actions).stores.revocations, resolve,
                    now);
  }

  lemma RunSucceeds(env: Env, text: ErrorText, texts: set<string>, actions: seq<Action>, q: nat,
      req: Registration.Request, o: Oracles, id: string)
    requires Configured(env) && CollisionFree(env.sha, texts) && Texts(env, actions) + RequestTexts(env, req) <= texts
    requires q !in Run(env, text, actions).processes && ValidateRequest(env, req) == Ok(id)
    requires env.parse(req.facts).Some? && AllTaken(o)
    requires var m := Plain(Run(env, text, actions).attempts); id in m ==> m[id].sequence < req.sequence
    ensures var s, s' := Run(env, text, actions), Run(env, text, actions + Registering(q, req, o));
            && q in s'.processes && s'.processes[q].result.Some? && s'.processes[q].result.value.Ok?
            && Plain(s'.attempts) == Offered(Plain(s.attempts),
                   Attempt(id, req.sequence, req.ttlSeconds, req.facts, o.index.now))
            && s'.stores.revocations == s.stores.revocations
  {
    var m := RunMachine(env, text, texts);
    RunFollows(env, text, texts);
    RunSound(env, text, actions, texts);
    assert m.run(actions) == Run(env, text, actions);
    Succeeds(env, text, m, texts, actions, q, req, o, id);
    assert m.run(actions + Registering(q, req, o)) == Run(env, text, actions + Registering(q, req, o));
  }

  /** All reads at the end of a run. */
  lemma AtTheEnd(env: Env, text: ErrorText, actions: seq<Action>, req: Resolver.Request, now: Instant)
    requires KeysMatch(env) && env.pointerStore && CollisionFree(env.sha, Texts(env, actions) + IdTexts(req.agentId))
    ensures var s := Run(env, text, actions);
            Resolver.Outcome(env, s.stores, Resolver.ALL_UP, req, now) ==
            PlainOutcome(env, Plain(s.attempts), s.stores.revocations, req, now)
  {
    var texts := Texts(env, actions) + IdTexts(req.agentId);
    RunSound(env, text, actions, texts);
    FittingResolves(env, Run(env, text, actions).stores, Plain(Run(env, text, actions).attempts), texts, req, now);
  }

  lemma RegisteringTexts(env: Env, actions: seq<Action>, q: nat, req: Registration.Request, o: Oracles)
    ensures Texts(env, actions + Registering(q, req, o)) == Texts(env, actions) + RequestTexts(env, req)
  {
    var a1 := actions + [Begin(q, req)];
    var a2 := a1 + [Move(q, o.facts)];
    var a3 := a2 + [Move(q, o.pointer)];
    var a4 := a3 + [Move(q, o.index)];
    TextsSnoc(env, actions, Begin(q, req));
    TextsSnoc(env, a1, Move(q, o.facts));
    TextsSnoc(env, a2, Move(q, o.pointer));
    TextsSnoc(env, a3, Move(q, o.index));
    TextsSnoc(env, a4, Move(q, o.audit));
    assert a4 + [Move(q, o.audit)] == actions + Registering(q, req, o);
  }

  lemma TextsSnoc(env: Env, actions: seq<Action>, a: Action)
    ensures Texts(env, actions + [a]) == Texts(env, actions) + (if a.Begin? then RequestTexts(env, a.register) else {})
  {
    assert (actions + [a])[..|actions|] == actions;
  }

  /** Only the requested agent's entry matters. */
  lemma SameEntry(env: Env, m: PlainMap, n: PlainMap, revocations: Revocation.Records, req: Resolver.Request,
        now: Instant)
    requires NormalizeAgentID(req.agentId).Ok? && NormalizeAgentID(req.agentId).value in m
    requires NormalizeAgentID(req.agentId).value in n
    requires m[NormalizeAgentID(req.agentId).value] == n[NormalizeAgentID(req.agentId).value]
    ensures PlainOutcome(env, m, revocations, req, now) == PlainOutcome(env, n, revocations, req, now)
  {}
}
