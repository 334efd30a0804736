/** What the audit log alone tells: the chain, the credential statuses, and each agent's sequence. */
module Replay {
  import opened Prelude
  import opened Text
  import opened Json
  import opened CanonicalJson
  import opened Audit
  import opened HashChain
  import opened Revocation
  import opened World
  import opened Registration
  import opened System
  import Admin
  import Clock
  import AgentAddr
  import Index
  import Resolver

  // ----- the chain -----

  ghost predicate ReportsInput(e: Event, input: EventInput) {
    && e.eventType == input.eventType && e.agentHash == input.agentHash
    && DocumentOf(e.eventJson) == DocumentOf(input.eventJson)
  }

  /** The log grew by nothing, or by one event of a type in `types`, and its chain still holds. */
  ghost predicate Logs(sha: Sha, before: seq<Event>, after: seq<Event>, types: set<string>) {
    && (after == before || (before < after && |after| == |before| + 1 && after[|before|].eventType in types))
    && (ChainValid(sha, Links(before)) ==> ChainValid(sha, Links(after)))
  }

  /** Whether an append leaves its event behind. */
  predicate Recorded(o: Oracle) { o.up && o.eventId.Some? }

  lemma AppendLogs(env: Env, events: seq<Event>, input: EventInput, o: Oracle)
    requires ValidateInput(input) == None && input.eventJson.Doc?
    ensures Appended(env, events, input, o).Ok? <==> Recorded(o)
    ensures Recorded(o) ==>
              var e := Appended(env, events, input, o).value;
              ReportsInput(e, input) && Logs(env.sha, events, events + [e], {input.eventType})
  {
    AppendedMeaning(env, events, input, o);
  }

  lemma ResponseLogs(env: Env, s: Stores, p: Process, resp: Registration.Response, hash: Hash128, o: Oracle)
    ensures var t := AuditResponse(env, s, p, resp, hash, o).0;
            t == s.(events := t.events) && Logs(env.sha, s.events, t.events, {EVENT_AGENT_REGISTERED})
  {
    AppendLogs(env, s.events, RegisteredInput(env, p.req, resp, hash), o);
  }

  lemma AuditLogs(env: Env, s: Stores, p: Process, o: Oracle)
    ensures var t := AuditRecord(env, s, p, o).0;
            t == s.(events := t.events) && Logs(env.sha, s.events, t.events, {EVENT_AGENT_REGISTERED})
  {
    if Prepare(env, p.id, p.req).Ok? && AgentAddr.AgentIDHash(env.sha, p.id).Ok? {
      ResponseLogs(env, s, p, ResponseOf(env, p.id, p.req, Prepare(env, p.id, p.req).value),
            AgentAddr.AgentIDHash(env.sha, p.id).value, o);
    }
  }

  lemma MoveLogs(env: Env, s: Stores, p: Process, o: Oracle)
    ensures var t := Advance(env, s, p, o).0;
            t.revocations == s.revocations && Logs(env.sha, s.events, t.events, {EVENT_AGENT_REGISTERED})
  {
    if p.written == 2 { IndexShape(env, s, p, o); }
    if p.written == 3 { AuditLogs(env, s, p, o); }
  }

  lemma StatusLogs(env: Env, s: Stores, w: Write, o: Oracle)
    ensures Logs(env.sha, s.events, Admin.StatusLogged(env, s, w, o).0.events, {EVENT_REVOCATION_UPDATED})
  {
    AppendLogs(env, s.events, Admin.StatusInput(w), o);
  }

  lemma ResolveLogs(env: Env, text: ErrorText, events: seq<Event>, req: Resolver.Request,
                    outcome: Result<Resolver.Response, Resolver.ResolveError>, o: Oracle)
    ensures Logs(env.sha, events, Resolver.Audited(env, text, events, req, outcome, o).0,
                 {EVENT_RESOLVE_ALLOWED, EVENT_RESOLVE_DENIED, EVENT_TRUST_DENIED})
  {
    AppendLogs(env, events, Resolver.Report(env, text, req, outcome), o);
  }

  function EventTypes(a: Action): set<string> {
    match a
    case Begin(_, _) => {}
    case Move(_, _) => {EVENT_AGENT_REGISTERED}
    case WriteStatus(_, _, _) => {}
    case LogStatus(_, _) => {EVENT_REVOCATION_UPDATED}
    case Resolve(_, _, _) => {EVENT_RESOLVE_ALLOWED, EVENT_RESOLVE_DENIED, EVENT_TRUST_DENIED}
  }

  /** Every step adds at most one event, of its own kind, and keeps the chain. */
  lemma StepLogs(env: Env, text: ErrorText, s: State, a: Action)
    ensures Logs(env.sha, s.stores.events, Step(env, text, s, a).stores.events, EventTypes(a))
  {
    match a
    case Begin(_, _) =>
    case Move(q, o) => if q in s.processes { MoveLogs(env, s.stores, s.processes[q], o); }
    case WriteStatus(_, _, _) =>
    case LogStatus(u, o) => if u in s.updates { StatusLogs(env, s.stores, s.updates[u].w, o); }
    case Resolve(req, outcome, o) => ResolveLogs(env, text, s.stores.events, req, outcome, o);
  }

  /** The audit log verifies at every point of every interleaving of all services. */
  lemma {:induction false} LogVerifies(env: Env, text: ErrorText, actions: seq<Action>)
    ensures ChainValid(env.sha, Links(Run(env, text, actions).stores.events))
  {
    if actions != [] {
      LogVerifies(env, text, actions[..|actions| - 1]);
      StepLogs(env, text, Run(env, text, actions[..|actions| - 1]), actions[|actions| - 1]);
    }
  }

  // ----- reading an event -----

  function FieldsOf(v: Value): map<string, Value> { if v.VObj? then v.fields else map[] }

  function TextAt(fields: map<string, Value>, key: string): string {
    if key in fields && fields[key].VStr? then fields[key].s else ""
  }

  function DocumentFields(e: Event): map<string, Value> {
    match DocumentOf(e.eventJson) case None => map[] case Some(v) => FieldsOf(v)
  }

  lemma FieldAt(members: seq<Member>, i: nat)
    requires i < |members| && forall k :: i < k < |members| ==> members[k].key != members[i].key
    ensures members[i].key in DecodeMembers(members)
    ensures DecodeMembers(members)[members[i].key] == Decode(members[i].value)
  {
    DecodeMembersLookup(members, members[i].key);
    assert HasKey(members, members[i].key);
  }

  lemma NoField(members: seq<Member>, key: string)
    requires forall k :: 0 <= k < |members| ==> members[k].key != key
    ensures key !in DecodeMembers(members)
  {
    DecodeMembersLookup(members, key);
  }

  // ----- credential statuses -----

  datatype Status = Status(status: string, reason: string)

  /** The update an event reports, if it reports one. */
  function UpdateOf(e: Event): Option<(Key, Status)> {
    if e.eventType != EVENT_REVOCATION_UPDATED then None
    else
      var f := DocumentFields(e);
      Some((Key(TextAt(f, "issuer"), TextAt(f, "credentialId")), Status(TextAt(f, "status"), TextAt(f, "reason"))))
  }

  /** The statuses the log tells of, oldest event first. */
  function Replayed(events: seq<Event>): map<Key, Status> {
    if events == [] then map[]
    else
      var front := Replayed(events[..|events| - 1]);
      match UpdateOf(events[|events| - 1]) case None => front case Some(u) => front[u.0 := u.1]
  }

  /** The status table without its times. */
  function Statuses(records: Records): map<Key, Status> {
    map k | k in records :: Status(records[k].status, records[k].reason)
  }

  lemma StatusDocumentReads(w: Write)
    ensures var f := FieldsOf(Decode(Admin.StatusDocument(w)));
            TextAt(f, "issuer") == w.key.issuer && TextAt(f, "credentialId") == w.key.credentialId
            && TextAt(f, "status") == w.status && TextAt(f, "reason") == w.reason
  {
    var members := Admin.StatusDocument(w).members;
    StatusMembers(w);
    FieldAt(members, 0);
    FieldAt(members, 1);
    FieldAt(members, 2);
    if w.reason == "" { NoField(members, "reason"); } else { FieldAt(members, 3); }
  }

  lemma StatusMembers(w: Write)
    ensures var m := Admin.StatusDocument(w).members;
            && 3 <= |m| <= 4 && (|m| == 3 <==> w.reason == "")
            && m[0] == Member("issuer", Str(w.key.issuer)) && m[1] == Member("credentialId", Str(w.key.credentialId))
            && m[2] == Member("status", Str(w.status)) && (|m| == 4 ==> m[3] == Member("reason", Str(w.reason)))
  {}

  lemma UpdateReported(e: Event, w: Write)
    requires ReportsInput(e, Admin.StatusInput(w))
    ensures UpdateOf(e) == Some((w.key, Status(w.status, w.reason)))
  {
    StatusDocumentReads(w);
  }

  lemma ReplayedSnoc(events: seq<Event>, e: Event)
    ensures Replayed(events + [e]) ==
            match UpdateOf(e) case None => Replayed(events) case Some(u) => Replayed(events)[u.0 := u.1]
  {
    assert (events + [e])[..|events|] == events;
  }

  lemma StatusWritten(env: Env, s: Stores, w: Write, o: Oracle)
    requires Recorded(o) && ValidateWrite(w.key, w.status) == None
    ensures var t := Admin.StatusSet(env, s, w, true, o).0;
            && t.revocations == Applied(s.revocations, w)
            && Replayed(t.events) == Replayed(s.events)[w.key := Status(w.status, w.reason)]
  {
    AppendLogs(env, s.events, Admin.StatusInput(w), o);
    var e := Appended(env, s.events, Admin.StatusInput(w), o).value;
    UpdateReported(e, w);
    ReplayedSnoc(s.events, e);
  }

  lemma StatusUnrecorded(env: Env, s: Stores, w: Write, taken: bool, o: Oracle)
    requires !Recorded(o)
    ensures Admin.StatusSet(env, s, w, taken, o).0.events == s.events
  {
    AppendLogs(env, s.events, Admin.StatusInput(w), o);
  }

  lemma StatusesApplied(records: Records, w: Write)
    requires ValidateWrite(w.key, w.status) == None
    ensures Statuses(Applied(records, w)) == Statuses(records)[w.key := Status(w.status, w.reason)]
  {}

  lemma StatusRefused(env: Env, s: Stores, w: Write, taken: bool, o: Oracle)
    requires !taken || ValidateWrite(w.key, w.status) != None
    ensures Admin.StatusSet(env, s, w, taken, o).0 == s
  {}

  lemma StatusAgrees(env: Env, s: Stores, w: Write, taken: bool, o: Oracle)
    requires Replayed(s.events) == Statuses(s.revocations) && Recorded(o)
    ensures var t := Admin.StatusSet(env, s, w, taken, o).0; Replayed(t.events) == Statuses(t.revocations)
  {
    if ValidateWrite(w.key, w.status) == None && taken {
      StatusWritten(env, s, w, o);
      StatusesApplied(s.revocations, w);
    } else {
      StatusRefused(env, s, w, taken, o);
    }
  }

  /** While log and table agree, a status update keeps them agreeing exactly when its event was
      recorded, or the write changed neither status nor reason (or was not taken at all). */
  lemma StatusStepAgrees(env: Env, s: Stores, w: Write, taken: bool, o: Oracle)
    requires Replayed(s.events) == Statuses(s.revocations)
    ensures var t := Admin.StatusSet(env, s, w, taken, o).0;
            Replayed(t.events) == Statuses(t.revocations) <==>
                  Recorded(o) || Statuses(t.revocations) == Statuses(s.revocations)
  {
    if Recorded(o) {
      StatusAgrees(env, s, w, taken, o);
    } else {
      StatusUnrecorded(env, s, w, taken, o);
    }
  }

  lemma LogsKeepsReplayed(sha: Sha, before: seq<Event>, after: seq<Event>, types: set<string>)
    requires Logs(sha, before, after, types) && EVENT_REVOCATION_UPDATED !in types
    ensures Replayed(after) == Replayed(before)
  {
    if after != before {
      assert after == before + [after[|before|]];
      ReplayedSnoc(before, after[|before|]);
    }
  }

  // ----- status updates that overlap -----

  function Said(w: Write): Status { Status(w.status, w.reason) }

  /** The action writes the table: its id is new, the store takes it, and it is valid. */
  predicate Writes(s: State, a: Action) {
    a.WriteStatus? && a.u !in s.updates && a.taken && ValidateWrite(a.w.key, a.w.status) == None
  }

  /** The action leaves an event in the log. */
  predicate Records(s: State, a: Action) {
    a.LogStatus? && a.u in s.updates && s.updates[a.u].phase == Unlogged && Recorded(a.o)
  }

  type Last = map<Key, nat>

  function NextWritten(s: State, a: Action, last: Last): Last { if Writes(s, a) then last[a.w.key := a.u] else last }

  function NextLogged(s: State, a: Action, last: Last): Last { if Records(s, a) then last[s.updates[a.u].w.key := a.u]
      else last }

  /** For each credential, the update that wrote the table last. */
  function LastWritten(env: Env, text: ErrorText, actions: seq<Action>): Last {
    if actions == [] then map[]
    else
      var front, a := actions[..|actions| - 1], actions[|actions| - 1];
      NextWritten(Run(env, text, front), a, LastWritten(env, text, front))
  }

  /** And the update whose event was added to the log last. */
  function LastLogged(env: Env, text: ErrorText, actions: seq<Action>): Last {
    if actions == [] then map[]
    else
      var front, a := actions[..|actions| - 1], actions[|actions| - 1];
      NextLogged(Run(env, text, front), a, LastLogged(env, text, front))
  }

  /** Table and log say what the last updates to reach them said. */
  ghost predicate TableTraced(s: State, written: Last) {
    && written.Keys == s.stores.revocations.Keys
    && (forall k :: k in written ==>
          && written[k] in s.updates && s.updates[written[k]].w.key == k
          && Statuses(s.stores.revocations)[k] == Said(s.updates[written[k]].w))
    && (forall u :: u in s.updates ==> s.updates[u].w.key in s.stores.revocations)
  }

  ghost predicate LogTraced(s: State, logged: Last) {
    && logged.Keys == Replayed(s.stores.events).Keys
    && (forall k :: k in logged ==>
          && logged[k] in s.updates && s.updates[logged[k]].w.key == k && s.updates[logged[k]].phase == Logged
          && Replayed(s.stores.events)[k] == Said(s.updates[logged[k]].w))
  }

  lemma WriteShape(s: State, u: nat, w: Write, taken: bool)
    ensures WroteStatus(s, u, w, taken) ==
            if taken && ValidateWrite(w.key, w.status) == None
            then s.(stores := s.stores.(revocations := Applied(s.stores.revocations, w)),
                  updates := s.updates[u := Update(w, Unlogged)])
            else s
  {}

  /** The event recorded for update `u`, if it was. */
  lemma LogShape(env: Env, s: State, u: nat, o: Oracle)
    requires u in s.updates
    ensures var s', w := LoggedStatus(env, s, u, o), s.updates[u].w;
            && s' == s.(stores := s.stores.(events := s'.stores.events),
                        updates := s.updates[u := Update(w, if Recorded(o) then Logged else Lost)])
            && Replayed(s'.stores.events) == if Recorded(o) then Replayed(s.stores.events)[w.key := Said(w)]
                 else Replayed(s.stores.events)
  {
    var w := s.updates[u].w;
    AppendLogs(env, s.stores.events, Admin.StatusInput(w), o);
    if Recorded(o) {
      var e := Appended(env, s.stores.events, Admin.StatusInput(w), o).value;
      UpdateReported(e, w);
      ReplayedSnoc(s.stores.events, e);
    }
  }

  /** Steps that are not part of a status update touch neither table nor what the log tells of it. */
  lemma OtherStepsKeepStatuses(env: Env, text: ErrorText, s: State, a: Action)
    requires !a.WriteStatus? && !a.LogStatus?
    ensures var s' := Step(env, text, s, a);
            && s'.stores.revocations == s.stores.revocations && s'.updates == s.updates
            && Replayed(s'.stores.events) == Replayed(s.stores.events)
  {
    StepLogs(env, text, s, a);
    LogsKeepsReplayed(env.sha, s.stores.events, Step(env, text, s, a).stores.events, EventTypes(a));
    if a.Move? && a.q in s.processes { MoveLogs(env, s.stores, s.processes[a.q], a.o); }
  }

  /** What a step does to the table, the updates, and what the log tells of the table. */
  ghost predicate StatusEffect(s: State, a: Action, s': State) {
    && s'.stores.revocations == (if Writes(s, a) then Applied(s.stores.revocations, a.w) else s.stores.revocations)
    && Replayed(s'.stores.events) ==
       (if Records(s, a) then Replayed(s.stores.events)[s.updates[a.u].w.key := Said(s.updates[a.u].w)]
           else Replayed(s.stores.events))
    && s'.updates ==
       if Writes(s, a) then s.updates[a.u := Update(a.w, Unlogged)]
       else if a.LogStatus? && a.u in s.updates && s.updates[a.u].phase == Unlogged
       then s.updates[a.u := Update(s.updates[a.u].w, if Recorded(a.o) then Logged else Lost)]
       else s.updates
  }

  lemma StepStatusEffect(env: Env, text: ErrorText, s: State, a: Action)
    ensures StatusEffect(s, a, Step(env, text, s, a))
  {
    match a
    case WriteStatus(u, w, taken) => if u !in s.updates { WriteShape(s, u, w, taken); }
    case LogStatus(u, o) => if u in s.updates { LogShape(env, s, u, o); }
    case _ => OtherStepsKeepStatuses(env, text, s, a);
  }

  lemma EffectTracesTable(s: State, a: Action, s': State, written: Last)
    requires TableTraced(s, written) && StatusEffect(s, a, s')
    ensures TableTraced(s', NextWritten(s, a, written))
  {
    if Writes(s, a) { WriteTraces(s, a, s', written); } else { SilenceTraces(s, a, s', written); }
  }

  lemma WriteTraces(s: State, a: Action, s': State, written: Last)
    requires TableTraced(s, written) && StatusEffect(s, a, s') && Writes(s, a)
    ensures TableTraced(s', written[a.w.key := a.u])
  {
    StatusesApplied(s.stores.revocations, a.w);
    WriteTraced(s, s', a.u, a.w, written);
  }

  lemma WriteTraced(s: State, s': State, u: nat, w: Write, written: Last)
    requires TableTraced(s, written) && u !in s.updates && s'.updates == s.updates[u := Update(w, Unlogged)]
    requires Statuses(s'.stores.revocations) == Statuses(s.stores.revocations)[w.key := Said(w)]
    ensures TableTraced(s', written[w.key := u])
  {
    assert s'.stores.revocations.Keys == Statuses(s'.stores.revocations).Keys;
    assert s.stores.revocations.Keys == Statuses(s.stores.revocations).Keys;
  }

  lemma SilenceTraces(s: State, a: Action, s': State, written: Last)
    requires TableTraced(s, written) && StatusEffect(s, a, s') && !Writes(s, a)
    ensures TableTraced(s', written)
  {}

  lemma EffectTracesLog(s: State, a: Action, s': State, logged: Last)
    requires LogTraced(s, logged) && StatusEffect(s, a, s')
    ensures LogTraced(s', NextLogged(s, a, logged))
  {}

  lemma {:induction false} RunTraced(env: Env, text: ErrorText, actions: seq<Action>)
    ensures TableTraced(Run(env, text, actions), LastWritten(env, text, actions))
    ensures LogTraced(Run(env, text, actions), LastLogged(env, text, actions))
  {
    if actions != [] {
      var front, a := actions[..|actions| - 1], actions[|actions| - 1];
      RunTraced(env, text, front);
      StepStatusEffect(env, text, Run(env, text, front), a);
      EffectTracesTable(Run(env, text, front), a, Run(env, text, actions), LastWritten(env, text, front));
      EffectTracesLog(Run(env, text, front), a, Run(env, text, actions), LastLogged(env, text, front));
    }
  }

  /** The log tells what the table holds for one credential. */
  predicate AgreesAt(s: Stores, k: Key) {
    var log, table := Replayed(s.events), Statuses(s.revocations);
    (k in log <==> k in table) && (k in table ==> log[k] == table[k])
  }

  /** At every point of every interleaving the log tells the status of a credential exactly when
      the update that wrote it last and the update logged last for it said the same. */
  lemma StatusReplayExactly(env: Env, text: ErrorText, actions: seq<Action>, k: Key)
    ensures var s, written, logged := Run(env, text, actions), LastWritten(env, text, actions),
              LastLogged(env, text, actions);
            && (k in written ==> written[k] in s.updates) && (k in logged ==> k in written && logged[k] in s.updates)
            && (AgreesAt(s.stores, k) <==>
                  (k in written ==> k in logged && Said(s.updates[written[k]].w) == Said(s.updates[logged[k]].w)))
  {
    RunTraced(env, text, actions);
    TracedAgrees(Run(env, text, actions), LastWritten(env, text, actions), LastLogged(env, text, actions), k);
  }

  lemma TracedAgrees(s: State, written: Last, logged: Last, k: Key)
    requires TableTraced(s, written) && LogTraced(s, logged)
    ensures && (k in written ==> written[k] in s.updates) && (k in logged ==> k in written && logged[k] in s.updates)
            && (AgreesAt(s.stores, k) <==>
                  (k in written ==> k in logged && Said(s.updates[written[k]].w) == Said(s.updates[logged[k]].w)))
  {
    if k in logged { assert s.updates[logged[k]].w.key in s.stores.revocations; }
  }

  /** No update of `k` wrote the table between the table write and the log write of another. */
  ghost predicate NoOverlap(env: Env, text: ErrorText, actions: seq<Action>, k: Key) {
    actions != [] ==>
      var front, a := actions[..|actions| - 1], actions[|actions| - 1];
      var s, written := Run(env, text, front), LastWritten(env, text, front);
      && NoOverlap(env, text, front, k)
      && (Records(s, a) && s.updates[a.u].w.key == k ==> k in written && written[k] == a.u)
  }

  /** Once the last writer of `k` is logged, it is the last one logged. */
  ghost predicate Met(s: State, written: Last, logged: Last, k: Key) {
    k in written && written[k] in s.updates && s.updates[written[k]].phase == Logged ==>
          k in logged && logged[k] == written[k]
  }

  lemma StepMet(s: State, a: Action, s': State, written: Last, logged: Last, k: Key)
    requires TableTraced(s, written) && StatusEffect(s, a, s') && Met(s, written, logged, k)
    requires Records(s, a) && s.updates[a.u].w.key == k ==> k in written && written[k] == a.u
    ensures Met(s', NextWritten(s, a, written), NextLogged(s, a, logged), k)
  {
    if Writes(s, a) { WriteMet(s, a, s', written, logged, k); }
  }

  lemma WriteMet(s: State, a: Action, s': State, written: Last, logged: Last, k: Key)
    requires TableTraced(s, written) && StatusEffect(s, a, s') && Met(s, written, logged, k) && Writes(s, a)
    ensures Met(s', written[a.w.key := a.u], logged, k)
  {}

  lemma {:induction false} RunMet(env: Env, text: ErrorText, actions: seq<Action>, k: Key)
    requires NoOverlap(env, text, actions, k)
    ensures Met(Run(env, text, actions), LastWritten(env, text, actions), LastLogged(env, text, actions), k)
  {
    if actions != [] {
      var front, a := actions[..|actions| - 1], actions[|actions| - 1];
      RunMet(env, text, front, k);
      RunTraced(env, text, front);
      StepStatusEffect(env, text, Run(env, text, front), a);
      StepMet(Run(env, text, front), a, Run(env, text, actions), LastWritten(env, text, front),
            LastLogged(env, text, front), k);
    }
  }

  /** The log tells the status of every credential whose updates did not overlap and whose last
      update is no longer between table and log, whatever registrations, resolves and updates of
      other credentials ran in between. */
  lemma StatusReplay(env: Env, text: ErrorText, actions: seq<Action>, k: Key)
    requires NoOverlap(env, text, actions, k)
    requires var s, written := Run(env, text, actions), LastWritten(env, text, actions);
             k in written && written[k] in s.updates ==> s.updates[written[k]].phase == Logged
    ensures AgreesAt(Run(env, text, actions).stores, k)
  {
    RunMet(env, text, actions, k);
    StatusReplayExactly(env, text, actions, k);
  }

  /** So where that holds of every credential, replaying the log rebuilds the whole table. */
  lemma TableReplay(env: Env, text: ErrorText, actions: seq<Action>)
    requires forall k :: NoOverlap(env, text, actions, k)
    requires var s, written := Run(env, text, actions), LastWritten(env, text, actions);
             forall k :: k in written && written[k] in s.updates ==> s.updates[written[k]].phase == Logged
    ensures var s := Run(env, text, actions).stores; Replayed(s.events) == Statuses(s.revocations)
  {
    forall k ensures AgreesAt(Run(env, text, actions).stores, k) { StatusReplay(env, text, actions, k); }
    AgreementIsEquality(Run(env, text, actions).stores);
  }

  lemma AgreementIsEquality(s: Stores)
    requires forall k :: AgreesAt(s, k)
    ensures Replayed(s.events) == Statuses(s.revocations)
  {
    var log, table := Replayed(s.events), Statuses(s.revocations);
    forall k ensures (k in log <==> k in table) && (k in table ==> log[k] == table[k]) { assert AgreesAt(s, k); }
  }

  /** Two updates of one credential that overlap can be logged in the other order, and then the log
      tells the status that was overwritten: it happens from every state. */
  lemma CrossedUpdates(env: Env, text: ErrorText, s: State, u: nat, v: nat, first: Write, second: Write, o: Oracle)
    requires u != v && u !in s.updates && v !in s.updates && first.key == second.key && Recorded(o)
    requires ValidateWrite(first.key, first.status) == None && ValidateWrite(second.key, second.status) == None
    ensures var s1 := Step(env, text, s, WriteStatus(u, first, true));
            var s2 := Step(env, text, s1, WriteStatus(v, second, true));
            var s3 := Step(env, text, s2, LogStatus(v, o));
            var s4 := Step(env, text, s3, LogStatus(u, o));
            var k := first.key;
            && k in Statuses(s4.stores.revocations) && Statuses(s4.stores.revocations)[k] == Said(second)
            && k in Replayed(s4.stores.events) && Replayed(s4.stores.events)[k] == Said(first)
            && (AgreesAt(s4.stores, k) <==> Said(first) == Said(second))
  {
    var s1 := Step(env, text, s, WriteStatus(u, first, true));
    StepStatusEffect(env, text, s, WriteStatus(u, first, true));
    var s2 := Step(env, text, s1, WriteStatus(v, second, true));
    StepStatusEffect(env, text, s1, WriteStatus(v, second, true));
    var s3 := Step(env, text, s2, LogStatus(v, o));
    StepStatusEffect(env, text, s2, LogStatus(v, o));
    StepStatusEffect(env, text, s3, LogStatus(u, o));
    StatusesApplied(s1.stores.revocations, second);
  }

  // ----- sequences -----

  /** The sequence an event announces. */
  function SequenceIn(e: Event): nat {
    var f := DocumentFields(e);
    var result := if "result" in f then FieldsOf(f["result"]) else map[];
    if "sequence" in result && result["sequence"].VNum? then ParseDecimal(result["sequence"].text) else 0
  }

  predicate Announces(e: Event, h: Hash128) { e.eventType == EVENT_AGENT_REGISTERED && e.agentHash == Hex(h) }

  /** The greatest sequence the log announces for an agent. */
  function Announced(events: seq<Event>, h: Hash128): Option<nat> {
    if events == [] then None
    else
      var front, last := Announced(events[..|events| - 1], h), events[|events| - 1];
      if !Announces(last, h) || (front.Some? && front.value >= SequenceIn(last)) then front else Some(SequenceIn(last))
  }

  function SequenceAt(t: Index.Tables, h: Hash128): Option<nat> {
    if h in t.current then Some(t.current[h].sequence as nat) else None
  }

  predicate AtMost(a: Option<nat>, b: Option<nat>) { a.Some? ==> b.Some? && a.value <= b.value }

  lemma RegisteredDocumentReads(req: Registration.Request, resp: Registration.Response, e: Event)
    requires DocumentOf(e.eventJson) == DocumentOf(Doc(RegisteredDocument(req, resp)))
    ensures SequenceIn(e) == resp.sequence as nat
  {
    var members := RegisteredDocument(req, resp).members;
    FieldAt(members, 1);
    FieldAt(members[1].value.members, 4);
    DecimalRoundTrip(resp.sequence as nat);
  }

  lemma AnnouncedSnoc(events: seq<Event>, e: Event, h: Hash128)
    ensures Announced(events + [e], h) ==
            if !Announces(e, h) || (Announced(events, h).Some? && Announced(events, h).value >= SequenceIn(e))
                then Announced(events, h)
            else Some(SequenceIn(e))
  {
    assert (events + [e])[..|events|] == events;
  }

  lemma LogsKeepsAnnounced(sha: Sha, before: seq<Event>, after: seq<Event>, types: set<string>, h: Hash128)
    requires Logs(sha, before, after, types) && EVENT_AGENT_REGISTERED !in types
    ensures Announced(after, h) == Announced(before, h)
  {
    if after != before {
      assert after == before + [after[|before|]];
      AnnouncedSnoc(before, after[|before|], h);
    }
  }

  // ----- the index is never behind the log -----

  function KeyOf(env: Env, p: Process): Hash128 { Truncated(env.sha, p.id) }

  /** A process that has written the index but not its event. */
  predicate Unannounced(p: Process) { p.written == 3 }

  predicate PendingBy(env: Env, s: State, h: Hash128, q: nat) {
    && q in s.processes && Unannounced(s.processes[q]) && KeyOf(env, s.processes[q]) == h
    && SequenceAt(s.stores.index, h) == Some(s.processes[q].req.sequence as nat)
  }

  ghost predicate Pending(env: Env, s: State, h: Hash128) { exists q :: PendingBy(env, s, h, q) }

  ghost predicate Live(env: Env, t: Index.Tables, p: Process) {
    && (p.result == None || p.written > 0 ==> ValidateRequest(env, p.req) == Ok(p.id))
    && p.written <= 4
    && (p.written >= 3 ==>
          env.parse(p.req.facts).Some? && AtMost(Some(p.req.sequence as nat), SequenceAt(t, KeyOf(env, p))))
  }

  ghost predicate Tracks(env: Env, s: State, h: Hash128) {
    && AtMost(Announced(s.stores.events, h), SequenceAt(s.stores.index, h))
    && (Announced(s.stores.events, h) == SequenceAt(s.stores.index, h) || Pending(env, s, h))
  }

  ghost predicate Tracked(env: Env, s: State) {
    && Index.WellFormed(s.stores.index)
    && (forall q :: q in s.processes ==> Live(env, s.stores.index, s.processes[q]))
    && (forall h: Hash128 :: Tracks(env, s, h))
  }

  /** Either a row of higher sequence was written, or nothing was. */
  ghost predicate Raised(t: Index.Tables, t': Index.Tables, key: Hash128, sequence: nat, done: bool) {
    if key in t.current ==> t.current[key].sequence as nat < sequence
    then done && key in t'.current && t'.current[key].sequence as nat == sequence
         && forall h :: h != key ==> Index.Lookup(t', h) == Index.Lookup(t, h)
    else t' == t && (done ==> t.current[key].sequence as nat == sequence)
  }

  lemma ReplacedRaises(t: Index.Tables, key: Hash128, row: Index.Row, now: Clock.Instant)
    requires key in t.current ==> t.current[key].sequence < row.sequence
    ensures Raised(t, Index.Replaced(t, key, row, now), key, row.sequence as nat, true)
  {}

  lemma PutRaises(sha: Sha, t: Index.Tables, o: Index.Offer)
    requires Index.WellFormed(t) && Index.PutChecks(sha, o.agentId, o.record) == None
    ensures var (t', err) := Index.PutInto(sha, t, o.agentId, o.record, o.now);
            Raised(t, t', o.record.Payload().agentIdHash, o.record.Payload().sequence as nat, err == None)
  {
    var key := o.record.Payload().agentIdHash;
    var current := Index.Lookup(t, key);
    Index.PutDecides(sha, t, o);
    if key in t.current { Index.DecideCases(t.current[key], o.record); }
    if Index.Decide(current, o.record) == Index.Replace {
      ReplacedRaises(t, key, Index.UpsertOf(current, o.agentId, o.record, o.now), o.now);
    }
  }

  lemma RaisedSequences(t: Index.Tables, t': Index.Tables, key: Hash128, sequence: nat, done: bool, h: Hash128)
    requires Raised(t, t', key, sequence, done)
    ensures if done then SequenceAt(t', key) == Some(sequence) else t' == t
    ensures h != key ==> SequenceAt(t', h) == SequenceAt(t, h)
    ensures AtMost(SequenceAt(t, h), SequenceAt(t', h))
  {
    assert h != key ==> Index.Lookup(t', h) == Index.Lookup(t, h);
  }

  /** What an index write by `p` does to one agent's sequence. */
  ghost predicate IndexEffect(env: Env, s: Stores, t: Stores, p: Process, p': Process, h: Hash128) {
    && t == s.(index := t.index) && p'.req == p.req && p'.id == p.id
    && (if p'.written == 3
        then env.parse(p.req.facts).Some? && SequenceAt(t.index, KeyOf(env, p)) == Some(p.req.sequence as nat)
        else p'.written == 2 && t == s)
    && (h != KeyOf(env, p) ==> SequenceAt(t.index, h) == SequenceAt(s.index, h))
    && AtMost(SequenceAt(s.index, h), SequenceAt(t.index, h))
  }

  /** A successful index write leaves the request's sequence current and lowers nothing; a
      failed one changes nothing. */
  lemma IndexStage(env: Env, s: Stores, p: Process, o: Oracle, h: Hash128)
    requires Configured(env) && Index.WellFormed(s.index) && ValidateRequest(env, p.req) == Ok(p.id)
    requires p.result == None && p.written == 2
    ensures var (t, p') := IndexRecord(env, s, p, o); Index.WellFormed(t.index) && IndexEffect(env, s, t, p, p', h)
  {
    PrepareMeaning(env, p.id, p.req);
    IndexShape(env, s, p, o);
    if env.parse(p.req.facts).Some? {
      var record := Prepare(env, p.id, p.req).value;
      var (t', err) := Index.PutInto(env.sha, s.index, p.id, record, o.now);
      PutRaises(env.sha, s.index, Index.Offer(p.id, record, o.now));
      Index.PutKeepsWellFormed(env.sha, s.index, p.id, record, o.now);
      RaisedSequences(s.index, t', KeyOf(env, p), p.req.sequence as nat, err == None, h);
    }
  }

  /** What writing its event does to the log and to `p`. */
  ghost predicate AuditEffect(env: Env, s: Stores, t: Stores, p: Process, p': Process, announced: bool) {
    && t == s.(events := t.events) && p'.req == p.req && p'.id == p.id
    && (if announced
        then p'.written == 4 && |t.events| == |s.events| + 1 && t.events == s.events + [t.events[|s.events|]]
             && Announces(t.events[|s.events|], KeyOf(env, p))
             && SequenceIn(t.events[|s.events|]) == p.req.sequence as nat
        else t == s && p'.written == 3)
  }

  lemma AuditStage(env: Env, s: Stores, p: Process, o: Oracle)
    requires Configured(env) && ValidateRequest(env, p.req) == Ok(p.id) && env.parse(p.req.facts).Some?
    requires p.result == None && p.written == 3
    ensures Prepare(env, p.id, p.req).Ok?
    ensures var (t, p') := AuditRecord(env, s, p, o);
            && AuditEffect(env, s, t, p, p', env.auditStore && Recorded(o))
            && ((env.auditStore ==> Recorded(o)) ==>
                   p'.result == Some(Ok(ResponseOf(env, p.id, p.req, Prepare(env, p.id, p.req).value))))
  {
    PrepareMeaning(env, p.id, p.req);
    AgentAddr.NormalizeIdempotent(p.req.agentId);
    var resp := ResponseOf(env, p.id, p.req, Prepare(env, p.id, p.req).value);
    var input := RegisteredInput(env, p.req, resp, KeyOf(env, p));
    AppendLogs(env, s.events, input, o);
    if Recorded(o) {
      RegisteredDocumentReads(p.req, resp, Appended(env, s.events, input, o).value);
    }
  }

  lemma LiveStays(env: Env, s: Index.Tables, t: Index.Tables, p: Process)
    requires Live(env, s, p) && AtMost(SequenceAt(s, KeyOf(env, p)), SequenceAt(t, KeyOf(env, p)))
    ensures Live(env, t, p)
  {}

  /** What holds of one agent's sequence after process `q` moved, when it held before. */
  lemma OthersStayPending(env: Env, s: State, s': State, q: nat, h: Hash128)
    requires Pending(env, s, h) && SequenceAt(s'.stores.index, h) == SequenceAt(s.stores.index, h)
    requires forall r :: r in s.processes && r != q ==> r in s'.processes && s'.processes[r] == s.processes[r]
    ensures Pending(env, s', h) || PendingBy(env, s, h, q)
  {
    var r :| PendingBy(env, s, h, r);
    if r != q { assert PendingBy(env, s', h, r); }
  }

  /** `q` moved without touching index or log, and without becoming announced or unannounced. */
  lemma QuietMove(env: Env, s: State, s': State, q: nat, h: Hash128)
    requires Tracks(env, s, h) && q in s.processes && q in s'.processes
    requires forall r :: r in s.processes && r != q ==> r in s'.processes && s'.processes[r] == s.processes[r]
    requires s'.stores.index == s.stores.index && s'.stores.events == s.stores.events
    requires s'.processes[q].req == s.processes[q].req && s'.processes[q].id == s.processes[q].id
    requires Unannounced(s.processes[q]) == Unannounced(s'.processes[q])
    ensures Tracks(env, s', h)
  {
    if Pending(env, s, h) {
      OthersStayPending(env, s, s', q, h);
      assert PendingBy(env, s, h, q) ==> PendingBy(env, s', h, q);
    }
  }

  /** `q` wrote the index: it is now unannounced, at the front of its agent. */
  lemma WrittenMove(env: Env, s: State, s': State, q: nat, h: Hash128)
    requires Tracks(env, s, h) && q in s.processes && q in s'.processes && !Unannounced(s.processes[q])
    requires Unannounced(s'.processes[q])
    requires forall r :: r in s.processes && r != q ==> r in s'.processes && s'.processes[r] == s.processes[r]
    requires s'.stores.events == s.stores.events
    requires AtMost(SequenceAt(s.stores.index, h), SequenceAt(s'.stores.index, h))
    requires if h == KeyOf(env, s'.processes[q])
             then SequenceAt(s'.stores.index, h) == Some(s'.processes[q].req.sequence as nat)
             else SequenceAt(s'.stores.index, h) == SequenceAt(s.stores.index, h)
    ensures Tracks(env, s', h)
  {
    if h == KeyOf(env, s'.processes[q]) {
      assert PendingBy(env, s', h, q);
    } else if Pending(env, s, h) {
      OthersStayPending(env, s, s', q, h);
    }
  }

  lemma AnnouncesOne(e: Event, g: Hash128, h: Hash128)
    requires Announces(e, g) && Announces(e, h)
    ensures g == h
  {
    HexInjective(g, h);
  }

  /** `q` announced what it wrote. */
  lemma AnnouncedMove(env: Env, s: State, s': State, q: nat, h: Hash128, e: Event)
    requires Tracks(env, s, h) && q in s.processes && Unannounced(s.processes[q])
    requires forall r :: r in s.processes && r != q ==> r in s'.processes && s'.processes[r] == s.processes[r]
    requires s'.stores.index == s.stores.index && s'.stores.events == s.stores.events + [e]
    requires Announces(e, KeyOf(env, s.processes[q])) && SequenceIn(e) == s.processes[q].req.sequence as nat
    requires AtMost(Some(SequenceIn(e)), SequenceAt(s.stores.index, KeyOf(env, s.processes[q])))
    ensures Tracks(env, s', h)
  {
    AnnouncedSnoc(s.stores.events, e, h);
    if Announces(e, h) { AnnouncesOne(e, h, KeyOf(env, s.processes[q])); }
    if Pending(env, s, h) {
      OthersStayPending(env, s, s', q, h);
    }
  }

  lemma MoveTracked(env: Env, s: State, q: nat, o: Oracle)
    requires Configured(env) && Tracked(env, s) && q in s.processes
    ensures Tracked(env, Moved(env, s, q, o))
  {
    var p := s.processes[q];
    var s' := Moved(env, s, q, o);
    assert Live(env, s.stores.index, p);
    if p.result == None && p.written == 2 {
      IndexMoveTracked(env, s, q, o);
    } else if p.result == None && p.written == 3 {
      AuditMoveTracked(env, s, q, o);
    } else {
      forall h: Hash128 ensures Tracks(env, s', h) { assert Tracks(env, s, h); QuietMove(env, s, s', q, h); }
    }
  }

  lemma IndexMoveTracks(env: Env, s: State, s': State, q: nat, h: Hash128)
    requires q in s.processes && s.processes[q].written == 2 && Tracks(env, s, h) && q in s'.processes
    requires s'.processes == s.processes[q := s'.processes[q]]
    requires IndexEffect(env, s.stores, s'.stores, s.processes[q], s'.processes[q], h)
    ensures Tracks(env, s', h)
  {
    if s'.processes[q].written == 3 { WrittenMove(env, s, s', q, h); } else { QuietMove(env, s, s', q, h); }
  }

  lemma IndexMoveLive(env: Env, s: State, s': State, q: nat, r: nat)
    requires q in s.processes && s.processes[q].written == 2 && Live(env, s.stores.index, s.processes[q])
    requires q in s'.processes
    requires s'.processes == s.processes[q := s'.processes[q]] && r in s'.processes
    requires IndexEffect(env, s.stores, s'.stores, s.processes[q], s'.processes[q], KeyOf(env, s'.processes[r]))
    requires r in s.processes && Live(env, s.stores.index, s.processes[r])
    ensures Live(env, s'.stores.index, s'.processes[r])
  {
    if r != q { LiveStays(env, s.stores.index, s'.stores.index, s.processes[r]); }
  }

  lemma IndexMoveTracked(env: Env, s: State, q: nat, o: Oracle)
    requires Configured(env) && Tracked(env, s) && q in s.processes && s.processes[q].result == None
    requires s.processes[q].written == 2
    ensures Tracked(env, Moved(env, s, q, o))
  {
    var p, s' := s.processes[q], Moved(env, s, q, o);
    assert Live(env, s.stores.index, p);
    var (t, p') := IndexRecord(env, s.stores, p, o);
    IndexStage(env, s.stores, p, o, KeyOf(env, p));
    IndexEffectTracked(env, s, q, t, p', s'.attempts) by {
      forall h: Hash128 ensures IndexEffect(env, s.stores, t, p, p', h) { IndexStage(env, s.stores, p, o, h); }
    }
  }

  lemma IndexEffectTracked(env: Env, s: State, q: nat, t: Stores, p: Process, attempts: seq<Attempt>)
    requires Tracked(env, s) && q in s.processes && s.processes[q].written == 2 && s.processes[q].result == None
    requires Index.WellFormed(t.index) && forall h: Hash128 :: IndexEffect(env, s.stores, t, s.processes[q], p, h)
    ensures Tracked(env, s.(stores := t, processes := s.processes[q := p], attempts := attempts))
  {
    var s' := s.(stores := t, processes := s.processes[q := p], attempts := attempts);
    assert IndexEffect(env, s.stores, t, s.processes[q], p, KeyOf(env, p));
    forall h: Hash128 ensures Tracks(env, s', h) {
      assert Tracks(env, s, h) && IndexEffect(env, s.stores, t, s.processes[q], p, h);
      IndexMoveTracks(env, s, s', q, h);
    }
    forall r | r in s'.processes ensures Live(env, t.index, s'.processes[r]) {
      assert IndexEffect(env, s.stores, t, s.processes[q], p, KeyOf(env, s'.processes[r]));
      IndexMoveLive(env, s, s', q, r);
    }
  }

  /** One process moved: every other is as it was. */
  ghost predicate OneMoved(s: State, s': State, q: nat) {
    && q in s.processes && s'.processes.Keys == s.processes.Keys
    && forall r :: r in s.processes && r != q ==> s'.processes[r] == s.processes[r]
  }

  lemma MovedTracked(env: Env, s: State, s': State, q: nat)
    requires Tracked(env, s) && OneMoved(s, s', q) && s'.stores.index == s.stores.index
    requires Live(env, s'.stores.index, s'.processes[q]) && forall h: Hash128 :: Tracks(env, s', h)
    ensures Tracked(env, s')
  {}

  lemma LiveOn(env: Env, t: Index.Tables, p: Process, p': Process)
    requires Live(env, t, p) && p.written == 3 && p'.req == p.req && p'.id == p.id && 3 <= p'.written <= 4
    ensures Live(env, t, p')
  {}

  lemma AuditAdvance(env: Env, s: Stores, p: Process, o: Oracle)
    requires p.result == None && p.written == 3
    ensures Advance(env, s, p, o) == AuditRecord(env, s, p, o)
  {}

  lemma AuditMoveTracked(env: Env, s: State, q: nat, o: Oracle)
    requires Configured(env) && Tracked(env, s) && q in s.processes && s.processes[q].result == None
    requires s.processes[q].written == 3
    ensures Tracked(env, Moved(env, s, q, o))
  {
    var p := s.processes[q];
    var (t, p') := AuditRecord(env, s.stores, p, o);
    assert Live(env, s.stores.index, p);
    AuditAdvance(env, s.stores, p, o);
    AuditStage(env, s.stores, p, o);
    AuditMovedTracked(env, s, Moved(env, s, q, o), q, t, p', env.auditStore && Recorded(o));
  }

  lemma AuditMovedTracked(env: Env, s: State, s': State, q: nat, t: Stores, p: Process, announced: bool)
    requires Tracked(env, s) && q in s.processes && s.processes[q].written == 3
    requires s'.stores == t && s'.processes == s.processes[q := p]
    requires AuditEffect(env, s.stores, t, s.processes[q], p, announced)
    ensures Tracked(env, s')
  {
    assert OneMoved(s, s', q);
    AuditEffectTracked(env, s, s', q, announced);
  }

  lemma AuditEffectTracked(env: Env, s: State, s': State, q: nat, announced: bool)
    requires Tracked(env, s) && OneMoved(s, s', q) && s.processes[q].written == 3
    requires AuditEffect(env, s.stores, s'.stores, s.processes[q], s'.processes[q], announced)
    ensures Tracked(env, s')
  {
    assert Live(env, s.stores.index, s.processes[q]);
    LiveOn(env, s.stores.index, s.processes[q], s'.processes[q]);
    forall h: Hash128 ensures Tracks(env, s', h) {
      assert Tracks(env, s, h);
      AuditEffectTracks(env, s, s', q, announced, h);
    }
    MovedTracked(env, s, s', q);
  }

  lemma AuditEffectTracks(env: Env, s: State, s': State, q: nat, announced: bool, h: Hash128)
    requires Tracks(env, s, h) && OneMoved(s, s', q) && s.processes[q].written == 3
    requires Live(env, s.stores.index, s.processes[q])
    requires AuditEffect(env, s.stores, s'.stores, s.processes[q], s'.processes[q], announced)
    ensures Tracks(env, s', h)
  {
    if announced {
      AnnouncedMove(env, s, s', q, h, s'.stores.events[|s.stores.events|]);
    } else {
      QuietMove(env, s, s', q, h);
    }
  }

  /** Steps that change neither index nor processes, and announce nothing. */
  lemma SilentTracked(env: Env, s: State, s': State, types: set<string>)
    requires Tracked(env, s) && s'.stores.index == s.stores.index && s'.processes == s.processes
    requires Logs(env.sha, s.stores.events, s'.stores.events, types) && EVENT_AGENT_REGISTERED !in types
    ensures Tracked(env, s')
  {
    forall h: Hash128 ensures Tracks(env, s', h) {
      assert Tracks(env, s, h);
      LogsKeepsAnnounced(env.sha, s.stores.events, s'.stores.events, types, h);
      if Pending(env, s, h) {
        var q :| PendingBy(env, s, h, q);
        assert PendingBy(env, s', h, q);
      }
    }
  }

  lemma OtherStepTracked(env: Env, text: ErrorText, s: State, a: Action)
    requires Tracked(env, s) && (a.WriteStatus? || a.LogStatus? || a.Resolve?)
    ensures Tracked(env, Step(env, text, s, a))
  {
    StepLogs(env, text, s, a);
    SilentTracked(env, s, Step(env, text, s, a), EventTypes(a));
  }

  lemma BeginTracked(env: Env, s: State, q: nat, req: Registration.Request)
    requires Tracked(env, s) && q !in s.processes
    ensures Tracked(env, s.(processes := s.processes[q := Started(env, req)]))
  {
    var s' := s.(processes := s.processes[q := Started(env, req)]);
    forall h: Hash128 ensures Tracks(env, s', h) {
      assert Tracks(env, s, h);
      if Pending(env, s, h) { OthersStayPending(env, s, s', q, h); }
    }
  }

  lemma {:induction false} RunTracked(env: Env, text: ErrorText, actions: seq<Action>)
    requires Configured(env)
    ensures Tracked(env, Run(env, text, actions))
  {
    if actions != [] {
      var front, a := actions[..|actions| - 1], actions[|actions| - 1];
      RunTracked(env, text, front);
      var s := Run(env, text, front);
      match a
      case Begin(q, req) => if q !in s.processes { BeginTracked(env, s, q, req); }
      case Move(q, o) => if q in s.processes { MoveTracked(env, s, q, o); }
      case _ => OtherStepTracked(env, text, s, a);
    }
  }

  /** At every point of every interleaving, the greatest sequence the log announces for an agent
      is never ahead of the index, and equals it unless a registration with the current sequence
      has written the index and not its event; so whenever every index write was followed by its
      event, the log tells the current sequence of every agent. */
  lemma SequenceReplay(env: Env, text: ErrorText, actions: seq<Action>, h: Hash128)
    requires Configured(env)
    ensures var s := Run(env, text, actions);
            && AtMost(Announced(s.stores.events, h), SequenceAt(s.stores.index, h))
            && (Announced(s.stores.events, h) == SequenceAt(s.stores.index, h) || Pending(env, s, h))
            && ((forall q :: q in s.processes ==> !Unannounced(s.processes[q])) ==>
                   Announced(s.stores.events, h) == SequenceAt(s.stores.index, h))
  {
    RunTracked(env, text, actions);
    assert Tracks(env, Run(env, text, actions), h);
  }

  // ----- the log names agents consistently -----

  /** An event names no agent, or a normalised id together with the hash of that id. */
  predicate NamesAgent(sha: Sha, agentId: string, agentHash: string) {
    (agentId == "" && agentHash == "") || (AgentAddr.NormalizeAgentID(agentId) == Ok(agentId)
        && agentHash == Hex(Truncated(sha, agentId)))
  }

  ghost predicate Named(sha: Sha, events: seq<Event>) {
    forall i :: 0 <= i < |events| ==> NamesAgent(sha, events[i].agentId, events[i].agentHash)
  }

  lemma AppendNames(env: Env, events: seq<Event>, input: EventInput, o: Oracle)
    requires ValidateInput(input) == None && input.eventJson.Doc?
    requires Named(env.sha, events) && NamesAgent(env.sha, input.agentId, input.agentHash)
    ensures Appended(env, events, input, o).Ok? ==> Named(env.sha, events + [Appended(env, events, input, o).value])
  {
    AppendedMeaning(env, events, input, o);
  }

  lemma ResponseNames(env: Env, s: Stores, p: Process, resp: Registration.Response, hash: Hash128, o: Oracle)
    requires Named(env.sha, s.events) && NamesAgent(env.sha, resp.agentId, Hex(hash))
    ensures Named(env.sha, AuditResponse(env, s, p, resp, hash, o).0.events)
  {
    AppendNames(env, s.events, RegisteredInput(env, p.req, resp, hash), o);
  }

  lemma AuditNames(env: Env, s: Stores, p: Process, o: Oracle)
    requires Named(env.sha, s.events) && ValidateRequest(env, p.req) == Ok(p.id)
    ensures Named(env.sha, AuditRecord(env, s, p, o).0.events)
  {
    OwnName(env, p);
    if Prepare(env, p.id, p.req).Ok? {
      ResponseNames(env, s, p, ResponseOf(env, p.id, p.req, Prepare(env, p.id, p.req).value), KeyOf(env, p), o);
    }
  }

  lemma OwnName(env: Env, p: Process)
    requires ValidateRequest(env, p.req) == Ok(p.id)
    ensures AgentAddr.AgentIDHash(env.sha, p.id) == Ok(KeyOf(env, p)) && NamesAgent(env.sha, p.id, Hex(KeyOf(env, p)))
  {
    AgentAddr.NormalizeIdempotent(p.req.agentId);
  }

  lemma MoveNames(env: Env, s: Stores, p: Process, o: Oracle)
    requires Named(env.sha, s.events) && (p.result == None ==> ValidateRequest(env, p.req) == Ok(p.id))
    ensures Named(env.sha, Advance(env, s, p, o).0.events)
  {
    if p.result == None {
      if p.written == 2 { IndexShape(env, s, p, o); }
      if p.written == 3 { AuditNames(env, s, p, o); }
    }
  }

  lemma AgentOfNames(env: Env, req: Resolver.Request)
    ensures NamesAgent(env.sha, Resolver.AgentOf(env, req).0, Resolver.AgentOf(env, req).1)
  {
    if AgentAddr.NormalizeAgentID(req.agentId).Ok? {
      AgentAddr.NormalizeIdempotent(req.agentId);
    }
  }

  lemma ResolveNames(env: Env, text: ErrorText, events: seq<Event>, req: Resolver.Request,
                     outcome: Result<Resolver.Response, Resolver.ResolveError>, o: Oracle)
    requires Named(env.sha, events)
    ensures Named(env.sha, Resolver.Audited(env, text, events, req, outcome, o).0)
  {
    AgentOfNames(env, req);
    AppendNames(env, events, Resolver.Report(env, text, req, outcome), o);
  }

  /** Whatever ran, an event that names an agent carries a normalised id and the hash of exactly
      that id. */
  lemma {:induction false} LogNamesAgents(env: Env, text: ErrorText, actions: seq<Action>)
    requires Configured(env)
    ensures Named(env.sha, Run(env, text, actions).stores.events)
  {
    if actions != [] {
      var front, a := actions[..|actions| - 1], actions[|actions| - 1];
      LogNamesAgents(env, text, front);
      RunTracked(env, text, front);
      var s := Run(env, text, front);
      StepNames(env, text, s, a);
    }
  }

  lemma StepNames(env: Env, text: ErrorText, s: State, a: Action)
    requires Tracked(env, s) && Named(env.sha, s.stores.events)
    ensures Named(env.sha, Step(env, text, s, a).stores.events)
  {
    match a
    case Move(q, o) =>
      if q in s.processes {
        assert Live(env, s.stores.index, s.processes[q]);
        MoveNames(env, s.stores, s.processes[q], o);
      }
    case LogStatus(u, o) =>
      if u in s.updates { AppendNames(env, s.stores.events, Admin.StatusInput(s.updates[u].w), o); }
    case Resolve(req, outcome, o) => ResolveNames(env, text, s.stores.events, req, outcome, o);
    case _ =>
  }
}
