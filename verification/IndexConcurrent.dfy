/** Concurrent index writes: any number of `Put` transactions, interleaved statement by
    statement at the read-committed level, with the row lock that `FOR UPDATE` takes. */
module IndexConcurrent {
  import opened Prelude
  import opened Clock
  import opened AgentAddr
  import opened Index

  /** The parts of `Put` that do not depend on the interleaving: which row an offer is for,
      whether it passes the checks, which rows agree with their bytes, what an offer decides
      against a row, and the row it writes. */
  datatype Rules = Rules(
    hashOf: Offer -> Hash128,
    sequenceOf: Offer -> uint32,
    admits: Offer -> bool,
    agrees: Row -> bool,
    decide: (Option<Row>, Offer) -> Decision,
    upsert: (Option<Row>, Offer) -> Row)

  const TOP_SEQUENCE: uint32 := 0xFFFF_FFFF

  /** A written row is the offer's own, and a row is replaced exactly by higher sequences. */
  ghost predicate Lawful(r: Rules) {
    && (forall current, o ::
          r.upsert(current, o).agentHash == r.hashOf(o) && r.upsert(current, o).sequence == r.sequenceOf(o))
    && (forall current, o :: r.admits(o) ==> r.agrees(r.upsert(current, o)))
    && (forall row, o :: r.agrees(row) ==> (r.decide(Some(row), o) == Replace <==> row.sequence < r.sequenceOf(o)))
    && (forall o :: r.decide(None, o) == Replace)
  }

  ghost predicate IsTopOffer(r: Rules, big: Offer, o: Offer) {
    r.admits(big) && r.hashOf(big) == r.hashOf(o) && r.sequenceOf(big) == TOP_SEQUENCE
  }

  /** The agent of an offer could also be offered the greatest sequence. */
  ghost predicate HasTopOffer(r: Rules, o: Offer) {
    exists big :: IsTopOffer(r, big, o)
  }

  type TxId = nat

  /** Where a transaction stands.  `seen` is what its locking read returned. */
  datatype Phase =
    | Begun
    | HasRead(seen: Option<Row>)
    | HasArchived(seen: Option<Row>, archive: seq<Archived>)
    | HasUpserted(seen: Option<Row>, archive: seq<Archived>, row: Row)
    | Done(result: Option<IndexError>)

  datatype Tx = Tx(offer: Offer, phase: Phase)

  /** A put that ended with a decision, and the decision. */
  datatype Entry = Entry(offer: Offer, result: Option<IndexError>)

  /** Committed tables, row locks, transactions, and the decided puts in the order they ended. */
  datatype State = State(tables: Tables, locks: map<Hash128, TxId>, txs: map<TxId, Tx>, log: seq<Entry>)

  datatype Action =
    | Begin(t: TxId, offer: Offer)
    | ReadRow(t: TxId)
    | Finish(t: TxId)
    | Archive(t: TxId)
    | Upsert(t: TxId)
    | Commit(t: TxId)
    | Rollback(t: TxId)

  const INITIAL := State(EMPTY, map[], map[], [])

  function Moved(s: State, t: TxId, phase: Phase): State
    requires t in s.txs
  {
    s.(txs := s.txs[t := s.txs[t].(phase := phase)])
  }

  predicate Holds(s: State, h: Hash128, t: TxId) { h in s.locks && s.locks[h] == t }

  /** Ends a transaction and frees its lock, if it has one. */
  function Ended(r: Rules, s: State, t: TxId, result: Option<IndexError>): State
    requires t in s.txs
  {
    var h := r.hashOf(s.txs[t].offer);
    Moved(s, t, Done(result)).(locks := if Holds(s, h, t) then s.locks - {h} else s.locks)
  }

  /** One statement of one transaction.  A step that is blocked or out of turn does nothing. */
  function Step(r: Rules, s: State, a: Action): State {
    if a.Begin? then
      (if a.t !in s.txs && r.admits(a.offer) then s.(txs := s.txs[a.t := Tx(a.offer, Begun)]) else s)
    else if a.t !in s.txs then s
    else
      var t, o := a.t, s.txs[a.t].offer;
      var h := r.hashOf(o);
      match (a, s.txs[t].phase)
      case (ReadRow(_), Begun) =>
        if h !in s.tables.current then Moved(s, t, HasRead(None))
        else if h in s.locks then s
        else Moved(s, t, HasRead(Some(s.tables.current[h]))).(locks := s.locks[h := t])
      case (Finish(_), HasRead(seen)) =>
        (match r.decide(seen, o)
         case Refuse(e) => Ended(r, s, t, Some(e)).(log := s.log + [Entry(o, Some(e))])
         case Keep => Ended(r, s, t, None).(log := s.log + [Entry(o, None)])
         case Replace => s)
      case (Archive(_), HasRead(seen)) =>
        if r.decide(seen, o) == Replace then Moved(s, t, HasArchived(seen, ArchiveOf(Lookup(s.tables, h), o.now)))
            else s
      case (Upsert(_), HasArchived(seen, archive)) =>
        if h in s.locks && s.locks[h] != t then s
        else Moved(s, t, HasUpserted(seen, archive, r.upsert(Lookup(s.tables, h), o))).(locks := s.locks[h := t])
      case (Commit(_), HasUpserted(_, archive, row)) =>
        Ended(r, s, t, None).(
          tables := Tables(s.tables.current[h := row], s.tables.history + archive),
          log := s.log + [Entry(o, None)])
      case (Rollback(_), phase) => if phase.Done? then s else Ended(r, s, t, Some(IndexUnavailable))
      case _ => s
  }

  function Steps(r: Rules, s: State, actions: seq<Action>): State {
    if actions == [] then s else Step(r, Steps(r, s, actions[..|actions| - 1]), actions[|actions| - 1])
  }

  // ----- one agent's part of the tables, and puts on it one after the other -----

  datatype View = View(current: Option<Row>, history: seq<Archived>)

  function ViewOf(t: Tables, h: Hash128): View { View(Lookup(t, h), HistoryFor(t.history, h)) }

  function PutView(r: Rules, v: View, o: Offer): (View, Option<IndexError>) {
    match r.decide(v.current, o)
    case Refuse(e) => (v, Some(e))
    case Keep => (v, None)
    case Replace => (View(Some(r.upsert(v.current, o)), v.history + ArchiveOf(v.current, o.now)), None)
  }

  /** The view left by the entries for `h`, put one after the other in log order. */
  function Serial(r: Rules, start: View, log: seq<Entry>, h: Hash128): View {
    if log == [] then start
    else
      var v, last := Serial(r, start, log[..|log| - 1], h), log[|log| - 1];
      if r.hashOf(last.offer) == h then PutView(r, v, last.offer).0 else v
  }

  /** Each entry for `h` records the result its put has in the serial order. */
  predicate SerialResults(r: Rules, start: View, log: seq<Entry>, h: Hash128) {
    if log == [] then true
    else
      var front, last := log[..|log| - 1], log[|log| - 1];
      && SerialResults(r, start, front, h)
      && (r.hashOf(last.offer) == h ==> PutView(r, Serial(r, start, front, h), last.offer).1 == last.result)
  }

  // ----- lock discipline -----

  predicate Absent(p: Phase) { (p.HasRead? || p.HasArchived? || p.HasUpserted?) && p.seen.None? }

  predicate Present(p: Phase) { (p.HasRead? || p.HasArchived? || p.HasUpserted?) && p.seen.Some? }

  /** A transaction that saw the row, or has written it, holds its lock; while it does, the
      committed row is the one it saw, and what it is about to commit follows from that row. */
  ghost predicate Disciplined(r: Rules, s: State, t: TxId)
    requires t in s.txs
  {
    var o, p := s.txs[t].offer, s.txs[t].phase;
    var h := r.hashOf(o);
    && (Present(p) || p.HasUpserted? ==> Holds(s, h, t))
    && (Present(p) ==> p.seen == Lookup(s.tables, h))
    && (Present(p) && !p.HasRead? ==> r.decide(p.seen, o) == Replace && p.archive == ArchiveOf(p.seen, o.now))
    && (p.HasUpserted? ==> p.row == r.upsert(Lookup(s.tables, h), o))
    && (p.HasArchived? || p.HasUpserted? ==> forall i :: 0 <= i < |p.archive| ==> p.archive[i].row.agentHash == h)
  }

  ghost predicate Invariant(r: Rules, s: State) {
    && (forall h :: h in s.tables.current ==> s.tables.current[h].agentHash == h && r.agrees(s.tables.current[h]))
    && (forall t :: t in s.txs ==> r.admits(s.txs[t].offer) && Disciplined(r, s, t))
    && (forall h :: h in s.locks ==> HoldsWell(r, s, h))
  }

  /** The holder of a lock is in flight, on that row, past reading or writing it. */
  predicate HoldsWell(r: Rules, s: State, h: Hash128)
    requires h in s.locks
  {
    var t := s.locks[h];
    t in s.txs && r.hashOf(s.txs[t].offer) == h && (Present(s.txs[t].phase) || s.txs[t].phase.HasUpserted?)
  }

  lemma StepTxs(r: Rules, s: State, a: Action)
    ensures var s' := Step(r, s, a);
            && (forall u :: u in s.txs ==> u in s'.txs && s'.txs[u].offer == s.txs[u].offer)
            && (forall u :: u in s'.txs && u != a.t ==> u in s.txs && s'.txs[u] == s.txs[u])
  {}

  /** A step gives no lock to anybody else, and takes none from them. */
  lemma OthersKeepLocks(r: Rules, s: State, a: Action, g: Hash128, u: TxId)
    requires Invariant(r, s) && u != a.t
    ensures Holds(s, g, u) <==> Holds(Step(r, s, a), g, u)
  {
    assert a.t in s.txs ==> Disciplined(r, s, a.t);
  }

  /** And takes only the lock on its own row. */
  lemma OwnRowLocked(r: Rules, s: State, a: Action, g: Hash128)
    requires Invariant(r, s) && Holds(Step(r, s, a), g, a.t)
    ensures a.t in s.txs && r.hashOf(s.txs[a.t].offer) == g
  {
    if g in s.locks { assert HoldsWell(r, s, g); }
  }

  lemma StepLocks(r: Rules, s: State, a: Action)
    requires Invariant(r, s)
    ensures var s' := Step(r, s, a);
            && (forall g, u :: u != a.t ==> (Holds(s, g, u) <==> Holds(s', g, u)))
            && (forall g :: g in s'.locks && s'.locks[g] == a.t ==> a.t in s.txs && r.hashOf(s.txs[a.t].offer) == g)
  {
    var s' := Step(r, s, a);
    forall g, u | u != a.t ensures Holds(s, g, u) <==> Holds(s', g, u) { OthersKeepLocks(r, s, a, g, u); }
    forall g | g in s'.locks && s'.locks[g] == a.t ensures a.t in s.txs
        && r.hashOf(s.txs[a.t].offer) == g { OwnRowLocked(r, s, a, g); }
  }

  lemma StepRowsAt(r: Rules, s: State, a: Action)
    requires Invariant(r, s)
    ensures var s' := Step(r, s, a);
            forall g :: Lookup(s'.tables, g) != Lookup(s.tables, g) ==>
              Holds(s, g, a.t) && a.t in s.txs && r.hashOf(s.txs[a.t].offer) == g
  {
    assert a.t in s.txs ==> Disciplined(r, s, a.t);
  }

  /** A step of `a.t` touches no other transaction and no other's lock, and changes the
      committed row only when `a.t` holds its lock. */
  lemma StepFrame(r: Rules, s: State, a: Action)
    requires Invariant(r, s)
    ensures var s' := Step(r, s, a);
            && (forall u :: u in s.txs ==> u in s'.txs && s'.txs[u].offer == s.txs[u].offer)
            && (forall u :: u in s'.txs && u != a.t ==> u in s.txs && s'.txs[u] == s.txs[u])
            && (forall g, u :: u != a.t ==> (Holds(s, g, u) <==> Holds(s', g, u)))
            && (forall g :: g in s'.locks && s'.locks[g] == a.t ==> a.t in s.txs && r.hashOf(s.txs[a.t].offer) == g)
            && (forall g :: Lookup(s'.tables, g) != Lookup(s.tables, g) ==>
                  Holds(s, g, a.t) && a.t in s.txs && r.hashOf(s.txs[a.t].offer) == g)
  {
    StepTxs(r, s, a);
    StepLocks(r, s, a);
    StepRowsAt(r, s, a);
  }

  lemma OthersStayDisciplined(r: Rules, s: State, a: Action, u: TxId)
    requires Invariant(r, s) && u in s.txs && u != a.t
    ensures Disciplined(r, Step(r, s, a), u)
  {
    StepFrame(r, s, a);
    assert Disciplined(r, s, u);
  }

  lemma SelfStaysDisciplined(r: Rules, s: State, a: Action)
    requires Lawful(r) && Invariant(r, s) && a.t in Step(r, s, a).txs
    ensures Disciplined(r, Step(r, s, a), a.t)
  {
    if a.t in s.txs {
      assert Disciplined(r, s, a.t);
    }
  }

  lemma LocksStayHeld(r: Rules, s: State, a: Action, h: Hash128)
    requires Invariant(r, s) && h in Step(r, s, a).locks
    ensures HoldsWell(r, Step(r, s, a), h)
  {
    var s' := Step(r, s, a);
    StepFrame(r, s, a);
    if s'.locks[h] != a.t {
      assert Holds(s', h, s'.locks[h]) && HoldsWell(r, s, h);
    } else {
      OwnLock(r, s, a, h);
    }
  }

  lemma OwnLock(r: Rules, s: State, a: Action, h: Hash128)
    requires Invariant(r, s) && h in Step(r, s, a).locks && Step(r, s, a).locks[h] == a.t
    ensures HoldsWell(r, Step(r, s, a), h)
  {
    assert a.t in s.txs ==> Disciplined(r, s, a.t);
    if h in s.locks { assert HoldsWell(r, s, h); }
  }

  lemma StepInvariant(r: Rules, s: State, a: Action)
    requires Lawful(r) && Invariant(r, s)
    ensures Invariant(r, Step(r, s, a))
  {
    var s' := Step(r, s, a);
    StepFrame(r, s, a);
    forall t | t in s'.txs ensures r.admits(s'.txs[t].offer) && Disciplined(r, s', t) {
      if t == a.t { SelfStaysDisciplined(r, s, a); } else { OthersStayDisciplined(r, s, a, t); }
    }
    RowsStayKeyed(r, s, a);
    forall h | h in s'.locks ensures HoldsWell(r, s', h) { LocksStayHeld(r, s, a, h); }
  }

  lemma RowsStayKeyed(r: Rules, s: State, a: Action)
    requires Lawful(r) && Invariant(r, s)
    ensures forall h :: h in Step(r, s, a).tables.current ==>
              Step(r, s, a).tables.current[h].agentHash == h && r.agrees(Step(r, s, a).tables.current[h])
  {
    assert a.t in s.txs ==> Disciplined(r, s, a.t);
  }

  lemma {:induction false} Reachable(r: Rules, actions: seq<Action>)
    requires Lawful(r)
    ensures Invariant(r, Steps(r, INITIAL, actions))
  {
    if actions != [] {
      Reachable(r, actions[..|actions| - 1]);
      StepInvariant(r, Steps(r, INITIAL, actions[..|actions| - 1]), actions[|actions| - 1]);
    }
  }

  // ----- serialisability -----

  /** The row exists and nobody in flight has read it as absent. */
  ghost predicate Settled(r: Rules, s: State, h: Hash128) {
    && h in s.tables.current
    && forall t :: t in s.txs && r.hashOf(s.txs[t].offer) == h ==> !Absent(s.txs[t].phase)
  }

  lemma SettledStays(r: Rules, s: State, a: Action, h: Hash128)
    requires Settled(r, s, h)
    ensures Settled(r, Step(r, s, a), h)
  {
    StepTxs(r, s, a);
  }

  /** A transaction ends with a decision. */
  predicate Decides(r: Rules, s: State, a: Action) {
    a.t in s.txs &&
    var p := s.txs[a.t].phase;
    (a.Commit? && p.HasUpserted?) || (a.Finish? && p.HasRead? && r.decide(p.seen, s.txs[a.t].offer) != Replace)
  }

  function EntryOf(r: Rules, s: State, a: Action): Entry
    requires Decides(r, s, a)
  {
    var o, p := s.txs[a.t].offer, s.txs[a.t].phase;
    Entry(o, if p.HasRead? && r.decide(p.seen, o).Refuse? then Some(r.decide(p.seen, o).e) else None)
  }

  lemma StepLogs(r: Rules, s: State, a: Action)
    ensures Step(r, s, a).log == if Decides(r, s, a) then s.log + [EntryOf(r, s, a)] else s.log
    ensures !(Decides(r, s, a) && a.Commit?) ==> Step(r, s, a).tables == s.tables
  {}

  /** A commit is one whole put on its own agent, and invisible to the others. */
  lemma CommitIsAPut(r: Rules, s: State, t: TxId, h: Hash128)
    requires Lawful(r) && Invariant(r, s) && Settled(r, s, h) && t in s.txs && s.txs[t].phase.HasUpserted?
    ensures var x, o := Step(r, s, Commit(t)), s.txs[t].offer;
            if r.hashOf(o) == h then PutView(r, ViewOf(s.tables, h), o) == (ViewOf(x.tables, h), None)
            else ViewOf(x.tables, h) == ViewOf(s.tables, h)
  {
    assert Disciplined(r, s, t);
    CommitEffect(r, s, t);
    HistoryForAppend(s.tables.history, s.txs[t].phase.archive, r.hashOf(s.txs[t].offer), h);
  }

  /** So is a put that ends without writing. */
  lemma FinishIsAPut(r: Rules, s: State, t: TxId, h: Hash128)
    requires Lawful(r) && Invariant(r, s) && Settled(r, s, h) && Decides(r, s, Finish(t))
    requires r.hashOf(s.txs[t].offer) == h
    ensures PutView(r, ViewOf(s.tables, h), s.txs[t].offer) == (ViewOf(s.tables, h), EntryOf(r, s, Finish(t)).result)
  {
    assert Disciplined(r, s, t);
  }

  /** One step is invisible at `h`, or it is one whole put on `h`. */
  lemma StepIsAPut(r: Rules, s: State, a: Action, h: Hash128)
    requires Lawful(r) && Invariant(r, s) && Settled(r, s, h)
    ensures var v, v' := ViewOf(s.tables, h), ViewOf(Step(r, s, a).tables, h);
            if Decides(r, s, a) && r.hashOf(s.txs[a.t].offer) == h
            then PutView(r, v, s.txs[a.t].offer) == (v', EntryOf(r, s, a).result) else v' == v
  {
    StepLogs(r, s, a);
    if Decides(r, s, a) {
      if a.Commit? { CommitIsAPut(r, s, a.t, h); }
          else if r.hashOf(s.txs[a.t].offer) == h { FinishIsAPut(r, s, a.t, h); }
    }
  }

  lemma {:induction false} HistoryForAppend(history: seq<Archived>, archive: seq<Archived>, g: Hash128, h: Hash128)
    requires forall i :: 0 <= i < |archive| ==> archive[i].row.agentHash == g
    ensures HistoryFor(history + archive, h) == HistoryFor(history, h) + (if g == h then archive else [])
  {
    if archive == [] {
      assert history + archive == history;
    } else {
      var front := archive[..|archive| - 1];
      HistoryForAppend(history, front, g, h);
      assert (history + archive)[..|history + archive| - 1] == history + front;
      assert archive == front + [archive[|archive| - 1]];
    }
  }

  function SequenceAt(s: State, h: Hash128): int {
    if h in s.tables.current then s.tables.current[h].sequence as int else -1
  }

  lemma SerialSnoc(r: Rules, start: View, log: seq<Entry>, e: Entry, h: Hash128)
    ensures var v := Serial(r, start, log, h);
            && Serial(r, start, log + [e], h) == (if r.hashOf(e.offer) == h then PutView(r, v, e.offer).0 else v)
            && (SerialResults(r, start, log + [e], h) <==>
                  SerialResults(r, start, log, h) && (r.hashOf(e.offer) == h ==> PutView(r, v, e.offer).1 == e.result))
  {
    assert (log + [e])[..|log|] == log;
  }

  /** What has been decided since `log` accounts for the agent's view. */
  ghost predicate Accounted(r: Rules, start: View, log: seq<Entry>, s: State, h: Hash128) {
    && log <= s.log
    && ViewOf(s.tables, h) == Serial(r, start, s.log[|log|..], h) && SerialResults(r, start, s.log[|log|..], h)
  }

  lemma SerialStep(r: Rules, start: View, log: seq<Entry>, s: State, a: Action, h: Hash128)
    requires Lawful(r) && Invariant(r, s) && Settled(r, s, h) && Accounted(r, start, log, s, h)
    ensures Accounted(r, start, log, Step(r, s, a), h)
  {
    StepIsAPut(r, s, a, h);
    StepLogs(r, s, a);
    if Decides(r, s, a) {
      var e, done := EntryOf(r, s, a), s.log[|log|..];
      assert (s.log + [e])[|log|..] == done + [e];
      SerialSnoc(r, start, done, e, h);
    }
  }

  /** From any reachable point where the row exists and no transaction in flight has read it
      as absent, every interleaving leaves the agent's row and archive exactly as the decided
      puts would, one after the other in the order they ended, each with its serial result. */
  lemma {:induction false} SerialEquivalence(r: Rules, s: State, actions: seq<Action>, h: Hash128)
    requires Lawful(r) && Invariant(r, s) && Settled(r, s, h)
    ensures var s' := Steps(r, s, actions);
            Invariant(r, s') && Settled(r, s', h) && Accounted(r, ViewOf(s.tables, h), s.log, s', h)
  {
    if actions != [] {
      var x, a := Steps(r, s, actions[..|actions| - 1]), actions[|actions| - 1];
      SerialEquivalence(r, s, actions[..|actions| - 1], h);
      StepInvariant(r, x, a);
      SettledStays(r, x, a, h);
      SerialStep(r, ViewOf(s.tables, h), s.log, x, a, h);
    } else {
      assert s.log[|s.log|..] == [];
    }
  }

  // ----- when the current sequence can go backwards -----

  ghost predicate Reach(r: Rules, s: State, x: State) { exists actions :: Steps(r, s, actions) == x }

  lemma ReachSelf(r: Rules, s: State)
    ensures Reach(r, s, s)
  {
    assert Steps(r, s, []) == s;
  }

  lemma ReachStep(r: Rules, s: State, x: State, a: Action)
    requires Reach(r, s, x)
    ensures Reach(r, s, Step(r, x, a))
  {
    var actions :| Steps(r, s, actions) == x;
    assert (actions + [a])[..|actions|] == actions;
    assert Steps(r, s, actions + [a]) == Step(r, x, a);
  }

  /** In every continuation of `s`, no step lowers the current sequence of `h`. */
  ghost predicate NeverLowered(r: Rules, s: State, h: Hash128) {
    forall x, a :: Reach(r, s, x) ==> SequenceAt(x, h) <= SequenceAt(Step(r, x, a), h)
  }

  /** A transaction that read the row of `h` as absent cannot lower it: it carries the greatest
      sequence, or it has the row locked already and carries no less than the current one. */
  predicate HarmlessTx(r: Rules, s: State, h: Hash128, t: TxId)
    requires t in s.txs
  {
    var o, p := s.txs[t].offer, s.txs[t].phase;
    r.hashOf(o) == h && Absent(p) ==>
      if p.HasUpserted? then SequenceAt(s, h) <= r.sequenceOf(o) as int else r.sequenceOf(o) == TOP_SEQUENCE
  }

  ghost predicate Harmless(r: Rules, s: State, h: Hash128) {
    forall t :: t in s.txs ==> HarmlessTx(r, s, h, t)
  }

  predicate Commits(r: Rules, s: State, a: Action, h: Hash128) {
    a.Commit? && a.t in s.txs && s.txs[a.t].phase.HasUpserted? && r.hashOf(s.txs[a.t].offer) == h
  }

  /** Only a commit on `h` moves its sequence, to the one offered. */
  lemma SequenceMoves(r: Rules, s: State, a: Action, h: Hash128)
    requires Lawful(r) && Invariant(r, s)
    ensures SequenceAt(Step(r, s, a), h) == if Commits(r, s, a, h) then r.sequenceOf(s.txs[a.t].offer) as int
            else SequenceAt(s, h)
  {
    assert a.t in s.txs ==> Disciplined(r, s, a.t);
  }

  /** A transaction that saw the row replaces it only by a higher sequence. */
  lemma SeenIsRaised(r: Rules, s: State, h: Hash128, t: TxId)
    requires Lawful(r) && Invariant(r, s) && h in s.tables.current && t in s.txs && r.hashOf(s.txs[t].offer) == h
    requires Present(s.txs[t].phase) && s.txs[t].phase.HasUpserted?
    ensures SequenceAt(s, h) < r.sequenceOf(s.txs[t].offer) as int
  {
    assert Disciplined(r, s, t) && r.agrees(s.tables.current[h]);
  }

  lemma HarmlessStepRaises(r: Rules, s: State, a: Action, h: Hash128)
    requires Lawful(r) && Invariant(r, s) && h in s.tables.current && Harmless(r, s, h)
    ensures SequenceAt(s, h) <= SequenceAt(Step(r, s, a), h)
  {
    SequenceMoves(r, s, a, h);
    if Commits(r, s, a, h) {
      assert HarmlessTx(r, s, h, a.t);
      if Present(s.txs[a.t].phase) { SeenIsRaised(r, s, h, a.t); }
    }
  }

  /** While another transaction has the row written and locked, no step commits on it. */
  lemma OthersStayHarmless(r: Rules, s: State, a: Action, h: Hash128, t: TxId)
    requires Lawful(r) && Invariant(r, s) && t in s.txs && t != a.t && HarmlessTx(r, s, h, t)
    ensures t in Step(r, s, a).txs && HarmlessTx(r, Step(r, s, a), h, t)
  {
    StepTxs(r, s, a);
    SequenceMoves(r, s, a, h);
    assert Disciplined(r, s, t);
    assert a.t in s.txs ==> Disciplined(r, s, a.t);
  }

  /** With a row there to read, nobody newly reads it as absent. */
  lemma SelfStaysHarmless(r: Rules, s: State, a: Action, h: Hash128)
    requires Lawful(r) && Invariant(r, s) && h in s.tables.current && a.t in s.txs && HarmlessTx(r, s, h, a.t)
    ensures a.t in Step(r, s, a).txs && HarmlessTx(r, Step(r, s, a), h, a.t)
  {
    SequenceMoves(r, s, a, h);
  }

  lemma RowStays(r: Rules, s: State, a: Action, h: Hash128)
    requires h in s.tables.current
    ensures h in Step(r, s, a).tables.current
  {}

  lemma HarmlessStep(r: Rules, s: State, a: Action, h: Hash128)
    requires Lawful(r) && Invariant(r, s) && h in s.tables.current && Harmless(r, s, h)
    ensures var s' := Step(r, s, a);
            Invariant(r, s') && h in s'.tables.current && Harmless(r, s', h) && SequenceAt(s, h) <= SequenceAt(s', h)
  {
    StepInvariant(r, s, a);
    RowStays(r, s, a, h);
    HarmlessStepRaises(r, s, a, h);
    StepTxs(r, s, a);
    forall t | t in Step(r, s, a).txs ensures HarmlessTx(r, Step(r, s, a), h, t) {
      if t != a.t { OthersStayHarmless(r, s, a, h, t); }
      else if t in s.txs { SelfStaysHarmless(r, s, a, h); }
    }
  }

  lemma {:induction false} HarmlessRun(r: Rules, s: State, actions: seq<Action>, h: Hash128)
    requires Lawful(r) && Invariant(r, s) && h in s.tables.current && Harmless(r, s, h)
    ensures var s' := Steps(r, s, actions); Invariant(r, s') && h in s'.tables.current && Harmless(r, s', h)
  {
    if actions != [] {
      HarmlessRun(r, s, actions[..|actions| - 1], h);
      HarmlessStep(r, Steps(r, s, actions[..|actions| - 1]), actions[|actions| - 1], h);
    }
  }

  /** All offers that can be made for `h` carry one sequence. */
  ghost predicate OneSequence(r: Rules, h: Hash128) {
    forall a, b :: r.admits(a) && r.admits(b) && r.hashOf(a) == h && r.hashOf(b) == h ==>
          r.sequenceOf(a) == r.sequenceOf(b)
  }

  /** A row of `h`, if there is one, carries the sequence that all its offers carry. */
  ghost predicate RowIsOffered(r: Rules, s: State, h: Hash128) {
    h in s.tables.current ==> forall o :: r.admits(o) && r.hashOf(o) == h ==>
          s.tables.current[h].sequence == r.sequenceOf(o)
  }

  lemma OneSequenceStep(r: Rules, s: State, a: Action, h: Hash128)
    requires Lawful(r) && Invariant(r, s) && OneSequence(r, h) && RowIsOffered(r, s, h)
    ensures RowIsOffered(r, Step(r, s, a), h) && SequenceAt(s, h) <= SequenceAt(Step(r, s, a), h)
  {
    SequenceMoves(r, s, a, h);
  }

  lemma {:induction false} OneSequenceRun(r: Rules, s: State, actions: seq<Action>, h: Hash128)
    requires Lawful(r) && Invariant(r, s) && OneSequence(r, h) && RowIsOffered(r, s, h)
    ensures Invariant(r, Steps(r, s, actions)) && RowIsOffered(r, Steps(r, s, actions), h)
  {
    if actions != [] {
      OneSequenceRun(r, s, actions[..|actions| - 1], h);
      OneSequenceStep(r, Steps(r, s, actions[..|actions| - 1]), actions[|actions| - 1], h);
      StepInvariant(r, Steps(r, s, actions[..|actions| - 1]), actions[|actions| - 1]);
    }
  }

  lemma {:induction false} FreshId(ids: set<TxId>) returns (id: TxId)
    ensures forall t :: t in ids ==> t < id
  {
    if ids == {} {
      id := 0;
    } else {
      var t :| t in ids;
      var rest := FreshId(ids - {t});
      id := if t < rest then rest else t + 1;
      assert forall u :: u in ids ==> u == t || u in ids - {t};
    }
  }

  lemma DoBegin(r: Rules, start: State, s: State, t: TxId, o: Offer) returns (x: State)
    requires Reach(r, start, s) && t !in s.txs && r.admits(o)
    ensures Reach(r, start, x) && x == s.(txs := s.txs[t := Tx(o, Begun)])
  {
    ReachStep(r, start, s, Begin(t, o));
    x := Step(r, s, Begin(t, o));
  }

  lemma DoRead(r: Rules, start: State, s: State, t: TxId) returns (x: State)
    requires Reach(r, start, s) && t in s.txs && s.txs[t].phase == Begun && r.hashOf(s.txs[t].offer) !in s.locks
    ensures Reach(r, start, x)
    ensures var h := r.hashOf(s.txs[t].offer);
            x == Moved(s, t, HasRead(Lookup(s.tables, h))).(locks := if h in s.tables.current then s.locks[h := t]
                else s.locks)
  {
    ReachStep(r, start, s, ReadRow(t));
    x := Step(r, s, ReadRow(t));
  }

  lemma DoArchive(r: Rules, start: State, s: State, t: TxId) returns (x: State)
    requires Reach(r, start, s) && t in s.txs && s.txs[t].phase.HasRead?
    requires r.decide(s.txs[t].phase.seen, s.txs[t].offer) == Replace
    ensures Reach(r, start, x)
    ensures x == Moved(s, t, HasArchived(s.txs[t].phase.seen,
              ArchiveOf(Lookup(s.tables, r.hashOf(s.txs[t].offer)), s.txs[t].offer.now)))
  {
    ReachStep(r, start, s, Archive(t));
    x := Step(r, s, Archive(t));
  }

  lemma DoUpsert(r: Rules, start: State, s: State, t: TxId) returns (x: State)
    requires Reach(r, start, s) && t in s.txs && s.txs[t].phase.HasArchived?
    requires var h := r.hashOf(s.txs[t].offer); h !in s.locks || s.locks[h] == t
    ensures Reach(r, start, x)
    ensures var h, p := r.hashOf(s.txs[t].offer), s.txs[t].phase;
            x == Moved(s, t, HasUpserted(p.seen, p.archive,
                  r.upsert(Lookup(s.tables, h), s.txs[t].offer))).(locks := s.locks[h := t])
  {
    ReachStep(r, start, s, Upsert(t));
    x := Step(r, s, Upsert(t));
  }

  lemma CommitEffect(r: Rules, s: State, t: TxId)
    requires t in s.txs && s.txs[t].phase.HasUpserted? && Holds(s, r.hashOf(s.txs[t].offer), t)
    ensures var x, h, p := Step(r, s, Commit(t)), r.hashOf(s.txs[t].offer), s.txs[t].phase;
            && x.tables == Tables(s.tables.current[h := p.row], s.tables.history + p.archive)
            && x.locks == s.locks - {h} && x.txs == s.txs[t := Tx(s.txs[t].offer, Done(None))]
  {}

  /** A whole put by a new transaction, from a point where the row is not locked, leaves a
      sequence at least the offered one. */
  lemma WholePut(r: Rules, s: State, u: TxId, o: Offer) returns (x: State)
    requires Lawful(r) && u !in s.txs && r.admits(o)
    requires r.hashOf(o) in s.tables.current && r.hashOf(o) !in s.locks && r.agrees(s.tables.current[r.hashOf(o)])
    ensures Reach(r, s, x) && r.hashOf(o) !in x.locks
    ensures SequenceAt(x, r.hashOf(o)) >= r.sequenceOf(o) as int
    ensures forall t :: t in s.txs ==> t in x.txs && x.txs[t] == s.txs[t]
  {
    ReachSelf(r, s);
    var s1 := DoBegin(r, s, s, u, o);
    var s2 := DoRead(r, s, s1, u);
    if r.decide(Lookup(s.tables, r.hashOf(o)), o) == Replace {
      var s3 := DoArchive(r, s, s2, u);
      var s4 := DoUpsert(r, s, s3, u);
      ReachStep(r, s, s4, Commit(u));
      CommitEffect(r, s4, u);
      x := Step(r, s4, Commit(u));
    } else {
      ReachStep(r, s, s2, Rollback(u));
      x := Step(r, s2, Rollback(u));
    }
  }

  /** A transaction that read the row as absent overwrites whatever has been committed since. */
  lemma LatePut(r: Rules, start: State, s: State, t: TxId) returns (x: State)
    requires Lawful(r) && Reach(r, start, s) && t in s.txs && r.hashOf(s.txs[t].offer) !in s.locks
    requires Absent(s.txs[t].phase) && !s.txs[t].phase.HasUpserted?
    ensures Reach(r, start, x) && x.tables == s.tables
    ensures SequenceAt(Step(r, x, Commit(t)), r.hashOf(s.txs[t].offer)) == r.sequenceOf(s.txs[t].offer) as int
  {
    x := s;
    if s.txs[t].phase.HasRead? {
      x := DoArchive(r, start, s, t);
    }
    x := DoUpsert(r, start, x, t);
    CommitEffect(r, x, t);
  }

  /** Rolling back the holder of a lock frees it and touches nobody else. */
  lemma FreeLock(r: Rules, s: State, h: Hash128) returns (x: State)
    requires Lawful(r) && Invariant(r, s)
    ensures Reach(r, s, x) && Invariant(r, x) && h !in x.locks && x.tables == s.tables && x.txs.Keys == s.txs.Keys
    ensures forall t :: t in s.txs && !Holds(s, h, t) ==> x.txs[t] == s.txs[t]
  {
    ReachSelf(r, s);
    x := s;
    if h in s.locks {
      assert HoldsWell(r, s, h);
      var t := s.locks[h];
      ReachStep(r, s, s, Rollback(t));
      StepInvariant(r, s, Rollback(t));
      x := Step(r, s, Rollback(t));
    }
  }

  /** A transaction that has not written yet but read the row as absent can lower the sequence,
      unless it carries the greatest. */
  lemma Lowered(r: Rules, s: State, h: Hash128, t: TxId, big: Offer) returns (y: State)
    requires Lawful(r) && Invariant(r, s) && h in s.tables.current && t in s.txs && r.hashOf(s.txs[t].offer) == h
    requires IsTopOffer(r, big, s.txs[t].offer) && r.sequenceOf(s.txs[t].offer) != TOP_SEQUENCE
    requires Absent(s.txs[t].phase) && !s.txs[t].phase.HasUpserted?
    ensures Reach(r, s, y) && SequenceAt(y, h) > SequenceAt(Step(r, y, Commit(t)), h)
  {
    var s1 := FreeLock(r, s, h);
    assert h in s.locks ==> HoldsWell(r, s, h);
    assert s1.txs[t] == s.txs[t];
    var u := FreshId(s1.txs.Keys);
    var x := WholePut(r, s1, u, big);
    ReachTrans(r, s, s1, x);
    y := LatePut(r, s, x, t);
  }

  lemma {:induction false} StepsAppend(r: Rules, s: State, first: seq<Action>, rest: seq<Action>)
    ensures Steps(r, s, first + rest) == Steps(r, Steps(r, s, first), rest)
  {
    if rest == [] {
      assert first + rest == first;
    } else {
      StepsAppend(r, s, first, rest[..|rest| - 1]);
      assert (first + rest)[..|first + rest| - 1] == first + rest[..|rest| - 1];
    }
  }

  lemma ReachTrans(r: Rules, s: State, x: State, y: State)
    requires Reach(r, s, x) && Reach(r, x, y)
    ensures Reach(r, s, y)
  {
    var first :| Steps(r, s, first) == x;
    var rest :| Steps(r, x, rest) == y;
    StepsAppend(r, s, first, rest);
  }

  /** Without a row to lock, two first puts overwrite one another: from any point where an agent
      has no row, the later commit can win whatever its sequence, and the other record is not
      even archived. */
  lemma FirstInsertRace(r: Rules, s: State, high: Offer, low: Offer) returns (x: State, t: TxId)
    requires Lawful(r) && Invariant(r, s) && r.admits(high) && r.admits(low) && r.hashOf(high) == r.hashOf(low)
    requires r.hashOf(high) !in s.tables.current && r.sequenceOf(low) < r.sequenceOf(high)
    ensures Reach(r, s, x) && SequenceAt(x, r.hashOf(high)) == r.sequenceOf(high) as int
    ensures var y := Step(r, x, Commit(t));
            SequenceAt(y, r.hashOf(high)) == r.sequenceOf(low) as int && y.tables.history == s.tables.history
  {
    var s0 := FreeLock(r, s, r.hashOf(high));
    var u := FreshId(s0.txs.Keys);
    x, t := RaceFrom(r, s0, u, high, low);
    ReachTrans(r, s, s0, x);
  }

  /** Both transactions read before either writes. */
  lemma BothReadAbsent(r: Rules, s: State, u: TxId, high: Offer, low: Offer) returns (x: State)
    requires Lawful(r) && r.admits(high) && r.admits(low) && r.hashOf(high) == r.hashOf(low)
    requires r.hashOf(high) !in s.tables.current && r.hashOf(high) !in s.locks && u !in s.txs && u + 1 !in s.txs
    ensures Reach(r, s, x) && x.tables == s.tables && x.locks == s.locks
    ensures x.txs == s.txs[u := Tx(high, HasArchived(None, []))][u + 1 := Tx(low, HasArchived(None, []))]
  {
    ReachSelf(r, s);
    var s1 := OneReadsAbsent(r, s, s, u, high);
    x := OneReadsAbsent(r, s, s1, u + 1, low);
  }

  lemma OneReadsAbsent(r: Rules, start: State, s: State, u: TxId, o: Offer) returns (x: State)
    requires Lawful(r) && r.admits(o) && Reach(r, start, s)
    requires r.hashOf(o) !in s.tables.current && r.hashOf(o) !in s.locks && u !in s.txs
    ensures Reach(r, start, x) && x == s.(txs := s.txs[u := Tx(o, HasArchived(None, []))])
  {
    var s1 := DoBegin(r, start, s, u, o);
    var s2 := DoRead(r, start, s1, u);
    x := DoArchive(r, start, s2, u);
  }

  lemma RaceFrom(r: Rules, s: State, u: TxId, high: Offer, low: Offer) returns (x: State, t: TxId)
    requires Lawful(r) && r.admits(high) && r.admits(low) && r.hashOf(high) == r.hashOf(low)
    requires r.sequenceOf(low) < r.sequenceOf(high)
    requires r.hashOf(high) !in s.tables.current && r.hashOf(high) !in s.locks && u !in s.txs && u + 1 !in s.txs
    ensures Reach(r, s, x) && SequenceAt(x, r.hashOf(high)) == r.sequenceOf(high) as int
    ensures var y := Step(r, x, Commit(t));
            SequenceAt(y, r.hashOf(high)) == r.sequenceOf(low) as int && y.tables.history == s.tables.history
  {
    t := u + 1;
    ReachSelf(r, s);
    var s6 := BothReadAbsent(r, s, u, high, low);
    var s7 := DoUpsert(r, s, s6, u);
    CommitEffect(r, s7, u);
    ReachStep(r, s, s7, Commit(u));
    var s8 := Step(r, s7, Commit(u));
    x := DoUpsert(r, s, s8, t);
    CommitEffect(r, x, t);
  }

  lemma HarmlessNeverLowers(r: Rules, s: State, h: Hash128)
    requires Lawful(r) && Invariant(r, s) && h in s.tables.current && Harmless(r, s, h)
    ensures NeverLowered(r, s, h)
  {
    forall x, a | Reach(r, s, x) ensures SequenceAt(x, h) <= SequenceAt(Step(r, x, a), h) {
      var actions :| Steps(r, s, actions) == x;
      HarmlessRun(r, s, actions, h);
      HarmlessStep(r, x, a, h);
    }
  }

  lemma HarmLowers(r: Rules, s: State, h: Hash128, t: TxId)
    requires Lawful(r) && Invariant(r, s) && h in s.tables.current && t in s.txs && !HarmlessTx(r, s, h, t)
    requires HasTopOffer(r, s.txs[t].offer)
    ensures !NeverLowered(r, s, h)
  {
    if s.txs[t].phase.HasUpserted? {
      ReachSelf(r, s);
      SequenceMoves(r, s, Commit(t), h);
      assert SequenceAt(s, h) > SequenceAt(Step(r, s, Commit(t)), h);
    } else {
      var big :| IsTopOffer(r, big, s.txs[t].offer);
      var y := Lowered(r, s, h, t, big);
      assert SequenceAt(y, h) > SequenceAt(Step(r, y, Commit(t)), h);
    }
  }

  /** Where an agent has no row, its sequence can never go backwards if and only if no two offers
      of different sequences can be made for it. */
  lemma AbsentNeverLoweredExactly(r: Rules, s: State, h: Hash128)
    requires Lawful(r) && Invariant(r, s) && h !in s.tables.current
    ensures NeverLowered(r, s, h) <==> OneSequence(r, h)
  {
    if OneSequence(r, h) {
      forall x, a | Reach(r, s, x) ensures SequenceAt(x, h) <= SequenceAt(Step(r, x, a), h) {
        var actions :| Steps(r, s, actions) == x;
        OneSequenceRun(r, s, actions, h);
        OneSequenceStep(r, x, a, h);
      }
    } else {
      var a, b :| r.admits(a) && r.admits(b) && r.hashOf(a) == h && r.hashOf(b) == h
          && r.sequenceOf(a) != r.sequenceOf(b);
      var (high, low) := if r.sequenceOf(a) > r.sequenceOf(b) then (a, b) else (b, a);
      var x, t := FirstInsertRace(r, s, high, low);
      assert SequenceAt(x, h) > SequenceAt(Step(r, x, Commit(t)), h);
    }
  }

  /** At every reachable point, locked or not: the sequence of an agent with a row can never go
      backwards if and only if everybody in flight who read the row as absent is harmless, and
      that of an agent without a row if and only if all its offers carry one sequence. */
  lemma NeverLoweredExactly(r: Rules, s: State, h: Hash128)
    requires Lawful(r) && Invariant(r, s) && forall t :: t in s.txs ==> HasTopOffer(r, s.txs[t].offer)
    ensures NeverLowered(r, s, h) <==> if h in s.tables.current then Harmless(r, s, h) else OneSequence(r, h)
  {
    if h !in s.tables.current {
      AbsentNeverLoweredExactly(r, s, h);
    } else if Harmless(r, s, h) {
      HarmlessNeverLowers(r, s, h);
    } else {
      var t :| t in s.txs && !HarmlessTx(r, s, h, t);
      HarmLowers(r, s, h, t);
    }
  }

  // ----- the rules of `Put` -----

  function PutRules(sha: Sha): Rules {
    Rules(
      (o: Offer) => o.record.Payload().agentIdHash,
      (o: Offer) => o.record.Payload().sequence,
      (o: Offer) => PutChecks(sha, o.agentId, o.record) == None,
      RowAgrees,
      (current: Option<Row>, o: Offer) => Decide(current, o.record),
      (current: Option<Row>, o: Offer) => UpsertOf(current, o.agentId, o.record, o.now))
  }

  /** A record for a hash that some id has, with any sequence, passes the checks under that id. */
  lemma AnyOffer(sha: Sha, agentId: string, sequence: uint32) returns (o: Offer)
    requires AgentIDHash(sha, agentId).Ok?
    ensures PutChecks(sha, o.agentId, o.record) == None
    ensures o.record.Payload().agentIdHash == AgentIDHash(sha, agentId).value && o.record.Payload().sequence == sequence
  {
    var zeros: Hash128 := seq(16, _ => 0);
    var p := Payload(VERSION_1, 0, 1, sequence, AgentIDHash(sha, agentId).value, zeros, zeros);
    var record := AgentAddr120(Layout(p), seq(SIGNATURE_SIZE, _ => 0));
    PayloadBijection(p, record.payload);
    RecordBijection(record.Bytes(), record);
    o := Offer(agentId, record, 0);
  }

  lemma AdmittedHasTop(sha: Sha, o: Offer)
    requires PutRules(sha).admits(o)
    ensures HasTopOffer(PutRules(sha), o)
  {
    var big := AnyOffer(sha, o.agentId, TOP_SEQUENCE);
    assert IsTopOffer(PutRules(sha), big, o);
  }

  /** The store's own rules are lawful, so the results above hold of it. */
  lemma PutRulesLawful(sha: Sha)
    ensures Lawful(PutRules(sha)) && forall o :: PutRules(sha).admits(o) ==> HasTopOffer(PutRules(sha), o)
  {
    var r := PutRules(sha);
    forall o | r.admits(o) ensures HasTopOffer(r, o) { AdmittedHasTop(sha, o); }
    forall row, o | r.agrees(row) ensures r.decide(Some(row), o) == Replace <==>
          row.sequence < r.sequenceOf(o) { DecideCases(row, o.record); }
    forall current, o | r.admits(o) ensures r.agrees(r.upsert(current, o)) {
      UpsertAgrees(sha, current, o.agentId, o.record, o.now);
    }
  }

  /** A put through the interleaved rules is a put of the serial store. */
  lemma PutViewIsPut(sha: Sha, t: Tables, o: Offer)
    requires WellFormed(t) && PutChecks(sha, o.agentId, o.record) == None
    ensures var (t', result) := PutInto(sha, t, o.agentId, o.record, o.now);
            var h := o.record.Payload().agentIdHash;
            PutView(PutRules(sha), ViewOf(t, h), o) == (ViewOf(t', h), result)
  {
    var h := o.record.Payload().agentIdHash;
    var archive := ArchiveOf(Lookup(t, h), o.now);
    HistoryForAppend(t.history, archive, h, h);
  }

  lemma PutLeavesOthers(sha: Sha, t: Tables, o: Offer, h: Hash128)
    requires WellFormed(t) && o.record.Payload().agentIdHash != h
    ensures ViewOf(PutInto(sha, t, o.agentId, o.record, o.now).0, h) == ViewOf(t, h)
  {
    var key := o.record.Payload().agentIdHash;
    PutCases(sha, t, o);
    ReplacingLeavesOthers(t, key, UpsertOf(Lookup(t, key), o.agentId, o.record, o.now), o.now, h);
  }

  lemma ReplacingLeavesOthers(t: Tables, key: Hash128, row: Row, now: Instant, h: Hash128)
    requires WellFormed(t) && key != h
    ensures ViewOf(Replaced(t, key, row, now), h) == ViewOf(t, h)
  {
    HistoryForAppend(t.history, ArchiveOf(Lookup(t, key), now), key, h);
  }

  function Offers(log: seq<Entry>): seq<Offer> { MapSeq((e: Entry) => e.offer, log) }

  /** Replaying decided puts through the interleaved rules is running them on the serial store. */
  lemma {:induction false} SerialIsRun(sha: Sha, t: Tables, log: seq<Entry>, h: Hash128)
    requires WellFormed(t) && forall i :: 0 <= i < |log| ==>
               PutChecks(sha, log[i].offer.agentId, log[i].offer.record) == None
    ensures Serial(PutRules(sha), ViewOf(t, h), log, h) == ViewOf(RunFrom(sha, t, Offers(log)), h)
  {
    if log != [] {
      var front, o := log[..|log| - 1], log[|log| - 1].offer;
      SerialIsRun(sha, t, front, h);
      RunWellFormed(sha, t, Offers(front));
      var before := RunFrom(sha, t, Offers(front));
      assert Offers(log)[..|log| - 1] == Offers(front);
      if o.record.Payload().agentIdHash == h { PutViewIsPut(sha, before, o); }
          else { PutLeavesOthers(sha, before, o, h); }
    }
  }

  ghost predicate LogAdmitted(r: Rules, s: State) {
    forall i :: 0 <= i < |s.log| ==> r.admits(s.log[i].offer)
  }

  lemma {:induction false} RunAdmits(r: Rules, s: State, actions: seq<Action>)
    requires Lawful(r) && Invariant(r, s) && LogAdmitted(r, s)
    ensures Invariant(r, Steps(r, s, actions)) && LogAdmitted(r, Steps(r, s, actions))
  {
    if actions != [] {
      var x, a := Steps(r, s, actions[..|actions| - 1]), actions[|actions| - 1];
      RunAdmits(r, s, actions[..|actions| - 1]);
      StepInvariant(r, x, a);
      StepLogs(r, x, a);
    }
  }

  lemma StepWellFormed(r: Rules, s: State, a: Action)
    requires Lawful(r) && Invariant(r, s) && AllRows(s, r.agrees)
    ensures AllRows(Step(r, s, a), r.agrees)
  {
    assert OffersPass(r, s, r.agrees);
    assert a.Begin? && r.admits(a.offer) ==> forall current :: r.agrees(r.upsert(current, a.offer));
    StepRows(r, s, a, r.agrees);
  }

  lemma {:induction false} RunKeepsRows(r: Rules, actions: seq<Action>)
    requires Lawful(r)
    ensures AllRows(Steps(r, INITIAL, actions), r.agrees)
  {
    if actions != [] {
      RunKeepsRows(r, actions[..|actions| - 1]);
      Reachable(r, actions[..|actions| - 1]);
      StepWellFormed(r, Steps(r, INITIAL, actions[..|actions| - 1]), actions[|actions| - 1]);
    }
  }

  /** The store itself: after any history of interleaved puts, once an agent's row exists and
      no put in flight has read it as absent, whatever follows leaves the agent what the serial
      store makes of the puts decided since, in the order they ended and each with its serial
      result; and the sequence never falls. */
  lemma ConcurrentPutsAreSerial(sha: Sha, before: seq<Action>, after: seq<Action>, h: Hash128)
    requires Settled(PutRules(sha), Steps(PutRules(sha), INITIAL, before), h)
    ensures var r := PutRules(sha);
            var s := Steps(r, INITIAL, before);
            var s' := Steps(r, s, after);
            && s.log <= s'.log
            && ViewOf(s'.tables, h) == ViewOf(RunFrom(sha, s.tables, Offers(s'.log[|s.log|..])), h)
            && SerialResults(r, ViewOf(s.tables, h), s'.log[|s.log|..], h)
            && SequenceAt(s, h) <= SequenceAt(s', h)
  {
    PutRulesLawful(sha);
    Reachable(PutRules(sha), before);
    RunAdmits(PutRules(sha), INITIAL, before);
    RunKeepsRows(PutRules(sha), before);
    SerialSince(sha, PutRules(sha), Steps(PutRules(sha), INITIAL, before), after, h);
  }

  lemma SerialSince(sha: Sha, r: Rules, s: State, after: seq<Action>, h: Hash128)
    requires r == PutRules(sha) && Lawful(r) && Invariant(r, s) && Settled(r, s, h) && LogAdmitted(r, s)
    requires AllRows(s, r.agrees)
    ensures var s' := Steps(r, s, after);
            && s.log <= s'.log
            && ViewOf(s'.tables, h) == ViewOf(RunFrom(sha, s.tables, Offers(s'.log[|s.log|..])), h)
            && SerialResults(r, ViewOf(s.tables, h), s'.log[|s.log|..], h)
            && SequenceAt(s, h) <= SequenceAt(s', h)
  {
    SerialEquivalence(r, s, after, h);
    SettledIsHarmless(r, s, h);
    SettledNeverLowers(r, s, after, h);
    RunAdmits(r, s, after);
    RowsAreWellFormed(sha, s);
    AccountedIsRun(sha, r, s.tables, s.log, Steps(r, s, after), h);
  }

  lemma SettledIsHarmless(r: Rules, s: State, h: Hash128)
    requires Settled(r, s, h)
    ensures Harmless(r, s, h)
  {}

  lemma AccountedIsRun(sha: Sha, r: Rules, t: Tables, log: seq<Entry>, s: State, h: Hash128)
    requires r == PutRules(sha) && WellFormed(t) && LogAdmitted(r, s) && Accounted(r, ViewOf(t, h), log, s, h)
    ensures ViewOf(s.tables, h) == ViewOf(RunFrom(sha, t, Offers(s.log[|log|..])), h)
  {
    SerialLogIsRun(sha, r, t, s, s.log[|log|..], h);
  }

  lemma SerialLogIsRun(sha: Sha, r: Rules, t: Tables, s: State, log: seq<Entry>, h: Hash128)
    requires r == PutRules(sha) && WellFormed(t) && LogAdmitted(r, s) && forall i :: 0 <= i < |log| ==> log[i] in s.log
    ensures Serial(r, ViewOf(t, h), log, h) == ViewOf(RunFrom(sha, t, Offers(log)), h)
  {
    forall i | 0 <= i < |log| ensures PutChecks(sha, log[i].offer.agentId, log[i].offer.record) == None {
      assert r.admits(log[i].offer);
    }
    SerialIsRun(sha, t, log, h);
  }

  lemma RowsAreWellFormed(sha: Sha, s: State)
    requires Invariant(PutRules(sha), s) && AllRows(s, PutRules(sha).agrees)
    ensures WellFormed(s.tables)
  {}

  lemma {:induction false} SettledNeverLowers(r: Rules, s: State, actions: seq<Action>, h: Hash128)
    requires Lawful(r) && Invariant(r, s) && h in s.tables.current && Harmless(r, s, h)
    ensures SequenceAt(s, h) <= SequenceAt(Steps(r, s, actions), h)
  {
    if actions != [] {
      var front := actions[..|actions| - 1];
      SettledNeverLowers(r, s, front, h);
      HarmlessRun(r, s, front, h);
      HarmlessStep(r, Steps(r, s, front), actions[|actions| - 1], h);
    }
  }

  /** Some id hashes to `h`, so records can be offered for it. */
  ghost predicate IsAgent(sha: Sha, h: Hash128) { exists agentId :: AgentIDHash(sha, agentId) == Ok(h) }

  lemma AgentHasTwoSequences(sha: Sha, agentId: string)
    requires AgentIDHash(sha, agentId).Ok?
    ensures !OneSequence(PutRules(sha), AgentIDHash(sha, agentId).value)
  {
    var r := PutRules(sha);
    var high := AnyOffer(sha, agentId, TOP_SEQUENCE);
    var low := AnyOffer(sha, agentId, 0);
    assert r.admits(high) && r.admits(low) && r.sequenceOf(high) != r.sequenceOf(low);
  }

  lemma OffersAreForAgents(sha: Sha, h: Hash128, o: Offer)
    requires PutRules(sha).admits(o) && PutRules(sha).hashOf(o) == h
    ensures IsAgent(sha, h)
  {
    assert AgentIDHash(sha, o.agentId) == Ok(h);
  }

  lemma AgentsHaveTwoSequences(sha: Sha, h: Hash128)
    ensures OneSequence(PutRules(sha), h) <==> !IsAgent(sha, h)
  {
    var r := PutRules(sha);
    if IsAgent(sha, h) {
      var agentId :| AgentIDHash(sha, agentId) == Ok(h);
      AgentHasTwoSequences(sha, agentId);
    }
    if !OneSequence(r, h) {
      var a, b :| r.admits(a) && r.admits(b) && r.hashOf(a) == h && r.hashOf(b) == h
          && r.sequenceOf(a) != r.sequenceOf(b);
      OffersAreForAgents(sha, h, a);
    }
  }

  /** The store itself: exactly when an agent's sequence can never go backwards.  For an agent
      without a row that is never. */
  lemma ConcurrentPutsNeverLowered(sha: Sha, before: seq<Action>, h: Hash128)
    ensures var s := Steps(PutRules(sha), INITIAL, before);
            NeverLowered(PutRules(sha), s, h) <==>
                  if h in s.tables.current then Harmless(PutRules(sha), s, h) else !IsAgent(sha, h)
  {
    PutRulesLawful(sha);
    Reachable(PutRules(sha), before);
    NeverLoweredExactly(PutRules(sha), Steps(PutRules(sha), INITIAL, before), h);
    AgentsHaveTwoSequences(sha, h);
  }

  // ----- every row was offered -----

  /** Every row, committed or about to be, passes `ok`. */
  ghost predicate AllRows(s: State, ok: Row -> bool) {
    && (forall h :: h in s.tables.current ==> ok(s.tables.current[h]))
    && (forall i :: 0 <= i < |s.tables.history| ==> ok(s.tables.history[i].row))
    && (forall t :: t in s.txs ==> PhaseRows(s.txs[t].phase, ok))
  }

  ghost predicate PhaseRows(p: Phase, ok: Row -> bool) {
    && (p.HasArchived? || p.HasUpserted? ==> forall i :: 0 <= i < |p.archive| ==> ok(p.archive[i].row))
    && (p.HasUpserted? ==> ok(p.row))
  }

  /** What the transactions in flight may write passes `ok`. */
  ghost predicate OffersPass(r: Rules, s: State, ok: Row -> bool) {
    forall t, current :: t in s.txs ==> ok(r.upsert(current, s.txs[t].offer))
  }

  lemma OffersStay(r: Rules, s: State, a: Action, ok: Row -> bool)
    requires OffersPass(r, s, ok)
    requires a.Begin? && r.admits(a.offer) ==> forall current :: ok(r.upsert(current, a.offer))
    ensures OffersPass(r, Step(r, s, a), ok)
  {
    StepTxs(r, s, a);
    var s' := Step(r, s, a);
    forall t, current | t in s'.txs ensures ok(r.upsert(current, s'.txs[t].offer)) {
      if t in s.txs { assert s'.txs[t].offer == s.txs[t].offer; }
    }
  }

  /** The rows a transaction carries are copies of committed ones, or written from its offer. */
  lemma OwnRows(r: Rules, s: State, a: Action, ok: Row -> bool)
    requires AllRows(s, ok) && OffersPass(r, s, ok) && a.t in s.txs
    ensures a.t in Step(r, s, a).txs && PhaseRows(Step(r, s, a).txs[a.t].phase, ok)
  {
    assert PhaseRows(s.txs[a.t].phase, ok);
    assert ok(r.upsert(Lookup(s.tables, r.hashOf(s.txs[a.t].offer)), s.txs[a.t].offer));
  }

  lemma CommittedRows(r: Rules, s: State, a: Action, ok: Row -> bool)
    requires AllRows(s, ok)
    ensures var t := Step(r, s, a).tables;
            && (forall h :: h in t.current ==> ok(t.current[h]))
            && (forall i :: 0 <= i < |t.history| ==> ok(t.history[i].row))
  {
    assert a.t in s.txs ==> PhaseRows(s.txs[a.t].phase, ok);
  }

  lemma StepRows(r: Rules, s: State, a: Action, ok: Row -> bool)
    requires AllRows(s, ok) && OffersPass(r, s, ok)
    requires a.Begin? && r.admits(a.offer) ==> forall current :: ok(r.upsert(current, a.offer))
    ensures AllRows(Step(r, s, a), ok) && OffersPass(r, Step(r, s, a), ok)
  {
    OffersStay(r, s, a, ok);
    CommittedRows(r, s, a, ok);
    StepTxs(r, s, a);
    forall t | t in Step(r, s, a).txs ensures PhaseRows(Step(r, s, a).txs[t].phase, ok) {
      if t != a.t { assert PhaseRows(s.txs[t].phase, ok); } else if t in s.txs { OwnRows(r, s, a, ok); }
    }
  }

  /** Under every interleaving, first inserts included, every current and archived row is one that
      an offer wrote: what all offers' rows satisfy, all stored rows satisfy. */
  lemma {:induction false} RowsWereOffered(r: Rules, actions: seq<Action>, ok: Row -> bool)
    requires forall i :: 0 <= i < |actions| && actions[i].Begin? && r.admits(actions[i].offer) ==>
               forall current :: ok(r.upsert(current, actions[i].offer))
    ensures AllRows(Steps(r, INITIAL, actions), ok) && OffersPass(r, Steps(r, INITIAL, actions), ok)
  {
    if actions != [] {
      var front := actions[..|actions| - 1];
      RowsWereOffered(r, front, ok);
      StepRows(r, Steps(r, INITIAL, front), actions[|actions| - 1], ok);
    }
  }
}
