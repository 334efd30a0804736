/** Concurrent audit appends: any number of `Append` transactions, interleaved statement by
    statement, under the exclusive table lock, with row ids drawn from a sequence that does
    not give back the ids of transactions that roll back. */
module AuditConcurrent {
  import opened Prelude
  import opened Clock
  import opened HashChain
  import opened Audit
  import AuditStore
  import CanonicalJson
  import Json

  type TxId = nat

  /** What a transaction brings: the input, its random event id, and its clock reading. */
  datatype Draft = Draft(input: EventInput, eventId: Option<string>, now: UtcInstant)

  /** How a draft becomes an event behind a previous hash, and the event's link. */
  datatype Maker = Maker(make: (string, Draft) -> Option<Event>, linkOf: Event -> Link)

  ghost predicate Lawful(m: Maker, sha: Sha) {
    forall previous, d :: m.make(previous, d).Some? ==>
      var l := m.linkOf(m.make(previous, d).value);
      l.previousHash == previous && HashLink(sha, previous, l.payload) == Some(l.hash)
  }

  datatype Row = Row(id: nat, event: Event)

  datatype Phase =
    | Begun
    | Locked
    | HasRead(previousHash: string)
    | Inserted(row: Row)
    | Committed(row: Row)
    | RolledBack

  datatype Tx = Tx(draft: Draft, phase: Phase)

  /** `rows` are the committed rows in the order they were committed; `commits` names the
      transactions that committed them. */
  datatype State = State(rows: seq<Row>, nextId: nat, lock: Option<TxId>, txs: map<TxId, Tx>, commits: seq<TxId>)

  datatype Action =
    | Begin(t: TxId, draft: Draft)
    | TakeLock(t: TxId)
    | ReadLast(t: TxId)
    | InsertRow(t: TxId)
    | Commit(t: TxId)
    | Rollback(t: TxId)

  const INITIAL := State([], 1, None, map[], [])

  /** `ORDER BY id DESC LIMIT 1` */
  function Latest(rows: seq<Row>): Option<Row> {
    if rows == [] then None
    else
      var front, last := Latest(rows[..|rows| - 1]), rows[|rows| - 1];
      if front.Some? && front.value.id > last.id then front else Some(last)
  }

  function Moved(s: State, t: TxId, phase: Phase): State
    requires t in s.txs
  {
    s.(txs := s.txs[t := s.txs[t].(phase := phase)])
  }

  function Released(s: State, t: TxId): Option<TxId> { if s.lock == Some(t) then None else s.lock }

  /** One statement of one transaction.  A step that is blocked or out of turn does nothing. */
  function Step(m: Maker, s: State, a: Action): State {
    if a.Begin? then (if a.t in s.txs then s else s.(txs := s.txs[a.t := Tx(a.draft, Begun)]))
    else if a.t !in s.txs then s
    else
      var t := a.t;
      match (a, s.txs[t].phase)
      case (TakeLock(_), Begun) => if s.lock == None then Moved(s, t, Locked).(lock := Some(t)) else s
      case (ReadLast(_), Locked) =>
        var last := Latest(s.rows);
        Moved(s, t, HasRead(if last == None then "" else last.value.event.eventHash))
      case (InsertRow(_), HasRead(previous)) =>
        (match m.make(previous, s.txs[t].draft)
         case None => Moved(s, t, RolledBack).(lock := Released(s, t))
         case Some(event) => Moved(s, t, Inserted(Row(s.nextId, event))).(nextId := s.nextId + 1))
      case (Commit(_), Inserted(row)) =>
        Moved(s, t, Committed(row)).(lock := Released(s, t), rows := s.rows + [row], commits := s.commits + [t])
      case (Rollback(_), phase) =>
        if phase.Committed? || phase.RolledBack? then s else Moved(s, t, RolledBack).(lock := Released(s, t))
      case _ => s
  }

  function Steps(m: Maker, s: State, actions: seq<Action>): State {
    if actions == [] then s else Step(m, Steps(m, s, actions[..|actions| - 1]), actions[|actions| - 1])
  }

  // ----- what every state keeps -----

  function RowLinks(m: Maker, rows: seq<Row>): seq<Link> { MapSeq((r: Row) => m.linkOf(r.event), rows) }

  ghost predicate IdsIncrease(rows: seq<Row>) {
    forall i, j :: 0 <= i < j < |rows| ==> rows[i].id < rows[j].id
  }

  /** The committed rows are exactly those of the committed transactions, each once. */
  ghost predicate NothingLost(s: State) {
    && |s.commits| == |s.rows|
    && (forall i, j :: 0 <= i < j < |s.commits| ==> s.commits[i] != s.commits[j])
    && (forall i :: 0 <= i < |s.commits| ==> s.commits[i] in s.txs && s.txs[s.commits[i]].phase == Committed(s.rows[i]))
    && (forall t :: t in s.txs && s.txs[t].phase.Committed? ==> t in s.commits)
  }

  /** Only the lock holder is past taking the lock, what it read is still the last hash, and
      what it has inserted fits behind it. */
  ghost predicate Ready(m: Maker, sha: Sha, s: State, t: TxId)
    requires t in s.txs
  {
    var p := s.txs[t].phase;
    && (p.Locked? || p.HasRead? || p.Inserted? ==> s.lock == Some(t))
    && (p.HasRead? ==> p.previousHash == Head(RowLinks(m, s.rows)))
    && (p.Inserted? ==>
          && p.row.id < s.nextId && (forall i :: 0 <= i < |s.rows| ==> s.rows[i].id < p.row.id)
          && ChainValid(sha, RowLinks(m, s.rows + [p.row])))
  }

  ghost predicate HolderReady(m: Maker, sha: Sha, s: State) {
    forall t :: t in s.txs ==> Ready(m, sha, s, t)
  }

  ghost predicate Invariant(m: Maker, sha: Sha, s: State) {
    && IdsIncrease(s.rows)
    && (forall i :: 0 <= i < |s.rows| ==> s.rows[i].id < s.nextId)
    && (forall e :: m.linkOf(e).hash == e.eventHash)
    && ChainValid(sha, RowLinks(m, s.rows))
    && NothingLost(s)
    && HolderReady(m, sha, s)
  }

  lemma {:induction false} LatestIsLast(rows: seq<Row>)
    requires IdsIncrease(rows)
    ensures Latest(rows) == if rows == [] then None else Some(rows[|rows| - 1])
  {
    if rows != [] {
      LatestIsLast(rows[..|rows| - 1]);
    }
  }

  lemma InsertFits(m: Maker, sha: Sha, s: State, t: TxId)
    requires Lawful(m, sha) && Invariant(m, sha, s) && t in s.txs && s.txs[t].phase.HasRead?
    requires m.make(s.txs[t].phase.previousHash, s.txs[t].draft).Some?
    ensures ChainValid(sha, RowLinks(m,
              s.rows + [Row(s.nextId, m.make(s.txs[t].phase.previousHash, s.txs[t].draft).value)]))
  {
    var row := Row(s.nextId, m.make(s.txs[t].phase.previousHash, s.txs[t].draft).value);
    assert (s.rows + [row])[..|s.rows|] == s.rows;
    assert RowLinks(m, s.rows + [row]) == RowLinks(m, s.rows) + [m.linkOf(row.event)];
    ChainSnoc(sha, RowLinks(m, s.rows), m.linkOf(row.event));
  }

  lemma ReadStaysReady(m: Maker, sha: Sha, s: State, t: TxId)
    requires Invariant(m, sha, s) && t in s.txs && s.txs[t].phase == Locked
    ensures Ready(m, sha, Step(m, s, ReadLast(t)), t)
  {
    assert Ready(m, sha, s, t);
    LatestIsLast(s.rows);
  }

  lemma InsertStaysReady(m: Maker, sha: Sha, s: State, t: TxId)
    requires Lawful(m, sha) && Invariant(m, sha, s) && t in s.txs && s.txs[t].phase.HasRead?
    ensures Ready(m, sha, Step(m, s, InsertRow(t)), t)
  {
    assert Ready(m, sha, s, t);
    if m.make(s.txs[t].phase.previousHash, s.txs[t].draft).Some? {
      InsertFits(m, sha, s, t);
    }
  }

  /** The steps that end a transaction, take its lock, or find it out of turn. */
  lemma PlainStaysReady(m: Maker, sha: Sha, s: State, a: Action)
    requires OutOfTurnReady(m, sha, s, a)
    ensures a.t in Step(m, s, a).txs && Ready(m, sha, Step(m, s, a), a.t)
  {}

  ghost predicate OutOfTurnReady(m: Maker, sha: Sha, s: State, a: Action) {
    && a.t in s.txs && Ready(m, sha, s, a.t)
    && !(a.ReadLast? && s.txs[a.t].phase.Locked?) && !(a.InsertRow? && s.txs[a.t].phase.HasRead?)
  }

  lemma SelfStaysReady(m: Maker, sha: Sha, s: State, a: Action)
    requires Lawful(m, sha) && Invariant(m, sha, s) && a.t in Step(m, s, a).txs
    ensures Ready(m, sha, Step(m, s, a), a.t)
  {
    if a.t in s.txs {
      assert Ready(m, sha, s, a.t);
      if a.ReadLast? && s.txs[a.t].phase.Locked? { ReadStaysReady(m, sha, s, a.t); }
      else if a.InsertRow? && s.txs[a.t].phase.HasRead? { InsertStaysReady(m, sha, s, a.t); }
      else { PlainStaysReady(m, sha, s, a); }
    }
  }

  /** A step leaves other transactions alone, and their lock. */
  lemma StepOthers(m: Maker, s: State, a: Action, t: TxId)
    requires t in s.txs && t != a.t
    ensures var s' := Step(m, s, a);
            t in s'.txs && s'.txs[t] == s.txs[t] && (s.lock == Some(t) ==> s'.lock == Some(t)) && s'.nextId >= s.nextId
  {}

  lemma OthersStayReady(m: Maker, sha: Sha, s: State, a: Action, t: TxId)
    requires Invariant(m, sha, s) && t in s.txs && t != a.t
    ensures t in Step(m, s, a).txs && Ready(m, sha, Step(m, s, a), t)
  {
    StepOthers(m, s, a, t);
    StepRows(m, s, a);
    assert Ready(m, sha, s, t);
    assert a.t in s.txs ==> Ready(m, sha, s, a.t);
  }

  lemma StepKeepsHolder(m: Maker, sha: Sha, s: State, a: Action)
    requires Lawful(m, sha) && Invariant(m, sha, s)
    ensures HolderReady(m, sha, Step(m, s, a))
  {
    forall t | t in Step(m, s, a).txs ensures Ready(m, sha, Step(m, s, a), t) {
      if t == a.t { SelfStaysReady(m, sha, s, a); } else { OthersStayReady(m, sha, s, a, t); }
    }
  }

  /** A step leaves committed transactions alone, and commits at most the one it moves. */
  lemma CommittedStay(m: Maker, s: State, a: Action)
    ensures var s' := Step(m, s, a);
            && (forall t :: t in s.txs && s.txs[t].phase.Committed? ==> t in s'.txs && s'.txs[t] == s.txs[t])
            && (if a.Commit? && a.t in s.txs && s.txs[a.t].phase.Inserted?
                then s'.commits == s.commits + [a.t] && s'.rows == s.rows + [s.txs[a.t].phase.row]
                    && s'.txs[a.t].phase == Committed(s.txs[a.t].phase.row)
                     && forall t :: t in s'.txs && t != a.t ==> t in s.txs && s'.txs[t] == s.txs[t]
                else s'.commits == s.commits && s'.rows == s.rows
                     && forall t :: t in s'.txs && s'.txs[t].phase.Committed? ==>
                            t in s.txs && s.txs[t].phase.Committed?)
  {}

  lemma StepKeepsCommits(m: Maker, sha: Sha, s: State, a: Action)
    requires NothingLost(s)
    ensures NothingLost(Step(m, s, a))
  {
    CommittedStay(m, s, a);
    var s' := Step(m, s, a);
    if s'.commits != s.commits {
      assert forall i :: 0 <= i < |s.commits| ==> s.commits[i] != a.t;
      assert s'.commits[|s.commits|] == a.t;
      assert forall t :: t in s.commits ==> t in s'.commits;
    }
  }

  /** Only a commit adds a row, and it adds the one inserted; ids in use stay below the next. */
  lemma StepRows(m: Maker, s: State, a: Action)
    ensures var s' := Step(m, s, a);
            && s'.nextId >= s.nextId
            && s'.rows == if a.Commit? && a.t in s.txs && s.txs[a.t].phase.Inserted?
                 then s.rows + [s.txs[a.t].phase.row] else s.rows
  {}

  /** Rows are only added, at the end, with an id above all others, and still chain. */
  lemma StepKeepsRows(m: Maker, sha: Sha, s: State, a: Action)
    requires Invariant(m, sha, s)
    ensures var s' := Step(m, s, a);
            && s.rows <= s'.rows && |s'.rows| <= |s.rows| + 1 && IdsIncrease(s'.rows)
            && ChainValid(sha, RowLinks(m, s'.rows))
            && (forall i :: 0 <= i < |s'.rows| ==> s'.rows[i].id < s'.nextId)
  {
    StepRows(m, s, a);
    if a.t in s.txs {
      assert Ready(m, sha, s, a.t);
    }
  }

  lemma StepInvariant(m: Maker, sha: Sha, s: State, a: Action)
    requires Lawful(m, sha) && Invariant(m, sha, s)
    ensures Invariant(m, sha, Step(m, s, a))
    ensures s.rows <= Step(m, s, a).rows && |Step(m, s, a).rows| <= |s.rows| + 1
  {
    StepKeepsHolder(m, sha, s, a);
    StepKeepsCommits(m, sha, s, a);
    StepKeepsRows(m, sha, s, a);
  }

  /** The store's own maker: clock readings are cut to microseconds. */
  function AppendMaker(sha: Sha): Maker {
    Maker(
      (previous: string, d: Draft) =>
        (match NewEvent(sha, previous, d.input, d.eventId, MicrosOf(d.now)) case Ok(e) => Some(e) case Err(_) => None),
      LinkOf)
  }

  lemma AppendMakerLawful(sha: Sha)
    ensures Lawful(AppendMaker(sha), sha) && forall e :: AppendMaker(sha).linkOf(e).hash == e.eventHash
  {
    var m := AppendMaker(sha);
    forall previous, d | m.make(previous, d).Some?
      ensures var l := m.linkOf(m.make(previous, d).value);
              l.previousHash == previous && HashLink(sha, previous, l.payload) == Some(l.hash)
    {
      NewEventLink(sha, previous, d.input, d.eventId, MicrosOf(d.now));
    }
  }

  lemma {:induction false} ReachableInvariant(m: Maker, sha: Sha, actions: seq<Action>)
    requires Lawful(m, sha) && forall e :: m.linkOf(e).hash == e.eventHash
    ensures Invariant(m, sha, Steps(m, INITIAL, actions))
  {
    if actions != [] {
      ReachableInvariant(m, sha, actions[..|actions| - 1]);
      StepInvariant(m, sha, Steps(m, INITIAL, actions[..|actions| - 1]), actions[|actions| - 1]);
    }
  }

  /** Under every interleaving, the committed rows in id order form a valid chain, every
      committed transaction has exactly one row there, and rows are only ever added. */
  lemma ConcurrentAppends(sha: Sha, actions: seq<Action>, next: Action)
    ensures var s := Steps(AppendMaker(sha), INITIAL, actions);
            && IdsIncrease(s.rows)
            && ChainValid(sha, Links(MapSeq((r: Row) => r.event, s.rows)))
            && NothingLost(s)
            && s.rows <= Step(AppendMaker(sha), s, next).rows
  {
    var m := AppendMaker(sha);
    AppendMakerLawful(sha);
    ReachableInvariant(m, sha, actions);
    var s := Steps(m, INITIAL, actions);
    StepInvariant(m, sha, s, next);
    assert RowLinks(m, s.rows) == Links(MapSeq((r: Row) => r.event, s.rows));
  }

  // ----- reading the rows back -----

  ghost predicate Made(m: Maker, e: Event) { exists previous, d :: m.make(previous, d) == Some(e) }

  ghost predicate AllMade(m: Maker, s: State) {
    && (forall i :: 0 <= i < |s.rows| ==> Made(m, s.rows[i].event))
    && (forall t :: t in s.txs && s.txs[t].phase.Inserted? ==> Made(m, s.txs[t].phase.row.event))
  }

  lemma StepMakes(m: Maker, s: State, a: Action)
    requires AllMade(m, s)
    ensures AllMade(m, Step(m, s, a))
  {
    StepRows(m, s, a);
    var s' := Step(m, s, a);
    forall t | t in s'.txs && s'.txs[t].phase.Inserted? ensures Made(m, s'.txs[t].phase.row.event) {
      if t == a.t && t in s.txs && s.txs[t].phase.HasRead? {
        assert m.make(s.txs[t].phase.previousHash, s.txs[t].draft) == Some(s'.txs[t].phase.row.event);
      }
    }
  }

  lemma {:induction false} ReachableMade(m: Maker, actions: seq<Action>)
    ensures AllMade(m, Steps(m, INITIAL, actions))
  {
    if actions != [] {
      ReachableMade(m, actions[..|actions| - 1]);
      StepMakes(m, Steps(m, INITIAL, actions[..|actions| - 1]), actions[|actions| - 1]);
    }
  }

  /** Every committed event comes back from its row unchanged, whatever layout the database gives
      its document; so the log it lists is the log that was appended, and verifies. */
  lemma CommittedReadBack(sha: Sha, jsonb: Json.Json -> Json.Json, actions: seq<Action>, i: nat)
    requires AuditStore.KeepsMeaning(jsonb)
    requires i < |Steps(AppendMaker(sha), INITIAL, actions).rows|
    ensures var e := Steps(AppendMaker(sha), INITIAL, actions).rows[i].event;
            && e.eventJson.Doc? && Printable(Stamp(AuditStore.StoreRow(jsonb, e).createdAt, 0))
            && AuditStore.ScanEvent(AuditStore.StoreRow(jsonb, e)) == e
  {
    var m := AppendMaker(sha);
    ReachableMade(m, actions);
    var e := Steps(m, INITIAL, actions).rows[i].event;
    assert Made(m, e);
    var previous, d :| m.make(previous, d) == Some(e);
    CanonicalIsDocument(d.input.eventJson, d.input.eventJson);
    assert NewEvent(sha, previous, d.input, d.eventId, MicrosOf(d.now)) == Ok(e);
    assert e.eventJson.json == CanonicalJson.CanonicalTree(e.eventJson.json);
    AuditStore.RowRoundTrip(jsonb, e);
  }
}
