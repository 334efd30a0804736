/** The index of current address records and the archive of replaced ones. */
module Index {
  import opened Prelude
  import opened Text
  import opened Clock
  import opened AgentAddr
  import opened Maxima

  /** A row of either table: the signed bytes, with columns copied out of them. */
  datatype Row = Row(
    agentHash: Hash128, agentId: string, recordBytes: seq<byte>,
    sequence: uint32, ttlSeconds: uint16, createdAt: Instant, updatedAt: Instant)

  /** An archived row.  Rows stand in insertion order, which is the order of their ids. */
  datatype Archived = Archived(row: Row, archivedAt: Instant)

  datatype Tables = Tables(current: map<Hash128, Row>, history: seq<Archived>)

  datatype IndexedRecord = IndexedRecord(
    agentHash: Hash128, agentId: string, record: AgentAddr120,
    sequence: uint32, ttlSeconds: uint16, createdAt: Instant, updatedAt: Instant)

  datatype IndexError =
    | RecordNotFound | StaleSequence | SequenceConflict | AgentHashMismatch
    | BadId(id: IdError) | BadRecord(why: RecordError) | IndexUnavailable

  const EMPTY := Tables(map[], [])

  function Scan(row: Row): Result<IndexedRecord, IndexError> {
    match Decoded(row.recordBytes)
    case Err(e) => Err(BadRecord(e))
    case Ok(r) => Ok(IndexedRecord(row.agentHash, row.agentId, r, row.sequence, row.ttlSeconds, row.createdAt,
          row.updatedAt))
  }

  /** The checks `Put` makes before it opens its transaction. */
  function PutChecks(sha: Sha, agentId: string, record: AgentAddr120): Option<IndexError> {
    match AgentIDHash(sha, agentId)
    case Err(e) => Some(BadId(e))
    case Ok(hash) =>
      if hash != record.Payload().agentIdHash then Some(AgentHashMismatch)
      else match Decoded(record.Bytes())
        case Err(e) => Some(BadRecord(e))
        case Ok(_) => None
  }

  /** What `Put` does with an offered record once it has read the current row. */
  datatype Decision = Refuse(e: IndexError) | Keep | Replace

  function Decide(current: Option<Row>, record: AgentAddr120): Decision {
    match current
    case None => Replace
    case Some(row) =>
      match Scan(row)
      case Err(e) => Refuse(e)
      case Ok(scanned) =>
        var sequence := record.Payload().sequence;
        if sequence < scanned.sequence then Refuse(StaleSequence)
        else if sequence == scanned.sequence then
          (if record.Bytes() == scanned.record.Bytes() then Keep else Refuse(SequenceConflict))
        else Replace
  }

  function Lookup(t: Tables, hash: Hash128): Option<Row> {
    if hash in t.current then Some(t.current[hash]) else None
  }

  /** The rows the archiving statement copies, and the row the upsert leaves. */
  function ArchiveOf(current: Option<Row>, now: Instant): seq<Archived> {
    if current.Some? then [Archived(current.value, now)] else []
  }

  function UpsertOf(current: Option<Row>, agentId: string, record: AgentAddr120, now: Instant): Row {
    var p := record.Payload();
    Row(p.agentIdHash, agentId, record.Bytes(), p.sequence, p.ttlSeconds,
        if current.Some? then current.value.createdAt else now, now)
  }

  function PutInto(sha: Sha, t: Tables, agentId: string, record: AgentAddr120, now: Instant)
    : (Tables, Option<IndexError>)
  {
    match PutChecks(sha, agentId, record)
    case Some(e) => (t, Some(e))
    case None =>
      var hash := record.Payload().agentIdHash;
      var current := Lookup(t, hash);
      match Decide(current, record)
      case Refuse(e) => (t, Some(e))
      case Keep => (t, None)
      case Replace => (
        Tables(t.current[hash := UpsertOf(current, agentId, record, now)], t.history + ArchiveOf(current, now)),
        None)
  }

  function GetFrom(t: Tables, hash: Hash128): Result<IndexedRecord, IndexError> {
    if hash in t.current then Scan(t.current[hash]) else Err(RecordNotFound)
  }

  // ----- rows agree with their bytes -----

  /** The copied columns say what the signed bytes say. */
  predicate RowAgrees(row: Row) {
    match Decoded(row.recordBytes)
    case Err(_) => false
    case Ok(r) =>
      r.Payload().agentIdHash == row.agentHash && r.Payload().sequence == row.sequence
          && r.Payload().ttlSeconds == row.ttlSeconds
  }

  ghost predicate WellFormed(t: Tables) {
    && (forall h :: h in t.current ==> t.current[h].agentHash == h && RowAgrees(t.current[h]))
    && (forall i :: 0 <= i < |t.history| ==> RowAgrees(t.history[i].row))
  }

  lemma UpsertAgrees(sha: Sha, current: Option<Row>, agentId: string, record: AgentAddr120, now: Instant)
    requires PutChecks(sha, agentId, record) == None
    ensures var row := UpsertOf(current, agentId, record, now);
            RowAgrees(row) && Decoded(row.recordBytes) == Ok(record)
  {
    RecordBijection(record.Bytes(), Decoded(record.Bytes()).value);
    BytesInjective(record, Decoded(record.Bytes()).value);
  }

  /** Offering the current record again changes nothing, not even the update time. */
  lemma RePutIsIdempotent(sha: Sha, t: Tables, agentId: string, record: AgentAddr120, now: Instant, later: Instant)
    requires WellFormed(t) && PutInto(sha, t, agentId, record, now).1 == None
    ensures var t' := PutInto(sha, t, agentId, record, now).0; PutInto(sha, t', agentId, record, later) == (t', None)
  {
    UpsertAgrees(sha, Lookup(t, record.Payload().agentIdHash), agentId, record, now);
  }

  // ----- a run of puts -----

  datatype Offer = Offer(agentId: string, record: AgentAddr120, now: Instant)

  function Run(sha: Sha, offers: seq<Offer>): Tables {
    RunFrom(sha, EMPTY, offers)
  }

  function RunFrom(sha: Sha, t: Tables, offers: seq<Offer>): Tables {
    if offers == [] then t
    else
      var o := offers[|offers| - 1];
      PutInto(sha, RunFrom(sha, t, offers[..|offers| - 1]), o.agentId, o.record, o.now).0
  }

  lemma {:induction false} RunWellFormed(sha: Sha, t: Tables, offers: seq<Offer>)
    requires WellFormed(t)
    ensures WellFormed(RunFrom(sha, t, offers))
  {
    if offers != [] {
      var o := offers[|offers| - 1];
      RunWellFormed(sha, t, offers[..|offers| - 1]);
      PutKeepsWellFormed(sha, RunFrom(sha, t, offers[..|offers| - 1]), o.agentId, o.record, o.now);
    }
  }

  /** The records offered for one agent that pass the checks, in order. */
  function OfferedFor(sha: Sha, offers: seq<Offer>, hash: Hash128): seq<AgentAddr120> {
    if offers == [] then []
    else
      var o := offers[|offers| - 1];
      var earlier := OfferedFor(sha, offers[..|offers| - 1], hash);
      if AcceptedFor(sha, o, hash) then earlier + [o.record] else earlier
  }

  function HistoryFor(history: seq<Archived>, hash: Hash128): seq<Archived> {
    if history == [] then []
    else
      var last := history[|history| - 1];
      HistoryFor(history[..|history| - 1], hash) + (if last.row.agentHash == hash then [last] else [])
  }

  function RecordOf(row: Row): AgentAddr120
    requires RowAgrees(row)
  {
    Decoded(row.recordBytes).value
  }

  function HistoryRecords(history: seq<Archived>, hash: Hash128): seq<AgentAddr120>
    requires forall i :: 0 <= i < |history| ==> RowAgrees(history[i].row)
  {
    if history == [] then []
    else
      var last := history[|history| - 1].row;
      HistoryRecords(history[..|history| - 1], hash) + (if last.agentHash == hash then [RecordOf(last)] else [])
  }

  /** Everything the index ever held for an agent, oldest first, the current record last. */
  function Lineage(t: Tables, hash: Hash128): seq<AgentAddr120>
    requires WellFormed(t)
  {
    var archived := HistoryRecords(t.history, hash);
    if hash in t.current then archived + [RecordOf(t.current[hash])] else archived
  }

  function SequenceOf(r: AgentAddr120): int { r.Payload().sequence as int }

  function Replaced(t: Tables, key: Hash128, row: Row, now: Instant): Tables {
    Tables(t.current[key := row], t.history + ArchiveOf(Lookup(t, key), now))
  }

  /** Against a row that agrees with its bytes, a record is kept, refused or replaces by its
      sequence alone, but for records of the same sequence. */
  lemma DecideCases(row: Row, record: AgentAddr120)
    requires RowAgrees(row)
    ensures Decide(Some(row), record) == Replace <==> row.sequence < record.Payload().sequence
    ensures Decide(Some(row), record) == Keep ==> row.sequence == record.Payload().sequence
  {}

  /** The decision a put that passes the checks acts on. */
  lemma PutDecides(sha: Sha, t: Tables, o: Offer)
    requires PutChecks(sha, o.agentId, o.record) == None
    ensures var key := o.record.Payload().agentIdHash;
            var current := Lookup(t, key);
            PutInto(sha, t, o.agentId, o.record, o.now) ==
            match Decide(current, o.record)
            case Refuse(e) => (t, Some(e))
            case Keep => (t, None)
            case Replace => (Replaced(t, key, UpsertOf(current, o.agentId, o.record, o.now), o.now), None)
  {}

  /** A put replaces when it passes the checks and beats the current sequence, if any. */
  lemma PutCases(sha: Sha, t: Tables, o: Offer)
    requires WellFormed(t)
    ensures var key := o.record.Payload().agentIdHash;
            var row := UpsertOf(Lookup(t, key), o.agentId, o.record, o.now);
            var t' := PutInto(sha, t, o.agentId, o.record, o.now).0;
            if PutChecks(sha, o.agentId, o.record) == None && (key in t.current ==>
                  t.current[key].sequence < o.record.Payload().sequence)
            then t' == Replaced(t, key, row, o.now) && row.agentHash == key && RowAgrees(row)
                 && RecordOf(row) == o.record
            else t' == t
  {
    var key := o.record.Payload().agentIdHash;
    if PutChecks(sha, o.agentId, o.record) == None {
      UpsertAgrees(sha, Lookup(t, key), o.agentId, o.record, o.now);
      PutDecides(sha, t, o);
      if key in t.current { DecideCases(t.current[key], o.record); }
    }
  }

  lemma PutKeepsWellFormed(sha: Sha, t: Tables, agentId: string, record: AgentAddr120, now: Instant)
    requires WellFormed(t)
    ensures WellFormed(PutInto(sha, t, agentId, record, now).0)
  {
    var o, key := Offer(agentId, record, now), record.Payload().agentIdHash;
    PutCases(sha, t, o);
    if PutInto(sha, t, agentId, record, now).0 != t {
      ReplacedWellFormed(t, key, UpsertOf(Lookup(t, key), agentId, record, now), now);
    }
  }

  lemma HistorySnoc(history: seq<Archived>, a: Archived, hash: Hash128)
    requires (forall i :: 0 <= i < |history| ==> RowAgrees(history[i].row)) && RowAgrees(a.row)
    ensures HistoryRecords(history + [a], hash) == HistoryRecords(history, hash) + (if a.row.agentHash == hash
            then [RecordOf(a.row)] else [])
  {
    assert (history + [a])[..|history|] == history;
  }

  lemma ArchiveStep(history: seq<Archived>, was: Option<Row>, now: Instant, hash: Hash128)
    requires (forall i :: 0 <= i < |history| ==> RowAgrees(history[i].row)) && (was.Some? ==> RowAgrees(was.value))
    ensures var history' := history + ArchiveOf(was, now);
            && (forall i :: 0 <= i < |history'| ==> RowAgrees(history'[i].row))
            && HistoryRecords(history', hash) ==
               if was.Some? && was.value.agentHash == hash then HistoryRecords(history, hash) + [RecordOf(was.value)]
               else HistoryRecords(history, hash)
  {
    if was.Some? {
      HistorySnoc(history, Archived(was.value, now), hash);
      assert HistoryRecords(history, hash) + [] == HistoryRecords(history, hash);
    } else {
      assert history + [] == history;
    }
  }

  lemma ReplacedWellFormed(t: Tables, key: Hash128, row: Row, now: Instant)
    requires WellFormed(t) && row.agentHash == key && RowAgrees(row)
    ensures WellFormed(Replaced(t, key, row, now))
  {}

  lemma ReplaceOwn(t: Tables, row: Row, now: Instant)
    requires WellFormed(t) && RowAgrees(row) && WellFormed(Replaced(t, row.agentHash, row, now))
    ensures Lineage(Replaced(t, row.agentHash, row, now), row.agentHash) == Lineage(t, row.agentHash) + [RecordOf(row)]
  {
    ArchiveStep(t.history, Lookup(t, row.agentHash), now, row.agentHash);
  }

  lemma ReplaceOther(t: Tables, row: Row, now: Instant, hash: Hash128)
    requires WellFormed(t) && RowAgrees(row) && WellFormed(Replaced(t, row.agentHash, row, now))
    requires hash != row.agentHash
    ensures Lineage(Replaced(t, row.agentHash, row, now), hash) == Lineage(t, hash)
  {
    var t' := Replaced(t, row.agentHash, row, now);
    ArchiveStep(t.history, Lookup(t, row.agentHash), now, hash);
    assert HistoryRecords(t'.history, hash) == HistoryRecords(t.history, hash);
    assert hash in t'.current <==> hash in t.current;
  }

  lemma ReplaceStep(t: Tables, key: Hash128, row: Row, now: Instant, hash: Hash128)
    requires WellFormed(t) && row.agentHash == key && RowAgrees(row)
    ensures WellFormed(Replaced(t, key, row, now))
    ensures Lineage(Replaced(t, key, row, now), hash) == if key == hash then Lineage(t, hash) + [RecordOf(row)]
            else Lineage(t, hash)
  {
    ReplacedWellFormed(t, key, row, now);
    if key == hash { ReplaceOwn(t, row, now); } else { ReplaceOther(t, row, now, hash); }
  }

  lemma LineageTop(t: Tables, hash: Hash128)
    requires WellFormed(t) && hash in t.current
    ensures var l := Lineage(t, hash);
            l != [] && l[|l| - 1] == RecordOf(t.current[hash])
                && SequenceOf(l[|l| - 1]) == t.current[hash].sequence as int
    ensures t.current[hash].recordBytes == RecordOf(t.current[hash]).Bytes()
  {
    RecordBijection(t.current[hash].recordBytes, RecordOf(t.current[hash]));
  }

  predicate AcceptedFor(sha: Sha, o: Offer, hash: Hash128) {
    PutChecks(sha, o.agentId, o.record) == None && o.record.Payload().agentIdHash == hash
  }

  function Grown(l: seq<AgentAddr120>, r: AgentAddr120): seq<AgentAddr120> {
    if l == [] || SequenceOf(l[|l| - 1]) < SequenceOf(r) then l + [r] else l
  }

  /** An agent's lineage grows by the offered record exactly when the offer passes the checks
      and beats the last record; every other offer leaves it alone. */
  lemma LineageStep(sha: Sha, t: Tables, o: Offer, hash: Hash128)
    requires WellFormed(t) && (hash !in t.current ==> Lineage(t, hash) == [])
    ensures var t' := PutInto(sha, t, o.agentId, o.record, o.now).0;
            && WellFormed(t')
            && (hash !in t'.current ==> Lineage(t', hash) == [])
            && Lineage(t', hash) == if AcceptedFor(sha, o, hash) then Grown(Lineage(t, hash), o.record)
                 else Lineage(t, hash)
  {
    var key := o.record.Payload().agentIdHash;
    PutCases(sha, t, o);
    if PutInto(sha, t, o.agentId, o.record, o.now).0 != t {
      ReplaceStep(t, key, UpsertOf(Lookup(t, key), o.agentId, o.record, o.now), o.now, hash);
    }
    if hash in t.current {
      LineageTop(t, hash);
    }
  }

  lemma MaximaStep(sha: Sha, t: Tables, o: Offer, hash: Hash128, offered: seq<AgentAddr120>)
    requires WellFormed(t) && (hash !in t.current ==> Lineage(t, hash) == [])
    requires Lineage(t, hash) == StrictMaxima(SequenceOf, offered)
    ensures var t' := PutInto(sha, t, o.agentId, o.record, o.now).0;
            && WellFormed(t')
            && (hash !in t'.current ==> Lineage(t', hash) == [])
            && Lineage(t', hash) == StrictMaxima(SequenceOf, if AcceptedFor(sha, o, hash) then offered + [o.record]
                 else offered)
  {
    LineageStep(sha, t, o, hash);
    MaximaSnoc(SequenceOf, offered, o.record);
  }

  /** Run any list of offers, for any agents, from empty tables: an agent's archive in
      insertion order followed by its current record is exactly the offers for that agent
      whose sequence beats every earlier one. */
  lemma {:induction false} LineageIsMaxima(sha: Sha, offers: seq<Offer>, hash: Hash128)
    ensures WellFormed(Run(sha, offers))
    ensures Lineage(Run(sha, offers), hash) == StrictMaxima(SequenceOf, OfferedFor(sha, offers, hash))
    ensures hash !in Run(sha, offers).current ==> Lineage(Run(sha, offers), hash) == []
  {
    if offers != [] {
      var front, o := offers[..|offers| - 1], offers[|offers| - 1];
      LineageIsMaxima(sha, front, hash);
      MaximaStep(sha, Run(sha, front), o, hash, OfferedFor(sha, front, hash));
    }
  }

  /** The current record is the last of the maxima, and there is one as soon as there is an
      acceptable offer. */
  lemma CurrentIsTop(sha: Sha, offers: seq<Offer>, hash: Hash128)
    ensures hash in Run(sha, offers).current <==> OfferedFor(sha, offers, hash) != []
    ensures OfferedFor(sha, offers, hash) != [] ==>
              StrictMaxima(SequenceOf, OfferedFor(sha, offers, hash)) != []
              && Run(sha, offers).current[hash].recordBytes == Top(SequenceOf, OfferedFor(sha, offers, hash)).Bytes()
  {
    LineageIsMaxima(sha, offers, hash);
    TopIsGreatest(SequenceOf, OfferedFor(sha, offers, hash));
    if hash in Run(sha, offers).current {
      LineageTop(Run(sha, offers), hash);
    }
  }

  /** The current record is the first offer of the greatest sequence. */
  lemma CurrentIsFirstGreatest(sha: Sha, offers: seq<Offer>, hash: Hash128, i: nat)
    requires i < |OfferedFor(sha, offers, hash)|
    requires BeatsAll(SequenceOf, OfferedFor(sha, offers, hash)[i], OfferedFor(sha, offers, hash)[..i])
    requires forall k :: 0 <= k < |OfferedFor(sha, offers, hash)| ==>
               SequenceOf(OfferedFor(sha, offers, hash)[k]) <= SequenceOf(OfferedFor(sha, offers, hash)[i])
    ensures hash in Run(sha, offers).current
    ensures Run(sha, offers).current[hash].recordBytes == OfferedFor(sha, offers, hash)[i].Bytes()
  {
    CurrentIsTop(sha, offers, hash);
    TopIsFirst(SequenceOf, OfferedFor(sha, offers, hash), i);
  }

  /** When sequences are distinct the order of the offers does not matter. */
  lemma OrderDoesNotMatter(sha: Sha, a: seq<Offer>, b: seq<Offer>, hash: Hash128)
    requires multiset(OfferedFor(sha, a, hash)) == multiset(OfferedFor(sha, b, hash))
    requires DistinctKeys(SequenceOf, OfferedFor(sha, a, hash))
    ensures hash in Run(sha, a).current <==> hash in Run(sha, b).current
    ensures hash in Run(sha, a).current ==>
              Run(sha, a).current[hash].recordBytes == Run(sha, b).current[hash].recordBytes
  {
    CurrentIsTop(sha, a, hash);
    CurrentIsTop(sha, b, hash);
    SameTops(SequenceOf, OfferedFor(sha, a, hash), OfferedFor(sha, b, hash));
  }

  // ----- reading the archive -----

  predicate ArchivedEarlier(a: Archived, b: Archived) { a.archivedAt < b.archivedAt }

  function ScanAll(rows: seq<Archived>): Result<seq<IndexedRecord>, IndexError> {
    if rows == [] then Ok([])
    else match ScanAll(rows[..|rows| - 1])
      case Err(e) => Err(e)
      case Ok(front) => match Scan(rows[|rows| - 1].row)
        case Err(e) => Err(e)
        case Ok(last) => Ok(front + [last])
  }

  /** `ORDER BY archived_at ASC, id ASC`: a stable sort of rows that stand in id order. */
  function HistoryOf(t: Tables, hash: Hash128): Result<seq<IndexedRecord>, IndexError> {
    ScanAll(SortBy(ArchivedEarlier, HistoryFor(t.history, hash)))
  }

  ghost predicate Nondecreasing(history: seq<Archived>) {
    forall i, j :: 0 <= i <= j < |history| ==> history[i].archivedAt <= history[j].archivedAt
  }

  lemma {:induction false} InsertBag(s: seq<Archived>, x: Archived)
    ensures multiset(Insert(ArchivedEarlier, s, x)) == multiset(s + [x])
  {
    if s != [] && ArchivedEarlier(x, s[|s| - 1]) {
      var front, last := s[..|s| - 1], s[|s| - 1];
      InsertBag(front, x);
      assert s + [x] == front + [last] + [x];
    }
  }

  lemma AscendsTo(s: seq<Archived>, last: Archived)
    requires Nondecreasing(s) && forall i :: 0 <= i < |s| ==> s[i].archivedAt <= last.archivedAt
    ensures Nondecreasing(s + [last])
  {}

  lemma {:induction false} InsertAscends(s: seq<Archived>, x: Archived)
    requires Nondecreasing(s)
    ensures Nondecreasing(Insert(ArchivedEarlier, s, x))
  {
    if s != [] && ArchivedEarlier(x, s[|s| - 1]) {
      var front, last := s[..|s| - 1], s[|s| - 1];
      InsertAscends(front, x);
      var r := Insert(ArchivedEarlier, front, x);
      InsertBag(front, x);
      forall i | 0 <= i < |r| ensures r[i].archivedAt <= last.archivedAt {
        assert r[i] in multiset(front + [x]);
        assert r[i] in front + [x];
      }
      AscendsTo(r, last);
    } else {
      AscendsTo(s, x);
    }
  }

  lemma {:induction false} SortAscends(s: seq<Archived>)
    ensures Nondecreasing(SortBy(ArchivedEarlier, s))
    ensures multiset(SortBy(ArchivedEarlier, s)) == multiset(s)
  {
    if s != [] {
      var front, last := s[..|s| - 1], s[|s| - 1];
      SortAscends(front);
      InsertAscends(SortBy(ArchivedEarlier, front), last);
      InsertBag(SortBy(ArchivedEarlier, front), last);
      assert s == front + [last];
    }
  }

  lemma {:induction false} AscendingIsFixed(s: seq<Archived>)
    requires Nondecreasing(s)
    ensures SortBy(ArchivedEarlier, s) == s
  {
    if s != [] {
      AscendingIsFixed(s[..|s| - 1]);
    }
  }

  /** Reading an archive in time order returns it in insertion order exactly when its times never
      run backwards. */
  lemma SortFixesAscending(s: seq<Archived>)
    ensures SortBy(ArchivedEarlier, s) == s <==> Nondecreasing(s)
  {
    SortAscends(s);
    if Nondecreasing(s) { AscendingIsFixed(s); }
  }

  lemma {:induction false} HistoryForAgrees(history: seq<Archived>, hash: Hash128)
    requires forall i :: 0 <= i < |history| ==> RowAgrees(history[i].row)
    ensures var rows := HistoryFor(history, hash);
            && |rows| == |HistoryRecords(history, hash)|
            && forall i :: 0 <= i < |rows| ==>
                 RowAgrees(rows[i].row) && RecordOf(rows[i].row) == HistoryRecords(history, hash)[i]
  {
    if history != [] {
      HistoryForAgrees(history[..|history| - 1], hash);
    }
  }

  lemma {:induction false} ScanAllAgrees(rows: seq<Archived>)
    requires forall i :: 0 <= i < |rows| ==> RowAgrees(rows[i].row)
    ensures ScanAll(rows).Ok? && |ScanAll(rows).value| == |rows|
    ensures forall i :: 0 <= i < |rows| ==> ScanAll(rows).value[i].record == RecordOf(rows[i].row)
  {
    if rows != [] {
      ScanAllAgrees(rows[..|rows| - 1]);
    }
  }

  lemma SortAgrees(rows: seq<Archived>)
    requires forall i :: 0 <= i < |rows| ==> RowAgrees(rows[i].row)
    ensures var r := SortBy(ArchivedEarlier, rows);
            && |r| == |rows| && (forall i :: 0 <= i < |r| ==> r[i] in rows && RowAgrees(r[i].row))
  {
    SortAscends(rows);
    var r := SortBy(ArchivedEarlier, rows);
    assert |multiset(r)| == |r| && |multiset(rows)| == |rows|;
    forall i | 0 <= i < |r| ensures r[i] in rows && RowAgrees(r[i].row) {
      assert r[i] in multiset(rows);
    }
  }

  function RecordsOf(records: seq<IndexedRecord>): seq<AgentAddr120> { MapSeq((r: IndexedRecord) => r.record, records) }

  /** `History` never fails on well-formed tables, and while the agent's own archive times do not
      run backwards it returns the lineage without its last record. */
  lemma HistoryInOrder(t: Tables, hash: Hash128)
    requires WellFormed(t)
    ensures HistoryOf(t, hash).Ok?
    ensures SortBy(ArchivedEarlier, HistoryFor(t.history, hash)) == HistoryFor(t.history, hash) <==>
              Nondecreasing(HistoryFor(t.history, hash))
    ensures Nondecreasing(HistoryFor(t.history, hash)) ==>
              RecordsOf(HistoryOf(t, hash).value) == HistoryRecords(t.history, hash)
  {
    var rows := HistoryFor(t.history, hash);
    HistoryForAgrees(t.history, hash);
    SortAgrees(rows);
    ScanAllAgrees(SortBy(ArchivedEarlier, rows));
    SortFixesAscending(rows);
  }

  /** Items with different keys stand in the same places as soon as their keys do. */
  lemma SamePlaces<T, K>(key: T -> K, items: seq<T>, moved: seq<T>)
    requires |moved| == |items| && forall i :: 0 <= i < |items| ==> moved[i] in items && key(moved[i]) == key(items[i])
    requires forall i, j :: 0 <= i < j < |items| ==> key(items[i]) != key(items[j])
    ensures moved == items
  {
    forall i | 0 <= i < |items| ensures moved[i] == items[i] {
      var j :| 0 <= j < |items| && items[j] == moved[i];
      assert key(items[j]) == key(items[i]);
    }
  }

  /** After any run of puts, what `History` returns is the archive in insertion order if and only
      if the agent's archive times never run backwards. */
  lemma HistoryOrderExactly(sha: Sha, offers: seq<Offer>, hash: Hash128)
    ensures WellFormed(Run(sha, offers)) && HistoryOf(Run(sha, offers), hash).Ok?
    ensures RecordsOf(HistoryOf(Run(sha, offers), hash).value) == HistoryRecords(Run(sha, offers).history, hash) <==>
            Nondecreasing(HistoryFor(Run(sha, offers).history, hash))
  {
    LineageIsMaxima(sha, offers, hash);
    MaximaAscend(SequenceOf, OfferedFor(sha, offers, hash));
    var t := Run(sha, offers);
    HistoryInOrder(t, hash);
    ArchiveIsDistinct(t, hash);
    if RecordsOf(HistoryOf(t, hash).value) == HistoryRecords(t.history, hash) { ReturnedInOrder(t, hash); }
  }

  /** The record a row decodes to, if it does. */
  function Signed(a: Archived): Option<AgentAddr120> {
    match Decoded(a.row.recordBytes) case Err(_) => None case Ok(r) => Some(r)
  }

  lemma ReturnedRecords(t: Tables, hash: Hash128)
    requires WellFormed(t)
    ensures HistoryOf(t, hash).Ok?
    ensures var rows, returned := HistoryFor(t.history, hash), RecordsOf(HistoryOf(t, hash).value);
            var sorted := SortBy(ArchivedEarlier, rows);
            && |sorted| == |rows| == |returned| == |HistoryRecords(t.history, hash)|
            && forall i :: 0 <= i < |rows| ==>
                 && sorted[i] in rows && Signed(sorted[i]) == Some(returned[i])
                 && Signed(rows[i]) == Some(HistoryRecords(t.history, hash)[i])
  {
    HistoryForAgrees(t.history, hash);
    SortAgrees(HistoryFor(t.history, hash));
    ScanAllAgrees(SortBy(ArchivedEarlier, HistoryFor(t.history, hash)));
  }

  lemma AgreeInPlace(rows: seq<Archived>, sorted: seq<Archived>, records: seq<AgentAddr120>)
    requires |rows| == |sorted| == |records|
    requires forall i :: 0 <= i < |rows| ==>
               sorted[i] in rows && Signed(sorted[i]) == Some(records[i]) && Signed(rows[i]) == Some(records[i])
    requires forall i, j :: 0 <= i < j < |records| ==> records[i] != records[j]
    ensures sorted == rows
  {
    SamePlaces(Signed, rows, sorted);
  }

  lemma ReturnedInOrder(t: Tables, hash: Hash128)
    requires WellFormed(t) && HistoryOf(t, hash).Ok?
    requires RecordsOf(HistoryOf(t, hash).value) == HistoryRecords(t.history, hash)
    requires var r := HistoryRecords(t.history, hash); forall i, j :: 0 <= i < j < |r| ==> r[i] != r[j]
    ensures Nondecreasing(HistoryFor(t.history, hash))
  {
    ReturnedRecords(t, hash);
    SortFixesAscending(HistoryFor(t.history, hash));
    AgreeInPlace(HistoryFor(t.history, hash), SortBy(ArchivedEarlier, HistoryFor(t.history, hash)),
          HistoryRecords(t.history, hash));
  }

  lemma ArchiveIsDistinct(t: Tables, hash: Hash128)
    requires WellFormed(t)
    requires Ascends(SequenceOf, Lineage(t, hash))
    ensures var r := HistoryRecords(t.history, hash); forall i, j :: 0 <= i < j < |r| ==> r[i] != r[j]
  {
    var l, r := Lineage(t, hash), HistoryRecords(t.history, hash);
    forall i, j | 0 <= i < j < |r| ensures r[i] != r[j] {
      assert l[i] == r[i] && l[j] == r[j];
    }
  }

  /** What the tables hold for an agent that has a row. */
  ghost predicate Holds(t: Tables, hash: Hash128, lineage: seq<AgentAddr120>, archive: seq<Archived>) {
    && WellFormed(t) && hash in t.current && lineage != [] && Lineage(t, hash) == lineage
    && HistoryFor(t.history, hash) == archive
  }

  lemma NextPut(sha: Sha, t: Tables, o: Offer, hash: Hash128, lineage: seq<AgentAddr120>, archive: seq<Archived>)
    requires Holds(t, hash, lineage, archive) && AcceptedFor(sha, o, hash)
    requires SequenceOf(lineage[|lineage| - 1]) < SequenceOf(o.record)
    ensures Holds(PutInto(sha, t, o.agentId, o.record, o.now).0, hash, lineage + [o.record],
              archive + [Archived(t.current[hash], o.now)])
  {
    LineageTop(t, hash);
    PutCases(sha, t, o);
    LineageStep(sha, t, o, hash);
    var t' := PutInto(sha, t, o.agentId, o.record, o.now).0;
    assert t'.history == t.history + [Archived(t.current[hash], o.now)];
    assert t'.history[..|t.history|] == t.history;
  }

  lemma FirstPut(sha: Sha, o: Offer, hash: Hash128)
    requires AcceptedFor(sha, o, hash)
    ensures Holds(PutInto(sha, EMPTY, o.agentId, o.record, o.now).0, hash, [o.record], [])
  {
    PutCases(sha, EMPTY, o);
    assert WellFormed(EMPTY) && Lineage(EMPTY, hash) == [];
    LineageStep(sha, EMPTY, o, hash);
    assert PutInto(sha, EMPTY, o.agentId, o.record, o.now).0.history == [];
  }

  lemma HeldArchive(t: Tables, hash: Hash128, lineage: seq<AgentAddr120>, archive: seq<Archived>)
    requires Holds(t, hash, lineage, archive)
    ensures HistoryRecords(t.history, hash) == lineage[..|lineage| - 1]
  {
    LineageTop(t, hash);
  }

  /** Two archived rows whose times run backwards are read back in reverse. */
  lemma ReadReversed(t: Tables, hash: Hash128, a: Archived, b: Archived)
    requires WellFormed(t) && HistoryFor(t.history, hash) == [a, b] && ArchivedEarlier(b, a)
    ensures HistoryOf(t, hash).Ok? && |HistoryRecords(t.history, hash)| == 2
    ensures RecordsOf(HistoryOf(t, hash).value) ==
            [HistoryRecords(t.history, hash)[1], HistoryRecords(t.history, hash)[0]]
  {
    SortPair(a, b);
    ReturnedRecords(t, hash);
    assert [a, b][0] == a && [a, b][1] == b && [b, a][0] == b && [b, a][1] == a;
  }

  /** The archive holds the first two records of the lineage and is read with the second first. */
  ghost predicate Reversed(t: Tables, hash: Hash128, first: AgentAddr120, second: AgentAddr120, third: AgentAddr120) {
    && WellFormed(t) && Lineage(t, hash) == [first, second, third]
    && HistoryOf(t, hash).Ok? && RecordsOf(HistoryOf(t, hash).value) == [second, first]
  }

  lemma HeldReversed(t: Tables, hash: Hash128, first: AgentAddr120, second: AgentAddr120, third: AgentAddr120,
      a: Archived, b: Archived)
    requires Holds(t, hash, [first] + [second] + [third], [a] + [b]) && ArchivedEarlier(b, a)
    ensures Reversed(t, hash, first, second, third)
  {
    HeldArchive(t, hash, [first] + [second] + [third], [a] + [b]);
    ReadReversed(t, hash, a, b);
    FirstTwo(first, second, third);
  }

  lemma FirstTwo<T>(x: T, y: T, z: T)
    ensures var s := [x] + [y] + [z]; s == [x, y, z] && |s| == 3 && s[..2] == [x, y] && [x, y][0] == x && [x, y][1] == y
  {}

  lemma RunSnoc(sha: Sha, offers: seq<Offer>, o: Offer)
    ensures Run(sha, offers + [o]) == PutInto(sha, Run(sha, offers), o.agentId, o.record, o.now).0
  {
    assert (offers + [o])[..|offers|] == offers;
  }

  /** Puts on one agent, seen from outside: `holds` says what lineage and archive a run leaves. */
  datatype Putting = Putting(accepts: Offer -> bool, holds: (seq<Offer>, seq<AgentAddr120>, seq<Archived>) -> bool)

  ghost predicate HoldsAfter(p: Putting, offers: seq<Offer>, o: Offer, lineage: seq<AgentAddr120>,
        archive: seq<Archived>) {
    exists a: Archived :: a.archivedAt == o.now && p.holds(offers + [o], lineage + [o.record], archive + [a])
  }

  /** Every accepted higher sequence is put on top, archiving what was there at its own time. */
  ghost predicate Stacks(p: Putting) {
    forall offers, lineage: seq<AgentAddr120>, archive, o ::
      p.holds(offers, lineage, archive) && p.accepts(o) && lineage != []
          && SequenceOf(lineage[|lineage| - 1]) < SequenceOf(o.record) ==>
        HoldsAfter(p, offers, o, lineage, archive)
  }

  lemma TwoMore(p: Putting, offers: seq<Offer>, first: AgentAddr120, second: Offer, third: Offer)
    returns (a: Archived, b: Archived)
    requires Stacks(p) && p.holds(offers, [first], []) && p.accepts(second) && p.accepts(third)
    requires SequenceOf(first) < SequenceOf(second.record) < SequenceOf(third.record)
    ensures p.holds(offers + [second] + [third], [first] + [second.record] + [third.record], [a] + [b])
    ensures a.archivedAt == second.now && b.archivedAt == third.now
  {
    assert HoldsAfter(p, offers, second, [first], []);
    a :| a.archivedAt == second.now && p.holds(offers + [second], [first] + [second.record], [] + [a]);
    assert [] + [a] == [a];
    assert HoldsAfter(p, offers + [second], third, [first] + [second.record], [a]);
    b :| b.archivedAt == third.now && p.holds(offers + [second] + [third], [first] + [second.record] + [third.record],
          [a] + [b]);
  }

  ghost function PuttingOn(sha: Sha, hash: Hash128): Putting {
    Putting((o: Offer) => AcceptedFor(sha, o, hash),
            (offers: seq<Offer>, lineage: seq<AgentAddr120>, archive: seq<Archived>) =>
              Holds(Run(sha, offers), hash, lineage, archive))
  }

  lemma StacksOne(sha: Sha, hash: Hash128, offers: seq<Offer>, o: Offer, lineage: seq<AgentAddr120>,
        archive: seq<Archived>)
    requires Holds(Run(sha, offers), hash, lineage, archive) && AcceptedFor(sha, o, hash)
    requires SequenceOf(lineage[|lineage| - 1]) < SequenceOf(o.record)
    ensures HoldsAfter(PuttingOn(sha, hash), offers, o, lineage, archive)
  {
    RunSnoc(sha, offers, o);
    NextPut(sha, Run(sha, offers), o, hash, lineage, archive);
    var a := Archived(Run(sha, offers).current[hash], o.now);
    assert PuttingOn(sha, hash).holds(offers + [o], lineage + [o.record], archive + [a]);
  }

  lemma PuttingStacks(sha: Sha, hash: Hash128)
    ensures Stacks(PuttingOn(sha, hash))
  {
    forall offers, lineage: seq<AgentAddr120>, archive, o
      | Holds(Run(sha, offers), hash, lineage, archive) && AcceptedFor(sha, o, hash)
        && SequenceOf(lineage[|lineage| - 1]) < SequenceOf(o.record)
      ensures HoldsAfter(PuttingOn(sha, hash), offers, o, lineage, archive)
    {
      StacksOne(sha, hash, offers, o, lineage, archive);
    }
  }

  lemma RunFirst(sha: Sha, first: Offer, hash: Hash128)
    requires AcceptedFor(sha, first, hash)
    ensures PuttingOn(sha, hash).holds([first], [first.record], [])
  {
    FirstPut(sha, first, hash);
    RunSnoc(sha, [], first);
    assert [] + [first] == [first];
  }

  /** Three ascending puts of which the second started after the third: `archived_at` is the start
      of the transaction that archives, so the two replaced records are read back in reverse. */
  lemma HistoryReversed(sha: Sha, first: Offer, second: Offer, third: Offer, hash: Hash128)
    requires AcceptedFor(sha, first, hash) && AcceptedFor(sha, second, hash) && AcceptedFor(sha, third, hash)
    requires SequenceOf(first.record) < SequenceOf(second.record) < SequenceOf(third.record)
    requires third.now < second.now
    ensures Reversed(Run(sha, [first] + [second] + [third]), hash, first.record, second.record, third.record)
  {
    PuttingStacks(sha, hash);
    RunFirst(sha, first, hash);
    var a, b := TwoMore(PuttingOn(sha, hash), [first], first.record, second, third);
    HeldReversed(Run(sha, [first] + [second] + [third]), hash, first.record, second.record, third.record, a, b);
  }

  lemma SortPair(x: Archived, y: Archived)
    requires ArchivedEarlier(y, x)
    ensures SortBy(ArchivedEarlier, [x, y]) == [y, x]
  {
    assert [x, y][..1] == [x] && [x][..0] == [];
    assert SortBy(ArchivedEarlier, [x]) == Insert(ArchivedEarlier, [], x) == [x];
    assert Insert(ArchivedEarlier, [x], y) == Insert(ArchivedEarlier, [], y) + [x];
  }

  // ----- the store -----

  class PostgresStore {
    const sha: Sha
    var current: map<Hash128, Row>
    var history: seq<Archived>

    function Rows(): Tables
      reads this
    {
      Tables(current, history)
    }

    constructor (sha: Sha)
      ensures this.sha == sha && Rows() == EMPTY
    {
      this.sha := sha;
      current, history := map[], [];
    }

    /** `now` is the start time of the transaction; `up` says whether the database commits it. */
    method Put(agentId: string, record: AgentAddr120, now: Instant, up: bool) returns (r: Option<IndexError>)
      modifies this
      ensures PutChecks(sha, agentId, record).Some? || up ==>
                (Rows(), r) == PutInto(sha, old(Rows()), agentId, record, now)
      ensures PutChecks(sha, agentId, record).None? && !up ==> Rows() == old(Rows()) && r == Some(IndexUnavailable)
    {
      var checks := PutChecks(sha, agentId, record);
      if checks.Some? {
        return checks;
      }
      if !up {
        return Some(IndexUnavailable);
      }
      var hash := record.Payload().agentIdHash;
      if hash in current {
        var scanned := Scan(current[hash]);
        if scanned.Err? {
          return Some(scanned.error);
        }
        var sequence := record.Payload().sequence;
        if sequence < scanned.value.sequence {
          return Some(StaleSequence);
        }
        if sequence == scanned.value.sequence {
          if record.Bytes() == scanned.value.record.Bytes() {
            return None;
          }
          return Some(SequenceConflict);
        }
      }
      var found := if hash in current then Some(current[hash]) else None;
      history := history + ArchiveOf(found, now);
      current := current[hash := UpsertOf(found, agentId, record, now)];
      r := None;
    }

    method Get(hash: Hash128) returns (r: Result<IndexedRecord, IndexError>)
      ensures r == GetFrom(Rows(), hash)
    {
      if hash !in current {
        return Err(RecordNotFound);
      }
      r := Scan(current[hash]);
    }

    method History(hash: Hash128) returns (r: Result<seq<IndexedRecord>, IndexError>)
      ensures r == HistoryOf(Rows(), hash)
    {
      var rows := SortBy(ArchivedEarlier, HistoryFor(history, hash));
      var records: seq<IndexedRecord> := [];
      for i := 0 to |rows|
        invariant ScanAll(rows[..i]) == Ok(records)
      {
        var scanned := Scan(rows[i].row);
        assert rows[..i + 1][..i] == rows[..i];
        if scanned.Err? {
          ScanAllFails(rows, i + 1);
          return Err(scanned.error);
        }
        records := records + [scanned.value];
      }
      assert rows[..|rows|] == rows;
      r := Ok(records);
    }
  }

  lemma {:induction false} ScanAllFails(rows: seq<Archived>, i: nat)
    requires i <= |rows| && ScanAll(rows[..i]).Err?
    ensures ScanAll(rows) == ScanAll(rows[..i])
  {
    if i < |rows| {
      assert rows[..|rows| - 1][..i] == rows[..i];
      ScanAllFails(rows[..|rows| - 1], i);
    } else {
      assert rows[..i] == rows;
    }
  }
}
