/** The audit store: appending, listing by page, and the rows events are kept in. */
module AuditStore {
  import opened Prelude
  import opened Clock
  import opened Json
  import opened CanonicalJson
  import opened HashChain
  import opened Audit

  const DEFAULT_LIST_LIMIT := 100
  const MAX_LIST_LIMIT := 500
  const MAX_INT := 0x7FFF_FFFF_FFFF_FFFF

  datatype Query = Query(agentId: string, eventType: string, decision: string, limit: int, offset: int)

  datatype ListResult = ListResult(items: seq<Event>, limit: int, offset: int, count: int)

  function NormalizeQuery(q: Query): Result<Query, AuditError> {
    var limit := if q.limit == 0 then DEFAULT_LIST_LIMIT else q.limit;
    if limit < 0 || limit > MAX_LIST_LIMIT then Err(InvalidLimit)
    else if q.offset < 0 then Err(InvalidOffset)
    else if q.eventType != "" && !SupportedEventType(q.eventType) then Err(UnsupportedEventType)
    else if q.decision != "" && !SupportedDecision(q.decision) then Err(UnsupportedDecision)
    else Ok(q.(limit := limit))
  }

  predicate Matches(q: Query, e: Event) {
    && (q.agentId != "" ==> e.agentId == q.agentId)
    && (q.eventType != "" ==> e.eventType == q.eventType)
    && (q.decision != "" ==> e.decision == q.decision)
  }

  function Filter<T>(keep: T -> bool, s: seq<T>): seq<T> {
    if s == [] then []
    else
      var front := Filter(keep, s[..|s| - 1]);
      if keep(s[|s| - 1]) then front + [s[|s| - 1]] else front
  }

  /** The items from `offset` on, at most `limit` of them. */
  function Window<T>(s: seq<T>, offset: nat, limit: nat): (r: seq<T>)
    ensures |r| <= limit
    ensures forall i :: 0 <= i < |r| ==> offset + i < |s| && r[i] == s[offset + i]
    ensures |r| < limit ==> |s| <= offset + |r|
  {
    if offset >= |s| then [] else if offset + limit >= |s| then s[offset..] else s[offset..offset + limit]
  }

  function Upto(n: nat, most: nat): nat { if n < most then n else most }

  /** Clamping the offset to the number of matches keeps the end of the window within a machine
      integer for every valid query, however large its offset. */
  lemma ClampFits(q: Query, matches: nat)
    requires NormalizeQuery(q).Ok? && matches <= MAX_INT - MAX_LIST_LIMIT
    ensures var n := NormalizeQuery(q).value;
            && n.offset >= 0 && n.limit >= 0 && Upto(n.offset, matches) + n.limit <= MAX_INT
  {}

  /** The answer to a query over a log. */
  function Answer(events: seq<Event>, q: Query): Result<ListResult, AuditError> {
    match NormalizeQuery(q)
    case Err(e) => Err(e)
    case Ok(n) =>
      var items := Window(Filter((e: Event) => Matches(n, e), events), n.offset, n.limit);
      Ok(ListResult(items, n.limit, n.offset, |items|))
  }

  // ----- pages -----

  /** Where page `n` starts, pages counted from 0. */
  function Offset(n: nat, limit: nat): nat { if n == 0 then 0 else Offset(n - 1, limit) + limit }

  lemma {:induction false} OffsetIsProduct(n: nat, limit: nat)
    ensures Offset(n, limit) == n * limit
  {
    if n > 0 {
      OffsetIsProduct(n - 1, limit);
      assert n * limit == (n - 1) * limit + limit;
    }
  }

  function Pages<T>(s: seq<T>, limit: nat, n: nat): seq<T> {
    if n == 0 then [] else Pages(s, limit, n - 1) + Window(s, Offset(n - 1, limit), limit)
  }

  lemma WindowExtends<T>(s: seq<T>, at: nat, limit: nat)
    ensures s[..Upto(at, |s|)] + Window(s, at, limit) == s[..Upto(at + limit, |s|)]
  {}

  /** The first `n` pages, one behind the other, are the items before page `n` starts, in order;
      so once that is past the end they are the whole list. */
  lemma {:induction false} PagesConcatenate<T>(s: seq<T>, limit: nat, n: nat)
    ensures Pages(s, limit, n) == s[..Upto(Offset(n, limit), |s|)]
    ensures Offset(n, limit) >= |s| ==> Pages(s, limit, n) == s
  {
    if n > 0 {
      PagesConcatenate(s, limit, n - 1);
      WindowExtends(s, Offset(n - 1, limit), limit);
    }
  }

  /** A full page stays as it is when the list grows at the end. */
  lemma FullPageIsStable<T>(s: seq<T>, more: seq<T>, offset: nat, limit: nat)
    requires |Window(s, offset, limit)| == limit
    ensures Window(s + more, offset, limit) == Window(s, offset, limit)
  {
    var a, b := Window(s, offset, limit), Window(s + more, offset, limit);
    assert |b| == limit;
    forall i | 0 <= i < limit ensures a[i] == b[i] {}
  }

  lemma {:induction false} FilterAppend<T>(keep: T -> bool, s: seq<T>, more: seq<T>)
    ensures Filter(keep, s + more) == Filter(keep, s) + Filter(keep, more)
  {
    if more == [] {
      assert s + more == s;
    } else {
      assert (s + more)[..|s + more| - 1] == s + more[..|more| - 1];
      FilterAppend(keep, s, more[..|more| - 1]);
    }
  }

  function PageQuery(q: Query, limit: int, offset: int): Query { q.(limit := limit, offset := offset) }

  function AnsweredPages(events: seq<Event>, q: Query, limit: int, n: nat): seq<Event>
    requires limit >= 0 && forall k: nat :: k < n ==> Answer(events, PageQuery(q, limit, Offset(k, limit))).Ok?
  {
    if n == 0 then []
    else AnsweredPages(events, q, limit, n - 1) + Answer(events, PageQuery(q, limit, Offset(n - 1, limit))).value.items
  }

  lemma AnswerIsPage(events: seq<Event>, q: Query, limit: int, offset: nat)
    requires 1 <= limit <= MAX_LIST_LIMIT && Answer(events, PageQuery(q, limit, 0)).Ok?
    ensures Answer(events, PageQuery(q, limit, offset)).Ok?
    ensures Answer(events, PageQuery(q, limit, offset)).value.items ==
            Window(Filter((e: Event) => Matches(q, e), events), offset, limit)
  {
    SameFilter(events, PageQuery(q, limit, offset), q);
  }

  lemma {:induction false} AnswersArePages(events: seq<Event>, q: Query, limit: int, n: nat)
    requires 1 <= limit <= MAX_LIST_LIMIT && Answer(events, PageQuery(q, limit, 0)).Ok?
    requires forall k: nat :: Answer(events, PageQuery(q, limit, Offset(k, limit))).Ok?
    ensures AnsweredPages(events, q, limit, n) == Pages(Filter((e: Event) => Matches(q, e), events), limit, n)
  {
    if n > 0 {
      AnswersArePages(events, q, limit, n - 1);
      AnswerIsPage(events, q, limit, Offset(n - 1, limit));
    }
  }

  lemma {:induction false} SameFilter(events: seq<Event>, p: Query, q: Query)
    requires p.agentId == q.agentId && p.eventType == q.eventType && p.decision == q.decision
    ensures Filter((e: Event) => Matches(p, e), events) == Filter((e: Event) => Matches(q, e), events)
  {
    if events != [] {
      SameFilter(events[..|events| - 1], p, q);
    }
  }

  /** Asking for offsets 0, L, 2L and so on returns every matching event exactly once, in
      order, and nothing else. */
  lemma PagingCoversTheLog(events: seq<Event>, q: Query, limit: int, n: nat)
    requires 1 <= limit <= MAX_LIST_LIMIT && Answer(events, PageQuery(q, limit, 0)).Ok?
    requires n * limit >= |Filter((e: Event) => Matches(q, e), events)|
    ensures Offset(n, limit) == n * limit
    ensures forall k: nat :: Answer(events, PageQuery(q, limit, Offset(k, limit))).Ok?
    ensures AnsweredPages(events, q, limit, n) == Filter((e: Event) => Matches(q, e), events)
  {
    OffsetIsProduct(n, limit);
    forall k: nat ensures Answer(events, PageQuery(q, limit, Offset(k, limit))).Ok? {
      AnswerIsPage(events, q, limit, Offset(k, limit));
    }
    AnswersArePages(events, q, limit, n);
    PagesConcatenate(Filter((e: Event) => Matches(q, e), events), limit, n);
  }

  /** A page that came back full comes back the same after any later appends. */
  lemma FullAnswerIsStable(events: seq<Event>, more: seq<Event>, q: Query)
    requires Answer(events, q).Ok? && Answer(events, q).value.count == Answer(events, q).value.limit
    ensures Answer(events + more, q) == Answer(events, q)
  {
    var n := NormalizeQuery(q).value;
    FilterAppend((e: Event) => Matches(n, e), events, more);
    FullPageIsStable(Filter((e: Event) => Matches(n, e), events), Filter((e: Event) => Matches(n, e), more), n.offset,
          n.limit);
  }

  // ----- rows -----

  /** A row of `audit_events`; empty texts are stored as NULL. */
  datatype EventRow = EventRow(
    eventId: string, eventType: string, agentId: Option<string>, agentHash: Option<string>, actorHash: Option<string>,
    decision: string, reason: Option<string>, eventJson: Json,
    previousHash: Option<string>, eventHash: string, createdAt: Instant)

  function NullString(s: string): Option<string> { if s == "" then None else Some(s) }

  function StringOf(s: Option<string>): string { if s == None then "" else s.value }

  /** Storage may rewrite a document as long as it means the same. */
  ghost predicate KeepsMeaning(jsonb: Json -> Json) { forall j :: SameMeaning(j, jsonb(j)) }

  function StoreRow(jsonb: Json -> Json, e: Event): EventRow
    requires e.eventJson.Doc?
  {
    EventRow(e.eventId, e.eventType, NullString(e.agentId), NullString(e.agentHash), NullString(e.actorHash),
             e.decision, NullString(e.reason), jsonb(e.eventJson.json),
             NullString(e.previousHash), e.eventHash, TruncateMicros(e.createdAt))
  }

  function ScanEvent(row: EventRow): Event
    requires Printable(Stamp(row.createdAt, 0))
  {
    Event(row.eventId, row.eventType, StringOf(row.agentId), StringOf(row.agentHash), StringOf(row.actorHash),
          row.decision, StringOf(row.reason), Doc(CanonicalTree(row.eventJson)),
          StringOf(row.previousHash), row.eventHash, row.createdAt)
  }

  /** What comes back from storage has the same link in the chain exactly when the time was a
      whole number of microseconds, whatever storage did to the document's layout. */
  lemma LinkSurvivesStorage(jsonb: Json -> Json, e: Event)
    requires KeepsMeaning(jsonb) && e.eventJson.Doc?
    ensures Printable(Stamp(StoreRow(jsonb, e).createdAt, 0))
    ensures LinkOf(ScanEvent(StoreRow(jsonb, e))) == LinkOf(e) <==> e.createdAt % 1000 == 0
  {
    TruncatedIsPrintable(e.createdAt);
    var j := e.eventJson.json;
    var back := ScanEvent(StoreRow(jsonb, e));
    SameMeaningIsEqualDecoding(j, jsonb(j));
    DecodeEncode(Decode(jsonb(j)));
    PayloadIsCovered(back, e);
  }

  /** A stored event in canonical form comes back unchanged exactly under the same condition. */
  lemma RowRoundTrip(jsonb: Json -> Json, e: Event)
    requires KeepsMeaning(jsonb) && e.eventJson.Doc? && e.eventJson.json == CanonicalTree(e.eventJson.json)
    ensures Printable(Stamp(StoreRow(jsonb, e).createdAt, 0))
    ensures ScanEvent(StoreRow(jsonb, e)) == e <==> e.createdAt % 1000 == 0
  {
    TruncatedIsPrintable(e.createdAt);
    SameMeaningIsEqualDecoding(e.eventJson.json, jsonb(e.eventJson.json));
  }

  // ----- the query as SQL runs it -----

  datatype Column = AgentIdColumn | EventTypeColumn | DecisionColumn

  /** The WHERE clause: one equality per filter that was given. */
  function Filters(q: Query): seq<(Column, string)> {
    (if q.agentId != "" then [(AgentIdColumn, q.agentId)] else [])
    + (if q.eventType != "" then [(EventTypeColumn, q.eventType)] else [])
    + (if q.decision != "" then [(DecisionColumn, q.decision)] else [])
  }

  /** An equality with NULL is not true. */
  predicate Satisfies(row: EventRow, c: (Column, string)) {
    match c.0
    case AgentIdColumn => row.agentId == Some(c.1)
    case EventTypeColumn => row.eventType == c.1
    case DecisionColumn => row.decision == c.1
  }

  predicate Where(filters: seq<(Column, string)>, row: EventRow) {
    forall i :: 0 <= i < |filters| ==> Satisfies(row, filters[i])
  }

  lemma WhereIsMatches(jsonb: Json -> Json, q: Query, e: Event)
    requires e.eventJson.Doc?
    ensures Where(Filters(q), StoreRow(jsonb, e)) <==> Matches(q, e)
  {
    var row, filters := StoreRow(jsonb, e), Filters(q);
    if Where(filters, row) {
      if q.agentId != "" { assert filters[0] == (AgentIdColumn, q.agentId); }
      if q.eventType != "" {
        var i := if q.agentId != "" then 1 else 0;
        assert filters[i] == (EventTypeColumn, q.eventType);
      }
      if q.decision != "" { assert filters[|filters| - 1] == (DecisionColumn, q.decision); }
    }
  }

  lemma {:induction false} FilterMap<S, T>(f: S -> T, keep: T -> bool, kept: S -> bool, s: seq<S>)
    requires forall x :: x in s ==> (keep(f(x)) <==> kept(x))
    ensures Filter(keep, MapSeq(f, s)) == MapSeq(f, Filter(kept, s))
  {
    if s != [] {
      var front := s[..|s| - 1];
      FilterMap(f, keep, kept, front);
      assert s[|s| - 1] in s;
      assert MapSeq(f, s)[..|s| - 1] == MapSeq(f, front);
      if kept(s[|s| - 1]) {
        assert Filter(kept, s)[..|Filter(kept, front)|] == Filter(kept, front);
      }
    }
  }

  lemma WindowMap<S, T>(f: S -> T, s: seq<S>, offset: nat, limit: nat)
    ensures Window(MapSeq(f, s), offset, limit) == MapSeq(f, Window(s, offset, limit))
  {
    var a, b := Window(MapSeq(f, s), offset, limit), MapSeq(f, Window(s, offset, limit));
    assert |a| == |b|;
  }

  /** Filtering, limiting and offsetting the rows returns the rows of the events that the
      in-memory loop returns. */
  lemma SqlAnswersLikeTheLoop(row: Event -> EventRow, jsonb: Json -> Json, events: seq<Event>, q: Query)
    requires forall e :: e in events ==> e.eventJson.Doc? && row(e) == StoreRow(jsonb, e)
    requires Answer(events, q).Ok?
    ensures var n := NormalizeQuery(q).value;
            Window(Filter((r: EventRow) => Where(Filters(n), r), MapSeq(row, events)), n.offset, n.limit)
            == MapSeq(row, Answer(events, q).value.items)
  {
    var n := NormalizeQuery(q).value;
    var keep, kept := (r: EventRow) => Where(Filters(n), r), (e: Event) => Matches(n, e);
    forall e | e in events ensures keep(row(e)) <==> kept(e) { WhereIsMatches(jsonb, n, e); }
    FilterMap(row, keep, kept, events);
    WindowMap(row, Filter(kept, events), n.offset, n.limit);
  }

  // ----- the in-memory store -----

  class MemoryStore {
    const sha: Sha
    var events: seq<Event>

    ghost predicate Valid()
      reads this
    {
      ChainValid(sha, Links(events))
    }

    constructor (sha: Sha)
      ensures this.sha == sha && events == [] && Valid()
    {
      this.sha := sha;
      events := [];
    }

    /** `up` says whether the store takes the write. */
    method Append(input: EventInput, eventId: Option<string>, now: UtcInstant, up: bool) returns (r: Result<Event,
        AuditError>)
      requires Valid()
      modifies this
      ensures Valid()
      ensures r == if up then NewEvent(sha, old(Head(Links(events))), input, eventId, now) else Err(AuditUnavailable)
      ensures events == if r.Ok? then old(events) + [r.value] else old(events)
    {
      if !up {
        return Err(AuditUnavailable);
      }
      var previousHash := "";
      if |events| > 0 {
        previousHash := events[|events| - 1].eventHash;
      }
      assert previousHash == Head(Links(events));
      r := NewEvent(sha, previousHash, input, eventId, now);
      if r.Ok? {
        AppendKeepsChain(sha, events, input, eventId, now);
        events := events + [r.value];
      }
    }

    method ListByAgent(agentId: string) returns (r: seq<Event>)
      ensures r == Filter((e: Event) => e.agentId == agentId, events)
    {
      ghost var keep := (e: Event) => e.agentId == agentId;
      r := [];
      for i := 0 to |events|
        invariant r == Filter(keep, events[..i])
      {
        assert events[..i + 1][..i] == events[..i];
        if events[i].agentId == agentId {
          r := r + [events[i]];
        }
      }
      assert events[..|events|] == events;
    }

    method Query(q: Query) returns (r: Result<ListResult, AuditError>)
      ensures r == Answer(events, q)
    {
      var normalized := NormalizeQuery(q);
      if normalized.Err? {
        return Err(normalized.error);
      }
      var n := normalized.value;
      ghost var keep := (e: Event) => Matches(n, e);
      var matched: seq<Event> := [];
      for i := 0 to |events|
        invariant matched == Filter(keep, events[..i])
        invariant |matched| <= i
      {
        assert events[..i + 1][..i] == events[..i];
        if n.agentId != "" && events[i].agentId != n.agentId { continue; }
        if n.eventType != "" && events[i].eventType != n.eventType { continue; }
        if n.decision != "" && events[i].decision != n.decision { continue; }
        matched := matched + [events[i]];
      }
      assert events[..|events|] == events;
      var start := n.offset;
      if start > |matched| {
        start := |matched|;
      }
      var end := start + n.limit;
      if |matched| <= MAX_INT - MAX_LIST_LIMIT {
        ClampFits(q, |matched|);
        assert end <= MAX_INT;
      }
      if end > |matched| {
        end := |matched|;
      }
      assert matched[start..end] == Window(matched, n.offset, n.limit);
      r := Ok(ListResult(matched[start..end], n.limit, n.offset, end - start));
    }

    method VerifyHashChain() returns (r: Option<Break>)
      ensures Verdict(sha, Links(events), r)
      ensures Valid() ==> r == None
    {
      r := VerifyEvents(sha, events);
      if Valid() {
        VerdictUnique(sha, Links(events), r, None);
      }
    }
  }
}
