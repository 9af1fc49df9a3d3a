/**
 * The message lifecycle as pure transitions over the table and the queue of delete
 * events, for the handlers of internal/handler/message.go and for the legacy handlers
 * of main.go. The imperative handlers are proved to perform these transitions; the
 * lemmas here state what any sequence of requests does.
 */
module Lifecycle {
  import opened Wrappers
  import opened Model
  import opened Store

  /** The table, its AUTO_INCREMENT counter and the pending delete events, oldest first. */
  datatype State = State(rows: Rows, nextId: nat, events: seq<DeleteEvent>)

  predicate Valid(s: State) {
    KeysBelow(s.rows, s.nextId)
  }

  /** A successful create: the row gets the next key, the current time and no deleted_at. */
  function Create(s: State, content: string, now: Time): (r: State)
    requires Valid(s)
    ensures Valid(r) && s.nextId !in s.rows
    ensures r.rows.Keys == s.rows.Keys + {s.nextId}
    ensures r.rows[s.nextId] == Record(content, now, None) && r.nextId == s.nextId + 1
    ensures forall k :: k in s.rows ==> r.rows[k] == s.rows[k]
    ensures r.events == s.events
  {
    State(s.rows[s.nextId := Record(content, now, None)], s.nextId + 1, s.events)
  }

  /** Record `deleted_at = now` on the row `id` names, then enqueue one event carrying the same instant. */
  function MarkDeleted(s: State, id: string, now: Time): State
    requires Valid(s)
  {
    State(SetDeletedAt(s.rows, id, now), s.nextId, s.events + [DeleteEvent(MessageDeleted, id, now)])
  }

  /** DeleteMessage: succeeds (true) only on an existing, still active row. */
  function Delete(s: State, id: string, now: Time): (State, bool)
    requires Valid(s)
  {
    if ExistsActive(s.rows, id) then (MarkDeleted(s, id, now), true) else (s, false)
  }

  /** The legacy DeleteMessage: succeeds on any existing row, deleted or not. */
  function LegacyDelete(s: State, id: string, now: Time): (State, bool)
    requires Valid(s)
  {
    if Exists(s.rows, id) then (MarkDeleted(s, id, now), true) else (s, false)
  }

  /** What a delete does, success or not. */
  lemma DeleteOutcome(s: State, id: string, now: Time)
    requires Valid(s)
    ensures var (r, ok) := Delete(s, id, now);
      && (ok <==> ExistsActive(s.rows, id))
      && (!ok ==> r == s)
      && (ok ==> var key := ParseDecimal(id).value;
            && r.rows.Keys == s.rows.Keys
            && r.rows[key] == s.rows[key].(deletedAt := Some(now))
            && (forall k :: k in s.rows && k != key ==> r.rows[k] == s.rows[k])
            && r.nextId == s.nextId
            && r.events == s.events + [DeleteEvent(MessageDeleted, id, now)])
  {
  }

  /** Deleting is not idempotent: once a delete of `id` succeeded, the next one fails and changes nothing. */
  lemma DeleteTwiceFails(s: State, id: string, first: Time, second: Time)
    requires Valid(s) && Delete(s, id, first).1
    ensures var s' := Delete(s, id, first).0;
      Valid(s') && Delete(s', id, second) == (s', false)
  {
    var s' := Delete(s, id, first).0;
    var key := ParseDecimal(id).value;
    assert s'.rows[key].deletedAt == Some(first);
  }

  // ---------------------------------------------------------------------------
  // Sequences of requests that reach the store.

  datatype Request = PostRequest(content: string, now: Time) | DeleteRequest(id: string, now: Time)

  /** One request as CreateMessage / DeleteMessage handle it when the store reports no error. */
  function Step(s: State, req: Request): (r: State)
    requires Valid(s)
    ensures Valid(r)
  {
    match req
    case PostRequest(content, now) => if content == "" then s else Create(s, content, now)
    case DeleteRequest(id, now) => Delete(s, id, now).0
  }

  function Run(s: State, reqs: seq<Request>): (r: State)
    requires Valid(s)
    ensures Valid(r)
    decreases |reqs|
  {
    if reqs == [] then s else Run(Step(s, reqs[0]), reqs[1..])
  }

  function LegacyStep(s: State, req: Request): (r: State)
    requires Valid(s)
    ensures Valid(r)
  {
    match req
    case PostRequest(content, now) => if content == "" then s else Create(s, content, now)
    case DeleteRequest(id, now) => LegacyDelete(s, id, now).0
  }

  function LegacyRun(s: State, reqs: seq<Request>): (r: State)
    requires Valid(s)
    ensures Valid(r)
    decreases |reqs|
  {
    if reqs == [] then s else LegacyRun(LegacyStep(s, reqs[0]), reqs[1..])
  }

  /**
   * Rows are never removed and their content and created_at never change; a row's
   * deleted_at, once set, is never changed again (it is set at most once).
   */
  lemma {:induction false} RunKeepsRows(s: State, reqs: seq<Request>, k: nat)
    requires Valid(s) && k in s.rows
    ensures var r := Run(s, reqs);
      && k in r.rows
      && r.rows[k].content == s.rows[k].content
      && r.rows[k].createdAt == s.rows[k].createdAt
      && (s.rows[k].deletedAt.Some? ==> r.rows[k] == s.rows[k])
    decreases |reqs|
  {
    if reqs != [] {
      var s' := Step(s, reqs[0]);
      assert k in s'.rows && s'.rows[k].content == s.rows[k].content && s'.rows[k].createdAt == s.rows[k].createdAt;
      assert s.rows[k].deletedAt.Some? ==> s'.rows[k] == s.rows[k];
      RunKeepsRows(s', reqs[1..], k);
    }
  }

  /** Each successful delete enqueues exactly one event: events and newly deleted rows grow together. */
  lemma {:induction false} RunEventsMatchDeletions(s: State, reqs: seq<Request>)
    requires Valid(s)
    ensures var r := Run(s, reqs);
      && DeletedKeys(s.rows) <= DeletedKeys(r.rows)
      && |r.events| - |s.events| == |DeletedKeys(r.rows)| - |DeletedKeys(s.rows)|
    decreases |reqs|
  {
    if reqs != [] {
      var s' := Step(s, reqs[0]);
      StepEventsMatchDeletions(s, reqs[0]);
      RunEventsMatchDeletions(s', reqs[1..]);
    }
  }

  lemma StepEventsMatchDeletions(s: State, req: Request)
    requires Valid(s)
    ensures var r := Step(s, req);
      && DeletedKeys(s.rows) <= DeletedKeys(r.rows)
      && |r.events| - |s.events| == |DeletedKeys(r.rows)| - |DeletedKeys(s.rows)|
  {
    match req
    case PostRequest(content, now) =>
      if content != "" {
        InsertActiveKeepsDeleted(s.rows, s.nextId, Record(content, now, None));
      }
    case DeleteRequest(id, now) =>
      if ExistsActive(s.rows, id) {
        MarkAddsDeletedKey(s.rows, id, now);
      }
  }

  /** Inserting an active row under a fresh key leaves the set of deleted rows alone. */
  lemma InsertActiveKeepsDeleted(rows: Rows, key: nat, row: Record)
    requires key !in rows && row.deletedAt.None?
    ensures DeletedKeys(rows[key := row]) == DeletedKeys(rows)
  {
  }

  /** Soft-deleting an active row adds exactly its key to the deleted rows. */
  lemma MarkAddsDeletedKey(rows: Rows, id: string, at: Time)
    requires ExistsActive(rows, id)
    ensures var key := ParseDecimal(id).value;
      && key !in DeletedKeys(rows)
      && DeletedKeys(SetDeletedAt(rows, id, at)) == DeletedKeys(rows) + {key}
  {
  }

  /** The key a pending event's identifier names. */
  function EventKey(e: DeleteEvent): Option<nat> {
    ParseDecimal(e.id)
  }

  /**
   * Every pending event names a row whose deleted_at is the event's own instant, and
   * no two pending events name the same row.
   */
  predicate EventsConsistent(s: State) {
    && (forall i :: 0 <= i < |s.events| ==>
          && EventKey(s.events[i]).Some?
          && EventKey(s.events[i]).value in s.rows
          && s.rows[EventKey(s.events[i]).value].deletedAt == Some(s.events[i].deletedAt))
    && (forall i, j :: 0 <= i < j < |s.events| ==> EventKey(s.events[i]) != EventKey(s.events[j]))
  }

  lemma StepKeepsEventsConsistent(s: State, req: Request)
    requires Valid(s) && EventsConsistent(s)
    ensures EventsConsistent(Step(s, req))
  {
    var r := Step(s, req);
    match req
    case PostRequest(content, now) =>
    case DeleteRequest(id, now) =>
      if ExistsActive(s.rows, id) {
        var key := ParseDecimal(id).value;
        forall i | 0 <= i < |s.events|
          ensures EventKey(r.events[i]) != Some(key)
          ensures r.rows[EventKey(r.events[i]).value] == s.rows[EventKey(s.events[i]).value]
        {
          assert r.events[i] == s.events[i];
        }
      }
  }

  /** Along any sequence of requests the pending events stay in step with the table. */
  lemma {:induction false} RunKeepsEventsConsistent(s: State, reqs: seq<Request>)
    requires Valid(s) && EventsConsistent(s)
    ensures EventsConsistent(Run(s, reqs))
    decreases |reqs|
  {
    if reqs != [] {
      StepKeepsEventsConsistent(s, reqs[0]);
      RunKeepsEventsConsistent(Step(s, reqs[0]), reqs[1..]);
    }
  }

  // ---------------------------------------------------------------------------
  // Where the legacy handlers differ.

  /** On a row that is still active the legacy delete does exactly what the current one does. */
  lemma LegacyDeleteAgreesOnActive(s: State, id: string, now: Time)
    requires Valid(s) && ExistsActive(s.rows, id)
    ensures LegacyDelete(s, id, now) == Delete(s, id, now)
  {
  }

  /**
   * On a row already soft-deleted the two versions part ways: the legacy delete
   * succeeds, overwrites deleted_at with `now` and enqueues one more event, while the
   * current delete fails and changes nothing.
   */
  lemma LegacyDeleteRestamps(s: State, id: string, now: Time)
    requires Valid(s) && Exists(s.rows, id) && !ExistsActive(s.rows, id)
    ensures var (r, ok) := LegacyDelete(s, id, now);
      && ok
      && var key := ParseDecimal(id).value;
      && s.rows[key].deletedAt.Some?
      && r.rows.Keys == s.rows.Keys
      && r.rows[key] == s.rows[key].(deletedAt := Some(now))
      && (forall k :: k in s.rows && k != key ==> r.rows[k] == s.rows[k])
      && r.nextId == s.nextId
      && r.events == s.events + [DeleteEvent(MessageDeleted, id, now)]
    ensures Delete(s, id, now) == (s, false)
  {
  }

  /** Row 1, created at instant 0 and still active. */
  const OneActiveRow: State := State(map[1 := Record("hi", 0, None)], 2, [])

  /**
   * Deleting "1" twice: the legacy handlers accept the second delete, overwrite
   * deleted_at and enqueue a second event for the same row, so the first event no
   * longer matches the table; the current handlers reject it.
   */
  lemma LegacyDeletesTwice()
    ensures var reqs := [DeleteRequest("1", 5), DeleteRequest("1", 7)];
      && var legacy := LegacyRun(OneActiveRow, reqs);
      && |legacy.events| == 2
      && legacy.rows[1].deletedAt == Some(7)
      && !EventsConsistent(legacy)
      && var current := Run(OneActiveRow, reqs);
      && |current.events| == 1
      && current.rows[1].deletedAt == Some(5)
      && EventsConsistent(current)
  {
    var reqs := [DeleteRequest("1", 5), DeleteRequest("1", 7)];
    assert ParseDecimal("1") == Some(1) by {
      assert DigitsValue("1") == DigitsValue("1"[..0]) * 10 + DigitValue('1');
    }
    var l1 := LegacyStep(OneActiveRow, reqs[0]);
    var l2 := LegacyStep(l1, reqs[1]);
    assert LegacyRun(OneActiveRow, reqs) == LegacyRun(l1, reqs[1..]) == LegacyRun(l2, []) == l2;
    assert l2.events[0].deletedAt == 5;
    var c1 := Step(OneActiveRow, reqs[0]);
    var c2 := Step(c1, reqs[1]);
    assert Run(OneActiveRow, reqs) == Run(c1, reqs[1..]) == Run(c2, []) == c2;
    assert c2 == c1;
  }
}
