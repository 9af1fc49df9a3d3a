/**
 * The `Handler` state object (internal/handler/handler.go) and its request handlers
 * (internal/handler/message.go, internal/handler/websocket.go). The database is the
 * shared message table; the client registry and the event queue belong to the handler.
 * Store failures, the random sample of the list query, the outcome of each row scan
 * and of each socket read or write are parameters.
 */
module Handlers {
  import opened Wrappers
  import opened Model
  import opened Store
  import Config
  import Origin
  import Hub
  import Lifecycle

  /** `maxMessagesPerRequest`. */
  const MaxMessagesPerRequest: nat := 10

  /** The `http.MaxBytesReader` limit on a create body: 1 << 20 bytes. */
  const MaxBodyBytes: nat := 0x10_0000

  function Min(a: nat, b: nat): nat {
    if a <= b then a else b
  }

  /**
   * What `SELECT ... WHERE deleted_at IS NULL ORDER BY RAND() LIMIT 10` yields: some
   * active rows, none twice, as many as there are active rows up to the limit.
   */
  predicate IsSample(rows: Rows, sample: seq<nat>) {
    && (forall i :: 0 <= i < |sample| ==> sample[i] in rows && rows[sample[i]].deletedAt.None?)
    && (forall i, j :: 0 <= i < j < |sample| ==> sample[i] != sample[j])
    && |sample| == Min(|ActiveKeys(rows)|, MaxMessagesPerRequest)
  }

  /** A row as the list query scans it: id, content and created_at; deleted_at is not selected. */
  function ScannedMessage(key: nat, row: Record): Message {
    Message(DecimalString(key), row.content, row.createdAt, None)
  }

  /** The list GetMessages builds: the sampled rows whose scan succeeded, in sample order. */
  function ScanActive(rows: Rows, sample: seq<nat>, scanOk: seq<bool>): seq<Message>
    requires |scanOk| == |sample| && forall i :: 0 <= i < |sample| ==> sample[i] in rows
  {
    if sample == [] then []
    else
      var n := |sample| - 1;
      ScanActive(rows, sample[..n], scanOk[..n])
        + (if scanOk[n] then [ScannedMessage(sample[n], rows[sample[n]])] else [])
  }

  /**
   * The list holds only active rows, each under its own key, none twice; it is never
   * longer than the sample, and exactly as long when every scan succeeds.
   */
  lemma {:induction false} ScanActiveSound(rows: Rows, sample: seq<nat>, scanOk: seq<bool>)
    requires |scanOk| == |sample|
    requires forall i :: 0 <= i < |sample| ==> sample[i] in rows && rows[sample[i]].deletedAt.None?
    requires forall i, j :: 0 <= i < j < |sample| ==> sample[i] != sample[j]
    ensures var list := ScanActive(rows, sample, scanOk);
      && |list| <= |sample|
      && ((forall i :: 0 <= i < |scanOk| ==> scanOk[i]) ==> |list| == |sample|)
      && (forall i :: 0 <= i < |list| ==>
            && IsActive(list[i])
            && ParseDecimal(list[i].id).Some?
            && ParseDecimal(list[i].id).value in sample
            && list[i] == ScannedMessage(ParseDecimal(list[i].id).value, rows[ParseDecimal(list[i].id).value]))
      && (forall i, j :: 0 <= i < j < |list| ==> list[i].id != list[j].id)
    decreases |sample|
  {
    if sample != [] {
      var n := |sample| - 1;
      var prefix := ScanActive(rows, sample[..n], scanOk[..n]);
      ScanActiveSound(rows, sample[..n], scanOk[..n]);
      ParseDecimalString(sample[n]);
      forall i | 0 <= i < |prefix|
        ensures prefix[i].id != DecimalString(sample[n])
      {
        var k := ParseDecimal(prefix[i].id).value;
        assert k in sample[..n];
      }
    }
  }

  /** A create body the JSON decoder accepts: its value ends within the byte limit and decodes. */
  predicate BodyDecodes(req: CreateRequest) {
    req.valueBytes <= MaxBodyBytes && req.decoded.Some?
  }

  class Handler {
    const db: MessageTable
    const config: Config.Config
    const clients: Hub.Registry
    const broadcast: Hub.EventQueue

    ghost predicate Valid()
      reads db
    {
      db.Valid() && broadcast.capacity == Hub.QueueCapacity
    }

    /** The table and the pending events, as the lifecycle transitions see them. */
    ghost function State(): Lifecycle.State
      reads db, broadcast
    {
      Lifecycle.State(db.rows, db.nextId, broadcast.items)
    }

    /** `New`: the given table and configuration, a fresh empty registry and a fresh empty queue of capacity 100. */
    constructor New(db: MessageTable, cfg: Config.Config)
      requires db.Valid()
      ensures Valid() && this.db == db && config == cfg
      ensures fresh(clients) && fresh(broadcast)
      ensures clients.members == {} && broadcast.items == [] && broadcast.capacity == Hub.QueueCapacity
    {
      this.db := db;
      config := cfg;
      clients := new Hub.Registry();
      broadcast := new Hub.EventQueue(Hub.QueueCapacity);
    }

    /**
     * CreateMessage: an undecodable or oversized body and an empty content are
     * rejected with the table untouched; otherwise the row is stored with
     * created_at = now and no deleted_at, whatever the client sent, under a fresh key
     * whose decimal rendering is the returned id.
     */
    method CreateMessage(req: CreateRequest, now: Time, insertFails: bool, lastIdFails: bool)
      returns (resp: Response<Message>)
      requires Valid()
      modifies db
      ensures Valid()
      ensures !BodyDecodes(req) ==> resp == Error(StatusBadRequest, "Invalid request body") && unchanged(db)
      ensures BodyDecodes(req) && req.decoded.value.content == "" ==>
                resp == Error(StatusBadRequest, "content is required") && unchanged(db)
      ensures BodyDecodes(req) && req.decoded.value.content != "" && insertFails ==>
                resp == Error(StatusInternalServerError, "Failed to create message") && unchanged(db)
      ensures BodyDecodes(req) && req.decoded.value.content != "" && !insertFails ==>
                && State() == Lifecycle.Create(old(State()), req.decoded.value.content, now)
                && resp == (if lastIdFails then Error(StatusInternalServerError, "Failed to retrieve message id")
                            else Response(StatusCreated, One(Message(DecimalString(old(db.nextId)), req.decoded.value.content, now, None))))
    {
      if req.valueBytes > MaxBodyBytes || req.decoded.None? {
        return Error(StatusBadRequest, "Invalid request body");
      }
      var msg := req.decoded.value;
      if msg.content == "" {
        return Error(StatusBadRequest, "content is required");
      }
      var createdAt, deletedAt := now, None;
      if insertFails {
        return Error(StatusInternalServerError, "Failed to create message");
      }
      var key := db.Insert(msg.content, createdAt, deletedAt);
      if lastIdFails {
        return Error(StatusInternalServerError, "Failed to retrieve message id");
      }
      resp := Response(StatusCreated, One(Message(DecimalString(key), msg.content, createdAt, deletedAt)));
    }

    /** isOriginAllowed: exact match against some configured origin. */
    method IsOriginAllowed(origin: string) returns (allowed: bool)
      ensures allowed <==> origin in config.allowedOrigins
    {
      for i := 0 to |config.allowedOrigins|
        invariant origin !in config.allowedOrigins[..i]
      {
        if origin == config.allowedOrigins[i] {
          return true;
        }
      }
      return false;
    }

    /**
     * GetMessages: a request the origin gate refuses gets 403 "Forbidden"; otherwise
     * the sampled rows whose scan succeeded, each a row with no deleted_at, at most 10
     * of them, and exactly min(active rows, 10) when no scan fails.
     */
    method GetMessages(origin: string, referer: string, parsedReferer: Option<Origin.Url>,
                       queryFails: bool, sample: seq<nat>, scanOk: seq<bool>, iterationFails: bool)
      returns (resp: Response<Message>)
      requires IsSample(db.rows, sample) && |scanOk| == |sample|
      ensures !Origin.ListGate(config.allowedOrigins, origin, referer, parsedReferer) ==>
                resp == Error(StatusForbidden, "Forbidden")
      ensures Origin.ListGate(config.allowedOrigins, origin, referer, parsedReferer) && (queryFails || iterationFails) ==>
                resp == Error(StatusInternalServerError, "Database error")
      ensures Origin.ListGate(config.allowedOrigins, origin, referer, parsedReferer) && !queryFails && !iterationFails ==>
                && resp == Response(StatusOK, Many(ScanActive(db.rows, sample, scanOk)))
                && |resp.body.messages| <= MaxMessagesPerRequest
                && (forall m :: m in resp.body.messages ==>
                      exists k :: k in db.rows && db.rows[k].deletedAt.None? && m == ScannedMessage(k, db.rows[k]))
                && ((forall i :: 0 <= i < |scanOk| ==> scanOk[i]) ==>
                      |resp.body.messages| == Min(|ActiveKeys(db.rows)|, MaxMessagesPerRequest))
    {
      if origin != "" {
        var allowed := IsOriginAllowed(origin);
        if !allowed {
          return Error(StatusForbidden, "Forbidden");
        }
      } else {
        if referer == "" {
          return Error(StatusForbidden, "Forbidden");
        }
        if parsedReferer.None? || parsedReferer.value.scheme == "" || parsedReferer.value.host == "" {
          return Error(StatusForbidden, "Forbidden");
        }
        var refererOrigin := parsedReferer.value.scheme + "://" + parsedReferer.value.host;
        var allowed := IsOriginAllowed(refererOrigin);
        if !allowed {
          return Error(StatusForbidden, "Forbidden");
        }
      }

      if queryFails {
        return Error(StatusInternalServerError, "Database error");
      }
      var msgList: seq<Message> := [];
      for i := 0 to |sample|
        invariant msgList == ScanActive(db.rows, sample[..i], scanOk[..i])
      {
        assert sample[..i + 1][..i] == sample[..i] && scanOk[..i + 1][..i] == scanOk[..i];
        if scanOk[i] {
          msgList := msgList + [ScannedMessage(sample[i], db.rows[sample[i]])];
        }
      }
      assert sample[..|sample|] == sample && scanOk[..|scanOk|] == scanOk;
      if iterationFails {
        return Error(StatusInternalServerError, "Database error");
      }
      ScanActiveSound(db.rows, sample, scanOk);
      forall m | m in msgList
        ensures exists k :: k in db.rows && db.rows[k].deletedAt.None? && m == ScannedMessage(k, db.rows[k])
      {
        var i :| 0 <= i < |msgList| && msgList[i] == m;
        var k := ParseDecimal(msgList[i].id).value;
        assert k in db.rows && db.rows[k].deletedAt.None? && m == ScannedMessage(k, db.rows[k]);
      }
      resp := Response(StatusOK, Many(msgList));
    }

    /**
     * DeleteMessage: an identifier that names no row, or a row already deleted, gets
     * 404 "Message not found" and changes nothing; otherwise deleted_at is set to now
     * on that row and then one event with the same instant is enqueued.
     */
    method DeleteMessage(id: string, now: Time, queryFails: bool, updateFails: bool)
      returns (resp: Response<Message>)
      requires Valid()
      requires !queryFails && ExistsActive(db.rows, id) && !updateFails ==> |broadcast.items| < broadcast.capacity
      modifies db, broadcast
      ensures Valid()
      ensures queryFails ==> resp == Error(StatusInternalServerError, "Database error") && State() == old(State())
      ensures !queryFails && !ExistsActive(old(db.rows), id) ==>
                resp == Error(StatusNotFound, "Message not found") && State() == old(State())
      ensures !queryFails && ExistsActive(old(db.rows), id) && updateFails ==>
                resp == Error(StatusInternalServerError, "Failed to delete message") && State() == old(State())
      ensures !queryFails && ExistsActive(old(db.rows), id) && !updateFails ==>
                resp == Response(StatusNoContent, NoContent) && State() == Lifecycle.Delete(old(State()), id, now).0
    {
      if queryFails {
        return Error(StatusInternalServerError, "Database error");
      }
      var found := db.QueryExistsActive(id);
      if !found {
        return Error(StatusNotFound, "Message not found");
      }
      if updateFails {
        return Error(StatusInternalServerError, "Failed to delete message");
      }
      db.UpdateDeletedAt(id, now);
      broadcast.Send(DeleteEvent(MessageDeleted, id, now));
      resp := Response(StatusNoContent, NoContent);
    }

    /** HandleWebSocket: refused before any registry change unless the origin is allowed; then register, read, deregister. */
    method HandleWebSocket(origin: string, handshakeOk: bool, conn: Hub.Conn, readResults: seq<bool>)
      returns (outcome: Hub.Subscription)
      requires conn !in clients.members
      modifies clients
      ensures outcome.Refused? <==> !(origin in config.allowedOrigins && handshakeOk)
      ensures outcome.Refused? ==> clients.members == old(clients.members)
      ensures outcome.Open? ==> clients.members == old(clients.members) + {conn}
                                && outcome.total == |clients.members|
                                && forall i :: 0 <= i < |readResults| ==> readResults[i]
      ensures outcome.Closed? ==> clients.members == old(clients.members)
                                  && outcome.total == |old(clients.members)| + 1
                                  && outcome.remaining == |clients.members|
                                  && false in readResults
    {
      outcome := Hub.ServeSubscriber(clients, config.allowedOrigins, origin, handshakeOk, conn, readResults);
    }

    /**
     * HandleBroadcast over the pending events: FIFO order; each event goes to every
     * client registered at its round, once; a client leaves exactly when a write to it failed.
     */
    method HandleBroadcast(writeOk: (nat, Hub.Conn) -> bool)
      returns (dispatched: seq<DeleteEvent>, ghost rounds: seq<seq<Hub.Conn>>)
      modifies clients, broadcast
      ensures dispatched == old(broadcast.items) && broadcast.items == []
      ensures clients.members == old(clients.members) - Hub.FailedBy(old(clients.members), |dispatched|, writeOk)
      ensures |rounds| == |dispatched|
      ensures forall i :: 0 <= i < |rounds| ==>
                forall c :: c in rounds[i] <==> c in old(clients.members) - Hub.FailedBy(old(clients.members), i, writeOk)
      ensures forall i :: 0 <= i < |rounds| ==>
                forall j, k :: 0 <= j < k < |rounds[i]| ==> rounds[i][j] != rounds[i][k]
    {
      dispatched, rounds := Hub.Drain(clients, broadcast, writeOk);
    }
  }
}
