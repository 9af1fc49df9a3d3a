/**
 * The single-file server (main.go): the same three endpoints, subscription handler and
 * broadcaster over package-level globals, before the refactoring into internal/. It
 * differs in four ways the model keeps: the create body has no size limit, the client
 * `uid` is echoed back, the list returns every row (deleted ones with their
 * deleted_at) with no origin gate, and delete only asks whether the row exists.
 */
module Legacy {
  import opened Wrappers
  import Model
  import opened Store
  import Config
  import Hub
  import Lifecycle
  import Handlers

  /** The legacy Message record: an optional client `uid` beside the fields of Model.Message. */
  datatype Message = Message(id: string, uid: string, content: string, createdAt: Model.Time, deletedAt: Option<Model.Time>)

  /** The JSON object keys `encoding/json` writes: `uid` and `deleted_at` carry `omitempty`. */
  function JsonKeys(m: Message): (keys: seq<string>)
    ensures "id" in keys && "content" in keys && "created_at" in keys
    ensures "uid" in keys <==> m.uid != ""
    ensures "deleted_at" in keys <==> m.deletedAt.Some?
  {
    ["id"] + (if m.uid != "" then ["uid"] else []) + ["content", "created_at"]
      + (if m.deletedAt.Some? then ["deleted_at"] else [])
  }

  /** LoadConfig (main.go): the same reading of the environment as internal/config. */
  method LoadConfig(environment: Config.Environment) returns (cfg: Config.Config)
    ensures Config.LoadedFrom(environment, cfg)
  {
    cfg := Config.Load(environment);
  }

  /** A row as the legacy list query scans it: every column, deleted_at included. */
  function RowMessage(key: nat, row: Record): Message {
    Message(Model.DecimalString(key), "", row.content, row.createdAt, row.deletedAt)
  }

  /** The list the legacy GetMessages builds: the rows, in the order the query yields them, whose scan succeeded. */
  function ScanAll(rows: Rows, order: seq<nat>, scanOk: seq<bool>): seq<Message>
    requires |scanOk| == |order| && forall i :: 0 <= i < |order| ==> order[i] in rows
  {
    if order == [] then []
    else
      var n := |order| - 1;
      ScanAll(rows, order[..n], scanOk[..n])
        + (if scanOk[n] then [RowMessage(order[n], rows[order[n]])] else [])
  }

  /**
   * Each listed message is the row its id names, deleted_at included; no id is listed
   * twice; and when every scan succeeds every row in the order is listed.
   */
  lemma {:induction false} ScanAllSound(rows: Rows, order: seq<nat>, scanOk: seq<bool>)
    requires |scanOk| == |order| && forall i :: 0 <= i < |order| ==> order[i] in rows
    requires forall i, j :: 0 <= i < j < |order| ==> order[i] != order[j]
    ensures var list := ScanAll(rows, order, scanOk);
      && |list| <= |order|
      && (forall i :: 0 <= i < |list| ==>
            && Model.ParseDecimal(list[i].id).Some?
            && Model.ParseDecimal(list[i].id).value in order
            && list[i] == RowMessage(Model.ParseDecimal(list[i].id).value, rows[Model.ParseDecimal(list[i].id).value]))
      && (forall i, j :: 0 <= i < j < |list| ==> list[i].id != list[j].id)
      && ((forall i :: 0 <= i < |scanOk| ==> scanOk[i]) ==>
            forall i :: 0 <= i < |order| ==> RowMessage(order[i], rows[order[i]]) in list)
    decreases |order|
  {
    if order != [] {
      var n := |order| - 1;
      var prefix := ScanAll(rows, order[..n], scanOk[..n]);
      ScanAllSound(rows, order[..n], scanOk[..n]);
      Model.ParseDecimalString(order[n]);
      forall i | 0 <= i < |prefix|
        ensures prefix[i].id != Model.DecimalString(order[n])
      {
        var k := Model.ParseDecimal(prefix[i].id).value;
        assert k in order[..n];
      }
      if forall i :: 0 <= i < |scanOk| ==> scanOk[i] {
        forall i | 0 <= i < |order|
          ensures RowMessage(order[i], rows[order[i]]) in ScanAll(rows, order, scanOk)
        {
          if i < n {
            assert order[..n][i] == order[i];
            assert scanOk[..n][i] == scanOk[i];
          }
        }
      }
    }
  }

  /** With every scan succeeding, the legacy list has one entry per row the query yields. */
  lemma {:induction false} ScanAllComplete(rows: Rows, order: seq<nat>, scanOk: seq<bool>)
    requires |scanOk| == |order| && forall i :: 0 <= i < |order| ==> order[i] in rows
    requires forall i :: 0 <= i < |scanOk| ==> scanOk[i]
    ensures |ScanAll(rows, order, scanOk)| == |order|
    decreases |order|
  {
    if order != [] {
      var n := |order| - 1;
      ScanAllComplete(rows, order[..n], scanOk[..n]);
    }
  }

  /**
   * Where the two list handlers part ways: a soft-deleted row the legacy query yields is
   * listed, with its deleted_at, and every yielded row is listed however many there are;
   * the current handler never lists that row under its id, and never more than ten rows.
   */
  lemma ListsDeletedRows(rows: Rows, order: seq<nat>, scanOk: seq<bool>, sample: seq<nat>, sampleOk: seq<bool>, k: nat)
    requires |scanOk| == |order| && forall i :: 0 <= i < |order| ==> order[i] in rows
    requires forall i, j :: 0 <= i < j < |order| ==> order[i] != order[j]
    requires forall i :: 0 <= i < |scanOk| ==> scanOk[i]
    requires k in rows && k in order && rows[k].deletedAt.Some?
    requires Handlers.IsSample(rows, sample) && |sampleOk| == |sample|
    ensures var legacy := ScanAll(rows, order, scanOk);
      && RowMessage(k, rows[k]) in legacy
      && RowMessage(k, rows[k]).deletedAt == rows[k].deletedAt
      && |legacy| == |order|
    ensures var current := Handlers.ScanActive(rows, sample, sampleOk);
      && |current| <= Handlers.MaxMessagesPerRequest
      && forall m :: m in current ==> m.id != Model.DecimalString(k)
  {
    ScanAllSound(rows, order, scanOk);
    ScanAllComplete(rows, order, scanOk);
    Handlers.ScanActiveSound(rows, sample, sampleOk);
    Model.ParseDecimalString(k);
  }

  /** The package-level globals: the database handle, the configuration, the client map and the event channel. */
  class Server {
    const db: MessageTable
    const config: Config.Config
    const clients: Hub.Registry
    const broadcast: Hub.EventQueue

    ghost predicate Valid()
      reads db
    {
      db.Valid() && broadcast.capacity == Hub.QueueCapacity
    }

    ghost function State(): Lifecycle.State
      reads db, broadcast
    {
      Lifecycle.State(db.rows, db.nextId, broadcast.items)
    }

    /** The globals as main leaves them: loaded configuration, open database, empty client map, channel of capacity 100. */
    constructor (db: MessageTable, cfg: Config.Config)
      requires db.Valid()
      ensures Valid() && this.db == db && config == cfg
      ensures fresh(clients) && fresh(broadcast)
      ensures clients.members == {} && broadcast.items == [] && broadcast.capacity == Hub.QueueCapacity
    {
      this.db := db;
      config := cfg;
      clients := new Hub.Registry();
      broadcast := new Hub.EventQueue(Hub.QueueCapacity);
    }

    /**
     * CreateMessage: any body that decodes is accepted whatever its size; the stored
     * row and the returned id are as in the handler, and the client's `uid` is
     * returned as sent.
     */
    method CreateMessage(req: Model.CreateRequest, now: Model.Time, insertFails: bool, lastIdFails: bool)
      returns (resp: Model.Response<Message>)
      requires Valid()
      modifies db
      ensures Valid()
      ensures req.decoded.None? ==> resp == Model.Error(Model.StatusBadRequest, "Invalid request body") && unchanged(db)
      ensures req.decoded.Some? && req.decoded.value.content == "" ==>
                resp == Model.Error(Model.StatusBadRequest, "content is required") && unchanged(db)
      ensures req.decoded.Some? && req.decoded.value.content != "" && insertFails ==>
                resp == Model.Error(Model.StatusInternalServerError, "Failed to create message") && unchanged(db)
      ensures req.decoded.Some? && req.decoded.value.content != "" && !insertFails ==>
                && State() == Lifecycle.Create(old(State()), req.decoded.value.content, now)
                && resp == (if lastIdFails then Model.Error(Model.StatusInternalServerError, "Failed to retrieve message id")
                            else Model.Response(Model.StatusCreated, Model.One(
                              Message(Model.DecimalString(old(db.nextId)), req.decoded.value.uid, req.decoded.value.content, now, None))))
    {
      if req.decoded.None? {
        return Model.Error(Model.StatusBadRequest, "Invalid request body");
      }
      var msg := req.decoded.value;
      if msg.content == "" {
        return Model.Error(Model.StatusBadRequest, "content is required");
      }
      var createdAt, deletedAt := now, None;
      if insertFails {
        return Model.Error(Model.StatusInternalServerError, "Failed to create message");
      }
      var key := db.Insert(msg.content, createdAt, deletedAt);
      if lastIdFails {
        return Model.Error(Model.StatusInternalServerError, "Failed to retrieve message id");
      }
      resp := Model.Response(Model.StatusCreated, Model.One(Message(Model.DecimalString(key), msg.uid, msg.content, createdAt, deletedAt)));
    }

    /**
     * GetMessages: no origin check and no limit; every row the scan reads is listed,
     * deleted rows with their deleted_at, and with no scan failure every row is there.
     * `order` is the order the unordered query yields the rows in.
     */
    method GetMessages(queryFails: bool, order: seq<nat>, scanOk: seq<bool>) returns (resp: Model.Response<Message>)
      requires forall k :: k in db.rows <==> k in order
      requires forall i, j :: 0 <= i < j < |order| ==> order[i] != order[j]
      requires |scanOk| == |order|
      ensures queryFails ==> resp == Model.Error(Model.StatusInternalServerError, "Database error")
      ensures !queryFails ==>
                && resp == Model.Response(Model.StatusOK, Model.Many(ScanAll(db.rows, order, scanOk)))
                && (forall m :: m in resp.body.messages ==>
                      exists k :: k in db.rows && m == RowMessage(k, db.rows[k]))
                && ((forall i :: 0 <= i < |scanOk| ==> scanOk[i]) ==>
                      forall k :: k in db.rows ==> RowMessage(k, db.rows[k]) in resp.body.messages)
    {
      if queryFails {
        return Model.Error(Model.StatusInternalServerError, "Database error");
      }
      var msgList: seq<Message> := [];
      for i := 0 to |order|
        invariant msgList == ScanAll(db.rows, order[..i], scanOk[..i])
      {
        assert order[..i + 1][..i] == order[..i] && scanOk[..i + 1][..i] == scanOk[..i];
        if scanOk[i] {
          msgList := msgList + [RowMessage(order[i], db.rows[order[i]])];
        }
      }
      assert order[..|order|] == order && scanOk[..|scanOk|] == scanOk;
      ScanAllSound(db.rows, order, scanOk);
      forall m | m in msgList
        ensures exists k :: k in db.rows && m == RowMessage(k, db.rows[k])
      {
        var i :| 0 <= i < |msgList| && msgList[i] == m;
        var k := Model.ParseDecimal(msgList[i].id).value;
        assert k in db.rows && m == RowMessage(k, db.rows[k]);
      }
      resp := Model.Response(Model.StatusOK, Model.Many(msgList));
    }

    /**
     * DeleteMessage: 404 only when no row has the id; a row already deleted is
     * deleted again, with a new deleted_at and a second event.
     */
    method DeleteMessage(id: string, now: Model.Time, queryFails: bool, updateFails: bool)
      returns (resp: Model.Response<Message>)
      requires Valid()
      requires !queryFails && Exists(db.rows, id) && !updateFails ==> |broadcast.items| < broadcast.capacity
      modifies db, broadcast
      ensures Valid()
      ensures queryFails ==> resp == Model.Error(Model.StatusInternalServerError, "Database error") && State() == old(State())
      ensures !queryFails && !Exists(old(db.rows), id) ==>
                resp == Model.Error(Model.StatusNotFound, "Message not found") && State() == old(State())
      ensures !queryFails && Exists(old(db.rows), id) && updateFails ==>
                resp == Model.Error(Model.StatusInternalServerError, "Failed to delete message") && State() == old(State())
      ensures !queryFails && Exists(old(db.rows), id) && !updateFails ==>
                resp == Model.Response(Model.StatusNoContent, Model.NoContent)
                && State() == Lifecycle.LegacyDelete(old(State()), id, now).0
    {
      if queryFails {
        return Model.Error(Model.StatusInternalServerError, "Database error");
      }
      var found := db.QueryExists(id);
      if !found {
        return Model.Error(Model.StatusNotFound, "Message not found");
      }
      if updateFails {
        return Model.Error(Model.StatusInternalServerError, "Failed to delete message");
      }
      db.UpdateDeletedAt(id, now);
      broadcast.Send(Model.DeleteEvent(Model.MessageDeleted, id, now));
      resp := Model.Response(Model.StatusNoContent, Model.NoContent);
    }

    /** HandleWebSocket: the same origin check and register, read, deregister cycle as the handler. */
    method HandleWebSocket(origin: string, handshakeOk: bool, conn: Hub.Conn, readResults: seq<bool>)
      returns (outcome: Hub.Subscription)
      requires conn !in clients.members
      modifies clients
      ensures outcome.Refused? <==> !(origin in config.allowedOrigins && handshakeOk)
      ensures outcome.Refused? ==> clients.members == old(clients.members)
      ensures outcome.Open? ==> clients.members == old(clients.members) + {conn}
                                && outcome.total == |clients.members|
                                && forall i :: 0 <= i < |readResults| ==> readResults[i]
      ensures outcome.Closed? ==> clients.members == old(clients.members)
                                  && outcome.total == |old(clients.members)| + 1
                                  && outcome.remaining == |clients.members|
                                  && false in readResults
    {
      outcome := Hub.ServeSubscriber(clients, config.allowedOrigins, origin, handshakeOk, conn, readResults);
    }

    /**
     * HandleBroadcast over the pending events: FIFO order; each event goes to every
     * client registered at its round, once; a client leaves exactly when a write to it failed.
     */
    method HandleBroadcast(writeOk: (nat, Hub.Conn) -> bool)
      returns (dispatched: seq<Model.DeleteEvent>, ghost rounds: seq<seq<Hub.Conn>>)
      modifies clients, broadcast
      ensures dispatched == old(broadcast.items) && broadcast.items == []
      ensures clients.members == old(clients.members) - Hub.FailedBy(old(clients.members), |dispatched|, writeOk)
      ensures |rounds| == |dispatched|
      ensures forall i :: 0 <= i < |rounds| ==>
                forall c :: c in rounds[i] <==> c in old(clients.members) - Hub.FailedBy(old(clients.members), i, writeOk)
      ensures forall i :: 0 <= i < |rounds| ==>
                forall j, k :: 0 <= j < k < |rounds[i]| ==> rounds[i][j] != rounds[i][k]
    {
      dispatched, rounds := Hub.Drain(clients, broadcast, writeOk);
    }
  }
}
