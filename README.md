# fuwapachi message service — a Dafny model

fuwapachi is a small Go HTTP service for short messages. A client creates a
message with `POST /messages`. `GET /messages` returns up to ten random messages
that are still active. `DELETE /messages/{id}` soft-deletes a message: it sets
`deleted_at` and keeps the row. Every successful delete is announced to all
WebSocket subscribers of `/ws` as a `message_deleted` event. The list request and
the WebSocket upgrade are admitted only from configured origins. The allow-list
comes from the `ALLOWED_ORIGINS` environment variable.

The repository holds two versions of the same service:

- the current one, under `internal/`: a `Handler` object that owns the client
  registry and the event channel;
- the older single-file server, `main.go`, whose state is package globals.

The model covers both. It is laid out as follows:

- `wrappers.dfy`: `Option`.
- `model.dfy`: the `Message` and `DeleteEventMessage` records, the JSON keys they
  serialise to, decimal rendering and parsing of identifiers, and HTTP responses
  reduced to a status and a decoded JSON body.
- `config.dfy`: reading the environment, with defaults, `strings.Split`,
  `strings.TrimSpace` (Go's `unicode.IsSpace` white space) and the allow-list.
  `Config.Load` trims the pieces in place in an array, as the Go loop does.
- `origin.dfy`: the origin gate.
  - The list request is checked on its Origin header (RFC 6454, section 7) or,
    when that is empty, on `scheme://host` of its Referer.
  - The WebSocket upgrade is checked against the map `createUpgrader` builds
    (RFC 6455, sections 4.2.1 and 10.2).
  - `Origin.CreateUpgrader` also stands for the identical `createUpgrader` in
    main.go:147-159.
- `store.dfy`: the `messages` table as a class over a map from AUTO_INCREMENT keys
  to rows. It has the INSERT, the two existence queries and the UPDATE the handlers
  issue. The two list SELECTs are not statements here: their results become the
  `sample` and `order` parameters of the list handlers.
- `lifecycle.dfy`: create and delete as pure transitions over the table and the
  queue of pending events, in a current and a legacy form, with lemmas about any
  sequence of requests.
- `hub.dfy`: the WebSocket side.
  - The client registry (a Go map, shared by reference) and the buffered event
    channel of capacity 100 are classes.
  - The subscriber loop of `HandleWebSocket`.
  - The broadcaster: snapshot the registry, write to every member, remove the
    members whose write failed, one event after another in FIFO order.
- `handler.dfy`: the `Handler` class and its handlers. These are proved to
  perform the `Lifecycle` transitions and to return the documented responses.
- `legacy.dfy`: `main.go`'s `LoadConfig`, its globals as a `Server` class, and
  its handlers.

Time, storage failures, the random sample of the list query, row-scan failures,
JSON decoding, URL parsing and socket reads and writes are not modelled. Each
handler takes its outcome as a parameter.

Identifiers:

- The handlers render an insert id with `fmt.Sprintf("%d", …)`.
- The model reads a path identifier as a key only when it is a plain decimal
  numeral (`Model.ParseDecimal`).
- `Model.ParseDecimalString` proves that reading a rendered id gives back its key.

## Model

| member | source | states |
|---|---|---|
| Model.MessageJsonKeys | internal/model/message.go:6-11 | a serialised message starts with `id`, `content`, `created_at`; `deleted_at` appears exactly when the message is soft-deleted (`omitempty`) |
| Model.DecimalString | internal/handler/message.go:66 | the rendered id is a non-empty string of digits with no leading zero except for 0 itself |
| Model.ParseDecimalString | internal/handler/message.go:66 | reading the rendered id back as a number gives the insert id (round trip) |
| Model.DecimalStringInjective | internal/handler/message.go:66 | distinct insert ids render to distinct message ids |
| Config.Split | internal/config/config.go:64 | `strings.Split` yields one piece more than there are separators, and no piece holds a separator |
| Config.JoinSplit | internal/config/config.go:64 | joining the pieces back with the separator gives the original value, so splitting loses nothing |
| Config.SplitWithoutSeparator | internal/config/config.go:64 | a value with no comma is a single piece, the whole value |
| Config.SplitAtFirst | internal/config/config.go:64 | splitting cuts at the first separator and continues on the rest |
| Config.TrimLeftSlice | internal/config/config.go:67-69 | trimming the left cuts exactly the leading white space, and the result starts with no white space |
| Config.TrimRightSlice | internal/config/config.go:67-69 | trimming the right cuts exactly the trailing white space, and the result ends with no white space |
| Config.TrimSpaceSlice | internal/config/config.go:67-69 | `TrimSpace` returns a contiguous slice of its input with only white space cut at either end, and neither end of the result is white space |
| Config.TrimSpaceKeeps | internal/config/config.go:67-69 | an origin that neither starts nor ends with white space is kept unchanged |
| Config.AllowedOriginsOf | internal/config/config.go:64-69 | the allow-list has one entry per comma-separated piece: comma count plus one |
| Config.TwoOrigins | internal/config/config.go:64-69 | `a,b`, with no commas or surrounding spaces in a or b, yields exactly `[a, b]` |
| Config.DefaultOriginsList | internal/config/config.go:51-54 | an empty or unset `ALLOWED_ORIGINS` yields exactly `["http://localhost:3000", "http://127.0.0.1:3000"]` |
| Config.EmptyPieceKept | internal/config/config.go:64-69 | trimming never drops an entry: `a,,b` yields `["a", "", "b"]` |
| Config.Load | internal/config/config.go:26-72 | the result satisfies `Config.LoadedFrom`: `DB_HOST`, `DB_PORT`, `SERVER_PORT` and `ENV` default to `localhost`, `3306`, `8080` and `development` when empty and are taken verbatim otherwise; `DB_USER`, `DB_PASSWORD` and `DB_NAME` are taken verbatim; the origins are the trimmed pieces of `ALLOWED_ORIGINS` or of its default |
| Origin.RefererOrigin | internal/handler/message.go:103-121 | a Referer yields an origin exactly when it is non-empty and parses with a non-empty scheme and host; the origin is `scheme://host` |
| Origin.ListGateIgnoresEmptyEntry | internal/handler/message.go:93-129 | an empty allow-list entry admits no list request, because both an Origin header and a Referer origin that reach the comparison are non-empty |
| Origin.CreateUpgrader | internal/handler/websocket.go:11-23 | `CheckOrigin` over the built map accepts an Origin exactly when it is one of the configured origins; any other value, including an absent (empty) header, is refused |
| Origin.TrailingCommaAllowsEmptyOrigin | internal/config/config.go:64-69 | a trailing comma in `ALLOWED_ORIGINS` puts the empty string into the allow-list, so `CheckOrigin` then accepts an upgrade with no Origin header |
| Store.MessageTable.Insert | internal/handler/message.go:46-47 | the new row gets the next AUTO_INCREMENT key, which is fresh, and no existing row changes |
| Store.MessageTable.QueryExists | main.go:262 | every identifier the create handler returned for a stored row is found; an identifier that is not a decimal numeral names no row (the strict reading listed under "## Left out") |
| Store.MessageTable.QueryExistsActive | internal/handler/message.go:180 | the identifier the create handler returned for a row is found exactly while that row has no `deleted_at`; an identifier that is not a decimal numeral names no row (the strict reading listed under "## Left out") |
| Store.MessageTable.UpdateDeletedAt | internal/handler/message.go:199 | the update sets `deleted_at` on the named row only and leaves every other row and the counter unchanged |
| Lifecycle.Create | internal/handler/message.go:42-66 | a create adds exactly one row, under the fresh key, holding the content, `created_at = now` and no `deleted_at`; the counter moves on by one; existing rows and pending events are unchanged |
| Lifecycle.DeleteOutcome | internal/handler/message.go:180-218 | a delete succeeds exactly on an active row; on failure nothing changes; on success the key set and the counter stay, only that row's `deleted_at` becomes `now`, every other row is unchanged, and exactly one event `{message_deleted, id, now}` is appended |
| Lifecycle.DeleteTwiceFails | internal/handler/message.go:180-195 | after a successful delete, deleting the same id again fails and changes nothing |
| Lifecycle.Step | internal/handler/message.go:33-66 | every create or delete keeps the table invariant: all keys lie below the AUTO_INCREMENT counter |
| Lifecycle.Run | internal/handler/message.go:17-219 | any sequence of creates and deletes keeps the table invariant |
| Lifecycle.LegacyStep | main.go:175-297 | every legacy create or delete keeps the table invariant |
| Lifecycle.LegacyRun | main.go:162-301 | any sequence of legacy creates and deletes keeps the table invariant |
| Lifecycle.RunKeepsRows | internal/handler/message.go:178-199 | along any sequence of requests a row is never removed, its content and `created_at` never change, and a `deleted_at` once set is never overwritten |
| Lifecycle.StepEventsMatchDeletions | internal/handler/message.go:197-215 | one request adds exactly as many events as it newly soft-deletes rows |
| Lifecycle.RunEventsMatchDeletions | internal/handler/message.go:197-215 | along any sequence of requests, the number of new events equals the number of newly soft-deleted rows |
| Lifecycle.StepKeepsEventsConsistent | internal/handler/message.go:198-215 | one request keeps every pending event naming a distinct row whose `deleted_at` equals the event's timestamp |
| Lifecycle.RunKeepsEventsConsistent | internal/handler/message.go:198-215 | along any sequence of requests, every pending event names a distinct row whose `deleted_at` is the event's timestamp |
| Lifecycle.LegacyDeleteAgreesOnActive | main.go:262-297 | on an active row the legacy delete does exactly what the current one does |
| Lifecycle.LegacyDeleteRestamps | main.go:262-297 | on a row already soft-deleted the legacy delete succeeds, overwrites that row's `deleted_at` with `now`, leaves every other row, the key set and the counter unchanged and enqueues one more event, while the current delete fails and changes nothing |
| Lifecycle.LegacyDeletesTwice | main.go:262-297 | deleting `1` twice: the legacy handler accepts both, overwrites `deleted_at` and enqueues two events for one row, so the events no longer match the table; the current handler rejects the second delete |
| Hub.Registry.constructor | internal/handler/handler.go:28 | a new registry is empty |
| Hub.Registry.Register | internal/handler/websocket.go:35-38 | the connection joins the set, and the reported total is the new set size |
| Hub.Registry.Deregister | internal/handler/websocket.go:46-49 | the connection leaves the set, which makes removing an absent member a no-op; the reported count is the new set size |
| Hub.Registry.Snapshot | internal/handler/websocket.go:62-67 | the snapshot lists every member exactly once and nothing else; it is a value, so later removals do not alter it |
| Hub.EventQueue.constructor | internal/handler/handler.go:29 | a new channel is empty, with the given capacity |
| Hub.EventQueue.Send | internal/handler/message.go:211-215 | while the buffer has room, sending appends the event at the tail |
| Hub.EventQueue.Receive | internal/handler/websocket.go:58 | receiving takes the oldest pending event (FIFO) |
| Hub.ServeSubscriber | internal/handler/websocket.go:26-54 | the upgrade is refused exactly when the Origin is not allowed or the handshake fails, and the registry is then unchanged; otherwise the connection is registered with the new total, and the first failed read removes it again, leaving the registry as before |
| Hub.WriteOrEvict | internal/handler/websocket.go:70-74 | a client whose write failed leaves the registry; after a successful write the registry is unchanged |
| Hub.Fanout | internal/handler/websocket.go:69-76 | every snapshot member gets exactly one write attempt, in order, and a failure does not skip the rest; exactly the members whose write failed are removed |
| Hub.DispatchOne | internal/handler/websocket.go:58-76 | one event is taken in FIFO order; the snapshot is the registry at that moment; the members whose write failed are removed, and no others |
| Hub.Drain | internal/handler/websocket.go:57-78 | all pending events are dispatched in the order they were enqueued; each event is sent once to every connection registered at its round and to no other; a member leaves the registry exactly when one of its writes failed |
| Handlers.ScanActiveSound | internal/handler/message.go:132-153 | the list holds only active rows, each rendered under its own key with no `deleted_at`, no id twice; it is never longer than the sample, and exactly as long when no scan fails |
| Handlers.Handler.New | internal/handler/handler.go:24-31 | the handler keeps the given database and configuration unchanged; its registry and channel are fresh, so two handlers share neither; the registry is empty and the channel is empty with capacity 100 |
| Handlers.Handler.CreateMessage | internal/handler/message.go:17-73 | an undecodable body, or one whose value needs more than 1<<20 bytes, gives 400 "Invalid request body"; empty content gives 400 "content is required"; in both cases the table is unchanged; an insert error gives 500 with no change; otherwise the table takes exactly the `Lifecycle.Create` step with `created_at = now` and no `deleted_at`, whatever the client sent; the response is 201 with the decimal id of the fresh key, or 500 "Failed to retrieve message id" when the id cannot be read back |
| Handlers.Handler.IsOriginAllowed | internal/handler/message.go:78-86 | true exactly when the origin equals some configured origin |
| Handlers.Handler.GetMessages | internal/handler/message.go:90-171 | a request the gate refuses gets 403 "Forbidden"; a query or iteration error gives 500 "Database error"; otherwise 200, and every listed message is a stored row with no `deleted_at`, under its own id; at most 10 of them, and exactly min(active rows, 10) when no scan fails |
| Handlers.Handler.DeleteMessage | internal/handler/message.go:174-219 | an absent or already deleted id gives 404 "Message not found", and query or update errors give 500; in all these cases no row changes and no event is enqueued, and the queue need not have room; otherwise 204, and the table and the queue take exactly the `Lifecycle.Delete` step |
| Handlers.Handler.HandleWebSocket | internal/handler/websocket.go:26-54 | the registry effects of `Hub.ServeSubscriber`, checked against the handler's configured origins |
| Handlers.Handler.HandleBroadcast | internal/handler/websocket.go:57-78 | events leave the channel in FIFO order; each goes once to every client registered at its round; a client leaves the registry exactly when a write to it failed |
| Legacy.JsonKeys | main.go:118-124 | the legacy message always serialises `id`, `content` and `created_at`; `uid` appears exactly when non-empty and `deleted_at` exactly when set |
| Legacy.LoadConfig | main.go:39-89 | the result satisfies the same `Config.LoadedFrom` as `Config.Load`: the same defaults and the same split-and-trim of `ALLOWED_ORIGINS` |
| Legacy.ScanAllSound | main.go:221-247 | each listed message is the row its id names, `deleted_at` included; no id is listed twice; with no scan failure every row is listed |
| Legacy.ScanAllComplete | main.go:221-247 | when every scan succeeds the legacy list has exactly one entry per row the query yields |
| Legacy.ListsDeletedRows | main.go:221-247 | with every scan succeeding, a soft-deleted row the legacy query yields is listed with its `deleted_at`, and the list has one entry per yielded row, with no cap; the current list (internal/handler/message.go:132-153) never names that row and holds at most 10 messages |
| Legacy.Server.constructor | main.go:134-144 | the globals after start-up: the loaded configuration, the database, an empty client map and an empty channel of capacity 100 |
| Legacy.Server.CreateMessage | main.go:162-215 | like the current create but with no body-size limit, and the client's `uid` is returned as sent |
| Legacy.Server.GetMessages | main.go:218-253 | no origin check and no limit: 500 "Database error" on a query error; otherwise every listed message is a row, deleted rows with their `deleted_at`, and with no scan failure every row is listed |
| Legacy.Server.DeleteMessage | main.go:256-301 | 404 only when no row has the id, answered even when the queue is full; an already deleted row is deleted again through the `Lifecycle.LegacyDelete` step: a new `deleted_at` and a second event |
| Legacy.Server.HandleWebSocket | main.go:304-332 | the same registry effects as `Hub.ServeSubscriber` on the global client map |
| Legacy.Server.HandleBroadcast | main.go:335-358 | the same FIFO dispatch, once per registered client and round, and failure removal as `Hub.Drain`, on the globals |

## Left out

- Concurrency is not modelled: goroutines, `sync.RWMutex`, and the broadcaster running beside the handlers. Registry operations are atomic, and `Hub.Drain` dispatches the events pending at one moment.
- Channel back-pressure is not modelled. A send on a full channel blocks in Go. Here the send requires `|queue| < 100` instead (`Hub.EventQueue.Send`). `Handlers.Handler.DeleteMessage` and `Legacy.Server.DeleteMessage` require it only on their success path, the one that sends; their error answers need no room in the queue.
- The race between the existence check and the update in delete (internal/handler/message.go:180, 199) is not modelled, because each handler runs as one atomic step.
- Handlers.Handler.DeleteMessage and Legacy.Server.DeleteMessage: only the method body fixes the order of the effects (update, then enqueue, then 204; internal/handler/message.go:197-218 and main.go:280-300). The contracts state only the final state and the response.
- SQL is abstracted:
  - The table is a map from keys to rows.
  - MySQL's lenient coercion of an identifier such as `1abc` to the key 1 is not modelled. An identifier that is not a plain decimal numeral names no row.
  - `ORDER BY RAND() LIMIT 10` becomes a `sample` parameter: distinct active keys, min(active rows, 10) of them. Randomness is not modelled.
  - The legacy query's row order becomes an `order` parameter.
- Store errors, row-scan failures and `rows.Err()` in the current list handler are parameters. So are `LastInsertId` failures, which in the source come after the row has been inserted.
- The legacy list handler never checks `rows.Err()`. An iteration error there ends the loop early and still returns 200 with the rows read so far. The model folds that case into `scanOk`: the rows not read count as failed scans.
- `time.Now` is a parameter. `deleted_at ≥ created_at` is not stated, because it depends on the clock.
- Lifecycle.EventsConsistent, Lifecycle.Create, Lifecycle.DeleteOutcome and Lifecycle.RunKeepsEventsConsistent treat the store as keeping timestamps exactly.
  - The source's `created_at` and `deleted_at` columns are `DATETIME`, which keeps whole seconds.
  - The handlers return the full-precision `now` in the create response and put it in the delete event.
  - So the equalities these members state (`created_at = now`, and an event's `deleted_at` equal to its row's) hold of the values the handlers pass to the store. They do not hold of what a later read returns, which can differ by the sub-second part.
- JSON decoding and encoding are library calls.
  - A create body is reduced to the number of bytes the decoder needs for its first value and the decoded fields, or none.
  - `http.MaxBytesReader` is reduced to the comparison of that byte count with 1<<20.
  - A `nil` list and an empty list both count as the empty sequence: the empty JSON array.
- `url.Parse` (RFC 3986, section 3) is reduced to an optional scheme and host.
- The gorilla/websocket handshake, `ReadJSON`, `WriteJSON` and `Close` are reduced to success/failure outcomes. Connections are numbers.
- `InitDB` (main.go:92-115), the DSN string and `print(dsn)` are I/O.
- Not modelled, as wiring and I/O:
  - routing (`SetupRouter`);
  - the rs/cors middleware;
  - logging and the start-up banner;
  - `godotenv`;
  - cmd/server/main.go.
- main_test.go's expectations are not modelled: a client-chosen id, an "id is required" error and a 409 on duplicates. main.go implements none of them.
