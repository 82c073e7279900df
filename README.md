# Drone tracking backend: connection manager and record handlers

This project models two parts of a small drone-tracking backend.

The first is the WebSocket connection manager. It keeps a set of live connections. `connect` accepts a connection and then registers it. `disconnect` unregisters a connection and tolerates an absent one. `broadcast` and `broadcast_string` try one send per registered connection. They collect the connections whose send raised and unregister those afterwards.

The second is the HTTP record API for mines, poles and drone positions. It has the key check, the serialization of stored records (`_id` becomes a string `id`), and the create, delete-all, list and latest handlers. The handlers run against an in-memory store: named collections of documents, with a counter that hands out object ids.

Files:

- `ws_manager.dfy`, module `Connections`: the class `ConnectionManager` with its `activeConnections: set<Handle>` field. The send outcome is an argument, `failing`: the set of connections whose send raises. The send loop picks connections with `:|`, so every contract holds for every iteration order.
- `documents.dfy`, module `Documents`: values and documents, Python's `str()` of a value, `SerializeDoc` and `VerifyKey`. `str()` of an object id is its number in lower-case hexadecimal, padded to at least 24 digits (exactly 24 below 16^24; the model puts no bound on the counter), and `HexInjective` proves that distinct ids print differently.
- `event_store.dfy`, module `EventStore`: the class `Database`. Ids come from one counter, so the model assumes ids grow with insertion order: one writing process and a clock that never goes back. Its invariant `Valid()` says every record carries an object id and ids grow in insertion order. Under that assumption "the record with the greatest `_id`", which is what the latest query asks for, is the last record inserted.
- `api.dfy`, module `Api`: request bodies, responses and one method per handler.

The code and a design description of the system differ on two points. This model follows the code.

- The design says an ingested drone position is broadcast to subscribers. `receive_drone` (api.py:74-86) broadcasts nothing and says so in a comment. No handler here calls the connection manager, and no subscribe endpoint exists in these files.
- The design says a broadcast iterates over a snapshot of the registry. The code iterates the live set (ws_manager.py:34). The model is sequential: nothing changes the set during the send loop, and nothing here claims robustness against changes made while a send is awaited.

## Model

| member | source | states |
|---|---|---|
| `Connections.ConnectionManager.constructor` | ws_manager.py:13-15 | A new manager has no connections. |
| `Connections.ConnectionManager.Connect` | ws_manager.py:17-20 | The connection is registered only if accept returns. Afterwards the set is the old set plus that handle, so reconnecting a member changes nothing. If accept raises, the set is unchanged and the failure reaches the caller. |
| `Connections.ConnectionManager.Disconnect` | ws_manager.py:23-25 | Removes exactly that handle and nothing else. On an absent handle it is a no-op and raises nothing. |
| `Connections.ConnectionManager.SendToEach` | ws_manager.py:33-39 | Changes nothing. Makes exactly one attempt per registered connection, all with the same payload; a failure does not stop the rest. An attempt is delivered iff its target is not failing. The collected list holds exactly the failing members. |
| `Connections.ConnectionManager.FanOut` | ws_manager.py:33-43 | After the send loop and the cleanup loop, the set is the old set minus the failing handles. The attempt log covers the old members once each. |
| `Connections.ConnectionManager.Broadcast` | ws_manager.py:28-43 | With no connections there are no attempts and no change. Otherwise each old member gets one JSON attempt. Afterwards the set is the old set minus exactly the handles whose send failed, so the size is K - F whatever the order. No send failure escapes it. |
| `Connections.ConnectionManager.BroadcastString` | ws_manager.py:45-60 | The same membership effect and attempts as Broadcast, with a text payload. |
| `Connections.FailedAreFailingMembers` | ws_manager.py:34-43 | In a fanned-out log, the failed targets are exactly the failing members and the delivered targets are exactly the healthy members. |
| `Connections.FannedOutStep` | ws_manager.py:34-39 | One more attempt to a connection not yet tried extends a one-attempt-per-member log. |
| `Connections.DisconnectTwice` | ws_manager.py:23-25 | Disconnecting twice has the effect of disconnecting once. |
| `Connections.ReconnectIsNoOp` | ws_manager.py:17-20 | Connecting a handle that is already registered leaves the set unchanged. |
| `Documents.VerifyKey` | api.py:15-16 | The provided key is accepted iff it equals the configured key exactly. |
| `Documents.ConfiguredAuthKey` | api.py:11-12 | The key comes from the environment when set, and is "devkey" otherwise. |
| `Documents.SerializeDoc` | api.py:19-27 | A missing or empty document is returned as it was. A result never contains `_id`. Every key other than `_id` and `id` keeps its value. A non-null `_id` becomes `id` holding `str(_id)`. Otherwise an existing `id` is kept. |
| `Documents.SerializeDocIdempotent` | api.py:21-26 | Serializing an already serialized document changes nothing. |
| `Documents.SerializeDocSize` | api.py:23-26 | The result's size is the input's size, minus one if `_id` was present, plus one if `_id` was non-null and `id` was absent. So it is never larger than the input. |
| `Documents.HexInjective` | api.py:26 | Distinct object ids have distinct `str()` text, so the `id` in a response identifies one record. |
| `Documents.ObjectIdText` | api.py:26 | The text of an object id has at least 24 digits. |
| `EventStore.Stored` | api.py:37 | The stored record is the inserted fields plus the assigned object id. |
| `EventStore.Database.InsertOne` | api.py:37 | Appends the record to the collection under a fresh id larger than every id in the store. Returns that id. No other collection changes. |
| `EventStore.Database.FindOne` | api.py:38 | Returns the first record whose `_id` equals the given id, or nothing iff no record has it. |
| `EventStore.Database.FindLatest` | api.py:123 | Returns nothing iff the collection is empty. Otherwise it returns the record with the greatest id, which the model's counter makes the last inserted. |
| `EventStore.Database.DeleteMany` | api.py:48 | Empties the collection, reports how many records it held, and leaves every other collection alone. |
| `Api.InsertAndReadBack` | api.py:37-38 | Inserting and then finding by the returned id gives back exactly the stored record. |
| `Api.CreateMine` | api.py:30-39 | A key other than the configured one (`AUTH_KEY` or "devkey") gives status 401 and leaves the store unchanged. Otherwise the store gains one mine record (latitude, longitude, label) and the answer is that record serialized. |
| `Api.DeleteMines` | api.py:42-49 | A wrong key gives 401 and leaves the store unchanged. Otherwise the mines collection ends empty and the count is the number of records removed. |
| `Api.CreatePole` | api.py:52-61 | The same as CreateMine, for the poles collection. |
| `Api.DeletePoles` | api.py:64-71 | The same as DeleteMines, for the poles collection. |
| `Api.ReceiveDrone` | api.py:74-86 | A wrong key gives 401 and leaves the store unchanged. Otherwise one record with latitude and longitude only is appended. The answer is `{"status": "ok", "data": <that record serialized>}`, and no broadcast happens. |
| `Api.DeleteDrone` | api.py:89-96 | The same as DeleteMines, for the drone positions collection. |
| `Api.ListCollection` | api.py:101-103 | One serialized record per stored record, in store order. None has `_id`, each has `id` equal to `str` of its stored id, and no two are equal. |
| `Api.GetPoles` | api.py:99-103 | All poles, serialized, in store order. |
| `Api.GetMines` | api.py:106-110 | All mines, serialized, in store order. |
| `Api.ListDrone` | api.py:113-118 | All drone positions, serialized, in store order. |
| `Api.LatestDrone` | api.py:121-126 | 404 iff there are no drone positions. Otherwise the serialized position with the greatest id, which the model's counter makes the last inserted. The status code is 404 or 200 accordingly. |
| `Api.SerializeAll` | api.py:103 | The list response has one entry per stored document, each that document serialized. |
| `Api.SerializedStoredRecord` | api.py:36-39 | A stored record without an `id` field serializes to its own fields plus `id` equal to the text of its object id, and nothing else. |
| `Api.LabelledDoc` | api.py:36 | A mine or pole document has exactly latitude, longitude and label. A missing label is stored as null. |
| `Api.PositionDoc` | api.py:80 | A drone position document has exactly latitude and longitude. |
| `Api.StatusCode` | api.py:33-34 | 401 exactly for the unauthorized answer, 404 exactly for the not-found answer, 200 otherwise. |
| `Api.ReportThenRead` | api.py:74-126 | After a position is accepted, the listed positions end with the accepted data. The latest-position query returns that same record, including its id. |

## Left out

- The WebSocket transport is not modelled. `accept`, `send_json` and `send_text` are foreign calls; whether they raise is an argument. The JSON message is carried as its encoded text and never inspected.
- Logging in both files is not modelled.
- Concurrency is not modelled. The model runs each call to completion. A `connect` or `disconnect` that runs while a broadcast awaits a send mutates the set being iterated, and in Python that can raise "set changed size during iteration". This model does not capture that. Only send failures that are `Exception`s are caught (ws_manager.py:37). A cancellation (`asyncio.CancelledError`, a `BaseException`) during a send escapes the broadcast and skips the cleanup loop. No timeout bounds a send, so a send that never returns holds up every later attempt. Neither case is modelled.
- MongoDB and Motor are not modelled, and neither is database.py. The store is a map from collection name to a sequence of documents. Store failures (the 5xx path) are not modelled: the store never fails.
- ObjectId generation is a counter. Real ids are built by the client from a timestamp in seconds, per-process random bytes and a counter that starts at a random value and wraps. Real ids are not guaranteed to grow with insertion order: two processes writing in the same second, a counter wrap or a clock stepping back can give a later record a smaller id. The model assumes one writing process and a clock that never goes back, and under that assumption the greatest `_id` is the last record inserted. `str(ObjectId)` is the counter in hexadecimal, padded to at least 24 digits; the counter has no upper bound, so ids at or above 16^24 print longer than a real ObjectId.
- `EventStore.Database.InsertOne` requires a document without `_id`, because the handlers never pass one. The case where a caller supplies its own id is not modelled.
- `EventStore.Database.FindLatest` sorts only records that carry object ids; the store invariant guarantees every record does. MongoDB's ordering across mixed id types is not modelled.
- Float latitudes and longitudes are opaque text; no arithmetic is done on them.
- The FastAPI routing, dependency injection and CORS setup are not modelled, and neither is main.py. The Pydantic validation in schemas.py is not modelled: request bodies are datatypes mirroring its field lists. The `recorded_at` field of a drone request is carried, and the handler drops it, as the code does. The routes at api.py:30, 52, 99, 106 and 121 declare `response_model=schemas.CoordOut` (latitude, longitude, id), and FastAPI cuts each return value down to that model, so a client never receives `label`. `Response.Record` and `Response.Records` are the handlers' return values before that cut.
- models.py (SQLAlchemy tables) is not part of this model; the handlers do not use it.
