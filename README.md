# Auth service core: cache, table, broker and startup gate

A Dafny model of the decision logic of the `auth` service and of the startup
gate of the `dummy` service. Every external system is plain data:

- the Redis cache is a map from key to `CacheEntry(value, ttl)`, keyed by
  `user:` followed by the email, the value being the JSON `{email, password, id}`;
- the Postgres `users` table is a map from email to `UserRow(id, password)` behind
  a pool that counts checked-out clients and logs every SELECT;
- the RabbitMQ client is a class whose `connection` and `channel` follow
  connect, close and reconnect events. Everything handed to a channel is kept
  in an append-only log `sent`, and pending `setTimeout` reconnects are a queue
  of delays;
- `bcrypt.hash`, `bcrypt.compare` and the zod email check are function-valued
  inputs (`Foreign`). The id from `generateUniqueId` is an input. The answers the
  dependencies give on each startup attempt are an input `probe: nat -> Attempt`.

Modules:

- `JsValues` holds the JSON value, the decimal text of an id, and `Number(...)` rounding.
- `Stores` holds the cache and the pool.
- `RabbitMQ` holds the client, its singleton slot and the `UserRegistered` envelope.
- `AuthInit` and `DummyInit` hold the two `initServices` loops.
- `AuthController` holds `registerUser` and `loginUser`.

Each handler is a method over the store objects it uses: the cache, the pool and,
for `registerUser`, the broker client. It returns the status,
the message and the optional token payload `{id, email}`. Its postcondition
states, path by path, the response and the new cache, query log and event log.
Neither handler writes the table.

The main invariant is `AuthController.Coherent`. Every user entry in the cache
carries the 86400 s TTL. Each entry is also backed, either by the table row of
its email or by a published `UserRegistered` event, which is how a new user
reaches the table. Login and every register path except a fresh registration
keep this invariant. A fresh
registration keeps it only when the broker client has a channel. Without one,
the publish is a silent no-op: the new user then exists only in the cache, and
is lost once the entry expires.

The model follows the code with two exceptions, both recorded in the Findings
table. First, both handlers use the pool lookup that gives its client back even
when the query rejects; the code as written skips `client.release()` on that
path. Second, on a login whose cache entry matches but whose email has no table
row, the token carries the cached id text itself; the code as written passes it
through `Number(...)`, which changes ids from 2^53 up.

Behaviour of the code worth knowing:

- A rejected cache read or write makes either handler answer 500. There is no
  fallback to the table, so the service has no degraded mode without Redis.
- Register never inserts into the table. A second registration after the cache
  entry has expired is caught only if the event consumer has already stored the row.
- A login where both stores miss fails with 500 (`null.toString()` throws). It
  never issues a token for a missing user.

## Model

| member | source | states |
|---|---|---|
| `AuthController.ParseCredentials` | backend/auth/src/controllers/auth.ts:12-15 | the schema admits exactly an object whose `email` is a string passing the email check and whose `password` is a string, and yields those two strings |
| `AuthController.ParseIgnoresOtherFields` | backend/auth/src/controllers/auth.ts:12-15 | fields other than email and password do not change the parse result |
| `Stores.CacheKeyInjective` | backend/auth/src/controllers/auth.ts:36 | two emails share the key `user:${email}` only if they are equal |
| `Stores.RedisCache.Get` | backend/auth/src/controllers/auth.ts:37 | a read hits exactly when the key is present and returns its value; a rejected read yields neither a hit nor a miss |
| `Stores.RedisCache.SetEx` | backend/auth/src/controllers/auth.ts:73 | a successful set overwrites that one key with the value and TTL; a rejected one changes nothing |
| `Stores.PgPool.FindByEmail` | backend/auth/src/controllers/auth.ts:45-47 | the lookup returns the row of the email or none, logs the SELECT unless connecting failed, never changes the table, and gives the client back on every path |
| `Stores.PgPool.FindByEmailAsWritten` | backend/auth/src/controllers/auth.ts:138-140 | as written, a rejected query leaves one more client checked out |
| `AuthController.RegisterUser` | backend/auth/src/controllers/auth.ts:31-94 | invalid body or failed cache read gives 500 with no effect. A cache hit gives 400 with no query, write or event. A table hit backfills the cache from the row with TTL 86400 and gives 400 with no event. A double miss caches `{email, hash(password), id}` with TTL 86400, publishes one `auth_exchange`/`auth.registered` event iff the client has a channel, and gives 201 with token `{id, email}`. The table is never written and, with the corrected lookup, every pool client is given back. Coherence is kept on every path except a 201 while the client has no channel |
| `AuthController.LoginUser` | backend/auth/src/controllers/auth.ts:114-183 | invalid body or failed cache read gives 500 with no effect. A cache hit whose hash does not match gives 401 with no query and no write. Otherwise the table is queried. A row with a wrong hash gives 401 even after a cache match. A row that matches rewrites the cache from the row (TTL 86400) and gives 201 with the row's id. No row gives 201 with the cached id text after a cache match (the corrected id of the first Findings row), else 500. The only cache write is the row image, and coherence with any event log is kept |
| `AuthController.RowCacheRoundTrip` | backend/auth/src/controllers/auth.ts:52-61 | a row written into the cache reads back as the same email, hash and id |
| `AuthController.RowWriteKeepsCoherence` | backend/auth/src/controllers/auth.ts:152-161 | writing the row image of an email into its cache entry keeps every cache entry backed by the table or by an event |
| `AuthController.RegistrationKeepsCoherence` | backend/auth/src/controllers/auth.ts:72-77 | caching a new user together with its published event keeps the cache coherent, with the new entry backed by the event |
| `AuthController.MoreEventsKeepCoherence` | backend/auth/src/config/Brokers/RabbitMQClient.ts:74-77 | appending to the event log never takes away an entry's backing |
| `AuthController.LoginTokenIdAsWrittenExact` | backend/auth/src/controllers/auth.ts:135 | as written, `Number(user.id).toString()` keeps the cached id exactly when the id is a double, in particular for every id below 2^53 |
| `AuthController.LoginTokenIdAsWrittenLosesId` | backend/auth/src/controllers/auth.ts:135 | as written, the cached id 2^53+1 yields the token id 2^53 |
| `AuthController.RegisterThenLogin` | packages/test/auth.spec.ts:14-48 | on empty stores with a connected broker: register gives 201 with the new id, registering again gives 400, login gives 201 with the same id, a wrong password gives 401, and exactly one event is published |
| `JsValues.DecimalString` | backend/auth/src/controllers/auth.ts:57 | the text of an id is a non-empty string of decimal digits, with no leading zero except for zero |
| `JsValues.ParseDecimalString` | backend/auth/src/controllers/auth.ts:57 | reading back the text of an id gives the id |
| `JsValues.DecimalStringInjective` | backend/auth/src/config/Brokers/RabbitMQClient.ts:89 | distinct ids have distinct texts |
| `JsValues.ToDouble` | backend/auth/src/controllers/auth.ts:135 | `Number(n)` is n below 2^53. Otherwise it is a multiple of the double spacing at n, within half a spacing of n, and on a tie the even multiple |
| `AuthInit.CheckRedisConnection` | backend/auth/src/utils/init.ts:21-33 | the Redis check passes iff the ping reply is exactly no error with the result "PONG" |
| `AuthInit.RunReadyIff` | backend/auth/src/utils/init.ts:47-65 | the loop returns iff some attempt among those it makes has Postgres, Redis and RabbitMQ all ready, and it returns at the first such attempt |
| `AuthInit.RunSteps` | backend/auth/src/utils/init.ts:49-61 | every failed attempt k runs the three checks in the order Postgres, Redis, RabbitMQ, then waits 5000 ms with `retries` at 5-k, so the counter drops by exactly one per failure |
| `AuthInit.RunLength` | backend/auth/src/utils/init.ts:48-62 | a run is three checks per attempt plus one wait per failed attempt, the fifth failure included |
| `AuthInit.InitServices` | backend/auth/src/utils/init.ts:47-65 | the loop follows `Run`. It returns iff one of the first 5 attempts is all-ready, at the first such attempt, and otherwise throws with `retries` at 0. Waits equal failed attempts, and every attempt runs all three checks in order. The attempt it returns at had the ping answer "PONG" without error, and if no attempt's ping did, it throws |
| `AuthInit.TraceFacts` | backend/auth/src/utils/init.ts:48-64 | the outcome, step count and per-attempt blocks of the five-attempt run |
| `DummyInit.CheckRedisConnection` | backend/dummy/src/utils/init.ts:19-31 | the dummy Redis check passes iff the ping reply is exactly no error with the result "PONG" |
| `DummyInit.RunReadyIff` | backend/dummy/src/utils/init.ts:33-50 | the dummy loop returns iff some attempt it makes has Postgres and Redis both ready, at the first such attempt |
| `DummyInit.RunSteps` | backend/dummy/src/utils/init.ts:35-47 | every failed attempt k runs Postgres then Redis, then waits 5000 ms with `retries` at 5-k |
| `DummyInit.RunLength` | backend/dummy/src/utils/init.ts:34-47 | a run is two checks per attempt plus one wait per failed attempt |
| `DummyInit.InitServices` | backend/dummy/src/utils/init.ts:33-50 | returns iff one of the first 5 attempts has both checks true, and otherwise throws with `retries` at 0. Both checks run on every attempt and waits equal failures. The attempt it returns at had the ping answer "PONG" without error, and if no attempt's ping did, it throws |
| `RabbitMQ.RegisteredEnvelope` | backend/auth/src/config/Brokers/RabbitMQClient.ts:86-93 | the envelope is an object with exactly the fields event, id, email and password |
| `RabbitMQ.EnvelopeRoundTrip` | backend/auth/src/config/Brokers/RabbitMQClient.ts:86-93 | a consumer reads back from the envelope the event name `UserRegistered`, the same id (from its decimal text), the email and the hash |
| `RabbitMQ.RabbitMQClient.constructor` | backend/auth/src/config/Brokers/RabbitMQClient.ts:6-10 | a new client has no connection, no channel, no pending reconnect and an empty log |
| `RabbitMQ.RabbitMQClient.Connect` | backend/auth/src/config/Brokers/RabbitMQClient.ts:20-57 | on success both `connection` and `channel` are set and the handlers attached. On either rejection both are null and one reconnect is scheduled. Nothing is sent |
| `RabbitMQ.RabbitMQClient.Reconnect` | backend/auth/src/config/Brokers/RabbitMQClient.ts:59-63 | both fields become null and one `connect` is scheduled after 5000 ms |
| `RabbitMQ.RabbitMQClient.ReconnectTimerFires` | backend/auth/src/config/Brokers/RabbitMQClient.ts:62 | the oldest pending timer runs `connect` with the given outcome, and an opened connection joins the set carrying handlers, older ones keeping theirs. With no timer pending nothing changes |
| `RabbitMQ.RabbitMQClient.ConnectionClosed` | backend/auth/src/config/Brokers/RabbitMQClient.ts:34-40 | a close event on a connection carrying the handler triggers `reconnect`; on any other connection it does nothing |
| `RabbitMQ.RabbitMQClient.ConnectionError` | backend/auth/src/config/Brokers/RabbitMQClient.ts:42-48 | an error event leaves the client unchanged |
| `RabbitMQ.RabbitMQClient.Publish` | backend/auth/src/config/Brokers/RabbitMQClient.ts:65-84 | without a channel nothing is sent and the call returns normally. With one, exactly one persistent message with the payload goes out |
| `RabbitMQ.RabbitMQClient.RegisterUser` | backend/auth/src/config/Brokers/RabbitMQClient.ts:86-93 | publishes the `UserRegistered` envelope of id, email and hash to `auth_exchange` with key `auth.registered`, if there is a channel |
| `RabbitMQ.ClientSlot.GetInstance` | backend/auth/src/config/Brokers/RabbitMQClient.ts:12-18 | the first call creates the one client and connects it. If the connection opens, the client has the connection, the channel, handlers on that connection only and no timer. Otherwise it has neither, no handlers and one 5000 ms timer. Every later call returns that same client unchanged |

## Left out

- `AuthController.RegisterUser` uses `Stores.PgPool.FindByEmail`, which releases the client on every path. As written, a rejected query at backend/auth/src/controllers/auth.ts:46 skips the `client.release()` of line 47, so this handler does not model that leak. `Stores.PgPool.FindByEmailAsWritten` states it.
- `AuthController.LoginUser` uses the same corrected lookup. It does not model the leak when the query at backend/auth/src/controllers/auth.ts:139 rejects and skips line 140. On the cache-hit, table-miss path its token id is the cached id text, the corrected behaviour of the first Findings row, not the `Number(user.id).toString()` of lines 135 and 169 (that one is `AuthController.LoginTokenIdAsWritten`).
- Logging (winston), the Express wiring, `config.ts`, the HTTP listener and `process.exit` are not modelled. None of them affects the handlers' decisions.
- The token is its payload `{id, email}` and its default lifetime of 86400 s. The jsonwebtoken signing is not part of this model.
- bcrypt, the zod email regex and `generateUniqueId` are not part of this model. They are inputs, and a bcrypt call that throws is not modelled. The scenario assumes bcrypt accepts a password against its own hash and rejects every other one.
- Cache values are JSON structures, not text. A cache value that is not valid JSON therefore cannot occur. The service writes only well-formed `{email, password, id}` values.
- `AuthController.ReadCachedUser` (no contract) treats a cached object without a string `password` and `id` as a 500. As written, a missing `id` would instead continue with `Number(undefined)`, giving a token id of "NaN". The service never writes such an entry.
- `AuthController.LoginTokenIdAsWritten` prints the exact integer value of the double. JavaScript prints the shortest digits that round-trip, which differ above 2^54. `Number` of a text that is not plain digits is not modelled.
- `JsValues.ToDouble` does not model the overflow to Infinity. Ids are at most 64 bits.
- Each handler call is atomic. Async interleaving, the race between two concurrent registrations of one email, and concurrent `getInstance` calls during the first `connect` are not modelled.
- Real time is not simulated. TTLs are recorded, not expired, and `setTimeout` is a queue of pending delays fired by `ReconnectTimerFires`.
- `checkPostgresConnection` and `checkRabbitMQConnection` are booleans per attempt. The RabbitMQ check's open-then-close of a separate connection is not modelled.
- `channel.publish` returning false (back-pressure) or throwing on a closed channel is not modelled. Nor is the broker's own delivery.

## Findings

| source | as written | input that shows it | evidently intended | confidence | as-written member | corrected member |
|---|---|---|---|---|---|---|
| backend/auth/src/controllers/auth.ts:135 | on a cache hit with no table row, the token id is `Number(user.id).toString()`, which goes through a double | cached id "9007199254740993" (2^53+1) and no table row: the token id is "9007199254740992", which may be another user's id | the token carries the cached id text unchanged | medium: needs ids of at least 2^53 from `generateUniqueId`, which is not part of this model; not executed | `AuthController.LoginTokenIdAsWrittenLosesId` | `AuthController.LoginUser` |
| backend/auth/src/controllers/auth.ts:45-47 | `client.release()` runs only after `client.query` resolves (also at lines 138-140) | a SELECT that rejects, for example when the connection drops mid-query: the client is never returned, and repeated failures exhaust the pool | the client goes back to the pool on every path | high; not executed | `Stores.PgPool.FindByEmailAsWritten` | `Stores.PgPool.FindByEmail` |
