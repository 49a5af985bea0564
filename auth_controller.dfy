/**
 * The register and login handlers of the auth service. Each handler reads the
 * Redis cache first, falls back to the `users` table, may rewrite the cache
 * entry, and (register only) publishes a `UserRegistered` event. Neither
 * handler ever writes the table: a new user reaches it only through the event.
 */
module AuthController {
  import opened Wrappers
  import opened JsValues
  import opened Stores
  import opened RabbitMQ

  /** `generateToken(payload)` is called without `expiresIn`, so tokens last 86400 s. */
  const TokenLifetimeSeconds: nat := 86400

  /** Code the handlers call but that is not part of this model: the email format
      check of the zod schema, `bcrypt.hash(password, 10)` (its random salt folded
      into the function) and `bcrypt.compare`. */
  datatype Foreign = Foreign(isEmail: string -> bool, hash: string -> string, compare: (string, string) -> bool)

  /** bcrypt accepts a password against its own hash ... */
  ghost predicate HashSound(f: Foreign)
  {
    forall p :: f.compare(p, f.hash(p))
  }

  /** ... and, idealised, rejects every other password against it. */
  ghost predicate HashDiscriminates(f: Foreign)
  {
    forall p, q :: p != q ==> !f.compare(p, f.hash(q))
  }

  /** The signed token, reduced to its payload `{id, email}` and its lifetime. */
  datatype Token = Token(id: string, email: string, expiresIn: nat)

  /** Status code, the `message` of the JSON body, and the token when there is one. */
  datatype Response = Response(status: nat, message: string, token: Option<Token>)

  const InternalError: Response := Response(500, "Internal server error", None)
  const AlreadyExists: Response := Response(400, "User already exists", None)
  const InvalidCredentials: Response := Response(401, "Invalid credentials", None)

  function Registered(id: string, email: string): Response
  {
    Response(201, "User registered successfully", Some(Token(id, email, TokenLifetimeSeconds)))
  }

  function LoggedIn(id: string, email: string): Response
  {
    Response(201, "User login successfully", Some(Token(id, email, TokenLifetimeSeconds)))
  }

  /** Which calls to the stores reject on this request (each makes the handler
      answer 500 through its catch block). */
  datatype Faults = Faults(cacheGet: bool, db: DbFault, cacheSet: bool)

  const NoFaults: Faults := Faults(false, NoDbFault, false)

  // ----- request body -----

  datatype Credentials = Credentials(email: string, password: string)

  /** `userSchema.parse(req.body)`: the body must be an object whose `email` is a
      string the email check accepts and whose `password` is a string; other
      fields are dropped. `None` is the ZodError the handlers turn into 500. */
  function ParseCredentials(body: Json, isEmail: string -> bool): (r: Option<Credentials>)
    ensures r.Some? <==>
              body.JObject? && "email" in body.fields && "password" in body.fields &&
              body.fields["email"].JString? && body.fields["password"].JString? &&
              isEmail(body.fields["email"].s)
    ensures r.Some? ==> r.value == Credentials(body.fields["email"].s, body.fields["password"].s)
  {
    match (StringField(body, "email"), StringField(body, "password"))
    case (Some(email), Some(password)) =>
      if isEmail(email) then Some(Credentials(email, password)) else None
    case _ => None
  }

  /** Fields other than `email` and `password` do not change what the schema yields. */
  lemma ParseIgnoresOtherFields(fields: map<string, Json>, name: string, value: Json, isEmail: string -> bool)
    requires name != "email" && name != "password"
    ensures ParseCredentials(JObject(fields[name := value]), isEmail) == ParseCredentials(JObject(fields), isEmail)
  {
  }

  // ----- cache values -----

  /** The JSON the handlers store under `user:${email}`: `{email, password, id}`. */
  function UserJson(email: string, password: string, id: string): Json
  {
    JObject(map["email" := JString(email), "password" := JString(password), "id" := JString(id)])
  }

  /** The cache value built from a table row, its BigInt id turned into text. */
  function RowJson(email: string, row: UserRow): Json
  {
    UserJson(email, row.password, DecimalString(row.id))
  }

  /** The two fields `loginUser` reads from a parsed cache value. */
  datatype CachedUser = CachedUser(password: string, id: string)

  /** `JSON.parse(existingUserCache)` followed by reading `user.password` and `user.id`. */
  function ReadCachedUser(v: Json): Option<CachedUser>
  {
    match (StringField(v, "password"), StringField(v, "id"))
    case (Some(password), Some(id)) => Some(CachedUser(password, id))
    case _ => None
  }

  /** A row written into the cache reads back as the same email, hash and id. */
  lemma RowCacheRoundTrip(email: string, row: UserRow)
    ensures StringField(RowJson(email, row), "email") == Some(email)
    ensures ReadCachedUser(RowJson(email, row)) == Some(CachedUser(row.password, DecimalString(row.id)))
    ensures ParseDecimal(ReadCachedUser(RowJson(email, row)).value.id) == row.id
  {
    ParseDecimalString(row.id);
  }

  // ----- cache coherence -----

  /** The cache value is the image of the table row for that email. */
  ghost predicate RowBacked(email: string, v: Json, rows: map<string, UserRow>)
  {
    email in rows && v == RowJson(email, rows[email])
  }

  /** The message is a `UserRegistered` event for `email` whose id and hash are those of `v`. */
  ghost predicate Announces(m: Message, email: string, v: Json)
  {
    m.exchange == AuthExchange && m.routingKey == RegisteredKey &&
    match DecodeRegistered(m.content)
    case Some(r) => r.email == email && v == UserJson(email, r.passwordHash, DecimalString(r.id))
    case None => false
  }

  ghost predicate EventBacked(email: string, v: Json, sent: seq<Message>)
  {
    exists i :: 0 <= i < |sent| && Announces(sent[i], email, v)
  }

  /** Every user entry in the cache was written with the 86400 s TTL and is backed
      either by the table row for its email or by a published registration event
      (the only way a new user reaches the table). */
  ghost predicate Coherent(cache: map<string, CacheEntry>, rows: map<string, UserRow>, sent: seq<Message>)
  {
    forall email :: CacheKey(email) in cache ==>
      cache[CacheKey(email)].ttl == CacheTtlSeconds &&
      (RowBacked(email, cache[CacheKey(email)].value, rows) ||
       EventBacked(email, cache[CacheKey(email)].value, sent))
  }

  /** Publishing more messages keeps every entry backed. */
  lemma {:induction false} MoreEventsKeepCoherence(cache: map<string, CacheEntry>, rows: map<string, UserRow>,
                                                   sent: seq<Message>, more: seq<Message>)
    requires Coherent(cache, rows, sent)
    ensures Coherent(cache, rows, sent + more)
  {
    forall email | CacheKey(email) in cache && EventBacked(email, cache[CacheKey(email)].value, sent)
      ensures EventBacked(email, cache[CacheKey(email)].value, sent + more)
    {
      var i :| 0 <= i < |sent| && Announces(sent[i], email, cache[CacheKey(email)].value);
      assert (sent + more)[i] == sent[i];
    }
  }

  /** Writing the row of `email` into its cache entry (the register backfill and the
      login refresh) keeps the cache coherent. */
  lemma {:induction false} RowWriteKeepsCoherence(cache: map<string, CacheEntry>, rows: map<string, UserRow>,
                                                  sent: seq<Message>, email: string)
    requires Coherent(cache, rows, sent)
    requires email in rows
    ensures Coherent(cache[CacheKey(email) := CacheEntry(RowJson(email, rows[email]), CacheTtlSeconds)], rows, sent)
  {
    var after := cache[CacheKey(email) := CacheEntry(RowJson(email, rows[email]), CacheTtlSeconds)];
    forall e | CacheKey(e) in after
      ensures after[CacheKey(e)].ttl == CacheTtlSeconds &&
              (RowBacked(e, after[CacheKey(e)].value, rows) || EventBacked(e, after[CacheKey(e)].value, sent))
    {
      CacheKeyInjective(e, email);
    }
  }

  /** Caching a new user together with publishing its `UserRegistered` event keeps
      the cache coherent: the event backs the new entry. */
  lemma {:induction false} RegistrationKeepsCoherence(cache: map<string, CacheEntry>, rows: map<string, UserRow>,
                                                      sent: seq<Message>, email: string, id: nat, hashed: string)
    requires Coherent(cache, rows, sent)
    ensures Coherent(cache[CacheKey(email) := CacheEntry(UserJson(email, hashed, DecimalString(id)), CacheTtlSeconds)],
                     rows, sent + [Message(AuthExchange, RegisteredKey, RegisteredEnvelope(id, email, hashed), true)])
  {
    var m := Message(AuthExchange, RegisteredKey, RegisteredEnvelope(id, email, hashed), true);
    var v := UserJson(email, hashed, DecimalString(id));
    var after := cache[CacheKey(email) := CacheEntry(v, CacheTtlSeconds)];
    MoreEventsKeepCoherence(cache, rows, sent, [m]);
    EnvelopeRoundTrip(id, email, hashed);
    assert Announces((sent + [m])[|sent|], email, v);
    forall e | CacheKey(e) in after
      ensures after[CacheKey(e)].ttl == CacheTtlSeconds &&
              (RowBacked(e, after[CacheKey(e)].value, rows) || EventBacked(e, after[CacheKey(e)].value, sent + [m]))
    {
      CacheKeyInjective(e, email);
    }
  }

  // ----- the handlers -----

  /** `registerUser`. The table is only read; the cache entry and the event are
      written only on a double miss; the event goes out only if the broker client
      has a channel at that moment. */
  method RegisterUser(redis: RedisCache, pg: PgPool, broker: RabbitMQClient,
                      body: Json, foreign: Foreign, newId: nat, faults: Faults)
    returns (res: Response)
    modifies redis, pg`inUse, pg`queries, broker`sent
    ensures pg.inUse == old(pg.inUse)
    // every path but a registration made while the client has no channel keeps the cache coherent
    ensures Coherent(old(redis.entries), pg.rows, old(broker.sent)) && (broker.channel.Some? || res.status != 201) ==>
              Coherent(redis.entries, pg.rows, broker.sent)
    // invalid body, or the cache read rejects: 500 before any store is touched
    ensures var c := ParseCredentials(body, foreign.isEmail);
            c.None? || faults.cacheGet ==>
              res == InternalError && redis.entries == old(redis.entries) &&
              pg.queries == old(pg.queries) && broker.sent == old(broker.sent)
    // cache hit: 400, the table is not queried, nothing is written or published
    ensures var c := ParseCredentials(body, foreign.isEmail);
            c.Some? && !faults.cacheGet && CacheKey(c.value.email) in old(redis.entries) ==>
              res == AlreadyExists && redis.entries == old(redis.entries) &&
              pg.queries == old(pg.queries) && broker.sent == old(broker.sent)
    // cache miss: the table is queried once for the email
    ensures var c := ParseCredentials(body, foreign.isEmail);
            c.Some? && !faults.cacheGet && CacheKey(c.value.email) !in old(redis.entries) ==>
              pg.queries == old(pg.queries) + (if faults.db == ConnectFails then [] else [c.value.email]) &&
              (faults.db != NoDbFault ==>
                 res == InternalError && redis.entries == old(redis.entries) && broker.sent == old(broker.sent))
    // cache miss, row found: backfill the cache from the row, 400, no event
    ensures var c := ParseCredentials(body, foreign.isEmail);
            c.Some? && !faults.cacheGet && CacheKey(c.value.email) !in old(redis.entries) &&
            faults.db == NoDbFault && c.value.email in pg.rows ==>
              broker.sent == old(broker.sent) &&
              if faults.cacheSet then res == InternalError && redis.entries == old(redis.entries)
              else res == AlreadyExists &&
                   redis.entries == old(redis.entries)[CacheKey(c.value.email) :=
                     CacheEntry(RowJson(c.value.email, pg.rows[c.value.email]), CacheTtlSeconds)]
    // both miss: cache the new user, publish one event if connected, 201 with {id, email}
    ensures var c := ParseCredentials(body, foreign.isEmail);
            c.Some? && !faults.cacheGet && CacheKey(c.value.email) !in old(redis.entries) &&
            faults.db == NoDbFault && c.value.email !in pg.rows ==>
              var hashed := foreign.hash(c.value.password);
              if faults.cacheSet then
                res == InternalError && redis.entries == old(redis.entries) && broker.sent == old(broker.sent)
              else
                res == Registered(DecimalString(newId), c.value.email) &&
                redis.entries == old(redis.entries)[CacheKey(c.value.email) :=
                  CacheEntry(UserJson(c.value.email, hashed, DecimalString(newId)), CacheTtlSeconds)] &&
                broker.sent == old(broker.sent) +
                  (if broker.channel.Some?
                   then [Message(AuthExchange, RegisteredKey, RegisteredEnvelope(newId, c.value.email, hashed), true)]
                   else [])
  {
    var creds := ParseCredentials(body, foreign.isEmail);
    if creds.None? {
      return InternalError;
    }
    var email, password := creds.value.email, creds.value.password;
    var cacheKey := CacheKey(email);
    var existing := redis.Get(cacheKey, faults.cacheGet);
    if existing.ReadFailed? {
      return InternalError;
    }
    if existing.Hit? {
      return AlreadyExists;
    }
    var result := pg.FindByEmail(email, faults.db);
    if result.QueryError? {
      return InternalError;
    }
    if result.Found? {
      var ok := redis.SetEx(cacheKey, RowJson(email, result.row), CacheTtlSeconds, faults.cacheSet);
      if !ok {
        return InternalError;
      }
      if Coherent(old(redis.entries), pg.rows, broker.sent) {
        RowWriteKeepsCoherence(old(redis.entries), pg.rows, broker.sent, email);
      }
      return AlreadyExists;
    }
    var userId := newId;
    var hashedPassword := foreign.hash(password);
    var ok := redis.SetEx(cacheKey, UserJson(email, hashedPassword, DecimalString(userId)), CacheTtlSeconds, faults.cacheSet);
    if !ok {
      return InternalError;
    }
    broker.RegisterUser(userId, email, hashedPassword);
    if broker.channel.Some? && Coherent(old(redis.entries), pg.rows, old(broker.sent)) {
      RegistrationKeepsCoherence(old(redis.entries), pg.rows, old(broker.sent), email, userId, hashedPassword);
    }
    res := Registered(DecimalString(userId), email);
  }

  /** `loginUser`. A cache hit with a wrong password ends at 401 without the table;
      otherwise the table is always queried, a row overrides the cache (its hash is
      checked again and its id is used), and with neither a row nor a cached id the
      `null.toString()` makes it 500. On the cache-hit, table-miss path the token
      carries the cached id text itself (see `LoginTokenIdAsWritten`). */
  method LoginUser(redis: RedisCache, pg: PgPool, body: Json, foreign: Foreign, faults: Faults,
                   ghost sent: seq<Message>)
    returns (res: Response)
    modifies redis, pg`inUse, pg`queries
    ensures pg.inUse == old(pg.inUse)
    // whatever the broker has published so far, login keeps the cache coherent with it
    ensures Coherent(old(redis.entries), pg.rows, sent) ==> Coherent(redis.entries, pg.rows, sent)
    // the only cache write is the row of the email, with the 86400 s TTL
    ensures var c := ParseCredentials(body, foreign.isEmail);
            redis.entries == old(redis.entries) ||
            (c.Some? && c.value.email in pg.rows &&
             redis.entries == old(redis.entries)[CacheKey(c.value.email) :=
               CacheEntry(RowJson(c.value.email, pg.rows[c.value.email]), CacheTtlSeconds)])
    // invalid body, or the cache read rejects: 500 before any store is touched
    ensures var c := ParseCredentials(body, foreign.isEmail);
            c.None? || faults.cacheGet ==>
              res == InternalError && redis.entries == old(redis.entries) && pg.queries == old(pg.queries)
    // cache hit that cannot be read or whose hash does not match: the table is not consulted
    ensures var c := ParseCredentials(body, foreign.isEmail);
            c.Some? && !faults.cacheGet && CacheKey(c.value.email) in old(redis.entries) ==>
              var u := ReadCachedUser(old(redis.entries)[CacheKey(c.value.email)].value);
              (u.None? ==> res == InternalError && redis.entries == old(redis.entries) && pg.queries == old(pg.queries)) &&
              (u.Some? && !foreign.compare(c.value.password, u.value.password) ==>
                 res == InvalidCredentials && redis.entries == old(redis.entries) && pg.queries == old(pg.queries))
    // otherwise the table is queried and decides
    ensures var c := ParseCredentials(body, foreign.isEmail);
            c.Some? && !faults.cacheGet ==>
              var key := CacheKey(c.value.email);
              var u := if key in old(redis.entries) then ReadCachedUser(old(redis.entries)[key].value) else None;
              (key !in old(redis.entries) || (u.Some? && foreign.compare(c.value.password, u.value.password))) ==>
                pg.queries == old(pg.queries) + (if faults.db == ConnectFails then [] else [c.value.email]) &&
                (faults.db != NoDbFault ==> res == InternalError && redis.entries == old(redis.entries)) &&
                (faults.db == NoDbFault && c.value.email in pg.rows ==>
                   var row := pg.rows[c.value.email];
                   if !foreign.compare(c.value.password, row.password) then
                     res == InvalidCredentials && redis.entries == old(redis.entries)
                   else if faults.cacheSet then
                     res == InternalError && redis.entries == old(redis.entries)
                   else
                     res == LoggedIn(DecimalString(row.id), c.value.email) &&
                     redis.entries == old(redis.entries)[key := CacheEntry(RowJson(c.value.email, row), CacheTtlSeconds)]) &&
                (faults.db == NoDbFault && c.value.email !in pg.rows ==>
                   redis.entries == old(redis.entries) &&
                   res == if u.Some? then LoggedIn(u.value.id, c.value.email) else InternalError)
  {
    var creds := ParseCredentials(body, foreign.isEmail);
    if creds.None? {
      return InternalError;
    }
    var email, password := creds.value.email, creds.value.password;
    var cacheKey := CacheKey(email);
    var existing := redis.Get(cacheKey, faults.cacheGet);
    if existing.ReadFailed? {
      return InternalError;
    }
    var userId: Option<string> := None;
    if existing.Hit? {
      var user := ReadCachedUser(existing.value);
      if user.None? {
        return InternalError;
      }
      if !foreign.compare(password, user.value.password) {
        return InvalidCredentials;
      }
      userId := Some(user.value.id);
    }
    var result := pg.FindByEmail(email, faults.db);
    if result.QueryError? {
      return InternalError;
    }
    if result.Found? {
      if !foreign.compare(password, result.row.password) {
        return InvalidCredentials;
      }
      var ok := redis.SetEx(cacheKey, RowJson(email, result.row), CacheTtlSeconds, faults.cacheSet);
      if !ok {
        return InternalError;
      }
      if Coherent(old(redis.entries), pg.rows, sent) {
        RowWriteKeepsCoherence(old(redis.entries), pg.rows, sent, email);
      }
      userId := Some(DecimalString(result.row.id));
    }
    if userId.None? {
      // `userId.toString()` on null throws a TypeError, caught as a server error
      return InternalError;
    }
    res := LoggedIn(userId.value, email);
  }

  // ----- the id on the cache-hit, table-miss login path -----

  /** The token id `loginUser` mints as written when the cache holds the text of id
      n and the table has no row: `Number(user.id).toString()`, which goes through
      a double. */
  function LoginTokenIdAsWritten(cachedId: nat): string
  {
    DecimalString(ToDouble(cachedId))
  }

  /** As written, the token keeps the cached id exactly when that id is a double,
      which holds for every id below 2^53. */
  lemma LoginTokenIdAsWrittenExact(n: nat)
    ensures LoginTokenIdAsWritten(n) == DecimalString(n) <==> ToDouble(n) == n
    ensures n < SafeLimit ==> LoginTokenIdAsWritten(n) == DecimalString(n)
  {
    DecimalStringInjective(ToDouble(n), n);
  }

  /** The 64-bit id 2^53 + 1 comes back as 2^53, an id that may belong to another user. */
  lemma LoginTokenIdAsWrittenLosesId()
    ensures LoginTokenIdAsWritten(SafeLimit + 1) == DecimalString(SafeLimit)
    ensures LoginTokenIdAsWritten(SafeLimit + 1) != DecimalString(SafeLimit + 1)
  {
    assert DoubleSpacing(SafeLimit + 1) == 2 * DoubleSpacing((SafeLimit + 1) / 2) == 2;
    assert ToDouble(SafeLimit + 1) == SafeLimit;
    DecimalStringInjective(SafeLimit, SafeLimit + 1);
  }

  // ----- the end-to-end scenario -----

  /** Register, register again, log in, log in with a wrong password, on empty
      stores and a connected broker: 201 with the new id, 400, 201 with the same
      id, 401; exactly one event is published. */
  method RegisterThenLogin(foreign: Foreign, email: string, password: string, wrong: string,
                           newId: nat, laterId: nat, conn: Connection, chan: Channel)
    returns (registered: Response, again: Response, login: Response, rejected: Response, events: seq<Message>)
    requires foreign.isEmail(email)
    requires HashSound(foreign) && HashDiscriminates(foreign) && wrong != password
    ensures registered == Registered(DecimalString(newId), email)
    ensures again == AlreadyExists
    ensures login == LoggedIn(DecimalString(newId), email)
    ensures rejected == InvalidCredentials
    ensures events == [Message(AuthExchange, RegisteredKey, RegisteredEnvelope(newId, email, foreign.hash(password)), true)]
  {
    var redis := new RedisCache(map[]);
    var pg := new PgPool(map[]);
    var broker := new RabbitMQClient();
    broker.Connect(Opened(conn, chan));
    var body := JObject(map["email" := JString(email), "password" := JString(password)]);
    var wrongBody := JObject(map["email" := JString(email), "password" := JString(wrong)]);
    assert ParseCredentials(body, foreign.isEmail) == Some(Credentials(email, password));
    assert ParseCredentials(wrongBody, foreign.isEmail) == Some(Credentials(email, wrong));
    var hashed := foreign.hash(password);
    var cached := UserJson(email, hashed, DecimalString(newId));

    registered := RegisterUser(redis, pg, broker, body, foreign, newId, NoFaults);
    assert redis.entries == map[CacheKey(email) := CacheEntry(cached, CacheTtlSeconds)];
    assert pg.rows == map[];

    again := RegisterUser(redis, pg, broker, body, foreign, laterId, NoFaults);
    assert redis.entries == map[CacheKey(email) := CacheEntry(cached, CacheTtlSeconds)];

    assert ReadCachedUser(cached) == Some(CachedUser(hashed, DecimalString(newId)));
    assert foreign.compare(password, hashed);
    login := LoginUser(redis, pg, body, foreign, NoFaults, broker.sent);
    assert redis.entries == map[CacheKey(email) := CacheEntry(cached, CacheTtlSeconds)];

    assert !foreign.compare(wrong, hashed);
    rejected := LoginUser(redis, pg, wrongBody, foreign, NoFaults, broker.sent);
    events := broker.sent;
  }
}
