/**
 * The two external stores the auth service talks to, reduced to plain data:
 * the Redis cache (a map from key to JSON value with the TTL it was written
 * with) and the Postgres `users` table behind a connection pool.
 */
module Stores {
  import opened Wrappers
  import opened JsValues

  /** Every cache write of the service uses `"EX", 86400`. */
  const CacheTtlSeconds: nat := 86400

  /** The cache key of a user: `user:${email}`. */
  function CacheKey(email: string): string
  {
    "user:" + email
  }

  /** Different emails never share a cache key. */
  lemma CacheKeyInjective(a: string, b: string)
    ensures CacheKey(a) == CacheKey(b) <==> a == b
  {
    if CacheKey(a) == CacheKey(b) {
      assert a == CacheKey(a)[5..] == CacheKey(b)[5..] == b;
    }
  }

  /** A Redis string value (a JSON document) and the expiry it was set with. */
  datatype CacheEntry = CacheEntry(value: Json, ttl: nat)

  /** What `redisClient.get` resolves to, or that it rejected. */
  datatype CacheRead = Hit(value: Json) | Miss | ReadFailed

  /** The Redis server as the service sees it. Expiry over time is not simulated:
      an entry stays until it is overwritten. */
  class RedisCache {
    var entries: map<string, CacheEntry>

    constructor (entries: map<string, CacheEntry>)
      ensures this.entries == entries
    {
      this.entries := entries;
    }

    /** `redisClient.get(key)`; `fails` is the connection failing on this call. */
    method Get(key: string, fails: bool) returns (r: CacheRead)
      ensures fails ==> r == ReadFailed
      ensures !fails ==> (r.Hit? <==> key in entries) && (r.Hit? ==> r.value == entries[key].value)
      ensures !fails ==> !r.ReadFailed?
    {
      if fails {
        r := ReadFailed;
      } else if key in entries {
        r := Hit(entries[key].value);
      } else {
        r := Miss;
      }
    }

    /** `redisClient.set(key, value, "EX", ttl)`: overwrites the key, or rejects. */
    method SetEx(key: string, value: Json, ttl: nat, fails: bool) returns (ok: bool)
      modifies this
      ensures ok == !fails
      ensures entries == if ok then old(entries)[key := CacheEntry(value, ttl)] else old(entries)
    {
      ok := !fails;
      if ok {
        entries := entries[key := CacheEntry(value, ttl)];
      }
    }
  }

  /** The reply of `redisClient.ping`: the error passed to the callback, and the result. */
  datatype PingReply = PingReply(err: Option<string>, result: Option<string>)

  /** A row of `users`; the email column is the key of the table map, so the row
      returned for `WHERE email = $1` always carries the email asked for. */
  datatype UserRow = UserRow(id: nat, password: string)

  /** How `postgresClient.connect()` and `client.query(...)` go on one call. */
  datatype DbFault = NoDbFault | ConnectFails | QueryFails

  /** The outcome of `SELECT * FROM users WHERE email = $1`. */
  datatype QueryResult = Found(row: UserRow) | NotFound | QueryError

  /** The Postgres pool and the `users` table behind it. The service only reads the table. */
  class PgPool {
    var rows: map<string, UserRow>
    /** Clients checked out with `connect()` and not yet given back with `release()`. */
    var inUse: nat
    /** The email of every SELECT sent to the server, in order. */
    var queries: seq<string>

    constructor (rows: map<string, UserRow>)
      ensures this.rows == rows && inUse == 0 && queries == []
    {
      this.rows := rows;
      inUse := 0;
      queries := [];
    }

    /** Look a user up by email, giving the client back to the pool on every path. */
    method FindByEmail(email: string, fault: DbFault) returns (r: QueryResult)
      modifies this`inUse, this`queries
      ensures inUse == old(inUse)
      ensures queries == if fault == ConnectFails then old(queries) else old(queries) + [email]
      ensures fault != NoDbFault ==> r == QueryError
      ensures fault == NoDbFault ==> r == if email in rows then Found(rows[email]) else NotFound
    {
      if fault == ConnectFails {
        return QueryError;
      }
      inUse := inUse + 1;
      queries := queries + [email];
      if fault == QueryFails {
        r := QueryError;
      } else if email in rows {
        r := Found(rows[email]);
      } else {
        r := NotFound;
      }
      inUse := inUse - 1;
    }

    /** The lookup as both handlers write it: `connect`, `query`, then `release`, so a
        query that rejects skips the release and the client stays checked out. */
    method FindByEmailAsWritten(email: string, fault: DbFault) returns (r: QueryResult)
      modifies this`inUse, this`queries
      ensures inUse == old(inUse) + (if fault == QueryFails then 1 else 0)
      ensures queries == if fault == ConnectFails then old(queries) else old(queries) + [email]
      ensures fault != NoDbFault ==> r == QueryError
      ensures fault == NoDbFault ==> r == if email in rows then Found(rows[email]) else NotFound
    {
      if fault == ConnectFails {
        return QueryError;
      }
      inUse := inUse + 1;
      queries := queries + [email];
      if fault == QueryFails {
        return QueryError;
      }
      r := if email in rows then Found(rows[email]) else NotFound;
      inUse := inUse - 1;
    }
  }
}
