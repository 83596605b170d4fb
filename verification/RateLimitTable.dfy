/** The per-identifier limiter table of the rate-limit middleware, with TTL eviction of idle
    limiters.  Asking the global limiter is one instant; looking an identifier's limiter up and asking
    it for a token is another, at or after it. */
module RateLimitTable {
  import opened Wrappers
  import opened TokenBuckets

  datatype Config = Config(rate: real, burst: int, ttl: real, global: bool, perUser: bool, perIP: bool)

  /** Thirty minutes, in seconds. */
  const DEFAULT_TTL := 1800.0

  /** How NewRateLimitMiddleware repairs its configuration. */
  function Repaired(c: Config): Config {
    if c.ttl == 0.0 then c.(ttl := DEFAULT_TTL) else c
  }

  datatype Entry = Entry(bucket: Bucket, lastAccess: real)

  /** The middleware's state as a value. */
  datatype Table = Table(config: Config, global: Option<Bucket>, entries: map<string, Entry>)

  function NewTable(config: Config, now: real): Table {
    Table(Repaired(config), if config.global then Some(NewBucket(config.rate, config.burst, now)) else None, map[])
  }

  function Lookup(t: Table, id: string, now: real): Bucket {
    if id in t.entries then t.entries[id].bucket else NewBucket(t.config.rate, t.config.burst, now)
  }

  /** The user and the address a request's context gives, each empty if it gives none. */
  datatype Who = Who(user: string, ip: string)

  function Parts(c: Config, who: Who): seq<string> {
    (if c.perUser && who.user != "" then ["user:" + who.user] else []) +
    (if c.perIP && who.ip != "" then ["ip:" + who.ip] else [])
  }

  function Joined(parts: seq<string>): string {
    if |parts| == 0 then ""
    else if |parts| == 1 then parts[0]
    else Joined(parts[..|parts| - 1]) + ":" + parts[|parts| - 1]
  }

  /** What a request is limited by; empty if by nothing but the global limiter. */
  function Identifier(c: Config, who: Who): string {
    Joined(Parts(c, who))
  }

  /** The global limiter's part of a request. */
  function AskedGlobal(g: Option<Bucket>, now: real): (Option<Bucket>, bool) {
    match g
    case None => (None, true)
    case Some(b) => var (next, ok) := Allowed(b, now, 1); (Some(next), ok)
  }

  function AskGlobal(t: Table, now: real): (Table, bool) {
    var (g, ok) := AskedGlobal(t.global, now);
    (t.(global := g), ok)
  }

  /** The part of an identifier's limiter. */
  function AskIdentifier(t: Table, now: real, id: string): (Table, bool) {
    var (b, ok) := Allowed(Lookup(t, id, now), now, 1);
    (t.(entries := t.entries[id := Entry(b, now)]), ok)
  }

  /** A request that nothing comes in between of: the global limiter at one instant, then the
      limiter of the identifier, if it has one, at another. */
  function Processed(t: Table, now: real, later: real, who: Who): (Table, bool) {
    var (t', ok) := AskGlobal(t, now);
    var id := Identifier(t.config, who);
    if !ok || id == "" then (t', ok) else AskIdentifier(t', later, id)
  }

  function Expired(t: Table, now: real): set<string> {
    set id | id in t.entries && now - t.entries[id].lastAccess > t.config.ttl
  }

  /** One cleanup: evict the limiters idle for longer than the TTL. */
  function Cleaned(t: Table, now: real): Table {
    t.(entries := t.entries - Expired(t, now))
  }

  datatype LimiterEntry = LimiterEntry(limiter: TokenBucket, lastAccess: real)

  class RateLimitMiddleware {
    const config: Config
    var limiters: map<string, LimiterEntry>
    const globalLimiter: TokenBucket?

    ghost function Buckets(): set<TokenBucket>
      reads this
    {
      (set id | id in limiters :: limiters[id].limiter) +
      (if globalLimiter == null then {} else {globalLimiter})
    }

    /** No two identifiers share a bucket, and none uses the global one. */
    ghost predicate Valid()
      reads this
    {
      && (forall a, b :: a in limiters && b in limiters && a != b ==>
            limiters[a].limiter != limiters[b].limiter)
      && (forall a :: a in limiters ==> limiters[a].limiter != globalLimiter)
    }

    ghost function Entries(): map<string, Entry>
      reads this, Buckets()
    {
      map id | id in limiters :: Entry(limiters[id].limiter.State(), limiters[id].lastAccess)
    }

    ghost function State(): Table
      reads this, Buckets()
    {
      Table(config, if globalLimiter == null then None else Some(globalLimiter.State()), Entries())
    }

    constructor (config: Config, now: real)
      ensures Valid() && fresh(Buckets()) && State() == NewTable(config, now)
      ensures this.config == if config.ttl == 0.0 then config.(ttl := 1800.0) else config
    {
      this.config := if config.ttl == 0.0 then config.(ttl := DEFAULT_TTL) else config;
      limiters := map[];
      var g: TokenBucket? := null;
      if config.global {
        g := new TokenBucket(config.rate, config.burst, now);
      }
      globalLimiter := g;
    }

    method GetLimiter(id: string, now: real) returns (limiter: TokenBucket)
      requires Valid()
      modifies this
      ensures Valid() && fresh(Buckets() - old(Buckets()))
      ensures id in limiters && limiters[id] == LimiterEntry(limiter, now)
      ensures limiter != globalLimiter
      ensures limiter.State() == Lookup(old(State()), id, now)
      ensures State() == old(State()).(entries := old(State()).entries[id := Entry(limiter.State(), now)])
    {
      ghost var before := State();
      if id in limiters {
        limiter := limiters[id].limiter;
        limiters := limiters[id := LimiterEntry(limiter, now)];
      } else {
        limiter := new TokenBucket(config.rate, config.burst, now);
        limiters := limiters[id := LimiterEntry(limiter, now)];
      }
      assert Entries() == before.entries[id := Entry(limiter.State(), now)];
    }

    method AllowGlobal(now: real) returns (ok: bool)
      requires Valid()
      modifies Buckets()
      ensures Valid() && Buckets() == old(Buckets())
      ensures (State(), ok) == AskGlobal(old(State()), now)
    {
      if globalLimiter == null {
        return true;
      }
      ok := globalLimiter.AllowN(now, 1);
      assert State().entries == old(State()).entries;
    }

    /** Asking the limiter of an identifier that has just been looked up. */
    method AskLimiter(limiter: TokenBucket, now: real, ghost id: string) returns (ok: bool)
      requires Valid() && id in limiters && limiters[id] == LimiterEntry(limiter, now)
      modifies limiter
      ensures Valid() && Buckets() == old(Buckets()) && limiters == old(limiters)
      ensures ok == Allowed(old(limiter.State()), now, 1).1
      ensures Entries() == old(Entries())[id := Entry(Allowed(old(limiter.State()), now, 1).0, now)]
      ensures globalLimiter != null ==> globalLimiter.State() == old(globalLimiter.State())
    {
      ok := limiter.AllowN(now, 1);
    }

    method AllowIdentifier(now: real, id: string) returns (ok: bool)
      requires Valid()
      modifies this, Buckets()
      ensures Valid() && fresh(Buckets() - old(Buckets()))
      ensures (State(), ok) == AskIdentifier(old(State()), now, id)
    {
      ghost var before := State();
      var limiter := GetLimiter(id, now);
      ghost var found := State();
      ghost var b := limiter.State();
      ok := AskLimiter(limiter, now, id);
      ghost var next := Allowed(b, now, 1).0;
      assert Entries() == found.entries[id := Entry(next, now)];
      assert found.entries[id := Entry(next, now)] == before.entries[id := Entry(next, now)];
      assert State() == Table(before.config, found.global, Entries());
    }

    method GetIdentifier(who: Who) returns (identifier: string)
      ensures identifier == Identifier(config, who)
    {
      var parts: seq<string> := [];
      if config.perUser && who.user != "" {
        parts := parts + ["user:" + who.user];
      }
      if config.perIP && who.ip != "" {
        parts := parts + ["ip:" + who.ip];
      }
      assert parts == Parts(config, who);
      if |parts| == 0 {
        return "";
      }
      identifier := "";
      for i := 0 to |parts|
        invariant identifier == Joined(parts[..i])
      {
        assert parts[..i + 1][..i] == parts[..i];
        if i > 0 {
          identifier := identifier + ":";
        }
        identifier := identifier + parts[i];
      }
      assert parts[..|parts|] == parts;
    }

    /** Process, up to the call of the next handler: whether the request is admitted. */
    method Process(now: real, later: real, who: Who) returns (admitted: bool)
      requires Valid()
      modifies this, Buckets()
      ensures Valid() && fresh(Buckets() - old(Buckets()))
      ensures (State(), admitted) == Processed(old(State()), now, later, who)
    {
      admitted := AllowGlobal(now);
      if !admitted {
        return;
      }
      var identifier := GetIdentifier(who);
      if identifier != "" {
        admitted := AllowIdentifier(later, identifier);
      }
    }

    method FindExpired(now: real) returns (expired: seq<string>)
      requires Valid()
      ensures forall id :: id in expired <==> id in limiters && now - limiters[id].lastAccess > config.ttl
    {
      expired := [];
      var unseen := limiters.Keys;
      while unseen != {}
        invariant unseen <= limiters.Keys
        invariant forall id :: id in expired <==>
                    id in limiters.Keys - unseen && now - limiters[id].lastAccess > config.ttl
        decreases unseen
      {
        var id :| id in unseen;
        if now - limiters[id].lastAccess > config.ttl {
          expired := expired + [id];
        }
        unseen := unseen - {id};
      }
    }

    method Evict(expired: seq<string>)
      modifies this`limiters
      ensures limiters == old(limiters) - (set id | id in expired)
    {
      for k := 0 to |expired|
        invariant limiters == old(limiters) - (set id | id in expired[..k])
      {
        assert expired[..k + 1] == expired[..k] + [expired[k]];
        limiters := limiters - {expired[k]};
      }
      assert expired[..|expired|] == expired;
    }

    /** The limiters that are left are the same objects in the same state. */
    method EvictAll(expired: seq<string>)
      requires Valid()
      modifies this`limiters
      ensures Valid() && Buckets() <= old(Buckets())
      ensures limiters.Keys <= old(limiters.Keys)
      ensures Entries() == map id | id in old(Entries()) && id !in expired :: old(Entries())[id]
    {
      Evict(expired);
    }

    method Cleanup(now: real)
      requires Valid()
      modifies this`limiters
      ensures Valid() && Buckets() <= old(Buckets())
      ensures State() == Cleaned(old(State()), now)
      ensures forall id :: id in State().entries <==>
                id in old(State()).entries && now - old(State()).entries[id].lastAccess <= config.ttl
    {
      var expired := FindExpired(now);
      ghost var was := State();
      assert forall id :: id in expired <==> id in Expired(was, now);
      EvictAll(expired);
      assert Entries() == was.entries - Expired(was, now);
    }
  }

  /** A request, case by case: refused by the global limiter without touching any other; admitted
      without one for want of an identifier; else up to the identifier's limiter. */
  lemma ProcessedSpelledOut(t: Table, now: real, later: real, who: Who)
    ensures var (t', admitted) := Processed(t, now, later, who);
            var id := Identifier(t.config, who);
            var granted := t.global == None || Refill(t.global.value, now).tokens >= 1.0;
            && (!granted ==> !admitted && t'.entries == t.entries)
            && (granted && id == "" ==> admitted && t'.entries == t.entries)
            && (granted && id != "" ==>
                  && (admitted <==> Refill(Lookup(t, id, later), later).tokens >= 1.0)
                  && t'.entries.Keys == t.entries.Keys + {id} && t'.entries[id].lastAccess == later)
            && (id !in t.entries ==>
                  Lookup(t, id, later) == Bucket(t.config.rate, t.config.burst, t.config.burst as real, later))
  {}
}
