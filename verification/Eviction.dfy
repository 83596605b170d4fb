/** Whether evicting idle limiters shows: runs of requests whose two parts interleave, against the
    same runs with no cleanup. */
module Eviction {
  import opened Wrappers
  import opened TokenBuckets
  import opened RateLimitTable

  type CallId = nat

  /** Enter is the global limiter's part of a request, Finish that of its identifier's limiter. */
  datatype Event =
    | Enter(now: real, call: CallId, who: Who)
    | Finish(now: real, call: CallId)
    | Cleanup(now: real)

  datatype Verdict = Verdict(call: CallId, admitted: bool)

  /** The table, and the identifiers of the requests between their two parts. */
  datatype Server = Server(table: Table, pending: map<CallId, string>)

  function NewServer(c: Config, now: real): Server {
    Server(NewTable(c, now), map[])
  }

  /** One event, and the verdict if it decides a request.  Events that cannot happen do nothing. */
  function Handle(s: Server, e: Event): (Server, seq<Verdict>) {
    match e
    case Enter(now, call, who) =>
      if call in s.pending then (s, []) else
      var (t, ok) := AskGlobal(s.table, now);
      var id := Identifier(t.config, who);
      if ok && id != "" then (Server(t, s.pending[call := id]), [])
      else (s.(table := t), [Verdict(call, ok)])
    case Finish(now, call) =>
      if call !in s.pending then (s, []) else
      var (t, ok) := AskIdentifier(s.table, now, s.pending[call]);
      (Server(t, s.pending - {call}), [Verdict(call, ok)])
    case Cleanup(now) => (s.(table := Cleaned(s.table, now)), [])
  }

  function Verdicts(s: Server, events: seq<Event>): seq<Verdict>
    decreases |events|
  {
    if events == [] then [] else
    var (s', v) := Handle(s, events[0]);
    v + Verdicts(s', events[1..])
  }

  function After(s: Server, events: seq<Event>): Server
    decreases |events|
  {
    if events == [] then s else After(Handle(s, events[0]).0, events[1..])
  }

  /** The same run with no cleanup in it. */
  function WithoutCleanups(events: seq<Event>): seq<Event> {
    if events == [] then []
    else (if events[0].Cleanup? then [] else [events[0]]) + WithoutCleanups(events[1..])
  }

  ghost predicate MonotoneFrom(now: real, events: seq<Event>)
    decreases |events|
  {
    events == [] || (now <= events[0].now && MonotoneFrom(events[0].now, events[1..]))
  }

  /** No run with a monotone clock has other verdicts because of its cleanups. */
  ghost predicate Invisible(c: Config, now: real) {
    forall events :: MonotoneFrom(now, events) ==>
      Verdicts(NewServer(c, now), events) == Verdicts(NewServer(c, now), WithoutCleanups(events))
  }

  /** A request that nothing comes in between of is its two parts. */
  lemma ProcessedIsTwoParts(s: Server, now: real, later: real, call: CallId, who: Who)
    requires call !in s.pending
    ensures var (t, ok) := Processed(s.table, now, later, who);
            && After(s, [Enter(now, call, who), Finish(later, call)]) == s.(table := t)
            && Verdicts(s, [Enter(now, call, who), Finish(later, call)]) == [Verdict(call, ok)]
  {
    var enter, finish := Enter(now, call, who), Finish(later, call);
    var (s1, v1) := Handle(s, enter);
    var (s2, v2) := Handle(s1, finish);
    OneEvent(s1, finish);
    assert [enter, finish][1..] == [finish];
    if call in s1.pending {
      assert s1.pending - {call} == s.pending;
    }
    assert Verdicts(s, [enter, finish]) == v1 + v2;
  }

  lemma OneEvent(s: Server, e: Event)
    ensures Verdicts(s, [e]) == Handle(s, e).1 && After(s, [e]) == Handle(s, e).0
  {
    assert [e][1..] == [];
  }

  lemma CleanupDropped(events: seq<Event>)
    requires events != []
    ensures events[0].Cleanup? ==> WithoutCleanups(events) == WithoutCleanups(events[1..])
    ensures !events[0].Cleanup? ==> WithoutCleanups(events)[0] == events[0]
                                    && WithoutCleanups(events)[1..] == WithoutCleanups(events[1..])
  {}

  // ---------------------------------------------------------------------------------------
  // Invisible if drained limiters refill in time
  // ---------------------------------------------------------------------------------------

  /** A drained bucket is full again by the time it may be evicted. */
  predicate RefillsInTime(c: Config) {
    c.rate >= 0.0 && Earned(c.rate, Max(c.ttl, 0.0)) >= c.burst as real
  }

  /** What Allow(1) keeps true of an identifier's entry: refilled at its last access, no debt. */
  ghost predicate Tidy(c: Config, e: Entry, now: real) {
    && e.bucket.rate == c.rate && e.bucket.burst == c.burst
    && e.bucket.lastUpdate == e.lastAccess <= now
    && Min(c.burst as real, 0.0) <= e.bucket.tokens <= c.burst as real
  }

  /** The evicting table against the one that never evicts: they agree on what is left, and
      whatever was evicted had been idle for longer than the TTL. */
  ghost predicate Agree(evicting: Table, keeping: Table, now: real) {
    && evicting.config == keeping.config && evicting.global == keeping.global
    && (forall id :: id in evicting.entries ==>
          id in keeping.entries && evicting.entries[id] == keeping.entries[id])
    && (forall id :: id in keeping.entries ==> Tidy(keeping.config, keeping.entries[id], now))
    && (forall id :: id in keeping.entries && id !in evicting.entries ==>
          now - keeping.entries[id].lastAccess > keeping.config.ttl)
  }

  /** An idle limiter is full again by the time it may be evicted. */
  lemma IdleRefillsFully(c: Config, e: Entry, now: real)
    requires Tidy(c, e, now) && RefillsInTime(c)
    requires now - e.lastAccess > c.ttl
    ensures Refill(e.bucket, now) == NewBucket(c.rate, c.burst, now)
  {
    EarnsMore(c.rate, Max(c.ttl, 0.0), now - e.lastAccess);
    EarnsMore(c.rate, 0.0, now - e.lastAccess);
    assert Earned(c.rate, now - e.lastAccess) == (now - e.bucket.lastUpdate) * c.rate;
  }

  lemma AskingKeepsTidy(c: Config, b: Bucket, last: real, now: real)
    requires Tidy(c, Entry(b, last), now) && c.rate >= 0.0
    ensures Tidy(c, Entry(Allowed(b, now, 1).0, now), now)
  {
    var earned, cap := (now - b.lastUpdate) * c.rate, c.burst as real;
    ProductNonNegative(now - b.lastUpdate, c.rate);
    assert Refill(b, now).tokens == Min(cap, b.tokens + earned);
  }

  lemma RefillTwice(c: Config, now: real)
    ensures Refill(NewBucket(c.rate, c.burst, now), now) == NewBucket(c.rate, c.burst, now)
  {}

  lemma AskingAgrees(evicting: Table, keeping: Table, now: real, id: string)
    requires Agree(evicting, keeping, now) && RefillsInTime(keeping.config)
    ensures AskIdentifier(evicting, now, id).1 == AskIdentifier(keeping, now, id).1
    ensures Agree(AskIdentifier(evicting, now, id).0, AskIdentifier(keeping, now, id).0, now)
  {
    var c := keeping.config;
    if id in keeping.entries {
      var e := keeping.entries[id];
      AskingKeepsTidy(c, e.bucket, e.lastAccess, now);
      if id !in evicting.entries {
        IdleRefillsFully(c, e, now);
        RefillTwice(c, now);
      }
    } else {
      AskingKeepsTidy(c, NewBucket(c.rate, c.burst, now), now, now);
    }
  }

  lemma LaterStillAgrees(evicting: Table, keeping: Table, now: real, later: real)
    requires Agree(evicting, keeping, now) && now <= later
    ensures Agree(evicting, keeping, later)
  {}

  lemma CleanupAgrees(evicting: Table, keeping: Table, now: real)
    requires Agree(evicting, keeping, now)
    ensures Agree(Cleaned(evicting, now), keeping, now)
  {}

  lemma StepAgrees(evicting: Server, keeping: Server, e: Event)
    requires evicting.pending == keeping.pending && Agree(evicting.table, keeping.table, e.now)
    requires RefillsInTime(keeping.table.config) && !e.Cleanup?
    ensures var (evicting', v) := Handle(evicting, e);
            var (keeping', w) := Handle(keeping, e);
            && v == w && evicting'.pending == keeping'.pending && keeping'.table.config == keeping.table.config
            && Agree(evicting'.table, keeping'.table, e.now)
  {
    if e.Finish? && e.call in keeping.pending {
      AskingAgrees(evicting.table, keeping.table, e.now, keeping.pending[e.call]);
    }
  }

  lemma {:induction false} AgreeingVerdicts(evicting: Server, keeping: Server, now: real, events: seq<Event>)
    requires evicting.pending == keeping.pending && Agree(evicting.table, keeping.table, now)
    requires RefillsInTime(keeping.table.config) && MonotoneFrom(now, events)
    ensures Verdicts(evicting, events) == Verdicts(keeping, WithoutCleanups(events))
    decreases |events|
  {
    if events != [] {
      var e := events[0];
      CleanupDropped(events);
      LaterStillAgrees(evicting.table, keeping.table, now, e.now);
      if e.Cleanup? {
        CleanupAgrees(evicting.table, keeping.table, e.now);
        AgreeingVerdicts(Handle(evicting, e).0, keeping, e.now, events[1..]);
        assert Verdicts(evicting, events) == [] + Verdicts(Handle(evicting, e).0, events[1..]);
      } else {
        StepAgrees(evicting, keeping, e);
        AgreeingVerdicts(Handle(evicting, e).0, Handle(keeping, e).0, e.now, events[1..]);
      }
    }
  }

  /** The middleware with cleanup at any moments admits and rejects exactly what one that never
      evicts does, when drained buckets refill in time; however requests interleave. */
  lemma EvictionInvisible(c: Config, now: real, events: seq<Event>)
    requires RefillsInTime(Repaired(c)) && MonotoneFrom(now, events)
    ensures Verdicts(NewServer(c, now), events) == Verdicts(NewServer(c, now), WithoutCleanups(events))
  {
    AgreeingVerdicts(NewServer(c, now), NewServer(c, now), now, events);
  }

  // ---------------------------------------------------------------------------------------
  // Invisible if the identifiers' limiters always answer alike
  // ---------------------------------------------------------------------------------------

  /** What is left of a server if every identifier's limiter gives the same answer. */
  datatype Front = Front(config: Config, global: Option<Bucket>, pending: map<CallId, string>)

  function FrontOf(s: Server): Front {
    Front(s.table.config, s.table.global, s.pending)
  }

  function HandleFront(f: Front, answer: bool, e: Event): (Front, seq<Verdict>) {
    match e
    case Enter(now, call, who) =>
      if call in f.pending then (f, []) else
      var (g, ok) := AskedGlobal(f.global, now);
      var id := Identifier(f.config, who);
      if ok && id != "" then (f.(global := g, pending := f.pending[call := id]), [])
      else (f.(global := g), [Verdict(call, ok)])
    case Finish(now, call) =>
      if call !in f.pending then (f, []) else (f.(pending := f.pending - {call}), [Verdict(call, answer)])
    case Cleanup(_) => (f, [])
  }

  function FrontVerdicts(f: Front, answer: bool, events: seq<Event>): seq<Verdict>
    decreases |events|
  {
    if events == [] then [] else
    var (f', v) := HandleFront(f, answer, events[0]);
    v + FrontVerdicts(f', answer, events[1..])
  }

  /** The identifier's limiter, if the event asks one, gives the answer. */
  ghost predicate Answers(s: Server, answer: bool, e: Event) {
    e.Finish? && e.call in s.pending ==> AskIdentifier(s.table, e.now, s.pending[e.call]).1 == answer
  }

  lemma FrontStep(s: Server, answer: bool, e: Event)
    requires Answers(s, answer, e)
    ensures FrontOf(Handle(s, e).0) == HandleFront(FrontOf(s), answer, e).0
    ensures Handle(s, e).1 == HandleFront(FrontOf(s), answer, e).1
  {}

  lemma {:induction false} FrontIgnoresCleanups(f: Front, answer: bool, events: seq<Event>)
    ensures FrontVerdicts(f, answer, WithoutCleanups(events)) == FrontVerdicts(f, answer, events)
    decreases |events|
  {
    if events != [] {
      CleanupDropped(events);
      FrontIgnoresCleanups(HandleFront(f, answer, events[0]).0, answer, events[1..]);
      if events[0].Cleanup? {
        assert FrontVerdicts(f, answer, events) == [] + FrontVerdicts(f, answer, events[1..]);
      }
    }
  }

  /** The clock of a run without its cleanups. */
  lemma {:induction false} StillMonotone(now: real, events: seq<Event>)
    requires MonotoneFrom(now, events)
    ensures MonotoneFrom(now, WithoutCleanups(events))
    decreases |events|
  {
    if events != [] {
      CleanupDropped(events);
      StillMonotone(events[0].now, events[1..]);
      Earlier(now, events[0].now, WithoutCleanups(events[1..]));
    }
  }

  lemma Earlier(now: real, later: real, events: seq<Event>)
    requires now <= later && MonotoneFrom(later, events)
    ensures MonotoneFrom(now, events)
  {}

  /** A reason for the identifiers' limiters to answer alike throughout a run. */
  datatype Reason = Anonymous | NoBurst | FewGrants

  /** No request has an identifier, or nobody's bucket ever holds a token, or the global limiter
      grants too few requests in all to drain any bucket.  `asked` counts the identifiers' parts. */
  ghost predicate Holds(r: Reason, s: Server, asked: nat, now: real) {
    match r
    case Anonymous => !s.table.config.perUser && !s.table.config.perIP && s.pending == map[]
    case NoBurst =>
      && s.table.config.burst <= 0
      && forall id :: id in s.table.entries ==> s.table.entries[id].bucket.burst == s.table.config.burst
    case FewGrants => Few(s.table.config, s.table, asked, |s.pending|, now)
  }

  ghost predicate Few(c: Config, t: Table, asked: nat, pending: nat, now: real) {
    && t.global.Some? && (c.rate == 0.0 || (c.rate < 0.0 && c.burst == 1))
    && t.global.value.rate == c.rate && t.global.value.burst == c.burst && t.global.value.lastUpdate <= now
    && asked + pending <= c.burst && t.global.value.tokens <= (c.burst - asked - pending) as real
    && forall id :: id in t.entries ==> Ample(c, t.entries[id].bucket, asked)
  }

  ghost predicate Ample(c: Config, b: Bucket, asked: nat) {
    && asked > 0 && b.rate == c.rate && b.burst == c.burst
    && (c.rate == 0.0 ==> b.tokens >= (c.burst - asked) as real)
  }

  predicate AnswerOf(r: Reason) { r.FewGrants? }

  lemma NeverRefills(b: Bucket, now: real)
    requires b.rate <= 0.0 && b.lastUpdate <= now
    ensures Refill(b, now).tokens <= b.tokens
    ensures b.rate == 0.0 ==> Refill(b, now).tokens == Min(b.burst as real, b.tokens)
  {
    var earned := (now - b.lastUpdate) * b.rate;
    ProductNonNegative(now - b.lastUpdate, -b.rate);
    assert earned == -((now - b.lastUpdate) * -b.rate);
    assert Refill(b, now).tokens == Min(b.burst as real, b.tokens + earned);
  }

  lemma StillRefilled(b: Bucket, now: real)
    requires b.rate == 0.0
    ensures Refill(b, now).tokens == Min(b.burst as real, b.tokens)
  {
    assert (now - b.lastUpdate) * b.rate == 0.0;
  }

  lemma FewEnter(s: Server, asked: nat, e: Event)
    requires Holds(FewGrants, s, asked, e.now) && e.Enter?
    ensures Holds(FewGrants, Handle(s, e).0, asked, e.now)
  {
    if e.call !in s.pending {
      var g, s' := s.table.global.value, Handle(s, e).0;
      NeverRefills(g, e.now);
      if e.call in s'.pending {
        assert s'.pending.Keys == s.pending.Keys + {e.call};
        assert |s'.pending| == |s'.pending.Keys| && |s.pending| == |s.pending.Keys|;
      }
    }
  }

  lemma FewFinish(s: Server, asked: nat, e: Event)
    requires Holds(FewGrants, s, asked, e.now) && e.Finish? && e.call in s.pending
    ensures Answers(s, true, e) && Holds(FewGrants, Handle(s, e).0, asked + 1, e.now)
  {
    var c, s', id := s.table.config, Handle(s, e).0, s.pending[e.call];
    assert s'.pending.Keys == s.pending.Keys - {e.call};
    assert |s'.pending| == |s'.pending.Keys| && |s.pending| == |s.pending.Keys|;
    var b := Lookup(s.table, id, e.now);
    if id !in s.table.entries {
      RefillTwice(c, e.now);
      assert Refill(b, e.now).tokens == c.burst as real;
    } else {
      assert Ample(c, b, asked);
      StillRefilled(b, e.now);
    }
    assert Ample(c, Allowed(b, e.now, 1).0, asked + 1);
  }

  lemma FewLater(s: Server, asked: nat, now: real, later: real)
    requires Holds(FewGrants, s, asked, now) && now <= later
    ensures Holds(FewGrants, s, asked, later)
  {}

  lemma AnonymousHasNoIdentifier(c: Config, who: Who)
    ensures !c.perUser && !c.perIP ==> Identifier(c, who) == ""
  {}

  lemma ReasonStep(r: Reason, s: Server, asked: nat, now: real, e: Event) returns (asked': nat)
    requires Holds(r, s, asked, now) && now <= e.now
    ensures Answers(s, AnswerOf(r), e) && Holds(r, Handle(s, e).0, asked', e.now)
  {
    asked' := asked;
    match r
    case Anonymous =>
      if e.Enter? {
        AnonymousHasNoIdentifier(s.table.config, e.who);
      }
    case NoBurst =>
    case FewGrants =>
      FewLater(s, asked, now, e.now);
      if e.Enter? {
        FewEnter(s, asked, e);
      } else if e.Finish? && e.call in s.pending {
        FewFinish(s, asked, e);
        asked' := asked + 1;
      }
  }

  lemma {:induction false} ReasonVerdicts(r: Reason, s: Server, asked: nat, now: real, events: seq<Event>)
    requires Holds(r, s, asked, now) && MonotoneFrom(now, events)
    ensures Verdicts(s, events) == FrontVerdicts(FrontOf(s), AnswerOf(r), events)
    decreases |events|
  {
    if events != [] {
      var asked' := ReasonStep(r, s, asked, now, events[0]);
      FrontStep(s, AnswerOf(r), events[0]);
      ReasonVerdicts(r, Handle(s, events[0]).0, asked', events[0].now, events[1..]);
    }
  }

  lemma InvisibleFor(r: Reason, c: Config, now: real, events: seq<Event>)
    requires Holds(r, NewServer(c, now), 0, now) && MonotoneFrom(now, events)
    ensures Verdicts(NewServer(c, now), events) == Verdicts(NewServer(c, now), WithoutCleanups(events))
  {
    var s := NewServer(c, now);
    StillMonotone(now, events);
    ReasonVerdicts(r, s, 0, now, events);
    ReasonVerdicts(r, s, 0, now, WithoutCleanups(events));
    FrontIgnoresCleanups(FrontOf(s), AnswerOf(r), events);
  }

  // ---------------------------------------------------------------------------------------
  // Invisible behind the global limiter, if no time passes between the two parts of a request
  // ---------------------------------------------------------------------------------------

  /** Brought to the global limiter's instant, the bucket holds at least as much. */
  ghost predicate HoldsMore(g: Bucket, b: Bucket) {
    && b.rate == g.rate && b.burst == g.burst
    && b.tokens + Earned(g.rate, g.lastUpdate - b.lastUpdate) >= g.tokens
  }

  ghost predicate Dominated(t: Table) {
    && t.global.Some? && t.global.value.tokens <= t.config.burst as real
    && t.global.value.rate == t.config.rate && t.global.value.burst == t.config.burst
    && forall id :: id in t.entries ==> HoldsMore(t.global.value, t.entries[id].bucket)
  }

  lemma StillHoldsMore(g: Bucket, b: Bucket, now: real)
    requires HoldsMore(g, b)
    ensures Refill(b, now).tokens >= Refill(g, now).tokens
    ensures HoldsMore(Refill(g, now), b) && HoldsMore(Spend(Refill(g, now), 1), b)
    ensures HoldsMore(Spend(Refill(g, now), 1), Spend(Refill(b, now), 1))
  {
    Distribute(g.rate, g.lastUpdate, b.lastUpdate);
    Distribute(g.rate, now, b.lastUpdate);
    Distribute(g.rate, now, g.lastUpdate);
    var more, less := Earned(g.rate, now - b.lastUpdate), Earned(g.rate, now - g.lastUpdate);
    assert (now - b.lastUpdate) * b.rate == more && (now - g.lastUpdate) * g.rate == less;
    assert Refill(b, now).tokens == Min(b.burst as real, b.tokens + more);
    assert Refill(g, now).tokens == Min(g.burst as real, g.tokens + less);
    assert Earned(g.rate, now - now) == 0.0;
  }

  lemma FreshHoldsMore(t: Table, now: real)
    requires Dominated(t)
    ensures HoldsMore(Refill(t.global.value, now), NewBucket(t.config.rate, t.config.burst, now))
  {
    assert Earned(t.config.rate, now - now) == 0.0;
  }

  /** Both parts at one instant: the identifier's limiter grants what the global one has granted. */
  lemma GlobalDecidesStep(t: Table, now: real, id: string)
    requires Dominated(t)
    ensures var (t', ok) := AskGlobal(t, now);
            && Dominated(t') && t'.config == t.config
            && (ok ==> AskIdentifier(t', now, id).1 && Dominated(AskIdentifier(t', now, id).0))
  {
    var g := t.global.value;
    var b := Lookup(t, id, now);
    if id !in t.entries {
      FreshHoldsMore(t, now);
      StillHoldsMore(Refill(g, now), b, now);
      assert Refill(Refill(g, now), now) == Refill(g, now);
    } else {
      StillHoldsMore(g, b, now);
    }
    forall i | i in t.entries
      ensures HoldsMore(Refill(g, now), t.entries[i].bucket)
      ensures HoldsMore(Spend(Refill(g, now), 1), t.entries[i].bucket)
    {
      StillHoldsMore(g, t.entries[i].bucket, now);
    }
  }

  /** Every Enter is followed at once by its Finish, at the same instant. */
  ghost predicate OneInstant(events: seq<Event>)
    decreases |events|
  {
    events == [] ||
    (events[0].Cleanup? && OneInstant(events[1..])) ||
    (|events| >= 2 && events[0].Enter? && events[1] == Finish(events[0].now, events[0].call)
     && OneInstant(events[2..]))
  }

  lemma {:induction false} GlobalDecides(s: Server, events: seq<Event>)
    requires Dominated(s.table) && s.pending == map[] && OneInstant(events)
    ensures Verdicts(s, events) == FrontVerdicts(FrontOf(s), true, events)
    decreases |events|
  {
    if events != [] {
      var s1 := Handle(s, events[0]).0;
      FrontStep(s, true, events[0]);
      if events[0].Cleanup? {
        GlobalDecides(s1, events[1..]);
      } else {
        GlobalDecidesStep(s.table, events[0].now, Identifier(s.table.config, events[0].who));
        assert events[1..][0] == events[1] && events[1..][1..] == events[2..];
        assert Answers(s1, true, events[1]);
        FrontStep(s1, true, events[1]);
        var s2 := Handle(s1, events[1]).0;
        assert s2.pending == map[];
        GlobalDecides(s2, events[2..]);
      }
    }
  }

  lemma {:induction false} StillOneInstant(events: seq<Event>)
    requires OneInstant(events)
    ensures OneInstant(WithoutCleanups(events))
    decreases |events|
  {
    if events != [] {
      CleanupDropped(events);
      if events[0].Cleanup? {
        StillOneInstant(events[1..]);
      } else {
        CleanupDropped(events[1..]);
        assert events[1..][1..] == events[2..];
        assert WithoutCleanups(events)[2..] == WithoutCleanups(events)[1..][1..];
        StillOneInstant(events[2..]);
      }
    }
  }

  /** With the global limiter on, and only if no time passes between the two parts of a request,
      eviction is invisible whatever the TTL, at any clock. */
  lemma GlobalHidesEviction(c: Config, now: real, events: seq<Event>)
    requires c.global && OneInstant(events)
    ensures Verdicts(NewServer(c, now), events) == Verdicts(NewServer(c, now), WithoutCleanups(events))
  {
    var s := NewServer(c, now);
    StillOneInstant(events);
    GlobalDecides(s, events);
    GlobalDecides(s, WithoutCleanups(events));
    FrontIgnoresCleanups(FrontOf(s), true, events);
  }

  // ---------------------------------------------------------------------------------------
  // Visible otherwise
  // ---------------------------------------------------------------------------------------

  lemma {:induction false} Concat(s: Server, first: seq<Event>, second: seq<Event>)
    ensures Verdicts(s, first + second) == Verdicts(s, first) + Verdicts(After(s, first), second)
    ensures After(s, first + second) == After(After(s, first), second)
    decreases |first|
  {
    if first == [] {
      assert first + second == second;
    } else {
      assert (first + second)[1..] == first[1..] + second;
      Concat(Handle(s, first[0]).0, first[1..], second);
    }
  }

  ghost predicate NoCleanups(events: seq<Event>) {
    forall k :: 0 <= k < |events| ==> !events[k].Cleanup?
  }

  lemma {:induction false} OneCleanup(first: seq<Event>, now: real, second: seq<Event>)
    requires NoCleanups(first) && NoCleanups(second)
    ensures WithoutCleanups(first + [Cleanup(now)] + second) == first + second
    decreases |first|
  {
    var events := first + [Cleanup(now)] + second;
    CleanupDropped(events);
    if first == [] {
      assert events[1..] == second && first + second == second;
      NothingToDrop(second);
    } else {
      assert events[1..] == first[1..] + [Cleanup(now)] + second;
      OneCleanup(first[1..], now, second);
      assert first + second == [first[0]] + (first[1..] + second);
      assert WithoutCleanups(events) == [first[0]] + WithoutCleanups(events[1..]);
    }
  }

  lemma {:induction false} NothingToDrop(events: seq<Event>)
    requires NoCleanups(events)
    ensures WithoutCleanups(events) == events
  {
    if events != [] {
      NothingToDrop(events[1..]);
      assert events == [events[0]] + events[1..];
    }
  }

  /** Someone with both a user and an address, so with an identifier if the limiter uses any. */
  const SOMEONE := Who("u", "i")

  /** The calls from lo to hi entering at one instant. */
  function Enters(now: real, lo: nat, hi: nat): seq<Event>
    requires lo <= hi
  {
    seq(hi - lo, k requires 0 <= k < hi - lo => Enter(now, lo + k, SOMEONE))
  }

  function Finishes(now: real, lo: nat, hi: nat): seq<Event>
    requires lo <= hi
  {
    seq(hi - lo, k requires 0 <= k < hi - lo => Finish(now, lo + k))
  }

  /** What the calls from lo to hi are waiting to ask for. */
  ghost predicate Waiting(s: Server, lo: nat, hi: nat, id: string) {
    forall call :: lo <= call < hi ==> call in s.pending && s.pending[call] == id
  }

  /** The tokens the global limiter has to offer at an instant, if there is one. */
  ghost predicate Offers(g: Option<Bucket>, now: real, n: int) {
    g.Some? ==> Refill(g.value, now).tokens >= n as real
  }

  lemma {:induction false} EntersRun(s: Server, now: real, lo: nat, hi: nat)
    requires lo <= hi && Offers(s.table.global, now, hi - lo) && (forall call :: call in s.pending ==> call < lo)
    requires Identifier(s.table.config, SOMEONE) != ""
    ensures var s' := After(s, Enters(now, lo, hi));
            && s'.table.entries == s.table.entries && s'.table.config == s.table.config
            && (forall call :: call in s'.pending ==> call < hi)
            && (forall call :: call in s.pending ==> call in s'.pending && s'.pending[call] == s.pending[call])
            && Waiting(s', lo, hi, Identifier(s.table.config, SOMEONE))
            && (hi > lo && s.table.global.Some? ==>
                  s'.table.global == Some(Spend(Refill(s.table.global.value, now), hi - lo)))
            && (s.table.global == None ==> s'.table.global == None)
    decreases hi - lo
  {
    if lo < hi {
      var s1 := Handle(s, Enter(now, lo, SOMEONE)).0;
      assert Enters(now, lo, hi)[1..] == Enters(now, lo + 1, hi);
      if s.table.global.Some? {
        RefillAgain(s.table.global.value, now);
      }
      EntersRun(s1, now, lo + 1, hi);
    }
  }

  lemma RefillAgain(b: Bucket, now: real)
    ensures Refill(Spend(Refill(b, now), 1), now) == Spend(Refill(b, now), 1)
    ensures Refill(Refill(b, now), now) == Refill(b, now)
  {
    var full := Refill(b, now);
    assert full.lastUpdate == now && full.tokens <= b.burst as real;
    assert (now - full.lastUpdate) * full.rate == 0.0;
  }

  ghost predicate AllAdmitted(verdicts: seq<Verdict>) {
    forall k :: 0 <= k < |verdicts| ==> verdicts[k].admitted
  }

  lemma AllAdmittedCons(v: Verdict, rest: seq<Verdict>)
    ensures AllAdmitted([v] + rest) <==> v.admitted && AllAdmitted(rest)
  {
    if AllAdmitted([v] + rest) {
      assert ([v] + rest)[0] == v;
      assert forall k :: 0 <= k < |rest| ==> rest[k] == ([v] + rest)[k + 1];
    }
  }

  /** Waiting calls are all admitted exactly when the refilled bucket holds that many tokens. */
  lemma {:induction false} FinishesRun(s: Server, now: real, lo: nat, hi: nat, id: string)
    requires lo < hi && Waiting(s, lo, hi, id)
    ensures var full := Refill(Lookup(s.table, id, now), now);
            && (AllAdmitted(Verdicts(s, Finishes(now, lo, hi))) <==> full.tokens >= (hi - lo) as real)
            && (full.tokens >= (hi - lo) as real ==>
                  After(s, Finishes(now, lo, hi)).table ==
                  s.table.(entries := s.table.entries[id := Entry(Spend(full, hi - lo), now)]))
    decreases hi - lo
  {
    var full := Refill(Lookup(s.table, id, now), now);
    var (s1, v) := Handle(s, Finish(now, lo));
    var rest := Finishes(now, lo + 1, hi);
    assert Finishes(now, lo, hi)[1..] == rest && Finishes(now, lo, hi)[0] == Finish(now, lo);
    assert Verdicts(s, Finishes(now, lo, hi)) == v + Verdicts(s1, rest);
    AllAdmittedCons(v[0], Verdicts(s1, rest));
    RefillAgain(Lookup(s.table, id, now), now);
    if lo + 1 == hi {
      assert rest == [];
    } else if v[0].admitted {
      assert Lookup(s1.table, id, now) == Spend(full, 1);
      FinishesRun(s1, now, lo + 1, hi, id);
    }
  }

  lemma {:induction false} FinishesKeepOthers(s: Server, now: real, lo: nat, hi: nat, call: CallId)
    requires lo <= hi && !(lo <= call < hi) && call in s.pending
    ensures var s' := After(s, Finishes(now, lo, hi));
            call in s'.pending && s'.pending[call] == s.pending[call]
    decreases hi - lo
  {
    if lo < hi {
      assert Finishes(now, lo, hi)[1..] == Finishes(now, lo + 1, hi);
      FinishesKeepOthers(Handle(s, Finish(now, lo)).0, now, lo + 1, hi, call);
    }
  }

  /** m calls enter; when the global limiter has tokens again k more enter and the first m finish;
      the other k finish later, with no cleanup before. */
  function Before(now: real, again: real, m: nat, k: nat): seq<Event> {
    Enters(now, 0, m) + Enters(again, m, m + k) + Finishes(again, 0, m)
  }

  /** The tokens the first m calls leave in the global limiter are enough, by then, for k more. */
  predicate GlobalGrants(c: Config, now: real, again: real, m: nat, k: nat) {
    c.global ==> Min(c.burst as real, (c.burst - m) as real + Earned(c.rate, again - now)) >= k as real
  }

  lemma StillOffers(c: Config, now: real, again: real, m: nat, k: nat)
    requires c.global && GlobalGrants(c, now, again, m, k)
    ensures Refill(Bucket(c.rate, c.burst, (c.burst - m) as real, now), again).tokens >= k as real
  {
    var b := Bucket(c.rate, c.burst, (c.burst - m) as real, now);
    var earned := (again - now) * c.rate;
    assert earned == Earned(c.rate, again - now);
    assert Refill(b, again).tokens == Min(c.burst as real, b.tokens + earned);
  }

  lemma BothEnter(c: Config, now: real, again: real, m: nat, k: nat)
    requires Identifier(Repaired(c), SOMEONE) != "" && 0 < m <= c.burst && GlobalGrants(c, now, again, m, k)
    ensures var s := After(NewServer(c, now), Enters(now, 0, m) + Enters(again, m, m + k));
            && s.table.entries == map[] && s.table.config == Repaired(c)
            && Waiting(s, 0, m + k, Identifier(Repaired(c), SOMEONE))
  {
    var s := NewServer(c, now);
    RefillTwice(c, now);
    EntersRun(s, now, 0, m);
    var s1 := After(s, Enters(now, 0, m));
    if c.global {
      StillOffers(c, now, again, m, k);
      assert s1.table.global == Some(Bucket(c.rate, c.burst, (c.burst - m) as real, now));
    }
    EntersRun(s1, again, m, m + k);
    Concat(s, Enters(now, 0, m), Enters(again, m, m + k));
  }

  /** What the first m calls have left of the identifier's bucket, with k calls still waiting. */
  lemma BeforeRun(c: Config, now: real, again: real, m: nat, k: nat)
    requires Identifier(Repaired(c), SOMEONE) != "" && 0 < m <= c.burst && GlobalGrants(c, now, again, m, k)
    ensures var s, id := After(NewServer(c, now), Before(now, again, m, k)), Identifier(Repaired(c), SOMEONE);
            && s.table.config == Repaired(c) && Waiting(s, m, m + k, id)
            && s.table.entries == map[id := Entry(Bucket(c.rate, c.burst, (c.burst - m) as real, again), again)]
  {
    var id := Identifier(Repaired(c), SOMEONE);
    var entering := Enters(now, 0, m) + Enters(again, m, m + k);
    BothEnter(c, now, again, m, k);
    var s := After(NewServer(c, now), entering);
    RefillTwice(c, again);
    FinishesRun(s, again, 0, m, id);
    forall call | m <= call < m + k
      ensures var s' := After(s, Finishes(again, 0, m)); call in s'.pending && s'.pending[call] == id
    {
      FinishesKeepOthers(s, again, 0, m, call);
    }
    Concat(NewServer(c, now), entering, Finishes(again, 0, m));
  }

  lemma NewBucketServes(s: Server, id: string, later: real, lo: nat, hi: nat)
    requires lo < hi && Waiting(s, lo, hi, id) && hi - lo <= s.table.config.burst && id !in s.table.entries
    ensures AllAdmitted(Verdicts(s, Finishes(later, lo, hi)))
  {
    RefillTwice(s.table.config, later);
    FinishesRun(s, later, lo, hi, id);
  }

  lemma OldBucketDoesNot(s: Server, id: string, later: real, lo: nat, hi: nat)
    requires lo < hi && Waiting(s, lo, hi, id) && id in s.table.entries
    requires Refill(s.table.entries[id].bucket, later).tokens < (hi - lo) as real
    ensures !AllAdmitted(Verdicts(s, Finishes(later, lo, hi)))
  {
    FinishesRun(s, later, lo, hi, id);
  }

  lemma StaysShort(b: Bucket, later: real, n: int)
    requires b.tokens + Earned(b.rate, later - b.lastUpdate) < n as real
    ensures Refill(b, later).tokens < n as real
  {
    var earned := (later - b.lastUpdate) * b.rate;
    assert earned == Earned(b.rate, later - b.lastUpdate);
    assert Refill(b, later).tokens == Min(b.burst as real, b.tokens + earned);
  }

  /** The waiting calls are all admitted by a new bucket, and not by what is left of the old one. */
  lemma LeftoverDiffers(s: Server, c: Config, id: string, left: int, again: real, later: real, lo: nat, hi: nat)
    requires lo < hi && Waiting(s, lo, hi, id) && hi - lo <= c.burst && s.table.config == c
    requires s.table.entries == map[id := Entry(Bucket(c.rate, c.burst, left as real, again), again)]
    requires later > again + c.ttl && left as real + Earned(c.rate, later - again) < (hi - lo) as real
    ensures Verdicts(s.(table := Cleaned(s.table, later)), Finishes(later, lo, hi))
            != Verdicts(s, Finishes(later, lo, hi))
  {
    var cleaned := s.(table := Cleaned(s.table, later));
    assert id in Expired(s.table, later);
    NewBucketServes(cleaned, id, later, lo, hi);
    StaysShort(Bucket(c.rate, c.burst, left as real, again), later, hi - lo);
    OldBucketDoesNot(s, id, later, lo, hi);
  }

  /** Leave a bucket unattended for a moment longer than the TTL, with calls waiting that it cannot
      serve and a new one can. */
  function Revisit(now: real, again: real, later: real, m: nat, k: nat): seq<Event> {
    Before(now, again, m, k) + [Cleanup(later)] + Finishes(later, m, m + k)
  }

  lemma RevisitVisible(c: Config, now: real, again: real, later: real, m: nat, k: nat)
    requires (c.perUser || c.perIP) && 0 < m <= c.burst && 0 < k <= c.burst && GlobalGrants(c, now, again, m, k)
    requires later > again + Repaired(c).ttl
    requires (c.burst - m) as real + Earned(c.rate, later - again) < k as real
    ensures var s := NewServer(c, now);
            Verdicts(s, Revisit(now, again, later, m, k))
            != Verdicts(s, WithoutCleanups(Revisit(now, again, later, m, k)))
  {
    var s, before, last := NewServer(c, now), Before(now, again, m, k), Finishes(later, m, m + k);
    var id := Identifier(Repaired(c), SOMEONE);
    SomeoneHasIdentifier(Repaired(c));
    BeforeRun(c, now, again, m, k);
    var s1 := After(s, before);
    LeftoverDiffers(s1, Repaired(c), id, c.burst - m, again, later, m, m + k);
    OneCleanup(before, later, last);
    Concat(s, before, last);
    Concat(s, before, [Cleanup(later)]);
    Concat(s, before + [Cleanup(later)], last);
    OneEvent(s1, Cleanup(later));
    var first := Verdicts(s, before);
    var x, y := Verdicts(s1.(table := Cleaned(s1.table, later)), last), Verdicts(s1, last);
    assert first + [] == first;
    assert (first + x)[|first|..] == x && (first + y)[|first|..] == y;
  }

  lemma SomeoneHasIdentifier(c: Config)
    requires c.perUser || c.perIP
    ensures Identifier(c, SOMEONE) != ""
  {
    var parts := Parts(c, SOMEONE);
    if |parts| == 2 {
      assert Joined(parts) == Joined(parts[..1]) + ":" + parts[1];
    }
  }

  lemma {:induction false} SameInstant(now: real, first: seq<Event>, second: seq<Event>)
    requires (forall k :: 0 <= k < |first| ==> first[k].now == now) && MonotoneFrom(now, second)
    ensures MonotoneFrom(now, first + second)
    decreases |first|
  {
    if first == [] {
      assert first + second == second;
    } else {
      assert (first + second)[1..] == first[1..] + second;
      SameInstant(now, first[1..], second);
    }
  }

  lemma RevisitMonotone(now: real, again: real, later: real, m: nat, k: nat)
    requires now <= again <= later
    ensures MonotoneFrom(now, Revisit(now, again, later, m, k))
  {
    var e1, e2, f1, f2 := Enters(now, 0, m), Enters(again, m, m + k), Finishes(again, 0, m), Finishes(later, m, m + k);
    SameInstant(later, [Cleanup(later)] + f2, []);
    assert [Cleanup(later)] + f2 + [] == [Cleanup(later)] + f2;
    Earlier(again, later, [Cleanup(later)] + f2);
    SameInstant(again, e2 + f1, [Cleanup(later)] + f2);
    Earlier(now, again, e2 + f1 + ([Cleanup(later)] + f2));
    SameInstant(now, e1, e2 + f1 + ([Cleanup(later)] + f2));
    assert Revisit(now, again, later, m, k) == e1 + (e2 + f1 + ([Cleanup(later)] + f2));
  }

  /** Just past the TTL, a bucket drained at `again` is still short of the burst. */
  lemma JustPastTTL(c: Config, again: real) returns (later: real)
    requires c.burst >= 1 && !RefillsInTime(c)
    ensures later >= again && later > again + c.ttl && Earned(c.rate, later - again) < c.burst as real
  {
    var ttl := Max(c.ttl, 0.0);
    if c.rate <= 0.0 {
      later := again + ttl + 1.0;
      ProductNonNegative(ttl + 1.0, -c.rate);
      assert Earned(c.rate, later - again) == -((ttl + 1.0) * -c.rate);
    } else {
      var missing := c.burst as real - Earned(c.rate, ttl);
      var extra := missing / (2.0 * c.rate);
      later := again + ttl + extra;
      assert c.rate * extra == missing / 2.0;
      assert Earned(c.rate, later - again) == Earned(c.rate, ttl) + c.rate * extra;
    }
  }

  /** Past the TTL, a leaking bucket has lost as much as the burst. */
  lemma LeakedPastTTL(c: Config, again: real) returns (later: real)
    requires c.burst >= 1 && c.rate < 0.0
    ensures later >= again && later > again + c.ttl && Earned(c.rate, later - again) <= -(c.burst as real)
  {
    var wait := c.burst as real / -c.rate;
    assert wait * -c.rate == c.burst as real && wait > 0.0;
    var extra := Max(c.ttl, 0.0) + 1.0;
    later := again + wait + extra;
    ProductNonNegative(extra, -c.rate);
    assert Earned(c.rate, later - again) == -(wait * -c.rate) - extra * -c.rate;
  }

  // ---------------------------------------------------------------------------------------
  // The exact condition
  // ---------------------------------------------------------------------------------------

  /** Nobody is limited by identifier, or nobody's limiter ever grants, or drained limiters refill
      in time, or the global limiter grants so few requests in all that no limiter, old or new, runs
      out. */
  predicate HidesEviction(c: Config) {
    || (!c.perUser && !c.perIP)
    || c.burst <= 0
    || RefillsInTime(Repaired(c))
    || (c.global && (c.rate == 0.0 || (c.rate < 0.0 && c.burst == 1)))
  }

  lemma Hidden(c: Config, now: real, events: seq<Event>)
    requires HidesEviction(c) && MonotoneFrom(now, events)
    ensures Verdicts(NewServer(c, now), events) == Verdicts(NewServer(c, now), WithoutCleanups(events))
  {
    if !c.perUser && !c.perIP {
      InvisibleFor(Anonymous, c, now, events);
    } else if c.burst <= 0 {
      InvisibleFor(NoBurst, c, now, events);
    } else if RefillsInTime(Repaired(c)) {
      EvictionInvisible(c, now, events);
    } else {
      InvisibleFor(FewGrants, c, now, events);
    }
  }

  lemma Shown(c: Config, now: real) returns (events: seq<Event>)
    requires !HidesEviction(c)
    ensures MonotoneFrom(now, events)
    ensures Verdicts(NewServer(c, now), events) != Verdicts(NewServer(c, now), WithoutCleanups(events))
  {
    var again, later, m, k := now, now, c.burst, c.burst;
    if c.global && c.rate < 0.0 {
      m, k := 1, 1;
      later := LeakedPastTTL(Repaired(c), again);
      assert Earned(c.rate, again - now) == 0.0;
    } else {
      if c.global {
        again := now + c.burst as real / c.rate;
        assert Earned(c.rate, again - now) == c.burst as real;
      }
      later := JustPastTTL(Repaired(c), again);
    }
    events := Revisit(now, again, later, m, k);
    RevisitMonotone(now, again, later, m, k);
    RevisitVisible(c, now, again, later, m, k);
  }

  /** For every configuration: eviction goes unnoticed in every run, however its requests interleave,
      if and only if the condition holds. */
  lemma EvictionInvisibleIff(c: Config, now: real)
    ensures Invisible(c, now) <==> HidesEviction(c)
  {
    if HidesEviction(c) {
      forall events | MonotoneFrom(now, events)
        ensures Verdicts(NewServer(c, now), events) == Verdicts(NewServer(c, now), WithoutCleanups(events))
      {
        Hidden(c, now, events);
      }
    } else {
      var events := Shown(c, now);
    }
  }

  /** The global limiter hides nothing as soon as time passes between the two parts of a request,
      even if requests do not overlap: the identifier's limiter, asked half a second late the first
      time, refuses the second request, and a new one admits it. */
  lemma GlobalDoesNotHide(c: Config)
    requires c == Config(1.0, 1, 0.1, true, true, false)
    ensures var s, who := NewServer(c, 0.0), Who("u", "");
            var first, second := [Enter(0.0, 0, who), Finish(0.5, 0)], [Enter(1.0, 1, who), Finish(1.0, 1)];
            && Verdicts(s, first + ([Cleanup(0.9)] + second)) == [Verdict(0, true), Verdict(1, true)]
            && Verdicts(s, first + second) == [Verdict(0, true), Verdict(1, false)]
  {
    var s, who := NewServer(c, 0.0), Who("u", "");
    var first, second := [Enter(0.0, 0, who), Finish(0.5, 0)], [Enter(1.0, 1, who), Finish(1.0, 1)];
    assert Identifier(c, who) == "user:u";
    ProcessedIsTwoParts(s, 0.0, 0.5, 0, who);
    var s1 := After(s, first);
    assert s1.table == Table(c, Some(Bucket(1.0, 1, 0.0, 0.0)),
                             map["user:u" := Entry(Bucket(1.0, 1, 0.0, 0.5), 0.5)]);
    Concat(s, first, second);
    ProcessedIsTwoParts(s1, 1.0, 1.0, 1, who);
    var s2 := s1.(table := Cleaned(s1.table, 0.9));
    assert "user:u" in Expired(s1.table, 0.9) && s2.table.entries == map[];
    Concat(s, first, [Cleanup(0.9)] + second);
    Concat(s1, [Cleanup(0.9)], second);
    OneEvent(s1, Cleanup(0.9));
    ProcessedIsTwoParts(s2, 1.0, 1.0, 1, who);
  }
}
