/** The token bucket of the rate-limit middleware: lazy refill, a cap, debt through
    reservations, refunds through Cancel.  Instants and token levels are reals. */
module TokenBuckets {

  /** The fields of a bucket as a value, so that runs of calls can be reasoned about. */
  datatype Bucket = Bucket(rate: real, burst: int, tokens: real, lastUpdate: real)

  function Min(a: real, b: real): real { if a <= b then a else b }

  function Max(a: real, b: real): real { if a >= b then a else b }

  function NewBucket(rate: real, burst: int, now: real): Bucket {
    Bucket(rate, burst, burst as real, now)
  }

  /** Lazy refill: credit the elapsed time, then cap. */
  function Refill(b: Bucket, now: real): Bucket {
    b.(tokens := Min(b.burst as real, b.tokens + (now - b.lastUpdate) * b.rate), lastUpdate := now)
  }

  function Spend(b: Bucket, n: int): Bucket {
    b.(tokens := b.tokens - n as real)
  }

  /** allowN: refill, and spend n tokens if the refilled bucket holds them. */
  function Allowed(b: Bucket, now: real, n: int): (Bucket, bool) {
    var full := Refill(b, now);
    if full.tokens >= n as real then (Spend(full, n), true) else (full, false)
  }

  /** How long earning the needed tokens takes.  At rate zero Go divides to an infinite float, and
      what that is as a duration is up to the implementation: `inf`. */
  function Delay(rate: real, needed: real, inf: real): real {
    if rate == 0.0 then inf else needed / rate
  }

  /** The instant from which a reservation may be used. */
  function ReleaseTime(full: Bucket, now: real, n: int, inf: real): real {
    if full.tokens >= n as real then now else now + Delay(full.rate, n as real - full.tokens, inf)
  }

  /** Cancel: give the tokens back, capped at the burst. */
  function Refund(b: Bucket, n: int): Bucket {
    b.(tokens := Min(b.burst as real, b.tokens + n as real))
  }

  datatype Wakeup = TimerFired(late: real) | ContextDone

  datatype WaitResult = Granted | RateLimitExceeded | ContextError

  /** A bucket object; every method is one section under the bucket's lock. */
  class TokenBucket {
    const rate: real
    const burst: int
    var tokens: real
    var lastUpdate: real

    ghost function State(): Bucket
      reads this
    {
      Bucket(rate, burst, tokens, lastUpdate)
    }

    constructor (rate: real, burst: int, now: real)
      ensures State() == NewBucket(rate, burst, now)
    {
      this.rate := rate;
      this.burst := burst;
      tokens := burst as real;
      lastUpdate := now;
    }

    method AllowN(now: real, n: int) returns (ok: bool)
      modifies this
      ensures (State(), ok) == Allowed(old(State()), now, n)
    {
      var elapsed := now - lastUpdate;
      ghost var full := Refill(State(), now);
      tokens := tokens + elapsed * rate;
      if tokens > burst as real {
        tokens := burst as real;
      }
      lastUpdate := now;
      assert State() == full;
      if tokens >= n as real {
        tokens := tokens - n as real;
        return true;
      }
      return false;
    }

    /** Wait with no other consumer.  The timer goes off `late` after the computed wait, at once if
        that is negative, unless the context ends first. */
    method Wait(now: real, n: int, wakeup: Wakeup, inf: real) returns (result: WaitResult)
      requires wakeup.TimerFired? ==> wakeup.late >= 0.0
      modifies this
      ensures result == Granted <==>
              Refill(old(State()), now).tokens >= n as real || (wakeup.TimerFired? && rate > 0.0 && n <= burst)
      ensures result == ContextError <==>
              Refill(old(State()), now).tokens < n as real && wakeup == ContextDone
      ensures State() ==
              var (first, ok) := Allowed(old(State()), now, n);
              if ok || wakeup == ContextDone then first
              else Allowed(first, now + Max(Delay(rate, n as real - first.tokens, inf), 0.0) + wakeup.late, n).0
    {
      var ok := AllowN(now, n);
      if ok {
        return Granted;
      }
      var needed := n as real - tokens;
      var wait := Max(Delay(rate, needed, inf), 0.0);
      match wakeup
      case ContextDone =>
        return ContextError;
      case TimerFired(late) =>
        RetryIsExact(State(), now + wait + late, n, inf);
        ok := AllowN(now + wait + late, n);
        return if ok then Granted else RateLimitExceeded;
    }

    method ReserveN(now: real, n: int, inf: real) returns (r: Reservation)
      modifies this
      ensures fresh(r) && r.ok && r.bucket == this && r.tokens == n
      ensures State() == Spend(Refill(old(State()), now), n)
      ensures r.timeAt == ReleaseTime(Refill(old(State()), now), now, n, inf)
    {
      var timeAt := now;
      var ok := AllowN(now, n);
      if !ok {
        timeAt := now + Delay(rate, n as real - tokens, inf);
        tokens := tokens - n as real;
      }
      r := new Reservation(this, n, timeAt);
    }
  }

  class Reservation {
    var ok: bool
    const bucket: TokenBucket
    const tokens: int
    const timeAt: real

    constructor (bucket: TokenBucket, tokens: int, timeAt: real)
      ensures ok && this.bucket == bucket && this.tokens == tokens && this.timeAt == timeAt
    {
      ok := true;
      this.bucket := bucket;
      this.tokens := tokens;
      this.timeAt := timeAt;
    }

    method Cancel()
      modifies this`ok, bucket`tokens
      ensures !ok
      ensures bucket.State() == if old(ok) then Refund(old(bucket.State()), tokens) else old(bucket.State())
    {
      if !ok {
        return;
      }
      bucket.tokens := bucket.tokens + tokens as real;
      if bucket.tokens > bucket.burst as real {
        bucket.tokens := bucket.burst as real;
      }
      ok := false;
    }
  }

  // ---------------------------------------------------------------------------------------
  // Waiting and cancelling are exact
  // ---------------------------------------------------------------------------------------

  /** A retry no earlier than the computed wait succeeds exactly when the bucket earns tokens and
      can ever hold n. */
  lemma RetryIsExact(b: Bucket, retryAt: real, n: int, inf: real)
    requires b.tokens < n as real
    requires retryAt >= b.lastUpdate + Max(Delay(b.rate, n as real - b.tokens, inf), 0.0)
    ensures Allowed(b, retryAt, n).1 <==> b.rate > 0.0 && n <= b.burst
  {
    var elapsed := retryAt - b.lastUpdate;
    if b.rate > 0.0 {
      var wait := (n as real - b.tokens) / b.rate;
      assert wait * b.rate == n as real - b.tokens;
      assert wait <= elapsed;
      ProductNonNegative(elapsed - wait, b.rate);
      assert elapsed * b.rate == wait * b.rate + (elapsed - wait) * b.rate;
    } else {
      assert 0.0 <= elapsed;
      ProductNonNegative(elapsed, -b.rate);
      assert elapsed * b.rate == -(elapsed * -b.rate);
    }
  }

  /** Let time pass: refills at the given instants. */
  function Refills(b: Bucket, instants: seq<real>): Bucket
    decreases |instants|
  {
    if instants == [] then b else Refills(Refill(b, instants[0]), instants[1..])
  }

  ghost predicate ClockFrom(now: real, instants: seq<real>)
    decreases |instants|
  {
    instants == [] || (now <= instants[0] && ClockFrom(instants[0], instants[1..]))
  }

  lemma ProductNonNegative(x: real, y: real)
    requires x >= 0.0 && y >= 0.0
    ensures x * y >= 0.0
  {}

  lemma RefillCommutes(b: Bucket, n: nat, t: real)
    requires b.rate >= 0.0 && b.lastUpdate <= t
    ensures Refund(Refill(b, t), n) == Refill(Refund(b, n), t)
  {
    var earned, cap := (t - b.lastUpdate) * b.rate, b.burst as real;
    ProductNonNegative(t - b.lastUpdate, b.rate);
    assert Refund(Refill(b, t), n).tokens == Min(cap, Min(cap, b.tokens + earned) + n as real);
    assert Refill(Refund(b, n), t).tokens == Min(cap, Min(cap, b.tokens + n as real) + earned);
  }

  /** Refilling commutes with a pending refund, as long as time does not run backwards. */
  lemma {:induction false} RefillsThenRefund(b: Bucket, n: int, instants: seq<real>)
    requires n >= 0 && b.rate >= 0.0 && ClockFrom(b.lastUpdate, instants)
    ensures Refund(Refills(b, instants), n) == Refund(Refills(Refund(b, n), instants), 0)
    decreases |instants|
  {
    if instants != [] {
      RefillCommutes(b, n, instants[0]);
      RefillsThenRefund(Refill(b, instants[0]), n, instants[1..]);
    }
  }

  lemma {:induction false} RefillsStayCapped(b: Bucket, instants: seq<real>)
    requires b.tokens <= b.burst as real
    ensures Refund(Refills(b, instants), 0) == Refills(b, instants)
    decreases |instants|
  {
    if instants != [] {
      RefillsStayCapped(Refill(b, instants[0]), instants[1..]);
    }
  }

  /** A reservation followed only by passing time and then cancelled leaves no trace. */
  lemma CancelIsExact(b: Bucket, now: real, n: int, instants: seq<real>)
    requires n >= 0 && b.rate >= 0.0 && ClockFrom(now, instants)
    ensures Refund(Refills(Spend(Refill(b, now), n), instants), n) == Refills(Refill(b, now), instants)
  {
    var full := Refill(b, now);
    assert Refund(Spend(full, n), n) == full;
    RefillsThenRefund(Spend(full, n), n, instants);
    RefillsStayCapped(full, instants);
  }

  /** With a grant in between, cancelling can return more than was taken: the reservation made
      room below the cap for refill that would otherwise have been lost. */
  lemma CancelAfterGrantOverRefunds()
    ensures
      var b := NewBucket(1.0, 10, 0.0);
      var reserved := Allowed(Spend(Refill(b, 0.0), 10), 10.0, 10).0;
      var unreserved := Allowed(b, 10.0, 10).0;
      unreserved.tokens == 0.0 && Refund(reserved, 10).tokens == 10.0
  {
    assert Refill(Bucket(1.0, 10, 0.0, 0.0), 10.0).tokens == 10.0;
  }

  // ---------------------------------------------------------------------------------------
  // Rate bounds over whole runs
  // ---------------------------------------------------------------------------------------

  datatype Call = Allow(now: real, n: int) | Reserve(now: real, n: int, inf: real)

  /** One successful call: its tokens, the call's own instant, the instant the tokens are
      released at, and the bucket it leaves behind. */
  datatype Grant = Grant(n: int, at: real, release: real, after: Bucket, reserved: bool)

  function Step(b: Bucket, c: Call): (Bucket, seq<Grant>)
  {
    match c
    case Allow(now, n) =>
      var (next, ok) := Allowed(b, now, n);
      (next, if ok then [Grant(n, now, now, next, false)] else [])
    case Reserve(now, n, inf) =>
      var full := Refill(b, now);
      var next := Spend(full, n);
      (next, [Grant(n, now, ReleaseTime(full, now, n, inf), next, true)])
  }

  /** All the grants of a run, in call order. */
  function Grants(b: Bucket, calls: seq<Call>): seq<Grant>
    decreases |calls|
  {
    if calls == [] then [] else
    var (next, g) := Step(b, calls[0]);
    g + Grants(next, calls[1..])
  }

  function Final(b: Bucket, calls: seq<Call>): Bucket
    decreases |calls|
  {
    if calls == [] then b else Final(Step(b, calls[0]).0, calls[1..])
  }

  function Total(gs: seq<Grant>): int {
    if gs == [] then 0 else gs[0].n + Total(gs[1..])
  }

  function AllowTotal(gs: seq<Grant>): int {
    if gs == [] then 0 else (if gs[0].reserved then 0 else gs[0].n) + AllowTotal(gs[1..])
  }

  ghost predicate NonNegative(calls: seq<Call>) {
    forall k :: 0 <= k < |calls| ==> calls[k].n >= 0
  }

  ghost predicate MonotoneFrom(now: real, calls: seq<Call>)
    decreases |calls|
  {
    calls == [] || (now <= calls[0].now && MonotoneFrom(calls[0].now, calls[1..]))
  }

  /** The potential of a bucket: refill keeps or lowers it, a grant of n lowers it by n. */
  function Potential(b: Bucket): real {
    b.tokens - Earned(b.rate, b.lastUpdate)
  }

  function Earned(rate: real, span: real): real { rate * span }

  /** The instant at which the bucket is out of debt. */
  function Clear(b: Bucket): real
    requires b.rate > 0.0
  {
    if b.tokens >= 0.0 then b.lastUpdate else b.lastUpdate - b.tokens / b.rate
  }

  ghost predicate Chained(potential: real, gs: seq<Grant>)
    decreases |gs|
  {
    gs == [] ||
    (gs[0].n as real + Potential(gs[0].after) <= potential && Chained(Potential(gs[0].after), gs[1..]))
  }

  lemma StepLowersPotential(b: Bucket, c: Call)
    ensures var (next, g) := Step(b, c);
            Potential(next) + Total(g) as real <= Potential(b)
  {}

  /** Every run's grants are paid for out of one potential. */
  lemma {:induction false} GrantsChained(b: Bucket, calls: seq<Call>)
    ensures Chained(Potential(b), Grants(b, calls))
    decreases |calls|
  {
    if calls != [] {
      var (next, g) := Step(b, calls[0]);
      StepLowersPotential(b, calls[0]);
      GrantsChained(next, calls[1..]);
      var rest := Grants(next, calls[1..]);
      if g == [] {
        assert Grants(b, calls) == rest;
      } else {
        assert Grants(b, calls)[1..] == rest;
      }
    }
  }

  lemma TailSlice(gs: seq<Grant>, i: nat, j: nat)
    requires i <= j < |gs|
    ensures gs[1..][i..j] == gs[i + 1..j + 1]
    ensures gs[..j + 1][1..] == gs[1..][..j]
  {}

  lemma {:induction false} ChainedPrefix(potential: real, gs: seq<Grant>, k: nat)
    requires Chained(potential, gs) && k < |gs|
    ensures Total(gs[..k + 1]) as real <= potential - Potential(gs[k].after)
    decreases k
  {
    TailSlice(gs, 0, k);
    if k > 0 {
      ChainedPrefix(Potential(gs[0].after), gs[1..], k - 1);
    }
  }

  lemma {:induction false} ChainedBetween(potential: real, gs: seq<Grant>, i: nat, j: nat)
    requires Chained(potential, gs) && i <= j < |gs|
    ensures Total(gs[i..j + 1]) as real
            <= gs[i].n as real + Potential(gs[i].after) - Potential(gs[j].after)
    decreases i
  {
    if i > 0 {
      TailSlice(gs, i - 1, j);
      ChainedBetween(Potential(gs[0].after), gs[1..], i - 1, j - 1);
    } else {
      ChainedPrefix(gs[0].n as real + Potential(gs[0].after), gs, j);
      assert gs[0..j + 1] == gs[..j + 1];
    }
  }

  /** What holds of every single grant of a bucket with this rate and burst. */
  ghost predicate Sound(rate: real, burst: int, g: Grant) {
    && g.after.rate == rate && g.after.burst == burst && g.after.lastUpdate == g.at
    && g.after.tokens + g.n as real <= burst as real
    && (!g.reserved ==> g.after.tokens >= 0.0)
    && (rate > 0.0 ==> g.release == Clear(g.after))
  }

  ghost predicate AllSound(rate: real, burst: int, gs: seq<Grant>) {
    forall k :: 0 <= k < |gs| ==> Sound(rate, burst, gs[k])
  }

  lemma StepSound(b: Bucket, c: Call)
    ensures AllSound(b.rate, b.burst, Step(b, c).1)
  {
    if c.Reserve? && b.rate > 0.0 {
      var full := Refill(b, c.now);
      assert (c.n as real - full.tokens) / b.rate == -((full.tokens - c.n as real) / b.rate);
    }
  }

  lemma {:induction false} GrantsSound(b: Bucket, calls: seq<Call>)
    ensures AllSound(b.rate, b.burst, Grants(b, calls))
    decreases |calls|
  {
    if calls != [] {
      StepSound(b, calls[0]);
      GrantsSound(Step(b, calls[0]).0, calls[1..]);
    }
  }

  lemma {:induction false} GrantsFromCalls(b: Bucket, calls: seq<Call>, lo: int, hi: int)
    requires forall k :: 0 <= k < |calls| ==> lo <= calls[k].n <= hi
    ensures forall g <- Grants(b, calls) :: lo <= g.n <= hi
    decreases |calls|
  {
    if calls != [] {
      GrantsFromCalls(Step(b, calls[0]).0, calls[1..], lo, hi);
    }
  }

  lemma Distribute(rate: real, x: real, y: real)
    ensures Earned(rate, x - y) == Earned(rate, x) - Earned(rate, y)
  {}

  lemma ChainedWindow(rate: real, burst: int, potential: real, g: seq<Grant>, i: nat, j: nat)
    requires Chained(potential, g) && i <= j < |g|
    requires AllSound(rate, burst, g) && g[j].after.tokens >= 0.0
    ensures Total(g[i..j + 1]) as real <= burst as real + Earned(rate, g[j].at - g[i].at)
  {
    ChainedBetween(potential, g, i, j);
    assert Sound(rate, burst, g[i]) && Sound(rate, burst, g[j]);
    Distribute(rate, g[j].at, g[i].at);
  }

  /** Whatever the clock does, between any grant and one that left no debt everything granted,
      by AllowN and ReserveN together, is within burst + rate * elapsed. */
  lemma WindowBound(b: Bucket, calls: seq<Call>, i: nat, j: nat)
    requires i <= j < |Grants(b, calls)|
    requires Grants(b, calls)[j].after.tokens >= 0.0
    ensures var g := Grants(b, calls);
            Total(g[i..j + 1]) as real <= b.burst as real + Earned(b.rate, g[j].at - g[i].at)
  {
    GrantsChained(b, calls);
    GrantsSound(b, calls);
    ChainedWindow(b.rate, b.burst, Potential(b), Grants(b, calls), i, j);
  }

  lemma {:induction false} AllowTotalWithinTotal(gs: seq<Grant>)
    requires forall g <- gs :: g.n >= 0
    ensures AllowTotal(gs) <= Total(gs)
  {
    if gs != [] {
      AllowTotalWithinTotal(gs[1..]);
    }
  }

  /** In particular for the tokens granted by successful AllowN calls. */
  lemma AllowWindowBound(b: Bucket, calls: seq<Call>, i: nat, j: nat)
    requires NonNegative(calls) && i <= j < |Grants(b, calls)|
    requires !Grants(b, calls)[i].reserved && !Grants(b, calls)[j].reserved
    ensures var g := Grants(b, calls);
            AllowTotal(g[i..j + 1]) as real <= b.burst as real + Earned(b.rate, g[j].at - g[i].at)
  {
    var g := Grants(b, calls);
    GrantsSound(b, calls);
    assert Sound(b.rate, b.burst, g[j]);
    WindowBound(b, calls, i, j);
    NonNegativeGrants(b, calls);
    AllowTotalWithinTotal(g[i..j + 1]);
  }

  lemma {:induction false} NonNegativeGrants(b: Bucket, calls: seq<Call>)
    requires NonNegative(calls)
    ensures forall g <- Grants(b, calls) :: g.n >= 0
    decreases |calls|
  {
    if calls != [] {
      NonNegativeGrants(Step(b, calls[0]).0, calls[1..]);
    }
  }

  lemma {:induction false} NeverAboveBurst(b: Bucket, calls: seq<Call>)
    requires NonNegative(calls) && b.tokens <= b.burst as real
    ensures Final(b, calls).tokens <= b.burst as real
    decreases |calls|
  {
    if calls != [] {
      NeverAboveBurst(Step(b, calls[0]).0, calls[1..]);
    }
  }

  lemma ClearPaysPotential(b: Bucket)
    requires b.rate > 0.0
    ensures Earned(b.rate, Clear(b)) == Earned(b.rate, b.lastUpdate) - Min(b.tokens, 0.0)
  {
    if b.tokens < 0.0 {
      assert b.tokens / b.rate * b.rate == b.tokens;
      assert b.rate * Clear(b) == b.rate * b.lastUpdate - b.rate * (b.tokens / b.rate);
    }
  }

  lemma ChainedRelease(rate: real, burst: int, potential: real, g: seq<Grant>, i: nat, j: nat)
    requires Chained(potential, g) && rate > 0.0 && i <= j < |g|
    requires AllSound(rate, burst, g)
    ensures Total(g[i..j + 1]) as real
            <= Max(burst as real, g[i].n as real) + Earned(rate, g[j].release - g[i].release)
  {
    ChainedBetween(potential, g, i, j);
    assert Sound(rate, burst, g[i]) && Sound(rate, burst, g[j]);
    ClearPaysPotential(g[i].after);
    ClearPaysPotential(g[j].after);
    Distribute(rate, g[j].release, g[i].release);
  }

  /** Measured at release times, debt included and with any clock: from the i-th to the j-th
      grant at most max(burst, n_i) plus what the rate earns in between. */
  lemma ReleaseBound(b: Bucket, calls: seq<Call>, i: nat, j: nat)
    requires b.rate > 0.0 && i <= j < |Grants(b, calls)|
    ensures var g := Grants(b, calls);
            Total(g[i..j + 1]) as real
            <= Max(b.burst as real, g[i].n as real) + Earned(b.rate, g[j].release - g[i].release)
  {
    GrantsChained(b, calls);
    GrantsSound(b, calls);
    ChainedRelease(b.rate, b.burst, Potential(b), Grants(b, calls), i, j);
  }

  lemma EarnsMore(rate: real, x: real, y: real)
    requires rate >= 0.0 && x <= y
    ensures Earned(rate, x) <= Earned(rate, y)
  {
    assert rate * (y - x) >= 0.0;
  }

  lemma EarnedReflectsOrder(rate: real, x: real, y: real)
    requires rate > 0.0 && Earned(rate, x) <= Earned(rate, y)
    ensures x <= y
  {}

  lemma StepDelaysClear(b: Bucket, c: Call)
    requires b.rate > 0.0 && c.n >= 0 && b.lastUpdate <= c.now
    ensures Clear(Step(b, c).0) >= Clear(b)
  {
    var next := Step(b, c).0;
    ClearPaysPotential(b);
    ClearPaysPotential(next);
    StepLowersPotential(b, c);
    EarnsMore(b.rate, b.lastUpdate, next.lastUpdate);
    EarnedReflectsOrder(b.rate, Clear(b), Clear(next));
  }

  /** Nothing is released before the present debt is paid. */
  lemma {:induction false} ReleasedAfterClear(b: Bucket, calls: seq<Call>)
    requires b.rate > 0.0 && NonNegative(calls) && MonotoneFrom(b.lastUpdate, calls)
    ensures forall g <- Grants(b, calls) :: g.release >= Clear(b)
    decreases |calls|
  {
    if calls != [] {
      StepDelaysClear(b, calls[0]);
      StepSound(b, calls[0]);
      ReleasedAfterClear(Step(b, calls[0]).0, calls[1..]);
    }
  }

  /** Release times never decrease in request order when the clock does not. */
  lemma {:induction false} ReleasesInOrder(b: Bucket, calls: seq<Call>)
    requires b.rate > 0.0 && NonNegative(calls) && MonotoneFrom(b.lastUpdate, calls)
    ensures var g := Grants(b, calls);
            forall i, j :: 0 <= i <= j < |g| ==> g[i].release <= g[j].release
    decreases |calls|
  {
    if calls != [] {
      var (next, g) := Step(b, calls[0]);
      StepSound(b, calls[0]);
      ReleasedAfterClear(next, calls[1..]);
      ReleasesInOrder(next, calls[1..]);
      assert Grants(b, calls) == g + Grants(next, calls[1..]);
      assert forall x <- g :: x.release == Clear(next);
    }
  }

  /** The tokens whose release time lies in the window [from, to]. */
  function ReleasedIn(gs: seq<Grant>, from: real, to: real): int
    decreases |gs|
  {
    if gs == [] then 0 else
    (if from <= gs[0].release <= to then gs[0].n else 0) + ReleasedIn(gs[1..], from, to)
  }

  /** The first and the last grant released in a window; everything in the window lies between. */
  lemma {:induction false} WindowEnds(g: seq<Grant>, from: real, to: real) returns (i: nat, j: int)
    requires forall x <- g :: 0 <= x.n
    ensures j < |g|
    ensures i > j ==> ReleasedIn(g, from, to) == 0
    ensures i <= j ==> from <= g[i].release <= to && from <= g[j].release <= to
    ensures i <= j ==> ReleasedIn(g, from, to) <= Total(g[i..j + 1])
    decreases |g|
  {
    if g == [] {
      return 0, -1;
    }
    var i', j' := WindowEnds(g[1..], from, to);
    var inside := from <= g[0].release <= to;
    if i' > j' {
      i, j := if inside then 0 else 1, 0;
      assert g[0..1] == [g[0]];
    } else if inside {
      i, j := 0, j' + 1;
      TailSlice(g, i', j);
      TotalOfSuffix(g[1..][..j], i');
      assert g[1..][..j][i'..] == g[1..][i'..j];
      assert g[0..j + 1] == g[..j + 1];
    } else {
      i, j := i' + 1, j' + 1;
      TailSlice(g, i', j);
    }
  }

  lemma {:induction false} TotalOfSuffix(g: seq<Grant>, i: nat)
    requires i <= |g| && forall x <- g :: 0 <= x.n
    ensures Total(g[i..]) <= Total(g)
  {
    if i > 0 {
      TotalOfSuffix(g[1..], i - 1);
      assert g[1..][i - 1..] == g[i..];
    }
  }

  lemma WiderWindowEarnsMore(rate: real, from: real, to: real, a: real, z: real)
    requires rate >= 0.0 && from <= a && z <= to
    ensures Earned(rate, z - a) <= Earned(rate, to - from)
  {
    var slack := (to - from) - (z - a);
    assert rate * slack >= 0.0;
  }

  lemma ChainedReleasedIn(rate: real, burst: int, potential: real, g: seq<Grant>, from: real, to: real)
    requires Chained(potential, g) && rate > 0.0 && burst >= 0 && from <= to
    requires AllSound(rate, burst, g) && forall x <- g :: 0 <= x.n <= burst
    ensures ReleasedIn(g, from, to) as real <= burst as real + Earned(rate, to - from)
  {
    var i, j := WindowEnds(g, from, to);
    if i <= j {
      ChainedRelease(rate, burst, potential, g, i, j);
      WiderWindowEarnsMore(rate, from, to, g[i].release, g[j].release);
    } else {
      WiderWindowEarnsMore(rate, from, to, from, from);
    }
  }

  /** The main bound, over any window of time: with every n <= burst, the tokens released in
      [from, to] are at most burst + Earned(rate, to - from). */
  lemma ReleasedInBound(b: Bucket, calls: seq<Call>, from: real, to: real)
    requires b.rate > 0.0 && b.burst >= 0 && from <= to
    requires forall k :: 0 <= k < |calls| ==> 0 <= calls[k].n <= b.burst
    ensures ReleasedIn(Grants(b, calls), from, to) as real <= b.burst as real + Earned(b.rate, to - from)
  {
    GrantsChained(b, calls);
    GrantsSound(b, calls);
    GrantsFromCalls(b, calls, 0, b.burst);
    ChainedReleasedIn(b.rate, b.burst, Potential(b), Grants(b, calls), from, to);
  }

  // ---------------------------------------------------------------------------------------
  // Cancelling after other calls
  // ---------------------------------------------------------------------------------------

  /** The two buckets answer every AllowN of the run alike. */
  ghost predicate SameVerdicts(b: Bucket, other: Bucket, calls: seq<Call>)
    decreases |calls|
  {
    calls == [] ||
    (var c := calls[0];
     && (c.Allow? ==> Allowed(b, c.now, c.n).1 == Allowed(other, c.now, c.n).1)
     && SameVerdicts(Step(b, c).0, Step(other, c).0, calls[1..]))
  }

  predicate Capped(b: Bucket, now: real) {
    b.tokens + (now - b.lastUpdate) * b.rate > b.burst as real
  }

  /** No refill of the run loses tokens to the cap. */
  ghost predicate NeverCapped(b: Bucket, calls: seq<Call>)
    decreases |calls|
  {
    calls == [] || (!Capped(b, calls[0].now) && NeverCapped(Step(b, calls[0]).0, calls[1..]))
  }

  /** The second bucket is the first one with a reservation of at most n outstanding. */
  ghost predicate Behind(b: Bucket, reserved: Bucket) {
    && b.rate == reserved.rate >= 0.0 && b.burst == reserved.burst && b.lastUpdate == reserved.lastUpdate
    && reserved.tokens <= b.tokens <= b.burst as real
  }

  lemma RefillNarrows(b: Bucket, reserved: Bucket, now: real)
    requires Behind(b, reserved) && b.lastUpdate <= now
    ensures Behind(Refill(b, now), Refill(reserved, now))
    ensures var gap := b.tokens - reserved.tokens;
            var gap' := Refill(b, now).tokens - Refill(reserved, now).tokens;
            gap' <= gap && (gap' == gap <==> gap == 0.0 || !Capped(b, now))
  {
    var earned, cap := (now - b.lastUpdate) * b.rate, b.burst as real;
    ProductNonNegative(now - b.lastUpdate, b.rate);
    assert Refill(b, now).tokens == Min(cap, b.tokens + earned);
    assert Refill(reserved, now).tokens == Min(cap, reserved.tokens + earned);
    assert Capped(b, now) <==> b.tokens + earned > cap;
  }

  lemma {:induction false} RunNarrows(b: Bucket, reserved: Bucket, calls: seq<Call>)
    requires Behind(b, reserved) && NonNegative(calls) && MonotoneFrom(b.lastUpdate, calls)
    requires SameVerdicts(b, reserved, calls)
    ensures Behind(Final(b, calls), Final(reserved, calls))
    ensures var gap := b.tokens - reserved.tokens;
            var gap' := Final(b, calls).tokens - Final(reserved, calls).tokens;
            gap' <= gap && (gap' == gap <==> gap == 0.0 || NeverCapped(b, calls))
    decreases |calls|
  {
    if calls != [] {
      RefillNarrows(b, reserved, calls[0].now);
      RunNarrows(Step(b, calls[0]).0, Step(reserved, calls[0]).0, calls[1..]);
    }
  }

  /** A reservation, any calls that it turns no verdict of, then Cancel: the bucket is as if the
      reservation had never been made if and only if the bucket without it would have lost no
      refill to the cap on the way, or would be full now.  Otherwise Cancel gives back more. */
  lemma CancelExactIff(b: Bucket, now: real, n: nat, calls: seq<Call>)
    requires b.rate >= 0.0 && NonNegative(calls) && MonotoneFrom(now, calls)
    requires SameVerdicts(Refill(b, now), Spend(Refill(b, now), n), calls)
    ensures var without := Final(Refill(b, now), calls);
            var cancelled := Refund(Final(Spend(Refill(b, now), n), calls), n);
            && cancelled.tokens >= without.tokens
            && (cancelled == without <==>
                  n == 0 || without.tokens == b.burst as real || NeverCapped(Refill(b, now), calls))
  {
    RunNarrows(Refill(b, now), Spend(Refill(b, now), n), calls);
    SameShape(Refill(b, now), calls);
  }

  lemma {:induction false} SameShape(b: Bucket, calls: seq<Call>)
    ensures Final(b, calls).rate == b.rate && Final(b, calls).burst == b.burst
    decreases |calls|
  {
    if calls != [] {
      SameShape(Step(b, calls[0]).0, calls[1..]);
    }
  }
}
