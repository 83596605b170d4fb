/** The scaling controller of the adaptive worker pool.  Load and time are reals. */
module AdaptivePool {
  import opened Wrappers

  const HISTORY_SIZE := 10

  datatype Options = Options(minWorkers: int, maxWorkers: int, numWorkers: int, maxQueueSize: int,
                             scaleUpThreshold: real, scaleDownThreshold: real, scalingInterval: real)

  datatype ConcurrentOptions = ConcurrentOptions(numWorkers: int, maxQueueSize: int)

  /** The options as given: the embedded ones are a pointer, which may be nil. */
  datatype AdaptiveOptions = AdaptiveOptions(concurrent: Option<ConcurrentOptions>, minWorkers: int, maxWorkers: int,
                                             scaleUpThreshold: real, scaleDownThreshold: real, scalingInterval: real)
  {
    function Flat(): Options
      requires concurrent.Some?
    {
      Options(minWorkers, maxWorkers, concurrent.value.numWorkers, concurrent.value.maxQueueSize,
              scaleUpThreshold, scaleDownThreshold, scalingInterval)
    }
  }

  /** How NewAdaptiveWorkerPool repairs its options. */
  function Repaired(o: Options): Options {
    var lo := if o.minWorkers < 1 then 1 else o.minWorkers;
    var hi := if o.maxWorkers < lo then lo * 2 else o.maxWorkers;
    var n := if o.numWorkers < lo then lo else o.numWorkers;
    o.(minWorkers := lo, maxWorkers := hi, numWorkers := if n > hi then hi else n)
  }

  /** The controller's state.  `goroutines` are the worker goroutines started and still running,
      whether or not they are still listed in `workers`. */
  datatype Pool = Pool(options: Options, currentWorkers: int, workers: seq<int>,
                       history: seq<real>, lastScaleTime: real, goroutines: nat)

  function NewPool(o: Options, now: real): (p: Pool)
    ensures Inv(p)
  {
    var r := Repaired(o);
    Pool(r, r.numWorkers, seq(r.numWorkers, i => i), [], now, r.numWorkers)
  }

  function Utilization(p: Pool, active: int): real {
    if p.currentWorkers == 0 then 0.0 else active as real / p.currentWorkers as real
  }

  function Sum(xs: seq<real>): real {
    if xs == [] then 0.0 else Sum(xs[..|xs| - 1]) + xs[|xs| - 1]
  }

  function Average(xs: seq<real>): real {
    if xs == [] then 0.0 else Sum(xs) / |xs| as real
  }

  function Latest(xs: seq<real>): seq<real> {
    if |xs| > HISTORY_SIZE then xs[|xs| - HISTORY_SIZE..] else xs
  }

  function Min(a: int, b: int): int { if a < b then a else b }

  function Max(a: int, b: int): int { if a > b then a else b }

  /** A quarter of the current size, at least one worker. */
  function Stride(current: int): int {
    Max(1, current / 4)
  }

  datatype Decision = Keep | Up(target: int) | Down(target: int)

  function Decide(p: Pool): Decision {
    var avg, o := Average(p.history), p.options;
    if |p.history| < 3 then Keep
    else if avg > o.scaleUpThreshold && p.currentWorkers < o.maxWorkers then
      Up(Min(o.maxWorkers, p.currentWorkers + Stride(p.currentWorkers)))
    else if avg < o.scaleDownThreshold && p.currentWorkers > o.minWorkers then
      Down(Max(o.minWorkers, p.currentWorkers - Stride(p.currentWorkers)))
    else Keep
  }

  /** The ids given to count workers added one by one: the length already includes the earlier
      additions and i counts them again. */
  function Added(workers: seq<int>, i: nat, count: nat): seq<int>
    decreases count - i
  {
    if i >= count then workers else Added(workers + [|workers| + i], i + 1, count)
  }

  function Removed(workers: seq<int>, count: int, minWorkers: int): seq<int>
    requires minWorkers >= 0
  {
    var n := if count >= |workers| then |workers| - minWorkers else count;
    if n > 0 then workers[..|workers| - n] else workers
  }

  function Scaled(p: Pool, d: Decision, now: real): Pool
    requires p.options.minWorkers >= 0
  {
    match d
    case Keep => p
    case Up(target) =>
      if target <= p.currentWorkers then p else
      var n := target - p.currentWorkers;
      p.(workers := Added(p.workers, 0, n), goroutines := p.goroutines + n,
         currentWorkers := target, lastScaleTime := now)
    case Down(target) =>
      if target >= p.currentWorkers then p else
      p.(workers := Removed(p.workers, p.currentWorkers - target, p.options.minWorkers),
         currentWorkers := target, lastScaleTime := now)
  }

  function Sampled(p: Pool, active: int): Pool {
    p.(history := Latest(p.history + [Utilization(p, active)]))
  }

  /** One tick of the controller. */
  function Evaluated(p: Pool, active: int, now: real): Pool
    requires p.options.minWorkers >= 0
  {
    var s := Sampled(p, active);
    if now - s.lastScaleTime < s.options.scalingInterval then s else Scaled(s, Decide(s), now)
  }

  class AdaptiveWorkerPool {
    const options: Options
    var currentWorkers: int
    var workers: seq<int>
    var utilizationHistory: seq<real>
    var lastScaleTime: real
    var goroutines: nat

    ghost function View(): Pool
      reads this
    {
      Pool(options, currentWorkers, workers, utilizationHistory, lastScaleTime, goroutines)
    }

    constructor (o: Options, now: real)
      ensures View() == NewPool(o, now)
    {
      var lo, hi, n := o.minWorkers, o.maxWorkers, o.numWorkers;
      if lo < 1 {
        lo := 1;
      }
      if hi < lo {
        hi := lo * 2;
      }
      if n < lo {
        n := lo;
      }
      if n > hi {
        n := hi;
      }
      options := o.(minWorkers := lo, maxWorkers := hi, numWorkers := n);
      currentWorkers, workers, goroutines := n, seq(n, i => i), n;
      utilizationHistory, lastScaleTime := [], now;
    }

    method AverageUtilization() returns (avg: real)
      ensures avg == Average(utilizationHistory)
    {
      if |utilizationHistory| == 0 {
        return 0.0;
      }
      var sum := 0.0;
      for i := 0 to |utilizationHistory|
        invariant sum == Sum(utilizationHistory[..i])
      {
        assert utilizationHistory[..i + 1][..i] == utilizationHistory[..i];
        sum := sum + utilizationHistory[i];
      }
      assert utilizationHistory[..|utilizationHistory|] == utilizationHistory;
      avg := sum / |utilizationHistory| as real;
    }

    method AddWorkers(count: int)
      modifies `workers, `goroutines
      ensures count > 0 ==> workers == Added(old(workers), 0, count) && goroutines == old(goroutines) + count
      ensures count <= 0 ==> workers == old(workers) && goroutines == old(goroutines)
    {
      var i := 0;
      while i < count
        invariant 0 <= i && (count > 0 ==> i <= count) && (count <= 0 ==> i == 0)
        invariant goroutines == old(goroutines) + i
        invariant count > 0 ==> Added(workers, i, count) == Added(old(workers), 0, count)
        invariant count <= 0 ==> workers == old(workers)
      {
        workers := workers + [|workers| + i];
        goroutines := goroutines + 1;
        i := i + 1;
      }
    }

    method RemoveWorkers(count: int)
      requires options.minWorkers >= 0
      modifies `workers
      ensures workers == Removed(old(workers), count, options.minWorkers)
    {
      var n := count;
      if n >= |workers| {
        n := |workers| - options.minWorkers;
      }
      if n > 0 {
        workers := workers[..|workers| - n];
      }
    }

    method RecordUtilization(active: int)
      requires |utilizationHistory| <= HISTORY_SIZE
      modifies `utilizationHistory
      ensures View() == Sampled(old(View()), active)
    {
      var utilization := if currentWorkers == 0 then 0.0 else active as real / currentWorkers as real;
      utilizationHistory := utilizationHistory + [utilization];
      if |utilizationHistory| > HISTORY_SIZE {
        utilizationHistory := utilizationHistory[1..];
      }
    }

    method DetermineAction() returns (d: Decision)
      ensures d == Decide(View())
    {
      if |utilizationHistory| < 3 {
        return Keep;
      }
      var avg := AverageUtilization();
      if avg > options.scaleUpThreshold && currentWorkers < options.maxWorkers {
        var increase := Max(1, currentWorkers / 4);
        return Up(Min(options.maxWorkers, currentWorkers + increase));
      }
      if avg < options.scaleDownThreshold && currentWorkers > options.minWorkers {
        var decrease := Max(1, currentWorkers / 4);
        return Down(Max(options.minWorkers, currentWorkers - decrease));
      }
      return Keep;
    }

    method EvaluateScaling(active: int, now: real)
      requires options.minWorkers >= 0 && |utilizationHistory| <= HISTORY_SIZE
      modifies this
      ensures View() == Evaluated(old(View()), active, now)
    {
      RecordUtilization(active);
      var action := DetermineAction();
      if action == Keep || now - lastScaleTime < options.scalingInterval {
        return;
      }
      if action.target != currentWorkers {
        ScaleWorkers(action);
        lastScaleTime := now;
      }
    }

    method ScaleWorkers(d: Decision)
      requires options.minWorkers >= 0
      modifies `workers, `goroutines, `currentWorkers
      ensures View() == Scaled(old(View()), d, lastScaleTime)
    {
      if d.Up? && d.target > currentWorkers {
        AddWorkers(d.target - currentWorkers);
        currentWorkers := d.target;
      } else if d.Down? && d.target < currentWorkers {
        RemoveWorkers(currentWorkers - d.target);
        currentWorkers := d.target;
      }
    }
  }

  /** Reading the number of workers panics if the embedded options are nil, making the request
      channel on a negative size, starting the ticker on an interval that is not positive. */
  predicate Starts(o: AdaptiveOptions) {
    o.concurrent.Some? && o.concurrent.value.maxQueueSize >= 0 && o.scalingInterval > 0.0
  }

  /** For options that are not nil.  None stands for the panic. */
  method NewAdaptiveWorkerPool(o: AdaptiveOptions, now: real) returns (r: Option<AdaptiveWorkerPool>)
    ensures r.Some? <==> Starts(o)
    ensures r.Some? ==> fresh(r.value) && r.value.View() == NewPool(o.Flat(), now) && Inv(r.value.View())
  {
    if o.concurrent == None || o.concurrent.value.maxQueueSize < 0 {
      return None;
    }
    var pool := new AdaptiveWorkerPool(o.Flat(), now);
    if o.scalingInterval <= 0.0 {
      return None;
    }
    return Some(pool);
  }

  // ---------------------------------------------------------------------------------------
  // Every run stays in bounds
  // ---------------------------------------------------------------------------------------

  datatype Tick = Tick(active: int, now: real)

  ghost predicate Inv(p: Pool) {
    && 1 <= p.options.minWorkers <= p.currentWorkers <= p.options.maxWorkers
    && |p.workers| == p.currentWorkers <= p.goroutines
    && |p.history| <= HISTORY_SIZE
  }

  ghost function After(p: Pool, ticks: seq<Tick>): Pool
    requires Inv(p)
    decreases |ticks|
  {
    if ticks == [] then p else
    TickKeepsInv(p, ticks[0]);
    After(Evaluated(p, ticks[0].active, ticks[0].now), ticks[1..])
  }

  lemma {:induction false} AddedLength(workers: seq<int>, i: nat, count: nat)
    requires i <= count
    ensures |Added(workers, i, count)| == |workers| + count - i
    decreases count - i
  {
    if i < count {
      AddedLength(workers + [|workers| + i], i + 1, count);
    }
  }

  /** A decision moves the size strictly, inside the bounds, and never so far down that the
      clamp in removeWorkers applies. */
  lemma DecisionFacts(p: Pool)
    requires Inv(p)
    ensures Decide(p).Up? ==> p.currentWorkers < Decide(p).target <= p.options.maxWorkers
    ensures Decide(p).Down? ==> p.options.minWorkers <= Decide(p).target < p.currentWorkers
    ensures Decide(p).Down? ==> 0 < p.currentWorkers - Decide(p).target < |p.workers|
  {}

  lemma TickKeepsInv(p: Pool, t: Tick)
    requires Inv(p)
    ensures Inv(Evaluated(p, t.active, t.now))
  {
    var s := Sampled(p, t.active);
    DecisionFacts(s);
    if Decide(s).Up? {
      AddedLength(s.workers, 0, Decide(s).target - s.currentWorkers);
    }
  }

  lemma {:induction false} InvAlways(p: Pool, ticks: seq<Tick>)
    requires Inv(p)
    ensures Inv(After(p, ticks)) && After(p, ticks).options == p.options
    decreases |ticks|
  {
    if ticks != [] {
      TickKeepsInv(p, ticks[0]);
      InvAlways(Evaluated(p, ticks[0].active, ticks[0].now), ticks[1..]);
    }
  }

  /** For all options and all runs: min <= currentWorkers = len(workers) <= max, with the
      repaired min and max; and a scale-down never reaches the clamp in removeWorkers. */
  lemma AlwaysInBounds(o: Options, start: real, ticks: seq<Tick>, active: int)
    ensures var p := After(NewPool(o, start), ticks);
            && 1 <= Repaired(o).minWorkers <= p.currentWorkers <= Repaired(o).maxWorkers
            && |p.workers| == p.currentWorkers
            && var d := Decide(Sampled(p, active));
            d.Down? ==> p.currentWorkers - d.target < |p.workers|
  {
    InvAlways(NewPool(o, start), ticks);
    DecisionFacts(Sampled(After(NewPool(o, start), ticks), active));
  }

  // ---------------------------------------------------------------------------------------
  // The history is the latest ten samples
  // ---------------------------------------------------------------------------------------

  /** The utilization measured at each tick. */
  ghost function Samples(p: Pool, ticks: seq<Tick>): seq<real>
    requires Inv(p)
    decreases |ticks|
  {
    if ticks == [] then [] else
    TickKeepsInv(p, ticks[0]);
    [Utilization(p, ticks[0].active)] + Samples(Evaluated(p, ticks[0].active, ticks[0].now), ticks[1..])
  }

  lemma LatestOfLatest(xs: seq<real>, ys: seq<real>)
    ensures Latest(Latest(xs) + ys) == Latest(xs + ys)
  {
    if |xs| > HISTORY_SIZE {
      var cut := |xs| - HISTORY_SIZE;
      assert xs + ys == xs[..cut] + (Latest(xs) + ys);
    }
  }

  lemma LatestOfOneMore(xs: seq<real>, u: real, ys: seq<real>)
    ensures Latest(Latest(xs + [u]) + ys) == Latest(xs + ([u] + ys))
  {
    LatestOfLatest(xs + [u], ys);
    assert xs + [u] + ys == xs + ([u] + ys);
  }

  lemma TickRecords(p: Pool, t: Tick)
    requires Inv(p)
    ensures Evaluated(p, t.active, t.now).history == Latest(p.history + [Utilization(p, t.active)])
  {}

  lemma {:induction false} HistoryIsLatest(p: Pool, ticks: seq<Tick>)
    requires Inv(p)
    ensures After(p, ticks).history == Latest(p.history + Samples(p, ticks))
    decreases |ticks|
  {
    if ticks == [] {
      assert p.history + [] == p.history;
    } else {
      var next := Evaluated(p, ticks[0].active, ticks[0].now);
      TickKeepsInv(p, ticks[0]);
      TickRecords(p, ticks[0]);
      HistoryIsLatest(next, ticks[1..]);
      LatestOfOneMore(p.history, Utilization(p, ticks[0].active), Samples(next, ticks[1..]));
    }
  }

  // ---------------------------------------------------------------------------------------
  // Sustained overload reaches the maximum
  // ---------------------------------------------------------------------------------------

  /** A tick at which the controller sees overload and may act on it. */
  ghost predicate Overloaded(p: Pool, t: Tick) {
    var s := Sampled(p, t.active);
    && |s.history| >= 3 && Average(s.history) > s.options.scaleUpThreshold
    && t.now - s.lastScaleTime >= s.options.scalingInterval
  }

  ghost predicate AlwaysOverloaded(p: Pool, ticks: seq<Tick>)
    requires Inv(p)
    decreases |ticks|
  {
    ticks == [] ||
    (TickKeepsInv(p, ticks[0]);
     Overloaded(p, ticks[0]) && AlwaysOverloaded(Evaluated(p, ticks[0].active, ticks[0].now), ticks[1..]))
  }

  /** Each overloaded tick below the maximum adds a quarter, or one worker, or what is missing. */
  lemma OverloadGrows(p: Pool, t: Tick)
    requires Inv(p) && Overloaded(p, t) && p.currentWorkers < p.options.maxWorkers
    ensures var next := Evaluated(p, t.active, t.now);
            && p.currentWorkers < next.currentWorkers <= p.options.maxWorkers
            && var wanted := p.currentWorkers + if p.currentWorkers >= 4 then p.currentWorkers / 4 else 1;
               next.currentWorkers == if wanted <= p.options.maxWorkers then wanted else p.options.maxWorkers
  {
    DecisionFacts(Sampled(p, t.active));
  }

  /** As many overloaded ticks as workers are missing are enough to reach the maximum. */
  lemma {:induction false} OverloadReachesMax(p: Pool, ticks: seq<Tick>)
    requires Inv(p) && AlwaysOverloaded(p, ticks)
    requires |ticks| >= p.options.maxWorkers - p.currentWorkers
    ensures exists k :: 0 <= k <= |ticks| && After(p, ticks[..k]).currentWorkers == p.options.maxWorkers
    decreases |ticks|
  {
    if p.currentWorkers == p.options.maxWorkers {
      assert ticks[..0] == [] && After(p, ticks[..0]) == p;
    } else {
      var t := ticks[0];
      var next := Evaluated(p, t.active, t.now);
      OverloadGrows(p, t);
      TickKeepsInv(p, t);
      OverloadReachesMax(next, ticks[1..]);
      var k :| 0 <= k <= |ticks| - 1 && After(next, ticks[1..][..k]).currentWorkers == p.options.maxWorkers;
      assert ticks[..k + 1][1..] == ticks[1..][..k] && ticks[..k + 1][0] == t;
      assert After(p, ticks[..k + 1]).currentWorkers == p.options.maxWorkers;
    }
  }

  /** At the maximum an overloaded tick changes nothing but the history, provided the thresholds
      are the right way round. */
  lemma OverloadStaysAtMax(p: Pool, t: Tick)
    requires Inv(p) && Overloaded(p, t) && p.currentWorkers == p.options.maxWorkers
    requires p.options.scaleDownThreshold <= p.options.scaleUpThreshold
    ensures Evaluated(p, t.active, t.now) == Sampled(p, t.active)
  {}

  // ---------------------------------------------------------------------------------------
  // Sustained underload reaches the minimum
  // ---------------------------------------------------------------------------------------

  /** A tick at which the controller sees underload, and no overload, and may act on it. */
  ghost predicate Underloaded(p: Pool, t: Tick) {
    var s := Sampled(p, t.active);
    && |s.history| >= 3 && Average(s.history) < s.options.scaleDownThreshold
    && Average(s.history) <= s.options.scaleUpThreshold
    && t.now - s.lastScaleTime >= s.options.scalingInterval
  }

  ghost predicate AlwaysUnderloaded(p: Pool, ticks: seq<Tick>)
    requires Inv(p)
    decreases |ticks|
  {
    ticks == [] ||
    (TickKeepsInv(p, ticks[0]);
     Underloaded(p, ticks[0]) && AlwaysUnderloaded(Evaluated(p, ticks[0].active, ticks[0].now), ticks[1..]))
  }

  /** Each underloaded tick above the minimum takes away a quarter, or one worker, or what is too much. */
  lemma UnderloadShrinks(p: Pool, t: Tick)
    requires Inv(p) && Underloaded(p, t) && p.currentWorkers > p.options.minWorkers
    ensures var next := Evaluated(p, t.active, t.now);
            && p.options.minWorkers <= next.currentWorkers < p.currentWorkers
            && var wanted := p.currentWorkers - if p.currentWorkers >= 4 then p.currentWorkers / 4 else 1;
               next.currentWorkers == if wanted >= p.options.minWorkers then wanted else p.options.minWorkers
  {
    DecisionFacts(Sampled(p, t.active));
  }

  /** As many underloaded ticks as there are workers too many are enough to reach the minimum. */
  lemma {:induction false} UnderloadReachesMin(p: Pool, ticks: seq<Tick>)
    requires Inv(p) && AlwaysUnderloaded(p, ticks)
    requires |ticks| >= p.currentWorkers - p.options.minWorkers
    ensures exists k :: 0 <= k <= |ticks| && After(p, ticks[..k]).currentWorkers == p.options.minWorkers
    decreases |ticks|
  {
    if p.currentWorkers == p.options.minWorkers {
      assert ticks[..0] == [] && After(p, ticks[..0]) == p;
    } else {
      var t := ticks[0];
      var next := Evaluated(p, t.active, t.now);
      UnderloadShrinks(p, t);
      TickKeepsInv(p, t);
      UnderloadReachesMin(next, ticks[1..]);
      var k :| 0 <= k <= |ticks| - 1 && After(next, ticks[1..][..k]).currentWorkers == p.options.minWorkers;
      assert ticks[..k + 1][1..] == ticks[1..][..k] && ticks[..k + 1][0] == t;
      assert After(p, ticks[..k + 1]).currentWorkers == p.options.minWorkers;
    }
  }

  // ---------------------------------------------------------------------------------------
  // When nothing is scaled, and what a change records
  // ---------------------------------------------------------------------------------------

  /** With fewer than three samples, too soon after the last change, or with the average between the
      thresholds, a tick only records its sample. */
  lemma NothingScaled(p: Pool, t: Tick)
    requires Inv(p)
    requires var s := Sampled(p, t.active);
             || |s.history| <= 2
             || t.now - p.lastScaleTime < p.options.scalingInterval
             || p.options.scaleDownThreshold <= Average(s.history) <= p.options.scaleUpThreshold
    ensures Evaluated(p, t.active, t.now) == Sampled(p, t.active)
  {}

  /** A change of size is timed, not made before the interval is over, and takes workers from the end
      of the list or adds them there. */
  lemma ChangeIsTimed(p: Pool, t: Tick)
    requires Inv(p)
    ensures var next := Evaluated(p, t.active, t.now);
            && (next.currentWorkers == p.currentWorkers ==>
                  next.lastScaleTime == p.lastScaleTime && next.workers == p.workers && next.goroutines == p.goroutines)
            && (next.currentWorkers != p.currentWorkers ==>
                  next.lastScaleTime == t.now && t.now - p.lastScaleTime >= p.options.scalingInterval)
            && (next.currentWorkers < p.currentWorkers ==>
                  next.workers == p.workers[..next.currentWorkers] && next.goroutines == p.goroutines)
            && (next.currentWorkers > p.currentWorkers ==>
                  p.workers <= next.workers
                  && next.goroutines == p.goroutines + next.currentWorkers - p.currentWorkers)
  {
    var s := Sampled(p, t.active);
    DecisionFacts(s);
    if Decide(s).Up? {
      AddedLength(s.workers, 0, Decide(s).target - s.currentWorkers);
      AddedAtEnd(s.workers, 0, Decide(s).target - s.currentWorkers);
    }
  }

  lemma {:induction false} AddedAtEnd(workers: seq<int>, i: nat, count: nat)
    ensures workers <= Added(workers, i, count)
    decreases count - i
  {
    if i < count {
      AddedAtEnd(workers + [|workers| + i], i + 1, count);
    }
  }

  // ---------------------------------------------------------------------------------------
  // Options and averages, spelled out
  // ---------------------------------------------------------------------------------------

  /** Options in order are kept.  Otherwise the minimum is at least one, a maximum below it is twice
      the minimum, and the number of workers is brought between the two. */
  lemma RepairedSpelledOut(o: Options)
    ensures 1 <= o.minWorkers <= o.numWorkers <= o.maxWorkers ==> Repaired(o) == o
    ensures var r := Repaired(o);
            && r.minWorkers == (if o.minWorkers >= 1 then o.minWorkers else 1)
            && r.maxWorkers == (if o.maxWorkers >= r.minWorkers then o.maxWorkers else 2 * r.minWorkers)
            && (o.numWorkers <= r.minWorkers ==> r.numWorkers == r.minWorkers)
            && (o.numWorkers >= r.maxWorkers ==> r.numWorkers == r.maxWorkers)
            && (r.minWorkers <= o.numWorkers <= r.maxWorkers ==> r.numWorkers == o.numWorkers)
  {}

  lemma {:induction false} SumSplits(xs: seq<real>, ys: seq<real>)
    ensures Sum(xs + ys) == Sum(xs) + Sum(ys)
    decreases |ys|
  {
    if ys == [] {
      assert xs + ys == xs;
    } else {
      var front := ys[..|ys| - 1];
      assert (xs + ys)[..|xs + ys| - 1] == xs + front;
      SumSplits(xs, front);
    }
  }

  lemma SumSpelledOut(xs: seq<real>, x: real)
    ensures Sum([]) == 0.0 && Sum([x]) == x && Sum([x] + xs) == x + Sum(xs)
  {
    SumSplits([x], xs);
    assert [x][..0] == [];
  }

  lemma Divided(sum: real, n: real)
    requires n != 0.0
    ensures n * (sum / n) == sum
  {}

  /** n times the average is the sum. */
  lemma AverageTimesCount(xs: seq<real>)
    ensures |xs| as real * Average(xs) == Sum(xs)
  {
    if xs != [] {
      Divided(Sum(xs), |xs| as real);
    }
  }

  /** The average of like samples is their value. */
  lemma AverageOfLike(xs: seq<real>, x: real)
    requires xs != [] && forall k :: 0 <= k < |xs| ==> xs[k] == x
    ensures Average(xs) == x
  {
    LikeSum(xs, x);
    AverageTimesCount(xs);
    SameFactor(|xs| as real, Average(xs), x);
  }

  lemma SameFactor(n: real, x: real, y: real)
    requires n > 0.0 && n * x == n * y
    ensures x == y
  {}

  lemma {:induction false} LikeSum(xs: seq<real>, x: real)
    requires forall k :: 0 <= k < |xs| ==> xs[k] == x
    ensures Sum(xs) == |xs| as real * x
  {
    if xs != [] {
      LikeSum(xs[..|xs| - 1], x);
      assert |xs| as real * x == (|xs| - 1) as real * x + x;
    }
  }

  /** A sample is the active requests by the current workers; the history keeps the latest ten. */
  lemma SamplesSpelledOut(p: Pool, active: int, xs: seq<real>)
    ensures p.currentWorkers != 0 ==> Utilization(p, active) * p.currentWorkers as real == active as real
    ensures |xs| <= 10 ==> Latest(xs) == xs
    ensures |xs| > 10 ==> |Latest(xs)| == 10 && Latest(xs) == xs[|xs| - 10..]
  {}

  // ---------------------------------------------------------------------------------------
  // What scaling down does not do
  // ---------------------------------------------------------------------------------------

  /** The workers taken off the list by a run; their goroutines go on. */
  ghost function Retired(p: Pool, ticks: seq<Tick>): nat
    requires Inv(p)
    decreases |ticks|
  {
    if ticks == [] then 0 else
    var next := Evaluated(p, ticks[0].active, ticks[0].now);
    TickKeepsInv(p, ticks[0]);
    (if next.currentWorkers < p.currentWorkers then p.currentWorkers - next.currentWorkers else 0)
    + Retired(next, ticks[1..])
  }

  /** The number of worker goroutines exceeds currentWorkers by exactly the workers retired, so
      after a scale-down it is no longer bounded by currentWorkers. */
  lemma {:induction false} GoroutinesOutliveScaleDown(p: Pool, ticks: seq<Tick>)
    requires Inv(p)
    ensures After(p, ticks).goroutines - After(p, ticks).currentWorkers
            == p.goroutines - p.currentWorkers + Retired(p, ticks)
    decreases |ticks|
  {
    if ticks != [] {
      TickKeepsInv(p, ticks[0]);
      DecisionFacts(Sampled(p, ticks[0].active));
      GoroutinesOutliveScaleDown(Evaluated(p, ticks[0].active, ticks[0].now), ticks[1..]);
    }
  }
}
