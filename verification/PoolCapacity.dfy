/** What maxQueueSize bounds: the check of HandleRequest and the increment after it are two steps,
    so the number of active requests depends on how many callers are between them at once. */
module PoolCapacity {
  import opened WorkerPool

  /** The callers that have passed the check and not yet been counted. */
  function Between(callers: map<CallId, Phase>): set<CallId> {
    set c | c in callers && callers[c] == Passed
  }

  /** At no point of the run are more than p callers between the check and the increment. */
  ghost predicate PeakAtMost(s: Pool, actions: seq<Action>, p: nat)
    requires Runs(s, actions)
    decreases |actions|
  {
    |Between(s.callers)| <= p && (actions == [] || PeakAtMost(Apply(s, actions[0]), actions[1..], p))
  }

  lemma BetweenUpdate(callers: map<CallId, Phase>, c: CallId, p: Phase)
    ensures |Between(callers[c := p])| + (if c in callers && callers[c] == Passed then 1 else 0)
            == |Between(callers)| + (if p == Passed then 1 else 0)
  {
    var rest := Between(callers) - {c};
    assert Between(callers[c := p]) == if p == Passed then rest + {c} else rest;
  }

  // ---------------------------------------------------------------------------------------
  // The bound
  // ---------------------------------------------------------------------------------------

  function Limit(maxQueueSize: nat, p: nat): nat {
    if maxQueueSize == 0 then 0 else maxQueueSize - 1 + p
  }

  ghost predicate Within(s: Pool, p: nat) {
    s.active + |Between(s.callers)| <= Limit(s.maxQueueSize, p)
  }

  lemma StepStaysWithin(s: Pool, a: Action, p: nat)
    requires CountersInv(s) && Enabled(s, a) && Within(s, p) && |Between(Apply(s, a).callers)| <= p
    ensures Within(Apply(s, a), p)
  {
    if OfCaller(a) {
      BetweenUpdate(s.callers, a.c, Apply(s, a).callers[a.c]);
    } else if OfWorker(a) {
      WorkerFrame(s, a);
    } else {
      CallerFrame(s, a);
    }
  }

  /** With at most p callers between the check and the increment at once, at most
      maxQueueSize - 1 + p requests are active. */
  lemma {:induction false} ActiveBounded(s: Pool, actions: seq<Action>, p: nat)
    requires Inv(s) && Runs(s, actions) && PeakAtMost(s, actions, p) && Within(s, p)
    ensures Within(After(s, actions), p)
    decreases |actions|
  {
    if actions != [] {
      StepStaysWithin(s, actions[0], p);
      InvStep(s, actions[0]);
      ActiveBounded(Apply(s, actions[0]), actions[1..], p);
    }
  }

  // ---------------------------------------------------------------------------------------
  // It is reached
  // ---------------------------------------------------------------------------------------

  function SetAll(callers: map<CallId, Phase>, cs: seq<CallId>, p: Phase): map<CallId, Phase> {
    map c | c in callers :: if c in cs then p else callers[c]
  }

  ghost predicate AllAre(callers: map<CallId, Phase>, cs: seq<CallId>, p: Phase) {
    forall c <- cs :: c in callers && callers[c] == p
  }

  function Checks(cs: seq<CallId>): seq<Action> {
    if cs == [] then [] else [Check(cs[0])] + Checks(cs[1..])
  }

  function Activations(cs: seq<CallId>): seq<Action> {
    if cs == [] then [] else [Activate(cs[0])] + Activations(cs[1..])
  }

  lemma SetFirst(callers: map<CallId, Phase>, cs: seq<CallId>, p: Phase)
    requires cs != [] && forall c <- cs :: c in callers
    ensures SetAll(callers[cs[0] := p], cs[1..], p) == SetAll(callers, cs, p)
  {}

  lemma {:induction false} ChecksRun(s: Pool, cs: seq<CallId>, p: nat)
    requires !s.crashed && NoDuplicates(cs) && AllAre(s.callers, cs, Entered) && s.active < s.maxQueueSize
    requires |Between(s.callers)| + |cs| <= p
    ensures Runs(s, Checks(cs)) && PeakAtMost(s, Checks(cs), p)
    ensures After(s, Checks(cs)) == s.(callers := SetAll(s.callers, cs, Passed))
    decreases |cs|
  {
    if cs == [] {
      assert SetAll(s.callers, cs, Passed) == s.callers;
    } else {
      var s' := Apply(s, Check(cs[0]));
      BetweenUpdate(s.callers, cs[0], Passed);
      SetFirst(s.callers, cs, Passed);
      ChecksRun(s', cs[1..], p);
      assert Checks(cs)[1..] == Checks(cs[1..]);
    }
  }

  lemma {:induction false} ActivationsRun(s: Pool, cs: seq<CallId>, p: nat)
    requires !s.crashed && NoDuplicates(cs) && AllAre(s.callers, cs, Passed) && |Between(s.callers)| <= p
    ensures Runs(s, Activations(cs)) && PeakAtMost(s, Activations(cs), p)
    ensures After(s, Activations(cs)) == s.(callers := SetAll(s.callers, cs, Active), active := s.active + |cs|)
    decreases |cs|
  {
    if cs == [] {
      assert SetAll(s.callers, cs, Active) == s.callers;
    } else {
      var s' := Apply(s, Activate(cs[0]));
      BetweenUpdate(s.callers, cs[0], Active);
      SetFirst(s.callers, cs, Active);
      ActivationsRun(s', cs[1..], p);
      assert Activations(cs)[1..] == Activations(cs[1..]);
    }
  }

  lemma {:induction false} PeakConcat(s: Pool, first: seq<Action>, second: seq<Action>, p: nat)
    requires Runs(s, first) && Runs(After(s, first), second)
    requires PeakAtMost(s, first, p) && PeakAtMost(After(s, first), second, p)
    ensures Runs(s, first + second) && PeakAtMost(s, first + second, p)
    decreases |first|
  {
    Concat(s, first, second);
    if first == [] {
      assert first + second == second;
    } else {
      assert (first + second)[1..] == first[1..] + second;
      PeakConcat(Apply(s, first[0]), first[1..], second, p);
    }
  }

  /** From any state with room for one more, callers that all check before any is counted are all
      counted, however many they are. */
  lemma CheckedTogether(s: Pool, cs: seq<CallId>, p: nat)
    requires !s.crashed && NoDuplicates(cs) && AllAre(s.callers, cs, Entered) && s.active < s.maxQueueSize
    requires |Between(s.callers)| + |cs| <= p
    ensures var actions := Checks(cs) + Activations(cs);
            && Runs(s, actions) && PeakAtMost(s, actions, p)
            && After(s, actions) == s.(callers := SetAll(s.callers, cs, Active), active := s.active + |cs|)
  {
    ChecksRun(s, cs, p);
    var s' := After(s, Checks(cs));
    BetweenAfterChecks(s.callers, cs);
    ActivationsRun(s', cs, p);
    Concat(s, Checks(cs), Activations(cs));
    PeakConcat(s, Checks(cs), Activations(cs), p);
    assert SetAll(s'.callers, cs, Active) == SetAll(s.callers, cs, Active);
  }

  lemma BetweenAfterChecks(callers: map<CallId, Phase>, cs: seq<CallId>)
    ensures |Between(SetAll(callers, cs, Passed))| <= |Between(callers)| + |cs|
  {
    assert Between(SetAll(callers, cs, Passed)) <= Between(callers) + Members(cs);
    MembersSize(cs);
    SubsetSize(Between(SetAll(callers, cs, Passed)), Between(callers) + Members(cs));
  }

  function Members(cs: seq<CallId>): set<CallId> {
    set c | c in cs
  }

  lemma {:induction false} MembersSize(cs: seq<CallId>)
    ensures |Members(cs)| <= |cs|
  {
    if cs != [] {
      MembersSize(cs[1..]);
      assert Members(cs) == Members(cs[1..]) + {cs[0]};
    }
  }

  lemma {:induction false} SubsetSize(small: set<CallId>, large: set<CallId>)
    requires small <= large
    ensures |small| <= |large|
  {
    assert large == small + (large - small);
  }

  /** Callers arriving one by one. */
  function Arrivals(lo: nat, hi: nat): seq<Action>
    requires lo <= hi
    decreases hi - lo
  {
    if lo == hi then [] else [Arrive(lo)] + Arrivals(lo + 1, hi)
  }

  function Range(lo: nat, hi: nat): seq<CallId>
    requires lo <= hi
    ensures |Range(lo, hi)| == hi - lo && forall i :: 0 <= i < hi - lo ==> Range(lo, hi)[i] == lo + i
  {
    seq(hi - lo, i => lo + i)
  }

  lemma RangeMembers(lo: nat, hi: nat)
    requires lo <= hi
    ensures forall c :: c in Range(lo, hi) <==> lo <= c < hi
    ensures NoDuplicates(Range(lo, hi))
  {
    forall c | lo <= c < hi ensures c in Range(lo, hi) {
      assert Range(lo, hi)[c - lo] == c;
    }
  }

  /** The callers from lo to hi have entered, and nothing else about callers has changed. */
  ghost predicate Arrived(s: Pool, s': Pool, lo: nat, hi: nat) {
    && !s'.crashed && s'.active == s.active && s'.maxQueueSize == s.maxQueueSize
    && (forall c :: c in s.callers ==> c in s'.callers && s'.callers[c] == s.callers[c])
    && (forall c :: lo <= c < hi ==> c in s'.callers && s'.callers[c] == Entered)
    && Between(s'.callers) == Between(s.callers)
  }

  lemma {:induction false} ArrivalsRun(s: Pool, lo: nat, hi: nat, p: nat)
    requires lo <= hi && !s.crashed && (forall c :: lo <= c < hi ==> c !in s.callers) && |Between(s.callers)| <= p
    ensures Runs(s, Arrivals(lo, hi)) && PeakAtMost(s, Arrivals(lo, hi), p)
    ensures Arrived(s, After(s, Arrivals(lo, hi)), lo, hi)
    decreases hi - lo
  {
    if lo < hi {
      var s1 := Apply(s, Arrive(lo));
      assert Between(s1.callers) == Between(s.callers);
      ArrivalsRun(s1, lo + 1, hi, p);
      assert Arrivals(lo, hi)[1..] == Arrivals(lo + 1, hi);
      OneMoreArrived(s, s1, After(s1, Arrivals(lo + 1, hi)), lo, hi);
    }
  }

  lemma OneMoreArrived(s: Pool, s1: Pool, s': Pool, lo: nat, hi: nat)
    requires lo < hi && !s.crashed && (forall c :: lo <= c < hi ==> c !in s.callers)
    requires s1 == Apply(s, Arrive(lo)) && Between(s1.callers) == Between(s.callers) && Arrived(s1, s', lo + 1, hi)
    ensures Arrived(s, s', lo, hi)
  {}

  /** k callers, one after the other, each checking and being counted before the next. */
  lemma {:induction false} OneByOne(s: Pool, k: nat, p: nat) returns (actions: seq<Action>)
    requires s.callers == map[] && s.active == 0 && !s.crashed && k <= s.maxQueueSize && p > 0
    ensures Runs(s, actions) && PeakAtMost(s, actions, p)
    ensures var s' := After(s, actions);
            && !s'.crashed && s'.active == k && s'.maxQueueSize == s.maxQueueSize && Between(s'.callers) == {}
            && forall c :: c in s'.callers ==> c < k
  {
    actions := [];
    assert Between(s.callers) == {};
    if k > 0 {
      var before := OneByOne(s, k - 1, p);
      var last := Turn(After(s, before), k - 1, p);
      actions := before + last;
      Concat(s, before, last);
      PeakConcat(s, before, last, p);
    }
  }

  lemma NoneBetween(callers: map<CallId, Phase>)
    requires Between(callers) == {}
    ensures forall c :: c in callers ==> callers[c] != Passed
  {
    forall c | c in callers ensures callers[c] != Passed {
      assert c !in Between(callers);
    }
  }

  lemma Turn(s: Pool, c: CallId, p: nat) returns (actions: seq<Action>)
    requires !s.crashed && c !in s.callers && s.active < s.maxQueueSize && p > 0 && Between(s.callers) == {}
    ensures Runs(s, actions) && PeakAtMost(s, actions, p)
    ensures var s' := After(s, actions);
            && !s'.crashed && s'.active == s.active + 1 && s'.maxQueueSize == s.maxQueueSize
            && Between(s'.callers) == {} && s'.callers.Keys == s.callers.Keys + {c}
  {
    var s1 := Apply(s, Arrive(c));
    OneStep(s, Arrive(c));
    BetweenUpdate(s.callers, c, Entered);
    NoneBetween(s.callers);
    assert PeakAtMost(s1, [Arrive(c)][1..], p);
    CheckedTogether(s1, [c], p);
    var rest := Checks([c]) + Activations([c]);
    actions := [Arrive(c)] + rest;
    Concat(s, [Arrive(c)], rest);
    PeakConcat(s, [Arrive(c)], rest, p);
    var callers := After(s1, rest).callers;
    assert callers == SetAll(s1.callers, [c], Active);
    forall d | d in callers ensures callers[d] != Passed {
      assert d != c ==> d in s.callers && callers[d] == s.callers[d];
    }
  }

  /** p more callers, all arriving and checking before any of them is counted. */
  lemma Overrun(s: Pool, k: nat, p: nat) returns (actions: seq<Action>)
    requires !s.crashed && (forall c :: c in s.callers ==> c < k) && s.active < s.maxQueueSize
    requires Between(s.callers) == {}
    ensures Runs(s, actions) && PeakAtMost(s, actions, p) && After(s, actions).active == s.active + p
  {
    var cs := Range(k, k + p);
    RangeMembers(k, k + p);
    ArrivalsRun(s, k, k + p, p);
    var s' := After(s, Arrivals(k, k + p));
    assert AllAre(s'.callers, cs, Entered);
    CheckedTogether(s', cs, p);
    var rest := Checks(cs) + Activations(cs);
    actions := Arrivals(k, k + p) + rest;
    Concat(s, Arrivals(k, k + p), rest);
    PeakConcat(s, Arrivals(k, k + p), rest, p);
  }

  lemma LimitReached(mode: Mode, numWorkers: nat, maxQueueSize: nat, p: nat) returns (actions: seq<Action>)
    requires p > 0
    ensures var s := NewPool(mode, numWorkers, maxQueueSize);
            && Runs(s, actions) && PeakAtMost(s, actions, p)
            && After(s, actions).active == Limit(maxQueueSize, p)
  {
    var s := NewPool(mode, numWorkers, maxQueueSize);
    assert Between(s.callers) == {};
    if maxQueueSize == 0 {
      actions := [];
    } else {
      var filling := OneByOne(s, maxQueueSize - 1, p);
      var overrun := Overrun(After(s, filling), maxQueueSize - 1, p);
      actions := filling + overrun;
      Concat(s, filling, overrun);
      PeakConcat(s, filling, overrun, p);
    }
  }

  lemma LimitHolds(mode: Mode, numWorkers: nat, maxQueueSize: nat, p: nat, actions: seq<Action>)
    requires Runs(NewPool(mode, numWorkers, maxQueueSize), actions)
    requires PeakAtMost(NewPool(mode, numWorkers, maxQueueSize), actions, p) && p > 0
    ensures After(NewPool(mode, numWorkers, maxQueueSize), actions).active <= Limit(maxQueueSize, p)
  {
    var s := NewPool(mode, numWorkers, maxQueueSize);
    assert Between(s.callers) == {};
    NewPoolInv(mode, numWorkers, maxQueueSize);
    ActiveBounded(s, actions, p);
    MaxStays(s, actions);
  }

  /** The bound is exact, for every pool: k bounds the active requests of every run with at most p
      callers between the check and the increment at once if and only if k >= maxQueueSize - 1 + p.
      So maxQueueSize itself is a bound exactly for p = 1. */
  lemma ActiveBoundIff(mode: Mode, numWorkers: nat, maxQueueSize: nat, p: nat, k: int)
    requires p > 0
    ensures (forall actions :: Runs(NewPool(mode, numWorkers, maxQueueSize), actions)
                               && PeakAtMost(NewPool(mode, numWorkers, maxQueueSize), actions, p) ==>
               After(NewPool(mode, numWorkers, maxQueueSize), actions).active <= k)
            <==> k >= Limit(maxQueueSize, p)
  {
    if k >= Limit(maxQueueSize, p) {
      forall actions | Runs(NewPool(mode, numWorkers, maxQueueSize), actions)
                       && PeakAtMost(NewPool(mode, numWorkers, maxQueueSize), actions, p)
        ensures After(NewPool(mode, numWorkers, maxQueueSize), actions).active <= k
      {
        LimitHolds(mode, numWorkers, maxQueueSize, p, actions);
      }
    } else {
      var actions := LimitReached(mode, numWorkers, maxQueueSize, p);
    }
  }

  lemma {:induction false} MaxStays(s: Pool, actions: seq<Action>)
    requires Runs(s, actions)
    ensures After(s, actions).maxQueueSize == s.maxQueueSize
    decreases |actions|
  {
    if actions != [] {
      if OfWorker(actions[0]) {
        WorkerFrame(s, actions[0]);
      }
      MaxStays(Apply(s, actions[0]), actions[1..]);
    }
  }

  /** The smallest overrun: with a limit of 1, two calls that both check first are both active. */
  lemma CapacityCanBeOverrun(mode: Mode, numWorkers: nat)
    ensures var s, actions := NewPool(mode, numWorkers, 1),
                              [Arrive(0)] + [Arrive(1)] + (Checks([0, 1]) + Activations([0, 1]));
            Runs(s, actions) && After(s, actions).active == 2 > s.maxQueueSize
  {
    var s := NewPool(mode, numWorkers, 1);
    var s1 := Apply(s, Arrive(0));
    var s2 := Apply(s1, Arrive(1));
    assert Between(s2.callers) == {};
    OneStep(s, Arrive(0));
    OneStep(s1, Arrive(1));
    CheckedTogether(s2, [0, 1], 2);
    Concat(s, [Arrive(0)], [Arrive(1)]);
    Concat(s, [Arrive(0)] + [Arrive(1)], Checks([0, 1]) + Activations([0, 1]));
  }
}
