/** What every caller of the worker pool can count on, and what the pool as written does instead. */
module PoolLiveness {
  import opened WorkerPool

  /** What the pool itself, with its callers and the handler, can do next. */
  ghost predicate CanProgress(s: Pool) {
    exists a :: Enabled(s, a) && Internal(a)
  }

  predicate Internal(a: Action) {
    OfWorker(a) || (OfCaller(a) && !a.Arrive?)
  }

  lemma Progress(s: Pool, a: Action)
    requires Enabled(s, a) && Internal(a)
    ensures CanProgress(s)
  {}

  /** A worker that has not exited can always do something when the queue is not empty. */
  lemma WorkerProgress(s: Pool, w: nat)
    requires Inv(s) && !s.crashed && w < |s.workers| && s.workers[w] != Exited
    requires s.queue != [] || s.workers[w] != Idle
    ensures CanProgress(s)
  {
    match s.workers[w]
    case Idle => Progress(s, Take(w));
    case Handling(_) => Progress(s, HandlerReturns(w, 0));
    case Sending(c, _) =>
      assert Holds(s, w, c);
      Progress(s, Send(w));
    case Clearing(_) => Progress(s, Clear(w));
  }

  lemma SubmitterProgress(s: Pool, c: CallId)
    requires Inv(s) && !s.crashed && |s.workers| > 0 && c in s.callers && s.callers[c] == Active
    ensures CanProgress(s)
  {
    if |s.queue| < s.maxQueueSize {
      Progress(s, Submit(c));
    } else if s.workers[0] != Exited {
      WorkerProgress(s, 0);
    } else {
      Progress(s, SeeShutdown(c));
    }
  }

  lemma WaiterProgress(s: Pool, c: CallId)
    requires Inv(s) && !s.crashed && |s.workers| > 0 && c in s.callers && s.callers[c] == Waiting
    ensures CanProgress(s)
  {
    if s.shutdown {
      Progress(s, SeeShutdown(c));
    } else if c in s.queue {
      WorkerProgress(s, 0);
    } else if c in s.finished {
      Progress(s, if c in s.slots then Receive(c) else SeeContextDone(c));
    } else {
      assert c in s.started && InHands(s, c);
      var w :| Holds(s, w, c);
      WorkerProgress(s, w);
    }
  }

  lemma CallerProgress(s: Pool, c: CallId)
    requires Inv(s) && !s.crashed && |s.workers| > 0 && c in s.callers && !s.callers[c].Done?
    ensures CanProgress(s)
  {
    match s.callers[c]
    case Entered => Progress(s, Check(c));
    case Refused => Progress(s, CountRejected(c));
    case Passed => Progress(s, Activate(c));
    case Returning(_) => Progress(s, Leave(c));
    case Active => SubmitterProgress(s, c);
    case Waiting => WaiterProgress(s, c);
  }

  // ---------------------------------------------------------------------------------------
  // Every caller finishes: the steps the pool still owes its callers are bounded
  // ---------------------------------------------------------------------------------------

  const MAX_WEIGHT: nat := 10

  /** A bound on the steps a caller's phase still leads to, its work item's included. */
  function Weight(p: Phase): nat {
    match p
    case Entered => 10
    case Refused => 1
    case Passed => 9
    case Active => 8
    case Waiting => 2
    case Returning(_) => 1
    case Done(_) => 0
  }

  function WorkerWeight(w: Worker): nat {
    match w
    case Handling(_) => 4
    case Sending(_, _) => 3
    case Clearing(_) => 2
    case Idle => 1
    case Exited => 0
  }

  function WorkerWork(workers: seq<Worker>): nat {
    if workers == [] then 0 else WorkerWeight(workers[0]) + WorkerWork(workers[1..])
  }

  function AtLeast(callers: map<CallId, Phase>, k: nat): set<CallId> {
    set c | c in callers && Weight(callers[c]) >= k
  }

  /** The callers' weights, each cut off at k, added up. */
  function CallerWork(callers: map<CallId, Phase>, k: nat): nat {
    if k == 0 then 0 else |AtLeast(callers, k)| + CallerWork(callers, k - 1)
  }

  function Work(s: Pool): nat {
    if s.crashed then 0 else CallerWork(s.callers, MAX_WEIGHT) + 5 * |s.queue| + WorkerWork(s.workers)
  }

  function Min(a: nat, b: nat): nat { if a < b then a else b }

  function WeightOf(callers: map<CallId, Phase>, c: CallId): nat {
    if c in callers then Weight(callers[c]) else 0
  }

  lemma AtLeastUpdate(callers: map<CallId, Phase>, c: CallId, p: Phase, k: nat)
    requires k > 0
    ensures |AtLeast(callers[c := p], k)| + (if WeightOf(callers, c) >= k then 1 else 0)
            == |AtLeast(callers, k)| + (if Weight(p) >= k then 1 else 0)
  {
    var rest := AtLeast(callers, k) - {c};
    assert AtLeast(callers[c := p], k) == if Weight(p) >= k then rest + {c} else rest;
  }

  lemma {:induction false} CallerWorkUpdate(callers: map<CallId, Phase>, c: CallId, p: Phase, k: nat)
    ensures CallerWork(callers[c := p], k) + Min(WeightOf(callers, c), k) == CallerWork(callers, k) + Min(Weight(p), k)
  {
    if k > 0 {
      CallerWorkUpdate(callers, c, p, k - 1);
      AtLeastUpdate(callers, c, p, k);
    }
  }

  lemma {:induction false} WorkerWorkUpdate(workers: seq<Worker>, w: nat, x: Worker)
    requires w < |workers|
    ensures WorkerWork(workers[w := x]) + WorkerWeight(workers[w]) == WorkerWork(workers) + WorkerWeight(x)
  {
    if w == 0 {
      assert workers[0 := x][1..] == workers[1..];
    } else {
      assert workers[w := x][1..] == workers[1..][w - 1 := x];
      WorkerWorkUpdate(workers[1..], w - 1, x);
    }
  }

  lemma {:induction false} WorkerHasWork(workers: seq<Worker>, w: nat)
    requires w < |workers|
    ensures WorkerWeight(workers[w]) <= WorkerWork(workers)
  {
    if w > 0 {
      WorkerHasWork(workers[1..], w - 1);
    }
  }

  lemma CallerWorkStep(s: Pool, a: Action)
    requires Enabled(s, a) && OfCaller(a)
    ensures Work(Apply(s, a)) + (if a.Arrive? then 0 else 1) <= Work(s) + (if a.Arrive? then MAX_WEIGHT else 0)
  {
    var s' := Apply(s, a);
    CallerWorkUpdate(s.callers, a.c, s'.callers[a.c], MAX_WEIGHT);
  }

  lemma WorkerWorkStep(s: Pool, a: Action)
    requires Enabled(s, a) && OfWorker(a)
    ensures Work(Apply(s, a)) + 1 <= Work(s)
  {
    WorkerHasWork(s.workers, a.w);
    WorkerFrame(s, a);
    WorkerWorkUpdate(s.workers, a.w, Apply(s, a).workers[a.w]);
  }

  /** Every step inside the pool uses up work; only an arrival brings some. */
  lemma WorkStep(s: Pool, a: Action)
    requires Enabled(s, a)
    ensures Work(Apply(s, a)) + (if Internal(a) then 1 else 0) <= Work(s) + (if a.Arrive? then MAX_WEIGHT else 0)
  {
    if OfCaller(a) {
      CallerWorkStep(s, a);
    } else if OfWorker(a) {
      WorkerWorkStep(s, a);
    } else {
      CallerFrame(s, a);
    }
  }

  function InternalSteps(actions: seq<Action>): nat {
    if actions == [] then 0 else (if Internal(actions[0]) then 1 else 0) + InternalSteps(actions[1..])
  }

  function Arrivals(actions: seq<Action>): nat {
    if actions == [] then 0 else (if actions[0].Arrive? then 1 else 0) + Arrivals(actions[1..])
  }

  /** However steps interleave, a run makes at most ten internal steps a caller beyond what was
      owed at its start, so the steps cannot go on without new callers. */
  lemma {:induction false} WorkIsBounded(s: Pool, actions: seq<Action>)
    requires Runs(s, actions)
    ensures InternalSteps(actions) + Work(After(s, actions)) <= Work(s) + MAX_WEIGHT * Arrivals(actions)
    decreases |actions|
  {
    if actions != [] {
      WorkStep(s, actions[0]);
      WorkIsBounded(Apply(s, actions[0]), actions[1..]);
    }
  }

  /** A run with no new callers, from wherever it starts, is bounded; and where it can go no
      further without having crashed, every caller has returned. */
  lemma RunsDry(s: Pool, actions: seq<Action>)
    requires Inv(s) && |s.workers| > 0 && Runs(s, actions)
    requires forall i :: 0 <= i < |actions| ==> !actions[i].Arrive?
    ensures InternalSteps(actions) <= Work(s)
    ensures var later := After(s, actions);
            !CanProgress(later) && !later.crashed ==> forall c :: c in later.callers ==> later.callers[c].Done?
  {
    WorkIsBounded(s, actions);
    NoArrivals(actions);
    var later := After(s, actions);
    InvAlways(s, actions);
    WorkersStay(s, actions);
    forall c | c in later.callers && !later.callers[c].Done? && !later.crashed
      ensures CanProgress(later)
    {
      CallerProgress(later, c);
    }
  }

  lemma {:induction false} NoArrivals(actions: seq<Action>)
    requires forall i :: 0 <= i < |actions| ==> !actions[i].Arrive?
    ensures Arrivals(actions) == 0
  {
    if actions != [] {
      NoArrivals(actions[1..]);
    }
  }

  lemma {:induction false} WorkersStay(s: Pool, actions: seq<Action>)
    requires Runs(s, actions)
    ensures |After(s, actions).workers| == |s.workers|
    decreases |actions|
  {
    if actions != [] {
      WorkersStay(Apply(s, actions[0]), actions[1..]);
    }
  }

  // ---------------------------------------------------------------------------------------
  // As written: the first item to be finished ends the process
  // ---------------------------------------------------------------------------------------

  ghost predicate SomeClearing(workers: seq<Worker>) {
    exists w :: 0 <= w < |workers| && workers[w].Clearing?
  }

  /** Workers that have not started an item, or have exited. */
  function Unused(workers: seq<Worker>): nat {
    if workers == [] then 0
    else (if workers[0].Idle? || workers[0].Exited? then 1 else 0) + Unused(workers[1..])
  }

  lemma {:induction false} UnusedUpdate(workers: seq<Worker>, w: nat, x: Worker)
    requires w < |workers|
    ensures Unused(workers[w := x]) + (if workers[w].Idle? || workers[w].Exited? then 1 else 0)
            == Unused(workers) + (if x.Idle? || x.Exited? then 1 else 0)
  {
    if w == 0 {
      assert workers[0 := x][1..] == workers[1..];
    } else {
      assert workers[w := x][1..] == workers[1..][w - 1 := x];
      UnusedUpdate(workers[1..], w - 1, x);
    }
  }

  /** A worker that has finished an item stays at its deferred store, and takes no other item. */
  ghost predicate CrashInv(s: Pool) {
    if s.mode.AsWritten? then
      && (s.finished != {} <==> SomeClearing(s.workers))
      && (s.crashed ==> SomeClearing(s.workers))
      && |s.started| + Unused(s.workers) == |s.workers|
    else !s.crashed
  }

  lemma CrashWorkerStep(s: Pool, a: Action)
    requires CrashInv(s) && Enabled(s, a) && OfWorker(a) && s.mode.AsWritten?
    ensures CrashInv(Apply(s, a))
  {
    var s' := Apply(s, a);
    WorkerFrame(s, a);
    UnusedUpdate(s.workers, a.w, s'.workers[a.w]);
    assert s'.workers[a.w].Clearing? <==> a.Send? || a.Drop? || a.Clear?;
    if SomeClearing(s.workers) {
      var w :| 0 <= w < |s.workers| && s.workers[w].Clearing?;
      assert s'.workers[w].Clearing?;
    }
    if SomeClearing(s'.workers) {
      var w :| 0 <= w < |s'.workers| && s'.workers[w].Clearing?;
      assert w == a.w || s.workers[w].Clearing?;
    }
  }

  lemma CrashStep(s: Pool, a: Action)
    requires CrashInv(s) && Enabled(s, a)
    ensures CrashInv(Apply(s, a))
  {
    if OfWorker(a) {
      WorkerFrame(s, a);
      if s.mode.AsWritten? {
        CrashWorkerStep(s, a);
      }
    } else {
      CallerFrame(s, a);
    }
  }

  lemma {:induction false} CrashAlways(s: Pool, actions: seq<Action>)
    requires CrashInv(s) && Runs(s, actions)
    ensures CrashInv(After(s, actions)) && After(s, actions).mode == s.mode
    decreases |actions|
  {
    if actions != [] {
      CrashStep(s, actions[0]);
      WorkerOrCallerFrame(s, actions[0]);
      CrashAlways(Apply(s, actions[0]), actions[1..]);
    }
  }

  lemma WorkerOrCallerFrame(s: Pool, a: Action)
    requires Enabled(s, a)
    ensures Apply(s, a).mode == s.mode && |Apply(s, a).workers| == |s.workers|
  {
    if OfWorker(a) {
      WorkerFrame(s, a);
    } else {
      CallerFrame(s, a);
    }
  }

  lemma {:induction false} NewPoolUnused(n: nat)
    ensures Unused(seq(n, _ => Idle)) == n
  {
    if n > 0 {
      assert seq(n, _ => Idle)[1..] == seq(n - 1, _ => Idle);
      NewPoolUnused(n - 1);
    }
  }

  lemma ReachableCrashInv(s: Pool)
    requires Reachable(s)
    ensures CrashInv(s)
  {
    var mode, numWorkers: nat, maxQueueSize: nat, actions :|
      Runs(NewPool(mode, numWorkers, maxQueueSize), actions)
      && s == After(NewPool(mode, numWorkers, maxQueueSize), actions);
    NewPoolUnused(numWorkers);
    CrashAlways(NewPool(mode, numWorkers, maxQueueSize), actions);
  }

  /** As written, no worker ever handles a second item; an item has been finished exactly when the
      process has crashed or a worker stands right before the store that crashes it, and then
      nothing can keep that worker from it. */
  lemma FinishingCrashes(s: Pool)
    requires Reachable(s) && s.mode.AsWritten?
    ensures |s.started| <= |s.workers|
    ensures s.finished != {} <==> s.crashed || exists w :: Enabled(s, Clear(w)) && Apply(s, Clear(w)).crashed
    ensures s.crashed ==> forall a :: !Enabled(s, a)
  {
    ReachableCrashInv(s);
    if s.finished != {} && !s.crashed {
      var w :| 0 <= w < |s.workers| && s.workers[w].Clearing?;
      assert Enabled(s, Clear(w)) && Apply(s, Clear(w)).crashed;
    }
  }

  lemma NoReplyUnlessFinished(s: Pool)
    requires Inv(s) && s.finished == {}
    ensures forall c :: c in s.callers && s.callers[c].Done? ==> !s.callers[c].outcome.Reply?
  {
    forall c | c in s.callers && s.callers[c].Done? ensures !s.callers[c].outcome.Reply? {
      assert GotReply(s.callers[c]).Some? ==> c in s.written;
    }
  }

  lemma QuietIfCrashed(s: Pool)
    requires CrashInv(s) && s.mode.AsWritten? && !CanProgress(s)
    ensures s.crashed <==> s.finished != {}
  {
    if s.finished != {} && !s.crashed {
      var w :| 0 <= w < |s.workers| && s.workers[w].Clearing?;
      Progress(s, Clear(w));
    }
  }

  /** So as written, a run that goes on for as long as the pool can move crashes if and only if some
      worker finished an item; a run that has not crashed has answered every caller, and none of
      them with a reply. */
  lemma CrashesIffFinished(s: Pool, actions: seq<Action>)
    requires Reachable(s) && s.mode.AsWritten? && |s.workers| > 0 && Runs(s, actions)
    requires forall i :: 0 <= i < |actions| ==> !actions[i].Arrive?
    requires !CanProgress(After(s, actions))
    ensures var later := After(s, actions);
            && (later.crashed <==> later.finished != {})
            && (!later.crashed ==>
                  forall c :: c in later.callers ==> later.callers[c].Done? && !later.callers[c].outcome.Reply?)
  {
    ReachableCrashInv(s);
    ReachableInv(s);
    CrashAlways(s, actions);
    InvAlways(s, actions);
    RunsDry(s, actions);
    QuietIfCrashed(After(s, actions));
    if !After(s, actions).crashed {
      NoReplyUnlessFinished(After(s, actions));
    }
  }

  lemma FinishedWasSubmitted(s: Pool)
    requires Inv(s) && s.finished != {}
    ensures s.submitted != []
  {
    var c :| c in s.finished;
    assert c in s.started;
  }

  lemma SubmittedGoesOn(s: Pool)
    requires Inv(s) && |s.workers| > 0 && !s.crashed && !s.shutdown && s.submitted != [] && s.finished == {}
    ensures CanProgress(s)
  {
    if s.queue != [] {
      WorkerProgress(s, 0);
    } else {
      var c := s.started[0];
      assert c in s.started && InHands(s, c);
      var w :| Holds(s, w, c);
      WorkerProgress(s, w);
    }
  }

  /** In terms of the callers: as written, and unless Shutdown is called, a pool that can go no
      further has crashed if and only if any request was ever submitted to a worker. */
  lemma CrashesIffSubmitted(s: Pool)
    requires Reachable(s) && s.mode.AsWritten? && |s.workers| > 0 && !s.shutdown && !CanProgress(s)
    ensures s.crashed <==> s.submitted != []
  {
    ReachableInv(s);
    ReachableCrashInv(s);
    QuietIfCrashed(s);
    if s.finished != {} {
      FinishedWasSubmitted(s);
    } else if s.submitted != [] {
      SubmittedGoesOn(s);
    }
  }

  /** One caller coming in and submitting its item. */
  function Submission(c: CallId): seq<Action> {
    Entering(c) + Submitting(c)
  }

  function Entering(c: CallId): seq<Action> {
    [Arrive(c), Check(c)]
  }

  function Submitting(c: CallId): seq<Action> {
    [Activate(c), Submit(c)]
  }

  lemma Join(s: Pool, first: seq<Action>, s1: Pool, second: seq<Action>, s2: Pool)
    requires Runs(s, first) && After(s, first) == s1 && Runs(s1, second) && After(s1, second) == s2
    ensures Runs(s, first + second) && After(s, first + second) == s2
  {
    Concat(s, first, second);
  }

  lemma EnteringRuns(s: Pool, c: CallId)
    requires !s.crashed && c !in s.callers && s.active < s.maxQueueSize
    ensures Runs(s, Entering(c))
    ensures After(s, Entering(c)) == s.(callers := s.callers[c := Passed], total := s.total + 1)
  {
    var s1 := Apply(s, Arrive(c));
    OneStep(s1, Check(c));
    OneMore(s, Arrive(c), [Check(c)]);
    assert s1.callers[c := Passed] == s.callers[c := Passed];
  }

  lemma SubmittingRuns(s: Pool, c: CallId)
    requires !s.crashed && c in s.callers && s.callers[c] == Passed && |s.queue| < s.maxQueueSize
    ensures Runs(s, Submitting(c))
    ensures After(s, Submitting(c)) ==
            s.(callers := s.callers[c := Waiting], queue := s.queue + [c], submitted := s.submitted + [c],
               active := s.active + 1)
  {
    var s1 := Apply(s, Activate(c));
    OneStep(s1, Submit(c));
    OneMore(s, Activate(c), [Submit(c)]);
    assert s1.callers[c := Waiting] == s.callers[c := Waiting];
  }

  lemma SubmissionRuns(s: Pool, c: CallId)
    requires !s.crashed && c !in s.callers && s.active < s.maxQueueSize && |s.queue| < s.maxQueueSize
    ensures Runs(s, Submission(c))
    ensures After(s, Submission(c)) ==
            s.(callers := s.callers[c := Waiting], queue := s.queue + [c], submitted := s.submitted + [c],
               total := s.total + 1, active := s.active + 1)
  {
    var s1 := s.(callers := s.callers[c := Passed], total := s.total + 1);
    var s2 := s1.(callers := s1.callers[c := Waiting], queue := s1.queue + [c], submitted := s1.submitted + [c],
                  active := s1.active + 1);
    assert s1.callers[c := Waiting] == s.callers[c := Waiting];
    EnteringRuns(s, c);
    SubmittingRuns(s1, c);
    Join(s, Entering(c), s1, Submitting(c), s2);
  }

  /** A worker taking an item, handling it, replying, and clearing its activeWork. */
  function Service(w: nat, r: Response): seq<Action> {
    [Take(w), HandlerReturns(w, r), Send(w), Clear(w)]
  }

  lemma ServiceCrashes(s: Pool, w: nat, r: Response)
    requires !s.crashed && s.mode.AsWritten? && w < |s.workers| && s.workers[w] == Idle
    requires s.queue != [] && s.queue[0] !in s.slots
    ensures Runs(s, Service(w, r))
    ensures var later := After(s, Service(w, r));
            && later.crashed && later.callers == s.callers && later.slots == s.slots[s.queue[0] := r]
            && later.queue == s.queue[1..] && later.started == s.started + [s.queue[0]]
  {
    var s1 := Apply(s, Take(w));
    var s2 := Apply(s1, HandlerReturns(w, r));
    var s3 := Apply(s2, Send(w));
    OneStep(s3, Clear(w));
    OneMore(s2, Send(w), [Clear(w)]);
    OneMore(s1, HandlerReturns(w, r), [Send(w), Clear(w)]);
    OneMore(s, Take(w), [HandlerReturns(w, r), Send(w), Clear(w)]);
    assert Service(w, r) == [Take(w)] + [HandlerReturns(w, r), Send(w), Clear(w)];
  }

  /** The input: one worker and two requests.  The first is answered, but its caller never returns,
      and the second is never handled. */
  lemma SecondRequestIsLost(r: Response)
    ensures var s, actions := NewPool(AsWritten, 1, 2), Submission(0) + Submission(1) + Service(0, r);
            && Runs(s, actions)
            && var later := After(s, actions);
               && later.crashed && later.callers == map[0 := Waiting, 1 := Waiting]
               && later.slots == map[0 := r] && later.queue == [1] && later.started == [0]
  {
    var s := NewPool(AsWritten, 1, 2);
    SubmissionRuns(s, 0);
    var s1 := After(s, Submission(0));
    SubmissionRuns(s1, 1);
    var s2 := After(s1, Submission(1));
    ServiceCrashes(s2, 0, r);
    Concat(s, Submission(0), Submission(1));
    Concat(s, Submission(0) + Submission(1), Service(0, r));
  }

  // ---------------------------------------------------------------------------------------
  // As intended: every caller is answered
  // ---------------------------------------------------------------------------------------

  /** With at least one worker, and activeWork cleared as intended, no caller is ever stuck. */
  lemma NobodyStranded(s: Pool, c: CallId)
    requires Reachable(s) && s.mode.AsIntended? && |s.workers| > 0 && c in s.callers && !s.callers[c].Done?
    ensures CanProgress(s)
  {
    ReachableInv(s);
    ReachableCrashInv(s);
    CallerProgress(s, c);
  }

  /** And a run that goes on for as long as the pool can move has answered every caller. */
  lemma EveryCallerFinishes(s: Pool, actions: seq<Action>)
    requires Reachable(s) && s.mode.AsIntended? && |s.workers| > 0 && Runs(s, actions)
    requires forall i :: 0 <= i < |actions| ==> !actions[i].Arrive?
    ensures InternalSteps(actions) <= Work(s)
    ensures !CanProgress(After(s, actions)) ==>
              forall c :: c in After(s, actions).callers ==> After(s, actions).callers[c].Done?
  {
    ReachableInv(s);
    ReachableCrashInv(s);
    CrashAlways(s, actions);
    RunsDry(s, actions);
  }
}
