/** The fixed-size concurrent request handler as interleaved atomic steps: callers of
    HandleRequest, a bounded queue, worker goroutines, one-shot reply slots, Shutdown. */
module WorkerPool {
  import opened Wrappers

  type CallId = nat

  /** What the request handler returned, response or error, by identity. */
  type Response = nat

  datatype Outcome = Rejected | Reply(response: Response) | ContextError | Canceled

  /** Where a caller is in HandleRequest. */
  datatype Phase =
    | Entered                    // totalRequests incremented, capacity not yet checked
    | Refused                    // check failed, rejectedRequests not yet incremented
    | Passed                     // check passed, activeRequests not yet incremented
    | Active                     // at the first select, submitting the work item
    | Waiting                    // at the second select, waiting for the reply
    | Returning(out: Outcome)    // about to run the deferred decrement
    | Done(outcome: Outcome)

  datatype Worker =
    | Idle
    | Handling(call: CallId)
    | Sending(item: CallId, result: Response)
    | Clearing(item: CallId)     // item finished; about to run the deferred activeWork.Store(nil)
    | Exited

  /** What clearing activeWork does.  As written it stores nil in an atomic.Value, which always
      panics, and nothing recovers, so the process ends.  As intended it just clears the field. */
  datatype Mode = AsWritten | AsIntended

  /** The shared state, with the histories submitted, started, finished, written and results. */
  datatype Pool = Pool(
    mode: Mode, crashed: bool,
    maxQueueSize: nat,
    callers: map<CallId, Phase>,
    canceled: set<CallId>,
    queue: seq<CallId>,
    slots: map<CallId, Response>,
    workers: seq<Worker>,
    total: int, rejected: int, active: int, wg: int,
    shutdown: bool, nilReturned: bool,
    submitted: seq<CallId>, started: seq<CallId>, finished: set<CallId>, written: seq<CallId>,
    results: map<CallId, Response>)

  function NewPool(mode: Mode, numWorkers: nat, maxQueueSize: nat): Pool {
    Pool(mode, false, maxQueueSize, map[], {}, [], map[], seq(numWorkers, _ => Idle), 0, 0, 0, numWorkers,
         false, false, [], [], {}, [], map[])
  }

  datatype Action =
    | Arrive(c: CallId)
    | Check(c: CallId)
    | CountRejected(c: CallId)
    | Activate(c: CallId)
    | Submit(c: CallId)
    | Receive(c: CallId)
    | SeeContextDone(c: CallId)
    | SeeShutdown(c: CallId)
    | Leave(c: CallId)
    | CancelContext(c: CallId)
    | Take(w: nat)
    | HandlerReturns(w: nat, r: Response)
    | Send(w: nat)
    | Drop(w: nat)
    | Clear(w: nat)
    | Exit(w: nat)
    | Shutdown
    | ShutdownReturnsNil

  predicate AtSelect(s: Pool, c: CallId) {
    c in s.callers && (s.callers[c] == Active || s.callers[c] == Waiting)
  }

  predicate Enabled(s: Pool, a: Action) {
    !s.crashed &&
    match a
    case Arrive(c) => c !in s.callers
    case Check(c) => c in s.callers && s.callers[c] == Entered
    case CountRejected(c) => c in s.callers && s.callers[c] == Refused
    case Activate(c) => c in s.callers && s.callers[c] == Passed
    case Submit(c) => c in s.callers && s.callers[c] == Active && |s.queue| < s.maxQueueSize
    case Receive(c) => c in s.callers && s.callers[c] == Waiting && c in s.slots
    case SeeContextDone(c) => AtSelect(s, c) && c in s.canceled
    case SeeShutdown(c) => AtSelect(s, c) && s.shutdown
    case Leave(c) => c in s.callers && s.callers[c].Returning?
    case CancelContext(c) => true
    case Take(w) => w < |s.workers| && s.workers[w] == Idle && s.queue != []
    case HandlerReturns(w, _) => w < |s.workers| && s.workers[w].Handling?
    case Send(w) => w < |s.workers| && s.workers[w].Sending? && s.workers[w].item !in s.slots
    case Drop(w) => w < |s.workers| && s.workers[w].Sending? && (s.workers[w].item in s.canceled || s.shutdown)
    case Clear(w) => w < |s.workers| && s.workers[w].Clearing?
    case Exit(w) => w < |s.workers| && s.workers[w] == Idle && s.shutdown
    case Shutdown => true
    case ShutdownReturnsNil => s.shutdown && s.wg == 0
  }

  function Move(s: Pool, c: CallId, p: Phase): Pool {
    s.(callers := s.callers[c := p])
  }

  function Apply(s: Pool, a: Action): Pool
    requires Enabled(s, a)
  {
    match a
    case Arrive(c) => Move(s, c, Entered).(total := s.total + 1)
    case Check(c) => Move(s, c, if s.active >= s.maxQueueSize then Refused else Passed)
    case CountRejected(c) => Move(s, c, Done(Rejected)).(rejected := s.rejected + 1)
    case Activate(c) => Move(s, c, Active).(active := s.active + 1)
    case Submit(c) => Move(s, c, Waiting).(queue := s.queue + [c], submitted := s.submitted + [c])
    case Receive(c) => Move(s, c, Returning(Reply(s.slots[c]))).(slots := s.slots - {c})
    case SeeContextDone(c) => Move(s, c, Returning(ContextError))
    case SeeShutdown(c) => Move(s, c, Returning(Canceled))
    case Leave(c) => Move(s, c, Done(s.callers[c].out)).(active := s.active - 1)
    case CancelContext(c) => s.(canceled := s.canceled + {c})
    case Take(w) =>
      s.(workers := s.workers[w := Handling(s.queue[0])], queue := s.queue[1..],
         started := s.started + [s.queue[0]])
    case HandlerReturns(w, r) =>
      var c := s.workers[w].call;
      s.(workers := s.workers[w := Sending(c, r)], results := s.results[c := r])
    case Send(w) =>
      var c := s.workers[w].item;
      s.(workers := s.workers[w := Clearing(c)], slots := s.slots[c := s.workers[w].result],
         finished := s.finished + {c}, written := s.written + [c])
    case Drop(w) =>
      var c := s.workers[w].item;
      s.(workers := s.workers[w := Clearing(c)], finished := s.finished + {c})
    case Clear(w) =>
      var next := if s.mode.AsWritten? then s.workers[w] else Idle;
      s.(workers := s.workers[w := next], crashed := s.mode.AsWritten?)
    case Exit(w) => s.(workers := s.workers[w := Exited], wg := s.wg - 1)
    case Shutdown => s.(shutdown := true)
    case ShutdownReturnsNil => s.(nilReturned := true)
  }

  ghost predicate Runs(s: Pool, actions: seq<Action>)
    decreases |actions|
  {
    actions == [] || (Enabled(s, actions[0]) && Runs(Apply(s, actions[0]), actions[1..]))
  }

  ghost function After(s: Pool, actions: seq<Action>): Pool
    requires Runs(s, actions)
    decreases |actions|
  {
    if actions == [] then s else After(Apply(s, actions[0]), actions[1..])
  }

  lemma OneStep(s: Pool, a: Action)
    requires Enabled(s, a)
    ensures Runs(s, [a]) && After(s, [a]) == Apply(s, a)
  {
    assert [a][1..] == [];
  }

  lemma OneMore(s: Pool, a: Action, actions: seq<Action>)
    requires Enabled(s, a) && Runs(Apply(s, a), actions)
    ensures Runs(s, [a] + actions) && After(s, [a] + actions) == After(Apply(s, a), actions)
  {
    assert ([a] + actions)[1..] == actions;
  }

  lemma {:induction false} Concat(s: Pool, first: seq<Action>, second: seq<Action>)
    requires Runs(s, first) && Runs(After(s, first), second)
    ensures Runs(s, first + second) && After(s, first + second) == After(After(s, first), second)
    decreases |first|
  {
    if first == [] {
      assert first + second == second;
    } else {
      assert (first + second)[1..] == first[1..] + second;
      Concat(Apply(s, first[0]), first[1..], second);
    }
  }

  // ---------------------------------------------------------------------------------------
  // Where work items are
  // ---------------------------------------------------------------------------------------

  ghost predicate NoDuplicates(s: seq<CallId>) {
    forall i, j :: 0 <= i < j < |s| ==> s[i] != s[j]
  }

  /** The work item worker w is busy with. */
  predicate Holds(s: Pool, w: nat, c: CallId) {
    w < |s.workers| && (s.workers[w] == Handling(c) || (s.workers[w].Sending? && s.workers[w].item == c))
  }

  ghost predicate InHands(s: Pool, c: CallId) {
    exists w :: Holds(s, w, c)
  }

  predicate PastSubmission(p: Phase) {
    p.Waiting? || p.Returning? || (p.Done? && p.outcome != Rejected)
  }

  /** The queue is first in, first out: what was submitted is what was started, then the queue. */
  ghost predicate QueueInv(s: Pool) {
    && NoDuplicates(s.submitted)
    && s.submitted == s.started + s.queue
    && |s.queue| <= s.maxQueueSize
    && (forall c :: c in s.submitted ==>
          c in s.callers && PastSubmission(s.callers[c]))
    && (forall c :: c in s.callers && s.callers[c] == Waiting ==> c in s.submitted)
  }

  /** A started item is in exactly one worker's hands until it is finished. */
  ghost predicate HandsInv(s: Pool) {
    && (forall w, c :: Holds(s, w, c) ==> c in s.started && c !in s.finished)
    && (forall v, w, c :: Holds(s, v, c) && Holds(s, w, c) ==> v == w)
    && (forall c :: c in s.finished ==> c in s.started)
    && (forall c :: c in s.started ==> c in s.finished || InHands(s, c))
  }

  /** A reply slot is written at most once, and only by the worker that finishes the item. */
  ghost predicate WrittenInv(s: Pool) {
    && NoDuplicates(s.written)
    && (forall c :: c in s.written ==> c in s.finished)
    && (forall c :: c in s.slots ==> c in s.written)
  }

  /** The result of a call is recorded when its handler returns, and kept. */
  ghost predicate ResultsInv(s: Pool) {
    && (forall c :: c in s.results ==> c in s.started)
    && (forall w :: 0 <= w < |s.workers| && s.workers[w].Handling? ==> s.workers[w].call !in s.results)
    && (forall w :: 0 <= w < |s.workers| && s.workers[w].Sending? ==>
          IsResult(s.results, s.workers[w].item, s.workers[w].result))
  }

  /** What is in a slot, and what a caller has received, is that call's own result. */
  ghost predicate ReplyInv(s: Pool) {
    && (forall c :: c in s.slots ==> IsResult(s.results, c, s.slots[c]))
    && (forall c :: c in s.callers && GotReply(s.callers[c]).Some? ==>
          IsResult(s.results, c, GotReply(s.callers[c]).value) && c in s.written)
  }

  predicate IsResult(results: map<CallId, Response>, c: CallId, r: Response) {
    c in results && results[c] == r
  }

  function GotReply(p: Phase): Option<Response> {
    match p
    case Returning(Reply(r)) => Some(r)
    case Done(Reply(r)) => Some(r)
    case _ => None
  }

  function OutcomeOf(p: Phase): Option<Outcome> {
    match p
    case Returning(o) => Some(o)
    case Done(o) => Some(o)
    case _ => None
  }

  /** Errors are returned for their reasons only. */
  ghost predicate OutcomeInv(s: Pool) {
    forall c :: c in s.callers && OutcomeOf(s.callers[c]).Some? ==> Due(s, c, OutcomeOf(s.callers[c]).value)
  }

  predicate Due(s: Pool, c: CallId, o: Outcome) {
    match o
    case ContextError => c in s.canceled
    case Canceled => s.shutdown
    case _ => true
  }

  /** A waiting caller's finished item has left it something to return on. */
  ghost predicate WaitingInv(s: Pool) {
    forall c :: c in s.callers && s.callers[c] == Waiting && c in s.finished ==>
      c in s.slots || c in s.canceled || s.shutdown
  }

  function Running(workers: seq<Worker>): nat {
    if workers == [] then 0 else (if workers[0] == Exited then 0 else 1) + Running(workers[1..])
  }

  /** The wait group counts the running workers; a nil Shutdown has seen them all exit. */
  ghost predicate WaitGroupInv(s: Pool) {
    && s.wg == Running(s.workers)
    && (forall w :: 0 <= w < |s.workers| && s.workers[w] == Exited ==> s.shutdown)
    && (s.nilReturned ==> s.wg == 0)
  }

  // ---------------------------------------------------------------------------------------
  // Accounting
  // ---------------------------------------------------------------------------------------

  datatype Kind = Between | WasRejected | Inside | Returned

  function KindOf(p: Phase): Kind {
    match p
    case Entered => Between
    case Refused => Between
    case Passed => Between
    case Active => Inside
    case Waiting => Inside
    case Returning(_) => Inside
    case Done(o) => if o == Rejected then WasRejected else Returned
  }

  function OfKind(callers: map<CallId, Phase>, k: Kind): set<CallId> {
    set c | c in callers && KindOf(callers[c]) == k
  }

  ghost predicate CountersInv(s: Pool) {
    && s.total == |s.callers|
    && s.rejected == |OfKind(s.callers, WasRejected)|
    && s.active == |OfKind(s.callers, Inside)|
    && (forall c :: c in s.callers && s.callers[c].Returning? ==> s.callers[c].out != Rejected)
    && (forall c :: c in s.callers && (s.callers[c] == Passed || s.callers[c] == Active) ==> s.maxQueueSize > 0)
  }

  lemma CountUpdate(callers: map<CallId, Phase>, c: CallId, p: Phase, k: Kind)
    ensures |OfKind(callers[c := p], k)| ==
            |OfKind(callers, k)|
            - (if c in callers && KindOf(callers[c]) == k then 1 else 0)
            + (if KindOf(p) == k then 1 else 0)
  {
    var rest := OfKind(callers, k) - {c};
    assert OfKind(callers[c := p], k) == if KindOf(p) == k then rest + {c} else rest;
  }

  lemma SizeUpdate(callers: map<CallId, Phase>, c: CallId, p: Phase)
    ensures |callers[c := p]| == |callers| + if c in callers then 0 else 1
  {
    assert callers[c := p].Keys == callers.Keys + {c};
    assert |callers[c := p]| == |callers[c := p].Keys| && |callers| == |callers.Keys|;
  }

  lemma KindsPartition(callers: map<CallId, Phase>)
    ensures |callers| == |OfKind(callers, Between)| + |OfKind(callers, WasRejected)|
                         + |OfKind(callers, Inside)| + |OfKind(callers, Returned)|
  {
    var b, r, i, d := OfKind(callers, Between), OfKind(callers, WasRejected),
                      OfKind(callers, Inside), OfKind(callers, Returned);
    assert callers.Keys == b + r + i + d;
    assert |b + r| == |b| + |r| && |b + r + i| == |b + r| + |i|;
  }

  // ---------------------------------------------------------------------------------------
  // Every step keeps the invariant
  // ---------------------------------------------------------------------------------------

  ghost predicate Inv(s: Pool) {
    && QueueInv(s) && HandsInv(s) && WrittenInv(s) && ResultsInv(s) && ReplyInv(s)
    && OutcomeInv(s) && WaitingInv(s) && WaitGroupInv(s) && CountersInv(s)
  }

  predicate OfCaller(a: Action) {
    a.Arrive? || a.Check? || a.CountRejected? || a.Activate? || a.Submit? || a.Receive? ||
    a.SeeContextDone? || a.SeeShutdown? || a.Leave?
  }

  predicate OfWorker(a: Action) {
    a.Take? || a.HandlerReturns? || a.Send? || a.Drop? || a.Clear? || a.Exit?
  }

  /** What the steps leave alone. */
  lemma CallerFrame(s: Pool, a: Action)
    requires Enabled(s, a) && !OfWorker(a)
    ensures var s' := Apply(s, a);
            && s'.workers == s.workers && s'.started == s.started && s'.finished == s.finished
            && s'.written == s.written && s'.results == s.results && s'.wg == s.wg && s'.crashed == s.crashed
            && s'.mode == s.mode && s'.maxQueueSize == s.maxQueueSize
    ensures !OfCaller(a) ==>
              var s' := Apply(s, a);
              s'.callers == s.callers && s'.queue == s.queue && s'.submitted == s.submitted && s'.slots == s.slots
  {}

  lemma WorkerFrame(s: Pool, a: Action)
    requires Enabled(s, a) && OfWorker(a)
    ensures var s' := Apply(s, a);
            && s'.callers == s.callers && s'.submitted == s.submitted && s'.canceled == s.canceled
            && s'.shutdown == s.shutdown && s'.mode == s.mode && s'.maxQueueSize == s.maxQueueSize
            && a.w < |s.workers| && s'.workers == s.workers[a.w := s'.workers[a.w]]
    ensures !a.Take? ==> Apply(s, a).queue == s.queue && Apply(s, a).started == s.started
    ensures a.Clear? || a.Exit? ==>
              var s' := Apply(s, a);
              s'.finished == s.finished && s'.written == s.written && s'.slots == s.slots && s'.results == s.results
  {}

  lemma AppendKeepsDistinct(s: seq<CallId>, c: CallId)
    requires NoDuplicates(s) && c !in s
    ensures NoDuplicates(s + [c])
  {}

  lemma HeadNotStarted(s: Pool)
    requires QueueInv(s) && s.queue != []
    ensures s.queue[0] !in s.started && s.queue[0] in s.submitted
  {
    assert s.submitted[|s.started|] == s.queue[0];
    assert forall i :: 0 <= i < |s.started| ==> s.submitted[i] == s.started[i];
  }

  lemma QueueStep(s: Pool, a: Action)
    requires QueueInv(s) && CountersInv(s) && Enabled(s, a)
    ensures QueueInv(Apply(s, a))
  {
    if a.Submit? {
      AppendKeepsDistinct(s.submitted, a.c);
      assert s.submitted + [a.c] == s.started + (s.queue + [a.c]);
    } else if a.Take? {
      assert s.started + s.queue == s.started + [s.queue[0]] + s.queue[1..];
    } else if OfCaller(a) {
      QueueCallerStep(s, a);
    } else {
      QueueOtherStep(s, a);
    }
  }

  lemma QueueOtherStep(s: Pool, a: Action)
    requires QueueInv(s) && Enabled(s, a) && !OfCaller(a) && !a.Take?
    ensures QueueInv(Apply(s, a))
  {
    if OfWorker(a) {
      WorkerFrame(s, a);
    } else {
      CallerFrame(s, a);
    }
  }

  lemma QueueCallerStep(s: Pool, a: Action)
    requires QueueInv(s) && CountersInv(s) && Enabled(s, a) && OfCaller(a) && !a.Submit?
    ensures QueueInv(Apply(s, a))
  {
    var s' := Apply(s, a);
    assert s'.callers == s.callers[a.c := s'.callers[a.c]] && s'.callers[a.c] != Waiting;
    assert a.c in s.submitted ==> PastSubmission(s'.callers[a.c]);
  }

  lemma HandsOtherStep(s: Pool, a: Action)
    requires HandsInv(s) && Enabled(s, a) && !OfWorker(a)
    ensures HandsInv(Apply(s, a))
  {
    var s' := Apply(s, a);
    assert s'.workers == s.workers && s'.started == s.started && s'.finished == s.finished;
    assert forall w, c :: Holds(s', w, c) <==> Holds(s, w, c);
    forall c | c in s'.started && c !in s'.finished ensures InHands(s', c) {
      assert InHands(s, c);
      var v :| Holds(s, v, c);
      assert Holds(s', v, c);
    }
  }

  /** Worker w, and only worker w, has changed what it holds. */
  lemma StillInHands(s: Pool, s': Pool, w: nat, c: CallId)
    requires w < |s.workers| == |s'.workers| && InHands(s, c) && !Holds(s, w, c)
    requires forall v :: 0 <= v < |s.workers| && v != w ==> s'.workers[v] == s.workers[v]
    ensures InHands(s', c)
  {
    var v :| Holds(s, v, c);
    assert Holds(s', v, c);
  }

  lemma TakeStep(s: Pool, w: nat)
    requires QueueInv(s) && HandsInv(s) && Enabled(s, Take(w))
    ensures HandsInv(Apply(s, Take(w)))
  {
    var s' := Apply(s, Take(w));
    HeadNotStarted(s);
    assert forall v, c :: v != w ==> (Holds(s', v, c) <==> Holds(s, v, c));
    assert s.queue[0] !in s.finished;
    forall c | c in s'.started && c !in s'.finished ensures InHands(s', c) {
      if c in s.started {
        StillInHands(s, s', w, c);
      } else {
        assert Holds(s', w, c);
      }
    }
  }

  /** Every other worker step starts nothing. */
  lemma HandsWorkerStep(s: Pool, a: Action)
    requires HandsInv(s) && Enabled(s, a) && OfWorker(a) && !a.Take?
    ensures HandsInv(Apply(s, a))
  {
    var s', w := Apply(s, a), a.w;
    assert forall v, c :: v != w ==> (Holds(s', v, c) <==> Holds(s, v, c));
    assert forall c :: Holds(s', w, c) ==> Holds(s, w, c);
    assert forall c :: c in s'.finished ==> c in s.finished || Holds(s, w, c);
    forall c | c in s'.started && c !in s'.finished ensures InHands(s', c) {
      if Holds(s, w, c) {
        assert Holds(s', w, c);
      } else {
        StillInHands(s, s', w, c);
      }
    }
  }

  lemma HandsStep(s: Pool, a: Action)
    requires QueueInv(s) && HandsInv(s) && Enabled(s, a)
    ensures HandsInv(Apply(s, a))
  {
    if a.Take? {
      TakeStep(s, a.w);
    } else if OfWorker(a) {
      HandsWorkerStep(s, a);
    } else {
      HandsOtherStep(s, a);
    }
  }

  lemma WrittenStep(s: Pool, a: Action)
    requires HandsInv(s) && WrittenInv(s) && Enabled(s, a)
    ensures WrittenInv(Apply(s, a))
  {
    if a.Send? {
      assert Holds(s, a.w, s.workers[a.w].item);
      AppendKeepsDistinct(s.written, s.workers[a.w].item);
    }
  }

  lemma HandlerReturnsStep(s: Pool, w: nat, r: Response)
    requires HandsInv(s) && ResultsInv(s) && Enabled(s, HandlerReturns(w, r))
    ensures ResultsInv(Apply(s, HandlerReturns(w, r)))
  {
    var c := s.workers[w].call;
    assert Holds(s, w, c);
    forall v | 0 <= v < |s.workers| && v != w && s.workers[v].Handling? ensures s.workers[v].call != c {
      assert Holds(s, v, s.workers[v].call);
    }
  }

  lemma ResultsStep(s: Pool, a: Action)
    requires QueueInv(s) && HandsInv(s) && ResultsInv(s) && Enabled(s, a)
    ensures ResultsInv(Apply(s, a))
  {
    if a.HandlerReturns? {
      HandlerReturnsStep(s, a.w, a.r);
    } else if a.Take? {
      TakeKeepsResults(s, a.w);
    } else if OfWorker(a) {
      ReleaseKeepsResults(s, a);
    } else {
      var s' := Apply(s, a);
      assert s'.workers == s.workers && s'.results == s.results && s'.started == s.started;
    }
  }

  lemma TakeKeepsResults(s: Pool, w: nat)
    requires QueueInv(s) && ResultsInv(s) && Enabled(s, Take(w))
    ensures ResultsInv(Apply(s, Take(w)))
  {
    HeadNotStarted(s);
  }

  lemma ReleaseKeepsResults(s: Pool, a: Action)
    requires ResultsInv(s) && Enabled(s, a) && (a.Send? || a.Drop? || a.Clear? || a.Exit?)
    ensures ResultsInv(Apply(s, a))
  {
    var s' := Apply(s, a);
    assert s'.results == s.results && s'.started == s.started && |s'.workers| == |s.workers|;
    assert !s'.workers[a.w].Handling? || s'.workers == s.workers;
    assert forall v :: 0 <= v < |s.workers| && v != a.w ==> s'.workers[v] == s.workers[v];
  }

  lemma ReplyStep(s: Pool, a: Action)
    requires WrittenInv(s) && ResultsInv(s) && ReplyInv(s) && Enabled(s, a)
    ensures ReplyInv(Apply(s, a))
  {
    if OfCaller(a) {
      ReplyCallerStep(s, a);
    } else if a.HandlerReturns? {
      assert s.workers[a.w].call !in s.results;
    }
  }

  lemma ReplyCallerStep(s: Pool, a: Action)
    requires WrittenInv(s) && ReplyInv(s) && Enabled(s, a) && OfCaller(a)
    ensures ReplyInv(Apply(s, a))
  {
    var s' := Apply(s, a);
    assert s'.results == s.results && s'.callers == s.callers[a.c := s'.callers[a.c]];
    var r := GotReply(s'.callers[a.c]);
    assert r.Some? ==> IsResult(s.results, a.c, r.value);
  }

  lemma OutcomeStep(s: Pool, a: Action)
    requires OutcomeInv(s) && Enabled(s, a)
    ensures OutcomeInv(Apply(s, a))
  {
    var s' := Apply(s, a);
    if OfCaller(a) {
      OutcomeCallerStep(s, a);
    } else if OfWorker(a) {
      WorkerFrame(s, a);
    } else {
      CallerFrame(s, a);
    }
  }

  lemma OutcomeCallerStep(s: Pool, a: Action)
    requires OutcomeInv(s) && Enabled(s, a) && OfCaller(a)
    ensures OutcomeInv(Apply(s, a))
  {
    var s' := Apply(s, a);
    assert s'.canceled == s.canceled && s'.shutdown == s.shutdown;
    assert s'.callers == s.callers[a.c := s'.callers[a.c]];
    var o := OutcomeOf(s'.callers[a.c]);
    assert o.Some? ==> Due(s, a.c, o.value);
  }

  lemma WaitingStep(s: Pool, a: Action)
    requires QueueInv(s) && HandsInv(s) && WaitingInv(s) && Enabled(s, a)
    ensures WaitingInv(Apply(s, a))
  {
    if a.Submit? {
      assert a.c !in s.submitted && a.c !in s.started;
    }
  }

  lemma {:induction false} RunningUpdate(workers: seq<Worker>, w: nat, x: Worker)
    requires w < |workers|
    ensures Running(workers[w := x]) ==
            Running(workers) - (if workers[w] == Exited then 0 else 1) + (if x == Exited then 0 else 1)
  {
    if w == 0 {
      assert workers[0 := x][1..] == workers[1..];
    } else {
      assert workers[w := x][1..] == workers[1..][w - 1 := x];
      RunningUpdate(workers[1..], w - 1, x);
    }
  }

  lemma {:induction false} NoneRunning(workers: seq<Worker>)
    ensures Running(workers) == 0 <==> forall w :: 0 <= w < |workers| ==> workers[w] == Exited
  {
    if workers != [] {
      NoneRunning(workers[1..]);
      assert forall w :: 0 < w < |workers| ==> workers[w] == workers[1..][w - 1];
    }
  }

  lemma WaitGroupStep(s: Pool, a: Action)
    requires WaitGroupInv(s) && Enabled(s, a)
    ensures WaitGroupInv(Apply(s, a))
  {
    var s' := Apply(s, a);
    if OfWorker(a) {
      RunningUpdate(s.workers, a.w, s'.workers[a.w]);
      NoneRunning(s.workers);
    }
  }

  function Bit(b: bool): int { if b then 1 else 0 }

  /** How a caller's step moves it between kinds, and the counters with it. */
  lemma CountersFollow(s: Pool, a: Action)
    requires CountersInv(s) && Enabled(s, a) && OfCaller(a)
    ensures var s' := Apply(s, a);
            && a.c in s'.callers && s'.callers == s.callers[a.c := s'.callers[a.c]]
            && s'.total == s.total + Bit(a.c !in s.callers)
            && s'.rejected == s.rejected
                              + Bit(KindOf(s'.callers[a.c]) == WasRejected)
                              - Bit(a.c in s.callers && KindOf(s.callers[a.c]) == WasRejected)
            && s'.active == s.active
                            + Bit(KindOf(s'.callers[a.c]) == Inside)
                            - Bit(a.c in s.callers && KindOf(s.callers[a.c]) == Inside)
            && (s'.callers[a.c].Returning? ==> s'.callers[a.c].out != Rejected)
            && (s'.callers[a.c] == Passed || s'.callers[a.c] == Active ==> s'.maxQueueSize > 0)
            && s'.maxQueueSize == s.maxQueueSize
  {}

  lemma CountersStep(s: Pool, a: Action)
    requires CountersInv(s) && Enabled(s, a)
    ensures CountersInv(Apply(s, a))
  {
    if OfCaller(a) {
      var s' := Apply(s, a);
      CountersFollow(s, a);
      CountersMoved(s, s', a.c);
    }
  }

  lemma CountersMoved(s: Pool, s': Pool, c: CallId)
    requires CountersInv(s) && c in s'.callers && s'.callers == s.callers[c := s'.callers[c]]
    requires s'.total == s.total + Bit(c !in s.callers) && s'.maxQueueSize == s.maxQueueSize
    requires s'.rejected == s.rejected + Bit(KindOf(s'.callers[c]) == WasRejected)
                            - Bit(c in s.callers && KindOf(s.callers[c]) == WasRejected)
    requires s'.active == s.active + Bit(KindOf(s'.callers[c]) == Inside)
                          - Bit(c in s.callers && KindOf(s.callers[c]) == Inside)
    requires s'.callers[c].Returning? ==> s'.callers[c].out != Rejected
    requires s'.callers[c] == Passed || s'.callers[c] == Active ==> s'.maxQueueSize > 0
    ensures CountersInv(s')
  {
    SizeUpdate(s.callers, c, s'.callers[c]);
    CountUpdate(s.callers, c, s'.callers[c], WasRejected);
    CountUpdate(s.callers, c, s'.callers[c], Inside);
  }

  lemma InvStep(s: Pool, a: Action)
    requires Inv(s) && Enabled(s, a)
    ensures Inv(Apply(s, a))
  {
    QueueStep(s, a);
    HandsStep(s, a);
    WrittenStep(s, a);
    ResultsStep(s, a);
    ReplyStep(s, a);
    OutcomeStep(s, a);
    WaitingStep(s, a);
    WaitGroupStep(s, a);
    CountersStep(s, a);
  }

  lemma {:induction false} NewPoolRunning(n: nat)
    ensures Running(seq(n, _ => Idle)) == n
  {
    if n > 0 {
      assert seq(n, _ => Idle)[1..] == seq(n - 1, _ => Idle);
      NewPoolRunning(n - 1);
    }
  }

  lemma NewPoolInv(mode: Mode, numWorkers: nat, maxQueueSize: nat)
    ensures Inv(NewPool(mode, numWorkers, maxQueueSize))
  {
    NewPoolRunning(numWorkers);
  }

  lemma {:induction false} InvAlways(s: Pool, actions: seq<Action>)
    requires Inv(s) && Runs(s, actions)
    ensures Inv(After(s, actions))
    decreases |actions|
  {
    if actions != [] {
      InvStep(s, actions[0]);
      InvAlways(Apply(s, actions[0]), actions[1..]);
    }
  }

  // ---------------------------------------------------------------------------------------
  // What every reachable state satisfies
  // ---------------------------------------------------------------------------------------

  ghost predicate Reachable(s: Pool) {
    exists mode, numWorkers: nat, maxQueueSize: nat, actions ::
      Runs(NewPool(mode, numWorkers, maxQueueSize), actions)
      && s == After(NewPool(mode, numWorkers, maxQueueSize), actions)
  }

  lemma ReachableInv(s: Pool)
    requires Reachable(s)
    ensures Inv(s)
  {
    var mode, numWorkers: nat, maxQueueSize: nat, actions :|
      Runs(NewPool(mode, numWorkers, maxQueueSize), actions)
      && s == After(NewPool(mode, numWorkers, maxQueueSize), actions);
    NewPoolInv(mode, numWorkers, maxQueueSize);
    InvAlways(NewPool(mode, numWorkers, maxQueueSize), actions);
  }

  lemma QueuedNotStarted(s: Pool, c: CallId)
    requires QueueInv(s) && c in s.queue
    ensures c !in s.started
  {
    var j :| 0 <= j < |s.queue| && s.queue[j] == c;
    assert s.submitted[|s.started| + j] == c;
    assert forall i :: 0 <= i < |s.started| ==> s.submitted[i] == s.started[i];
  }

  /** Every submitted work item is in exactly one place: the queue, one worker's hands, or
      finished; the queue is bounded; and no item is started twice. */
  lemma ExactlyOnePlace(s: Pool, c: CallId)
    requires Reachable(s) && c in s.submitted
    ensures (c in s.queue && !InHands(s, c) && c !in s.finished)
         || (c !in s.queue && InHands(s, c) && c !in s.finished)
         || (c !in s.queue && !InHands(s, c) && c in s.finished)
    ensures forall v, w :: Holds(s, v, c) && Holds(s, w, c) ==> v == w
    ensures |s.queue| <= s.maxQueueSize && NoDuplicates(s.started)
  {
    ReachableInv(s);
    assert forall i :: 0 <= i < |s.started| ==> s.submitted[i] == s.started[i];
    if c in s.queue {
      QueuedNotStarted(s, c);
    }
    if InHands(s, c) {
      var w :| Holds(s, w, c);
    }
  }

  /** A reply slot is written at most once, so a worker about to send never blocks. */
  lemma SendNeverBlocks(s: Pool, w: nat)
    requires Reachable(s) && !s.crashed && w < |s.workers| && s.workers[w].Sending?
    ensures Enabled(s, Send(w)) && s.workers[w].item !in s.written && NoDuplicates(s.written)
  {
    ReachableInv(s);
    assert Holds(s, w, s.workers[w].item);
  }

  /** Whoever returns with a reply returns the handler's result for its own request. */
  lemma RepliesAreOwn(s: Pool, c: CallId)
    requires Reachable(s) && c in s.callers && s.callers[c].Done? && s.callers[c].outcome.Reply?
    ensures c in s.started && c in s.results && s.callers[c].outcome.response == s.results[c]
  {
    ReachableInv(s);
    assert GotReply(s.callers[c]).Some?;
  }

  /** A caller is told that its context ended only if it did, and that the handler shut down only if
      Shutdown was called. */
  lemma ErrorsAreDue(s: Pool, c: CallId)
    requires Reachable(s) && c in s.callers && s.callers[c].Done?
    ensures s.callers[c].outcome == ContextError ==> c in s.canceled
    ensures s.callers[c].outcome == Canceled ==> s.shutdown
  {
    ReachableInv(s);
    assert Due(s, c, s.callers[c].outcome);
  }

  /** totalRequests = rejected + active + returned after activation + callers between counters. */
  lemma Accounting(s: Pool)
    requires Reachable(s)
    ensures s.total == s.rejected + s.active + |OfKind(s.callers, Returned)| + |OfKind(s.callers, Between)|
    ensures s.wg == Running(s.workers)
  {
    ReachableInv(s);
    KindsPartition(s.callers);
  }

  lemma ExitedStep(s: Pool, a: Action)
    requires Enabled(s, a) && forall w :: 0 <= w < |s.workers| ==> s.workers[w] == Exited
    ensures Apply(s, a).started == s.started && Apply(s, a).workers == s.workers
  {
    assert !OfWorker(a);
  }

  lemma {:induction false} NoStartsOnceExited(s: Pool, actions: seq<Action>)
    requires Runs(s, actions) && forall w :: 0 <= w < |s.workers| ==> s.workers[w] == Exited
    ensures After(s, actions).started == s.started && After(s, actions).workers == s.workers
    decreases |actions|
  {
    if actions != [] {
      ExitedStep(s, actions[0]);
      NoStartsOnceExited(Apply(s, actions[0]), actions[1..]);
    }
  }

  /** When Shutdown has returned nil no handler call is running, and none can ever start. */
  lemma NilShutdownIsFinal(s: Pool, actions: seq<Action>)
    requires Reachable(s) && s.nilReturned && Runs(s, actions)
    ensures var later := After(s, actions);
            later.started == s.started && forall w :: 0 <= w < |later.workers| ==> later.workers[w] == Exited
  {
    ReachableInv(s);
    NoneRunning(s.workers);
    NoStartsOnceExited(s, actions);
  }
}
