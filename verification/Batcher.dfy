/** The batch processor: requests collect under a lock until the batch is full or a timer's
    callback gets the lock; a callback may be stale, belonging to an earlier batch. */
module Batcher {
  import opened Wrappers

  type RequestId = nat

  type Response = nat

  type TimerId = nat

  /** The processor between lock sections.  `armed` are the runtime's running timers, `waiting`
      the callbacks of fired ones that do not have the lock yet; `submitted` and `handled` are
      the requests received and those given to the handler. */
  datatype State = State(
    batchSize: nat,
    batch: seq<RequestId>,
    timer: Option<TimerId>,
    armed: set<TimerId>, waiting: set<TimerId>, nextTimer: TimerId,
    submitted: seq<RequestId>, handled: multiset<RequestId>)

  function Initial(batchSize: nat): State {
    State(batchSize, [], None, {}, {}, 0, [], multiset{})
  }

  /** processBatchLocked: give the whole batch to the handler and stop the current timer. */
  function Processed(s: State): State {
    if s.batch == [] then s else
    s.(batch := [], timer := None,
       armed := if s.timer.Some? then s.armed - {s.timer.value} else s.armed,
       handled := s.handled + multiset(s.batch))
  }

  function StartTimer(s: State): State {
    s.(timer := Some(s.nextTimer), armed := s.armed + {s.nextTimer}, nextTimer := s.nextTimer + 1)
  }

  /** The locked section of HandleRequest. */
  function Submitted(s: State, r: RequestId): State {
    var s' := s.(batch := s.batch + [r], submitted := s.submitted + [r]);
    if |s'.batch| >= s.batchSize then Processed(s')
    else if s.timer == None then StartTimer(s')
    else s'
  }

  class BatchProcessor {
    const batchSize: nat
    const handler: RequestId -> Response
    var batch: seq<RequestId>
    var timer: Option<TimerId>
    var armed: set<TimerId>
    var waiting: set<TimerId>
    var nextTimer: TimerId
    ghost var submitted: seq<RequestId>
    ghost var handled: multiset<RequestId>
    var replies: map<RequestId, Response>

    ghost function View(): State
      reads this
    {
      State(batchSize, batch, timer, armed, waiting, nextTimer, submitted, handled)
    }

    /** Whoever has been handled has the handler's answer to its own request in its slot. */
    ghost predicate Answered()
      reads `handled, `replies
    {
      (forall r :: r in handled <==> r in replies) && forall r :: r in replies ==> replies[r] == handler(r)
    }

    constructor (batchSize: nat, handler: RequestId -> Response)
      ensures View() == Initial(batchSize) && Answered() && this.handler == handler
    {
      this.batchSize := batchSize;
      this.handler := handler;
      batch, timer, armed, waiting, nextTimer := [], None, {}, {}, 0;
      submitted, handled, replies := [], multiset{}, map[];
    }

    method HandleRequest(r: RequestId)
      requires Answered()
      modifies this
      ensures View() == Submitted(old(View()), r) && Answered()
    {
      batch := batch + [r];
      submitted := submitted + [r];
      assert View() == old(View()).(batch := old(batch) + [r], submitted := old(submitted) + [r]);
      if |batch| >= batchSize {
        ProcessBatchLocked();
      } else if timer == None {
        timer := Some(nextTimer);
        armed := armed + {nextTimer};
        nextTimer := nextTimer + 1;
      }
    }

    method ProcessBatchLocked()
      requires Answered()
      modifies this
      ensures View() == Processed(old(View())) && Answered()
    {
      if |batch| == 0 {
        return;
      }
      if timer.Some? {
        armed := armed - {timer.value};
        timer := None;
      }
      var items := batch;
      batch := [];
      ghost var before := View();
      RunAll(items);
      assert View() == before.(handled := before.handled + multiset(items));
    }

    /** One goroutine per item; they finish in any order, all before the lock is released. */
    method RunAll(items: seq<RequestId>)
      requires Answered()
      modifies this`replies, this`handled
      ensures handled == old(handled) + multiset(items) && Answered()
    {
      var running := multiset(items);
      while running != multiset{}
        invariant handled + running == old(handled) + multiset(items)
        invariant Answered()
        decreases running
      {
        var r :| r in running;
        replies := replies[r := handler(r)];
        handled := handled + multiset{r};
        running := running - multiset{r};
      }
    }

    /** A running timer fires: its callback now waits for the lock. */
    method Fire(k: TimerId)
      requires k in armed
      modifies this`armed, this`waiting
      ensures View() == Fired(old(View()), k)
    {
      armed := armed - {k};
      waiting := waiting + {k};
    }

    /** The callback of a fired timer gets the lock. */
    method Callback(k: TimerId)
      requires k in waiting && Answered()
      modifies this
      ensures View() == CalledBack(old(View()), k) && Answered()
    {
      waiting := waiting - {k};
      ProcessBatchLocked();
    }
  }

  function Fired(s: State, k: TimerId): State {
    s.(armed := s.armed - {k}, waiting := s.waiting + {k})
  }

  function CalledBack(s: State, k: TimerId): State {
    Processed(s.(waiting := s.waiting - {k}))
  }

  // ---------------------------------------------------------------------------------------
  // Runs
  // ---------------------------------------------------------------------------------------

  datatype Event = Request(r: RequestId) | TimerFires(k: TimerId) | CallbackRuns(k: TimerId)

  /** Requests are distinct; the runtime fires running timers, and runs fired callbacks, once. */
  predicate Enabled(s: State, e: Event) {
    match e
    case Request(r) => r !in s.submitted
    case TimerFires(k) => k in s.armed
    case CallbackRuns(k) => k in s.waiting
  }

  function Apply(s: State, e: Event): State
    requires Enabled(s, e)
  {
    match e
    case Request(r) => Submitted(s, r)
    case TimerFires(k) => Fired(s, k)
    case CallbackRuns(k) => CalledBack(s, k)
  }

  ghost predicate Runs(s: State, events: seq<Event>)
    decreases |events|
  {
    events == [] || (Enabled(s, events[0]) && Runs(Apply(s, events[0]), events[1..]))
  }

  ghost function After(s: State, events: seq<Event>): State
    requires Runs(s, events)
    decreases |events|
  {
    if events == [] then s else After(Apply(s, events[0]), events[1..])
  }

  function Limit(batchSize: nat): nat { if batchSize < 1 then 1 else batchSize }

  /** Whenever the lock is free. */
  ghost predicate Inv(s: State) {
    && |s.batch| < Limit(s.batchSize)
    && (s.batch == [] <==> s.timer == None)
    && (s.timer.Some? ==> s.timer.value in s.armed || s.timer.value in s.waiting)
    && s.armed !! s.waiting
    && (forall k :: k in s.armed || k in s.waiting ==> k < s.nextTimer)
    && s.handled + multiset(s.batch) == multiset(s.submitted)
    && (forall r :: multiset(s.submitted)[r] <= 1)
  }

  lemma ProcessedKeepsInv(s: State)
    requires s.armed !! s.waiting && forall k :: k in s.armed || k in s.waiting ==> k < s.nextTimer
    requires s.batch == [] ==> s.timer == None
    requires s.handled + multiset(s.batch) == multiset(s.submitted)
    requires forall r :: multiset(s.submitted)[r] <= 1
    ensures Inv(Processed(s)) && Processed(s).batch == []
  {}

  lemma RequestKeepsInv(s: State, r: RequestId)
    requires Inv(s) && r !in s.submitted
    ensures Inv(Submitted(s, r))
  {
    var s' := s.(batch := s.batch + [r], submitted := s.submitted + [r]);
    assert multiset(s.submitted)[r] == 0;
    assert s'.handled + multiset(s'.batch) == multiset(s'.submitted);
    if |s'.batch| >= s.batchSize {
      ProcessedKeepsInv(s');
    }
  }

  lemma StepKeepsInv(s: State, e: Event)
    requires Inv(s) && Enabled(s, e)
    ensures Inv(Apply(s, e))
  {
    match e
    case Request(r) => RequestKeepsInv(s, r);
    case TimerFires(k) =>
    case CallbackRuns(k) => CallbackKeepsInv(s, k);
  }

  lemma CallbackKeepsInv(s: State, k: TimerId)
    requires Inv(s) && k in s.waiting
    ensures Inv(CalledBack(s, k)) && CalledBack(s, k).batch == []
  {
    ProcessedKeepsInv(s.(waiting := s.waiting - {k}));
  }

  lemma {:induction false} InvAlways(s: State, events: seq<Event>)
    requires Inv(s) && Runs(s, events)
    ensures Inv(After(s, events))
    decreases |events|
  {
    if events != [] {
      StepKeepsInv(s, events[0]);
      InvAlways(Apply(s, events[0]), events[1..]);
    }
  }

  ghost predicate Reachable(s: State) {
    exists batchSize: nat, events :: Runs(Initial(batchSize), events) && s == After(Initial(batchSize), events)
  }

  lemma ReachableInv(s: State)
    requires Reachable(s)
    ensures Inv(s)
  {
    var batchSize: nat, events :| Runs(Initial(batchSize), events) && s == After(Initial(batchSize), events);
    InvAlways(Initial(batchSize), events);
  }

  /** Whenever the lock is free the batch is short of full and is non-empty exactly when a timer
      is set, and that timer is running or its callback is waiting for the lock. */
  lemma LockFreeInvariant(s: State)
    requires Reachable(s)
    ensures s.batchSize >= 1 ==> |s.batch| < s.batchSize
    ensures s.batch != [] <==> s.timer.Some?
    ensures s.timer.Some? ==> s.timer.value in s.armed || s.timer.value in s.waiting
  {
    ReachableInv(s);
  }

  /** Stale callbacks or not, each submitted request is handled at most once, and the ones not
      handled yet are exactly those in the batch. */
  lemma HandledAtMostOnce(s: State, r: RequestId)
    requires Reachable(s)
    ensures s.handled[r] <= 1
    ensures r in s.submitted <==> r in s.handled || r in s.batch
    ensures !(r in s.handled && r in s.batch)
  {
    ReachableInv(s);
    assert (s.handled + multiset(s.batch))[r] == multiset(s.submitted)[r];
  }

  /** The steps by which the current timer still gets the batch processed. */
  ghost function Rescue(s: State): seq<Event> {
    if s.timer == None then []
    else if s.timer.value in s.armed then [TimerFires(s.timer.value), CallbackRuns(s.timer.value)]
    else [CallbackRuns(s.timer.value)]
  }

  /** Nobody is stranded: with no further request, the timer alone gets everyone handled. */
  lemma NobodyStranded(s: State)
    requires Reachable(s)
    ensures Runs(s, Rescue(s))
    ensures After(s, Rescue(s)).handled == multiset(s.submitted) && After(s, Rescue(s)).batch == []
  {
    ReachableInv(s);
    if s.timer.Some? {
      var k := s.timer.value;
      if k in s.armed {
        StepKeepsInv(s, TimerFires(k));
        OneCallback(Fired(s, k), k);
        assert Rescue(s)[1..] == [CallbackRuns(k)];
      } else {
        OneCallback(s, k);
      }
    }
  }

  lemma OneCallback(s: State, k: TimerId)
    requires Inv(s) && k in s.waiting
    ensures Runs(s, [CallbackRuns(k)])
    ensures After(s, [CallbackRuns(k)]) == CalledBack(s, k)
    ensures CalledBack(s, k).batch == [] && CalledBack(s, k).handled == multiset(s.submitted)
  {
    CallbackKeepsInv(s, k);
    assert [CallbackRuns(k)][1..] == [];
  }

  /** Any callback, even a stale one, leaves nothing waiting. */
  lemma EveryCallbackEmptiesTheBatch(s: State, k: TimerId)
    requires Reachable(s) && k in s.waiting
    ensures CalledBack(s, k).batch == [] && CalledBack(s, k).handled == multiset(s.submitted)
  {
    ReachableInv(s);
    OneCallback(s, k);
  }

  /** A request that leaves the batch short of full handles nobody and leaves a timer set, a new one
      only if none was; one that fills it handles everybody and stops the timer. */
  lemma RequestSpelledOut(s: State, r: RequestId)
    requires Inv(s) && r !in s.submitted
    ensures var s' := Submitted(s, r);
            && s'.submitted == s.submitted + [r]
            && (|s.batch| + 1 < s.batchSize ==>
                  && s'.handled == s.handled && s'.batch == s.batch + [r] && s'.timer.Some?
                  && (s.timer.Some? ==> s'.timer == s.timer && s'.armed == s.armed)
                  && (s.timer == None ==> s'.timer.value !in s.armed && s'.armed == s.armed + {s'.timer.value}))
            && (|s.batch| + 1 >= s.batchSize ==>
                  && s'.handled == multiset(s'.submitted) && s'.batch == [] && s'.timer == None
                  && (s.timer.Some? ==> s.timer.value !in s'.armed) && s'.armed <= s.armed)
  {
    RequestKeepsInv(s, r);
    assert multiset(s.submitted + [r]) == multiset(s.submitted) + multiset{r};
  }

  /** A callback that gets the lock handles whatever is waiting, and only then leaves no timer. */
  lemma CallbackSpelledOut(s: State, k: TimerId)
    requires Inv(s) && k in s.waiting
    ensures var s' := CalledBack(s, k);
            && s'.waiting == s.waiting - {k} && s'.submitted == s.submitted
            && s'.handled == s.handled + multiset(s.batch) && s'.batch == [] && s'.timer == None
  {}
}
