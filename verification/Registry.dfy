/** The discovery registry: registration of tools, resources and prompts, and the buffered
    channels over which listeners follow it. */
module Registry {
  import opened Wrappers

  datatype Category = Tool | Resource | Prompt

  /** The three maps of the registry, as one map over category and name. */
  datatype Key = Key(category: Category, name: string)

  /** A registered item: `payload` stands for its description, `handler` for a tool's handler. */
  datatype Info = Info(payload: nat, handler: Option<nat>, available: bool, source: string, tags: seq<string>)

  datatype Event = Registered(key: Key, item: Info) | Unregistered(key: Key)

  type ChannelId = nat

  const BUFFER_SIZE := 100

  /** A listener's channel, with its history: what was received from it, how many events it
      lost, and where and with which keys registered it was opened. */
  datatype Channel = Channel(buffer: seq<Event>, received: seq<Event>, dropped: nat, closed: bool,
                             since: nat, keysAtStart: set<Key>)

  datatype State = State(items: map<Key, Info>, listeners: seq<ChannelId>,
                         channels: map<ChannelId, Channel>, log: seq<Event>)

  const EMPTY := State(map[], [], map[], [])

  function Offered(ch: Channel, e: Event): Channel {
    if |ch.buffer| < BUFFER_SIZE then ch.(buffer := ch.buffer + [e]) else ch.(dropped := ch.dropped + 1)
  }

  /** Every listener is offered the event; a full buffer drops it. */
  function Notified(s: State, e: Event): State {
    s.(channels := map c | c in s.channels :: if c in s.listeners then Offered(s.channels[c], e) else s.channels[c],
       log := s.log + [e])
  }

  function Register(s: State, key: Key, info: Info): (State, bool) {
    if key in s.items then (s, false)
    else (Notified(s.(items := s.items[key := info]), Registered(key, info)), true)
  }

  function Unregister(s: State, key: Key): (State, bool) {
    if key !in s.items then (s, false)
    else (Notified(s.(items := s.items - {key}), Unregistered(key)), true)
  }

  function UpdateAvailability(s: State, key: Key, available: bool): (State, bool) {
    if key !in s.items then (s, false)
    else (s.(items := s.items[key := s.items[key].(available := available)]), true)
  }

  function Subscribe(s: State, c: ChannelId): State {
    s.(listeners := s.listeners + [c],
       channels := s.channels[c := Channel([], [], 0, false, |s.log|, s.items.Keys)])
  }

  function Without(listeners: seq<ChannelId>, c: ChannelId): seq<ChannelId> {
    if listeners == [] then [] else
    if listeners[0] == c then listeners[1..] else [listeners[0]] + Without(listeners[1..], c)
  }

  function Unsubscribe(s: State, c: ChannelId): State {
    if c in s.listeners && c in s.channels
    then s.(listeners := Without(s.listeners, c), channels := s.channels[c := s.channels[c].(closed := true)])
    else s
  }

  function Receive(s: State, c: ChannelId): State {
    if c in s.channels && s.channels[c].buffer != [] then
      var ch := s.channels[c];
      s.(channels := s.channels[c := ch.(received := ch.received + [ch.buffer[0]], buffer := ch.buffer[1..])])
    else s
  }

  ghost predicate Distinct(ids: seq<ChannelId>) {
    forall i, j :: 0 <= i < j < |ids| ==> ids[i] != ids[j]
  }

  class RegistryObject {
    var items: map<Key, Info>
    var listeners: seq<ChannelId>
    var channels: map<ChannelId, Channel>
    var log: seq<Event>

    ghost function View(): State
      reads this
    {
      State(items, listeners, channels, log)
    }

    ghost predicate Valid()
      reads this
    {
      Distinct(listeners) && forall c <- listeners :: c in channels
    }

    constructor ()
      ensures View() == EMPTY && Valid()
    {
      items, listeners, channels, log := map[], [], map[], [];
    }

    method NotifyListeners(e: Event)
      requires Valid()
      modifies `channels, `log
      ensures Valid() && View() == Notified(old(View()), e)
    {
      for i := 0 to |listeners|
        invariant log == old(log) && channels.Keys == old(channels).Keys
        invariant forall c :: c in channels ==>
                    channels[c] == if c in listeners[..i] then Offered(old(channels)[c], e) else old(channels)[c]
      {
        var c := listeners[i];
        assert c !in listeners[..i];
        var ch := channels[c];
        if |ch.buffer| < BUFFER_SIZE {
          channels := channels[c := ch.(buffer := ch.buffer + [e])];
        } else {
          channels := channels[c := ch.(dropped := ch.dropped + 1)];
        }
      }
      assert listeners[..|listeners|] == listeners;
      assert channels == Notified(old(View()), e).channels;
      log := log + [e];
    }

    method RegisterItem(key: Key, info: Info) returns (ok: bool)
      requires Valid()
      modifies this
      ensures Valid() && (View(), ok) == Register(old(View()), key, info)
    {
      if key in items {
        return false;
      }
      items := items[key := info];
      NotifyListeners(Registered(key, info));
      return true;
    }

    method UnregisterItem(key: Key) returns (ok: bool)
      requires Valid()
      modifies this
      ensures Valid() && (View(), ok) == Unregister(old(View()), key)
    {
      if key !in items {
        return false;
      }
      items := items - {key};
      NotifyListeners(Unregistered(key));
      return true;
    }

    method SetAvailability(key: Key, available: bool) returns (ok: bool)
      requires Valid()
      modifies `items
      ensures Valid() && (View(), ok) == UpdateAvailability(old(View()), key, available)
    {
      if key !in items {
        return false;
      }
      items := items[key := items[key].(available := available)];
      return true;
    }

    /** The channel is a new one. */
    method AddListener(c: ChannelId)
      requires Valid() && c !in channels
      modifies this
      ensures Valid() && View() == Subscribe(old(View()), c)
    {
      channels := channels[c := Channel([], [], 0, false, |log|, items.Keys)];
      listeners := listeners + [c];
    }

    method RemoveListener(c: ChannelId)
      requires Valid()
      modifies this
      ensures Valid() && View() == Unsubscribe(old(View()), c)
    {
      for i := 0 to |listeners|
        invariant c !in listeners[..i] && View() == old(View())
      {
        if listeners[i] == c {
          WithoutAt(listeners, c, i);
          channels := channels[c := channels[c].(closed := true)];
          listeners := listeners[..i] + listeners[i + 1..];
          return;
        }
      }
      assert listeners[..|listeners|] == listeners;
    }
  }

  lemma {:induction false} WithoutAt(ids: seq<ChannelId>, c: ChannelId, i: nat)
    requires i < |ids| && ids[i] == c && c !in ids[..i]
    ensures Without(ids, c) == ids[..i] + ids[i + 1..]
    decreases i
  {
    if i > 0 {
      assert ids[0] in ids[..i];
      assert forall x :: x in ids[1..][..i - 1] ==> x in ids[..i];
      WithoutAt(ids[1..], c, i - 1);
    }
  }

  // ---------------------------------------------------------------------------------------
  // Listeners can replay the registry
  // ---------------------------------------------------------------------------------------

  /** The registered keys after some events. */
  function Replay(keys: set<Key>, events: seq<Event>): set<Key> {
    if events == [] then keys else
    var before := Replay(keys, events[..|events| - 1]);
    match events[|events| - 1]
    case Registered(key, _) => before + {key}
    case Unregistered(key) => before - {key}
  }

  ghost predicate Subsequence(a: seq<Event>, b: seq<Event>)
    decreases |b|
  {
    a == [] ||
    (b != [] && (Subsequence(a, b[..|b| - 1]) ||
                 (a[|a| - 1] == b[|b| - 1] && Subsequence(a[..|a| - 1], b[..|b| - 1]))))
  }

  function Seen(ch: Channel): seq<Event> {
    ch.received + ch.buffer
  }

  /** What holds of every channel ever opened. */
  ghost predicate ChannelInv(log: seq<Event>, ch: Channel) {
    && |ch.buffer| <= BUFFER_SIZE && ch.since <= |log|
    && Subsequence(Seen(ch), log[ch.since..])
  }

  /** What holds of a channel still listening. */
  ghost predicate ListenerInv(items: map<Key, Info>, log: seq<Event>, ch: Channel) {
    && ch.since <= |log| && !ch.closed
    && Replay(ch.keysAtStart, log[ch.since..]) == items.Keys
    && |Seen(ch)| + ch.dropped == |log| - ch.since
    && (ch.dropped == 0 ==> Seen(ch) == log[ch.since..])
  }

  ghost predicate Inv(s: State) {
    && Distinct(s.listeners)
    && (forall c <- s.listeners :: c in s.channels && ListenerInv(s.items, s.log, s.channels[c]))
    && (forall c :: c in s.channels ==> ChannelInv(s.log, s.channels[c]))
  }

  lemma TailOfLog(log: seq<Event>, since: nat, e: Event)
    requires since <= |log|
    ensures (log + [e])[since..] == log[since..] + [e]
  {}

  lemma SubsequenceGrows(a: seq<Event>, b: seq<Event>, e: Event)
    requires Subsequence(a, b)
    ensures Subsequence(a, b + [e]) && Subsequence(a + [e], b + [e])
  {
    assert (b + [e])[..|b|] == b && (a + [e])[..|a|] == a;
  }

  lemma OfferedKeepsChannel(log: seq<Event>, ch: Channel, e: Event)
    requires ChannelInv(log, ch)
    ensures ChannelInv(log + [e], Offered(ch, e)) && ChannelInv(log + [e], ch)
  {
    TailOfLog(log, ch.since, e);
    SubsequenceGrows(Seen(ch), log[ch.since..], e);
    assert Seen(ch.(buffer := ch.buffer + [e])) == Seen(ch) + [e];
  }

  function Effect(keys: set<Key>, e: Event): set<Key> {
    match e case Registered(key, _) => keys + {key} case Unregistered(key) => keys - {key}
  }

  lemma OfferedKeepsListener(items: map<Key, Info>, items': map<Key, Info>, log: seq<Event>, ch: Channel, e: Event)
    requires ListenerInv(items, log, ch) && items'.Keys == Effect(items.Keys, e)
    ensures ListenerInv(items', log + [e], Offered(ch, e))
  {
    TailOfLog(log, ch.since, e);
    assert (log[ch.since..] + [e])[..|log| - ch.since] == log[ch.since..];
    assert Seen(ch.(buffer := ch.buffer + [e])) == Seen(ch) + [e];
  }

  /** Changing the keys and telling the listeners keeps the invariant. */
  lemma NotifiedKeepsInv(s: State, items': map<Key, Info>, e: Event)
    requires Inv(s) && items'.Keys == Effect(s.items.Keys, e)
    ensures Inv(Notified(s.(items := items'), e))
  {
    forall c <- s.listeners ensures ListenerInv(items', s.log + [e], Offered(s.channels[c], e)) {
      OfferedKeepsListener(s.items, items', s.log, s.channels[c], e);
    }
    forall c | c in s.channels
      ensures ChannelInv(s.log + [e], Offered(s.channels[c], e)) && ChannelInv(s.log + [e], s.channels[c])
    {
      OfferedKeepsChannel(s.log, s.channels[c], e);
    }
  }

  lemma RegisterKeepsInv(s: State, key: Key, info: Info)
    requires Inv(s)
    ensures Inv(Register(s, key, info).0)
  {
    if key !in s.items {
      NotifiedKeepsInv(s, s.items[key := info], Registered(key, info));
    }
  }

  lemma UnregisterKeepsInv(s: State, key: Key)
    requires Inv(s)
    ensures Inv(Unregister(s, key).0)
  {
    if key in s.items {
      NotifiedKeepsInv(s, s.items - {key}, Unregistered(key));
    }
  }

  datatype Op =
    | DoRegister(key: Key, info: Info)
    | DoUnregister(key: Key)
    | DoUpdate(key: Key, available: bool)
    | DoSubscribe(c: ChannelId)
    | DoUnsubscribe(c: ChannelId)
    | DoReceive(c: ChannelId)

  function Apply(s: State, op: Op): State {
    match op
    case DoRegister(key, info) => Register(s, key, info).0
    case DoUnregister(key) => Unregister(s, key).0
    case DoUpdate(key, available) => UpdateAvailability(s, key, available).0
    case DoSubscribe(c) => if c in s.channels then s else Subscribe(s, c)
    case DoUnsubscribe(c) => Unsubscribe(s, c)
    case DoReceive(c) => Receive(s, c)
  }

  lemma {:induction false} WithoutMembers(ids: seq<ChannelId>, c: ChannelId)
    requires Distinct(ids)
    ensures Distinct(Without(ids, c)) && forall x :: x in Without(ids, c) <==> x in ids && x != c
    decreases |ids|
  {
    if ids != [] {
      WithoutMembers(ids[1..], c);
      assert ids[0] !in ids[1..];
      assert ids == [ids[0]] + ids[1..];
    }
  }

  lemma SubscribeKeepsInv(s: State, c: ChannelId)
    requires Inv(s) && c !in s.channels
    ensures Inv(Subscribe(s, c))
  {
    assert s.log[|s.log|..] == [];
  }

  lemma UnsubscribeKeepsInv(s: State, c: ChannelId)
    requires Inv(s)
    ensures Inv(Unsubscribe(s, c))
  {
    WithoutMembers(s.listeners, c);
    if c in s.channels {
      var ch := s.channels[c];
      assert Seen(ch.(closed := true)) == Seen(ch);
    }
  }

  lemma ReceiveKeepsInv(s: State, c: ChannelId)
    requires Inv(s)
    ensures Inv(Receive(s, c))
  {
    if c in s.channels && s.channels[c].buffer != [] {
      var ch := s.channels[c];
      assert ch.received + [ch.buffer[0]] + ch.buffer[1..] == ch.received + ch.buffer;
    }
  }

  lemma StepKeepsInv(s: State, op: Op)
    requires Inv(s)
    ensures Inv(Apply(s, op))
  {
    match op
    case DoRegister(key, info) => RegisterKeepsInv(s, key, info);
    case DoUnregister(key) => UnregisterKeepsInv(s, key);
    case DoUpdate(key, available) =>
      assert UpdateAvailability(s, key, available).0.items.Keys == s.items.Keys;
    case DoSubscribe(c) => if c !in s.channels { SubscribeKeepsInv(s, c); }
    case DoUnsubscribe(c) => UnsubscribeKeepsInv(s, c);
    case DoReceive(c) => ReceiveKeepsInv(s, c);
  }

  function After(s: State, ops: seq<Op>): State
    decreases |ops|
  {
    if ops == [] then s else After(Apply(s, ops[0]), ops[1..])
  }

  lemma {:induction false} InvAlways(s: State, ops: seq<Op>)
    requires Inv(s)
    ensures Inv(After(s, ops))
    decreases |ops|
  {
    if ops != [] {
      StepKeepsInv(s, ops[0]);
      InvAlways(Apply(s, ops[0]), ops[1..]);
    }
  }

  /** What a listener has received and still has buffered is a subsequence of what was emitted
      since it subscribed, at most 100 of it buffered; it is all of it exactly when nothing was
      dropped, and then replaying it over the keys at subscription yields the present keys. */
  lemma ReplayRecovers(ops: seq<Op>, c: ChannelId)
    requires c in After(EMPTY, ops).listeners
    ensures var s := After(EMPTY, ops);
            && c in s.channels
            && var ch := s.channels[c];
            && ch.since <= |s.log| && |ch.buffer| <= 100
            && Subsequence(Seen(ch), s.log[ch.since..])
            && (ch.dropped == 0 <==> Seen(ch) == s.log[ch.since..])
            && (ch.dropped == 0 ==> Replay(ch.keysAtStart, Seen(ch)) == s.items.Keys)
  {
    InvAlways(EMPTY, ops);
    var s := After(EMPTY, ops);
    assert ListenerInv(s.items, s.log, s.channels[c]) && ChannelInv(s.log, s.channels[c]);
  }

  // ---------------------------------------------------------------------------------------
  // What is delivered
  // ---------------------------------------------------------------------------------------

  /** One event reaches a listener with fewer than 100 unread ones, as the last of them; one with
      100 loses it. */
  ghost predicate Hears(ch: Channel, e: Event, ch': Channel) {
    && ch'.received == ch.received && ch'.closed == ch.closed
    && (|ch.buffer| < 100 ==> ch'.buffer == ch.buffer + [e] && ch'.dropped == ch.dropped)
    && (|ch.buffer| == 100 ==> ch'.buffer == ch.buffer && ch'.dropped == ch.dropped + 1)
  }

  lemma RegisterDelivers(s: State, key: Key, info: Info)
    requires Inv(s)
    ensures var (s', ok) := Register(s, key, info);
            && (ok <==> key !in s.items) && (!ok ==> s' == s)
            && (ok ==> s'.items == s.items[key := info] && s'.log == s.log + [Registered(key, info)])
            && (ok ==> forall c :: c in s.listeners ==>
                  c in s'.channels && Hears(s.channels[c], Registered(key, info), s'.channels[c]))
            && (ok ==> forall c :: c in s.channels && c !in s.listeners ==>
                  c in s'.channels && s'.channels[c] == s.channels[c])
  {
    forall c | c in s.listeners ensures |s.channels[c].buffer| <= 100 {}
  }

  lemma UnregisterDelivers(s: State, key: Key)
    requires Inv(s)
    ensures var (s', ok) := Unregister(s, key);
            && (ok <==> key in s.items) && (!ok ==> s' == s)
            && (ok ==> s'.items == s.items - {key} && s'.log == s.log + [Unregistered(key)])
            && (ok ==> forall c :: c in s.listeners ==>
                  c in s'.channels && Hears(s.channels[c], Unregistered(key), s'.channels[c]))
            && (ok ==> forall c :: c in s.channels && c !in s.listeners ==>
                  c in s'.channels && s'.channels[c] == s.channels[c])
  {
    forall c | c in s.listeners ensures |s.channels[c].buffer| <= 100 {}
  }

  /** An update sets one entry's flag as asked, and nobody hears of it. */
  lemma UpdateSetsFlag(s: State, key: Key, available: bool)
    ensures var (s', ok) := UpdateAvailability(s, key, available);
            && (ok <==> key in s.items) && s'.items.Keys == s.items.Keys
            && s'.log == s.log && s'.channels == s.channels && s'.listeners == s.listeners
            && (forall k :: k in s.items && k != key ==> s'.items[k] == s.items[k])
            && (ok ==> var was, now := s.items[key], s'.items[key];
                       && now.available == available && now.payload == was.payload && now.handler == was.handler
                       && now.source == was.source && now.tags == was.tags)
  {}

  /** A new listener comes last, has heard nothing, and starts from the present keys. */
  lemma NewListener(s: State, c: ChannelId)
    requires c !in s.channels
    ensures var s' := Subscribe(s, c);
            && s'.listeners == s.listeners + [c] && s'.items == s.items && s'.log == s.log
            && s'.channels.Keys == s.channels.Keys + {c}
            && (forall d :: d in s.channels ==> s'.channels[d] == s.channels[d])
            && s'.channels[c].buffer == [] && s'.channels[c].received == [] && s'.channels[c].dropped == 0
            && !s'.channels[c].closed && Unread(s', c) == 0
  {}

  /** A listener that has unsubscribed hears nothing more, and the others go on. */
  lemma UnsubscribedHearsNothing(s: State, c: ChannelId, key: Key, info: Info)
    requires Inv(s) && c in s.listeners
    ensures var s1 := Unsubscribe(s, c);
            var s2 := Register(s1, key, info).0;
            && c in s2.channels && s2.channels[c].closed && s2.channels[c].buffer == s.channels[c].buffer
            && (forall d :: d in s2.listeners <==> d in s.listeners && d != c)
            && (forall d :: d in s.listeners && d != c ==> d in s1.channels && s1.channels[d] == s.channels[d])
  {
    WithoutMembers(s.listeners, c);
  }

  // ---------------------------------------------------------------------------------------
  // Which listeners lose nothing
  // ---------------------------------------------------------------------------------------

  /** The events emitted since the listener subscribed that it has not read. */
  ghost function Unread(s: State, c: ChannelId): int
    requires c in s.channels
  {
    |s.log| - s.channels[c].since - |s.channels[c].received|
  }

  /** At every point of the run the listener has read all but at most 100 of the events emitted
      since it subscribed. */
  ghost predicate KeepsUp(s: State, ops: seq<Op>, c: ChannelId)
    decreases |ops|
  {
    && (c in s.listeners ==> c in s.channels && Unread(s, c) <= 100)
    && (ops == [] || KeepsUp(Apply(s, ops[0]), ops[1..], c))
  }

  lemma UnreadIsBufferedOrDropped(s: State, c: ChannelId)
    requires Inv(s) && c in s.listeners
    ensures c in s.channels && Unread(s, c) == |s.channels[c].buffer| + s.channels[c].dropped
    ensures |s.channels[c].buffer| <= 100
  {
    assert ListenerInv(s.items, s.log, s.channels[c]) && ChannelInv(s.log, s.channels[c]);
  }

  /** A listener loses an event only when it is 100 behind, and is then 101 behind. */
  lemma StepLosesIff(s: State, op: Op, c: ChannelId)
    requires Inv(s) && c in s.listeners && c in Apply(s, op).listeners
    ensures c in Apply(s, op).channels
    ensures s.channels[c].dropped <= Apply(s, op).channels[c].dropped
    ensures s.channels[c].dropped == 0 ==>
              (Apply(s, op).channels[c].dropped == 0 <==> Unread(Apply(s, op), c) <= 100)
  {
    UnreadIsBufferedOrDropped(s, c);
    StepKeepsInv(s, op);
    UnreadIsBufferedOrDropped(Apply(s, op), c);
    match op
    case DoRegister(key, info) => RegisterDelivers(s, key, info);
    case DoUnregister(key) => UnregisterDelivers(s, key);
    case DoUpdate(_, _) =>
    case DoSubscribe(_) =>
    case DoUnsubscribe(d) => WithoutMembers(s.listeners, d);
    case DoReceive(_) =>
  }

  lemma StaysGone(s: State, op: Op, c: ChannelId)
    requires Distinct(s.listeners) && c in s.channels && c !in s.listeners
    ensures c in Apply(s, op).channels && c !in Apply(s, op).listeners
  {
    match op
    case DoRegister(_, _) =>
    case DoUnregister(_) =>
    case DoUpdate(_, _) =>
    case DoSubscribe(_) =>
    case DoUnsubscribe(d) => WithoutMembers(s.listeners, d);
    case DoReceive(_) =>
  }

  /** Who has left does not come back. */
  lemma {:induction false} GoneForGood(s: State, ops: seq<Op>, c: ChannelId)
    requires Inv(s) && c in s.channels && c !in s.listeners
    ensures c !in After(s, ops).listeners
    decreases |ops|
  {
    if ops != [] {
      StepKeepsInv(s, ops[0]);
      StaysGone(s, ops[0], c);
      GoneForGood(Apply(s, ops[0]), ops[1..], c);
    }
  }

  lemma ChannelStays(s: State, op: Op, c: ChannelId)
    requires Inv(s) && c in s.channels
    ensures c in Apply(s, op).channels
  {}

  lemma {:induction false} LossIsForever(s: State, ops: seq<Op>, c: ChannelId)
    requires Inv(s) && c in s.listeners && c in After(s, ops).listeners
    ensures c in After(s, ops).channels && s.channels[c].dropped <= After(s, ops).channels[c].dropped
    decreases |ops|
  {
    if ops != [] {
      StepKeepsInv(s, ops[0]);
      ChannelStays(s, ops[0], c);
      if c !in Apply(s, ops[0]).listeners {
        GoneForGood(Apply(s, ops[0]), ops[1..], c);
      }
      StepLosesIff(s, ops[0], c);
      LossIsForever(Apply(s, ops[0]), ops[1..], c);
    }
  }

  /** A listener loses nothing over a run if and only if it keeps up. */
  lemma {:induction false} LosesNothingIff(s: State, ops: seq<Op>, c: ChannelId)
    requires Inv(s) && c in s.listeners && s.channels[c].dropped == 0 && c in After(s, ops).listeners
    ensures c in After(s, ops).channels
    ensures After(s, ops).channels[c].dropped == 0 <==> KeepsUp(s, ops, c)
    decreases |ops|
  {
    UnreadIsBufferedOrDropped(s, c);
    if ops != [] {
      var s1 := Apply(s, ops[0]);
      StepKeepsInv(s, ops[0]);
      ChannelStays(s, ops[0], c);
      if c !in s1.listeners {
        GoneForGood(s1, ops[1..], c);
      }
      StepLosesIff(s, ops[0], c);
      LossIsForever(s1, ops[1..], c);
      if s1.channels[c].dropped == 0 {
        LosesNothingIff(s1, ops[1..], c);
      }
    }
  }

  /** From the moment it subscribes, a listener that keeps up can replay the registry: the keys at
      that moment, then what it has received and still has buffered. */
  lemma KeepingUpReplays(s: State, c: ChannelId, ops: seq<Op>)
    requires Inv(s) && c !in s.channels && c in After(Subscribe(s, c), ops).listeners
    requires KeepsUp(Subscribe(s, c), ops, c)
    ensures var later := After(Subscribe(s, c), ops);
            c in later.channels
            && Replay(s.items.Keys, later.channels[c].received + later.channels[c].buffer) == later.items.Keys
  {
    var s1 := Subscribe(s, c);
    SubscribeKeepsInv(s, c);
    LosesNothingIff(s1, ops, c);
    InvAlways(s1, ops);
    KeysAtStartStay(s1, ops, c);
    var later := After(s1, ops);
    assert ListenerInv(later.items, later.log, later.channels[c]);
  }

  lemma KeysAtStartKept(s: State, op: Op, c: ChannelId)
    requires c in s.channels
    ensures c in Apply(s, op).channels && Apply(s, op).channels[c].keysAtStart == s.channels[c].keysAtStart
  {
    match op
    case DoRegister(_, _) =>
    case DoUnregister(_) =>
    case DoUpdate(_, _) =>
    case DoSubscribe(_) =>
    case DoUnsubscribe(_) =>
    case DoReceive(_) =>
  }

  lemma {:induction false} KeysAtStartStay(s: State, ops: seq<Op>, c: ChannelId)
    requires c in s.channels
    ensures c in After(s, ops).channels && After(s, ops).channels[c].keysAtStart == s.channels[c].keysAtStart
    decreases |ops|
  {
    if ops != [] {
      KeysAtStartKept(s, ops[0], c);
      KeysAtStartStay(Apply(s, ops[0]), ops[1..], c);
    }
  }
}
