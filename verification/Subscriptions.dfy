/** The subscription manager: a primary map and two secondary indices, kept in step through
    Subscribe and every kind of removal, and event dispatch through one of the indices. */
module Subscriptions {
  import opened Wrappers

  /** A UUID, by its value. */
  type Id = nat

  /** What parsing a subscription's parameters as resource parameters yields. */
  datatype Params = Malformed | ResourceParams(uri: string)

  datatype Subscription = Subscription(id: Id, clientId: string, topic: string, params: Params,
                                       createdAt: real, lastActive: real)

  type Index = map<string, seq<Id>>

  datatype State = State(subscriptions: map<Id, Subscription>, byClient: Index, byMethod: Index, maxPerClient: int)

  const METHODS := ["resources/subscribe", "resources/subscribeList", "tools/subscribe",
                    "prompts/subscribe", "roots/subscribe"]

  function Get(index: Index, key: string): seq<Id> {
    if key in index then index[key] else []
  }

  datatype Result = Subscribed(sub: Subscription) | LimitReached | UnsupportedMethod

  // ---------------------------------------------------------------------------------------
  // What the indices have to agree on
  // ---------------------------------------------------------------------------------------

  datatype Axis = Client | Method

  function Key(axis: Axis, sub: Subscription): string {
    match axis case Client => sub.clientId case Method => sub.topic
  }

  ghost predicate NoDuplicates(ids: seq<Id>) {
    forall i, j :: 0 <= i < j < |ids| ==> ids[i] != ids[j]
  }

  /** Every list of the index is non-empty, has no duplicate and holds exactly the live
      subscriptions with that key. */
  ghost predicate Indexed(subs: map<Id, Subscription>, index: Index, axis: Axis) {
    && (forall key :: key in index ==> index[key] != [] && NoDuplicates(index[key]))
    && (forall key, id :: key in index && id in index[key] ==> id in subs && Key(axis, subs[id]) == key)
    && (forall id :: id in subs ==> Key(axis, subs[id]) in index && id in index[Key(axis, subs[id])])
  }

  ghost predicate Inv(s: State) {
    && (forall id :: id in s.subscriptions ==> s.subscriptions[id].id == id)
    && Indexed(s.subscriptions, s.byClient, Client)
    && Indexed(s.subscriptions, s.byMethod, Method)
    && (forall c :: c in s.byClient ==> |s.byClient[c]| <= s.maxPerClient)
  }

  // ---------------------------------------------------------------------------------------
  // What the operations do
  // ---------------------------------------------------------------------------------------

  function Append(index: Index, key: string, id: Id): Index {
    index[key := Get(index, key) + [id]]
  }

  function Subscribing(s: State, sub: Subscription): (State, Result) {
    if |Get(s.byClient, sub.clientId)| >= s.maxPerClient then (s, LimitReached)
    else if sub.topic !in METHODS then (s, UnsupportedMethod)
    else (s.(subscriptions := s.subscriptions[sub.id := sub],
             byClient := Append(s.byClient, sub.clientId, sub.id),
             byMethod := Append(s.byMethod, sub.topic, sub.id)), Subscribed(sub))
  }

  /** The ids that are not gone, in their order. */
  function Keep(ids: seq<Id>, gone: set<Id>): seq<Id> {
    if ids == [] then [] else
    (if ids[0] in gone then [] else [ids[0]]) + Keep(ids[1..], gone)
  }

  /** Every list of an index with some ids gone, the empty ones still there. */
  function Shortened(index: Index, gone: set<Id>): Index {
    map key | key in index :: Keep(index[key], gone)
  }

  function DropEmpty(index: Index): Index {
    map key | key in index && index[key] != [] :: index[key]
  }

  /** An index with some ids gone: lists that become empty go too. */
  function Pruned(index: Index, gone: set<Id>): Index {
    DropEmpty(Shortened(index, gone))
  }

  /** The state with a set of subscriptions gone without a trace: the meaning of every removal. */
  function Without(s: State, gone: set<Id>): State {
    s.(subscriptions := s.subscriptions - gone,
       byClient := Pruned(s.byClient, gone),
       byMethod := Pruned(s.byMethod, gone))
  }

  function OfClient(s: State, clientId: string): set<Id> {
    set id | id in s.subscriptions && s.subscriptions[id].clientId == clientId
  }

  function InactiveSince(s: State, cutoff: real): set<Id> {
    set id | id in s.subscriptions && s.subscriptions[id].lastActive < cutoff
  }

  function Touched(s: State, id: Id, now: real): State {
    if id in s.subscriptions
    then s.(subscriptions := s.subscriptions[id := s.subscriptions[id].(lastActive := now)])
    else s
  }

  // ---------------------------------------------------------------------------------------
  // Facts about Keep
  // ---------------------------------------------------------------------------------------

  lemma {:induction false} KeepMembers(ids: seq<Id>, gone: set<Id>)
    ensures forall id :: id in Keep(ids, gone) <==> id in ids && id !in gone
    ensures |Keep(ids, gone)| <= |ids|
    decreases |ids|
  {
    if ids != [] {
      KeepMembers(ids[1..], gone);
      assert forall id :: id in ids <==> id == ids[0] || id in ids[1..];
    }
  }

  lemma {:induction false} KeepDistinct(ids: seq<Id>, gone: set<Id>)
    requires NoDuplicates(ids)
    ensures NoDuplicates(Keep(ids, gone))
    decreases |ids|
  {
    if ids != [] {
      KeepDistinct(ids[1..], gone);
      KeepMembers(ids[1..], gone);
      assert ids[0] !in ids[1..];
    }
  }

  lemma {:induction false} KeepNothingGone(ids: seq<Id>, gone: set<Id>)
    requires forall id <- ids :: id !in gone
    ensures Keep(ids, gone) == ids
    decreases |ids|
  {
    if ids != [] {
      KeepNothingGone(ids[1..], gone);
    }
  }

  lemma {:induction false} KeepTwice(ids: seq<Id>, gone: set<Id>, more: set<Id>)
    ensures Keep(Keep(ids, gone), more) == Keep(ids, gone + more)
    decreases |ids|
  {
    if ids != [] {
      KeepTwice(ids[1..], gone, more);
      if ids[0] in gone {
        assert Keep(ids, gone) == Keep(ids[1..], gone);
      } else {
        assert Keep(ids, gone)[1..] == Keep(ids[1..], gone);
      }
    }
  }

  /** Removing the first occurrence is removing the item, when it occurs once. */
  function RemoveFirst(ids: seq<Id>, item: Id): seq<Id> {
    if ids == [] then [] else if ids[0] == item then ids[1..] else [ids[0]] + RemoveFirst(ids[1..], item)
  }

  lemma {:induction false} RemoveFirstIsKeep(ids: seq<Id>, item: Id)
    requires NoDuplicates(ids)
    ensures RemoveFirst(ids, item) == Keep(ids, {item})
    decreases |ids|
  {
    if ids != [] {
      if ids[0] == item {
        KeepNothingGone(ids[1..], {item});
      } else {
        RemoveFirstIsKeep(ids[1..], item);
      }
    }
  }

  lemma {:induction false} RemoveFirstAt(ids: seq<Id>, item: Id, i: nat)
    requires i < |ids| && ids[i] == item && item !in ids[..i]
    ensures RemoveFirst(ids, item) == ids[..i] + ids[i + 1..]
    decreases i
  {
    if i > 0 {
      assert ids[0] in ids[..i];
      assert forall x :: x in ids[1..][..i - 1] ==> x in ids[..i];
      RemoveFirstAt(ids[1..], item, i - 1);
      assert ids[1..][..i - 1] == ids[1..i];
    }
  }

  lemma {:induction false} RemoveFirstAbsent(ids: seq<Id>, item: Id)
    requires item !in ids
    ensures RemoveFirst(ids, item) == ids
    decreases |ids|
  {
    if ids != [] {
      RemoveFirstAbsent(ids[1..], item);
    }
  }

  // ---------------------------------------------------------------------------------------
  // Every operation keeps the indices in agreement
  // ---------------------------------------------------------------------------------------

  lemma AppendKeepsIndexed(subs: map<Id, Subscription>, index: Index, axis: Axis, sub: Subscription)
    requires Indexed(subs, index, axis) && sub.id !in subs
    ensures Indexed(subs[sub.id := sub], Append(index, Key(axis, sub), sub.id), axis)
  {
    var key := Key(axis, sub);
    assert sub.id !in Get(index, key);
  }

  /** The list without what is gone, as far as agreement of the indices is concerned. */
  ghost predicate KeptOf(ids: seq<Id>, kept: seq<Id>, gone: set<Id>) {
    && (NoDuplicates(ids) ==> NoDuplicates(kept))
    && (forall id :: id in kept <==> id in ids && id !in gone)
    && |kept| <= |ids|
  }

  lemma KeepIsKept(ids: seq<Id>, gone: set<Id>)
    ensures KeptOf(ids, Keep(ids, gone), gone)
  {
    if NoDuplicates(ids) {
      KeepDistinct(ids, gone);
    }
    KeepMembers(ids, gone);
  }

  lemma ListsIndexed(subs: map<Id, Subscription>, index: Index, lists: Index, axis: Axis, gone: set<Id>)
    requires Indexed(subs, index, axis) && lists.Keys == index.Keys
    requires forall key :: key in index ==> KeptOf(index[key], lists[key], gone)
    ensures Indexed(subs - gone, DropEmpty(lists), axis)
  {
    var pruned := DropEmpty(lists);
    forall key, id | key in pruned && id in pruned[key]
      ensures id in subs - gone && Key(axis, subs[id]) == key
    {
      assert KeptOf(index[key], lists[key], gone);
    }
    forall id | id in subs - gone ensures Key(axis, subs[id]) in pruned && id in pruned[Key(axis, subs[id])] {
      var key := Key(axis, subs[id]);
      assert KeptOf(index[key], lists[key], gone);
      assert id in lists[key];
    }
  }

  lemma PrunedKeepsIndexed(subs: map<Id, Subscription>, index: Index, axis: Axis, gone: set<Id>)
    requires Indexed(subs, index, axis)
    ensures Indexed(subs - gone, Pruned(index, gone), axis)
  {
    forall key | key in index ensures KeptOf(index[key], Shortened(index, gone)[key], gone) {
      KeepIsKept(index[key], gone);
    }
    ListsIndexed(subs, index, Shortened(index, gone), axis, gone);
  }

  lemma SubscribingKeepsInv(s: State, sub: Subscription)
    requires Inv(s) && sub.id !in s.subscriptions
    ensures Inv(Subscribing(s, sub).0)
  {
    AppendKeepsIndexed(s.subscriptions, s.byClient, Client, sub);
    AppendKeepsIndexed(s.subscriptions, s.byMethod, Method, sub);
  }

  lemma WithoutKeepsInv(s: State, gone: set<Id>)
    requires Inv(s)
    ensures Inv(Without(s, gone))
  {
    PrunedKeepsIndexed(s.subscriptions, s.byClient, Client, gone);
    PrunedKeepsIndexed(s.subscriptions, s.byMethod, Method, gone);
    forall c | c in s.byClient ensures |Shortened(s.byClient, gone)[c]| <= |s.byClient[c]| {
      KeepIsKept(s.byClient[c], gone);
    }
  }

  lemma TouchKeepsInv(s: State, id: Id, now: real)
    requires Inv(s)
    ensures Inv(Touched(s, id, now))
  {
    var subs := Touched(s, id, now).subscriptions;
    assert forall i :: i in subs ==> i in s.subscriptions
                                     && Key(Client, subs[i]) == Key(Client, s.subscriptions[i])
                                     && Key(Method, subs[i]) == Key(Method, s.subscriptions[i]);
  }

  datatype Op =
    | Subscribe(sub: Subscription)
    | Unsubscribe(id: Id)
    | UnsubscribeClient(clientId: string)
    | CleanupInactive(cutoff: real)
    | Touch(touched: Id, now: real)

  function Apply(s: State, op: Op): State {
    match op
    case Subscribe(sub) => Subscribing(s, sub).0
    case Unsubscribe(id) => Without(s, {id})
    case UnsubscribeClient(c) => Without(s, OfClient(s, c))
    case CleanupInactive(cutoff) => Without(s, InactiveSince(s, cutoff))
    case Touch(id, now) => Touched(s, id, now)
  }

  /** New subscriptions get ids that are not in use. */
  ghost predicate FreshIds(s: State, ops: seq<Op>)
    decreases |ops|
  {
    ops == [] || ((ops[0].Subscribe? ==> ops[0].sub.id !in s.subscriptions) && FreshIds(Apply(s, ops[0]), ops[1..]))
  }

  function After(s: State, ops: seq<Op>): State
    decreases |ops|
  {
    if ops == [] then s else After(Apply(s, ops[0]), ops[1..])
  }

  function Empty(maxPerClient: int): State {
    State(map[], map[], map[], maxPerClient)
  }

  /** In every reachable state the indices agree with the primary map and no client is over its
      quota. */
  lemma {:induction false} IndicesAlwaysAgree(s: State, ops: seq<Op>)
    requires Inv(s) && FreshIds(s, ops)
    ensures Inv(After(s, ops))
    decreases |ops|
  {
    if ops != [] {
      match ops[0] {
        case Subscribe(sub) => SubscribingKeepsInv(s, sub);
        case Unsubscribe(id) => WithoutKeepsInv(s, {id});
        case UnsubscribeClient(c) => WithoutKeepsInv(s, OfClient(s, c));
        case CleanupInactive(cutoff) => WithoutKeepsInv(s, InactiveSince(s, cutoff));
        case Touch(id, now) => TouchKeepsInv(s, id, now);
      }
      IndicesAlwaysAgree(Apply(s, ops[0]), ops[1..]);
    }
  }

  // ---------------------------------------------------------------------------------------
  // One removal at a time amounts to Without
  // ---------------------------------------------------------------------------------------

  /** Taking one more id out touches only the one list it is in. */
  lemma KeepOneMore(subs: map<Id, Subscription>, index: Index, axis: Axis, gone: set<Id>, id: Id, key: string)
    requires Indexed(subs, index, axis) && id in subs && key in index
    ensures Keep(index[key], gone + {id})
            == if key == Key(axis, subs[id]) then RemoveFirst(Keep(index[key], gone), id) else Keep(index[key], gone)
  {
    KeepTwice(index[key], gone, {id});
    if key == Key(axis, subs[id]) {
      KeepDistinct(index[key], gone);
      RemoveFirstIsKeep(Keep(index[key], gone), id);
    } else {
      KeepMembers(index[key], gone);
      KeepNothingGone(Keep(index[key], gone), {id});
    }
  }

  lemma SameLists(lists: Index, lists': Index, mine: string, ids: seq<Id>)
    requires mine in lists && lists.Keys == lists'.Keys
    requires forall key :: key in lists ==> lists'[key] == if key == mine then ids else lists[key]
    ensures lists' == lists[mine := ids]
  {}

  lemma ShortenOneMore(subs: map<Id, Subscription>, index: Index, axis: Axis, gone: set<Id>, id: Id)
    requires Indexed(subs, index, axis) && id in subs
    ensures var key, lists := Key(axis, subs[id]), Shortened(index, gone);
            key in lists && Shortened(index, gone + {id}) == lists[key := RemoveFirst(lists[key], id)]
  {
    var mine, lists, lists' := Key(axis, subs[id]), Shortened(index, gone), Shortened(index, gone + {id});
    forall key | key in lists
      ensures lists'[key] == if key == mine then RemoveFirst(lists[mine], id) else lists[key]
    {
      KeepOneMore(subs, index, axis, gone, id, key);
    }
    SameLists(lists, lists', mine, RemoveFirst(lists[mine], id));
  }

  /** Store a list, or delete the key when the list is empty. */
  function Store(index: Index, key: string, ids: seq<Id>): Index {
    if ids == [] then index - {key} else index[key := ids]
  }

  lemma StoreDropsEmpty(lists: Index, key: string, ids: seq<Id>)
    ensures Store(DropEmpty(lists), key, ids) == DropEmpty(lists[key := ids])
    ensures Get(DropEmpty(lists), key) == Get(lists, key)
  {}

  lemma PruneOneMore(subs: map<Id, Subscription>, index: Index, axis: Axis, gone: set<Id>, id: Id)
    requires Indexed(subs, index, axis) && id in subs
    ensures var key, kept := Key(axis, subs[id]), Pruned(index, gone);
            Pruned(index, gone + {id}) == Store(kept, key, RemoveFirst(Get(kept, key), id))
  {
    var key, lists := Key(axis, subs[id]), Shortened(index, gone);
    ShortenOneMore(subs, index, axis, gone, id);
    StoreDropsEmpty(lists, key, RemoveFirst(lists[key], id));
  }

  lemma NothingGone(subs: map<Id, Subscription>, index: Index, axis: Axis)
    requires Indexed(subs, index, axis)
    ensures Pruned(index, {}) == index == Shortened(index, {})
  {
    forall key | key in index ensures Keep(index[key], {}) == index[key] {
      KeepNothingGone(index[key], {});
    }
  }

  /** A client's list is exactly the client's subscriptions. */
  lemma ListOfClient(s: State, clientId: string)
    requires Inv(s)
    ensures Members(Get(s.byClient, clientId)) == OfClient(s, clientId)
  {}

  lemma ShortenedForClient(s: State, clientId: string, c: string)
    requires Inv(s) && c in s.byClient
    ensures Keep(s.byClient[c], OfClient(s, clientId)) == if c == clientId then [] else s.byClient[c]
  {
    if c == clientId {
      KeepAllGone(s.byClient[c], OfClient(s, clientId));
    } else {
      KeepNothingGone(s.byClient[c], OfClient(s, clientId));
    }
  }

  /** Dropping a client's list drops the client's subscriptions from the index. */
  lemma DropClient(s: State, clientId: string)
    requires Inv(s)
    ensures s.byClient - {clientId} == Pruned(s.byClient, OfClient(s, clientId))
  {
    var lists := Shortened(s.byClient, OfClient(s, clientId));
    forall c | c in s.byClient ensures lists[c] == if c == clientId then [] else s.byClient[c] {
      ShortenedForClient(s, clientId, c);
    }
    DropOne(s.byClient, lists, clientId);
  }

  lemma DropOne(index: Index, lists: Index, mine: string)
    requires lists.Keys == index.Keys && forall key :: key in index ==> index[key] != []
    requires forall key :: key in index ==> lists[key] == if key == mine then [] else index[key]
    ensures DropEmpty(lists) == index - {mine}
  {}

  lemma {:induction false} KeepAllGone(ids: seq<Id>, gone: set<Id>)
    requires forall id <- ids :: id in gone
    ensures Keep(ids, gone) == []
    decreases |ids|
  {
    if ids != [] {
      KeepAllGone(ids[1..], gone);
    }
  }

  // ---------------------------------------------------------------------------------------
  // The manager
  // ---------------------------------------------------------------------------------------

  class Manager {
    var subscriptions: map<Id, Subscription>
    var byClient: Index
    var byMethod: Index
    var handlers: set<string>
    const maxPerClient: int

    ghost function View(): State
      reads this
    {
      State(subscriptions, byClient, byMethod, maxPerClient)
    }

    ghost predicate Valid()
      reads this
    {
      Inv(View())
    }

    constructor (maxPerClient: int)
      ensures Valid() && View() == Empty(maxPerClient)
    {
      subscriptions, byClient, byMethod, handlers := map[], map[], map[], {};
      this.maxPerClient := maxPerClient;
    }

    method IsValidMethod(topic: string) returns (ok: bool)
      ensures ok <==> topic in METHODS
      ensures ok <==> topic == "resources/subscribe" || topic == "resources/subscribeList" || topic == "tools/subscribe"
                      || topic == "prompts/subscribe" || topic == "roots/subscribe"
    {
      for i := 0 to |METHODS|
        invariant topic !in METHODS[..i]
      {
        if topic == METHODS[i] {
          return true;
        }
      }
      return false;
    }

    /** The id is a new UUID. */
    method Subscribe(clientId: string, topic: string, params: Params, id: Id, now: real) returns (r: Result)
      requires Valid() && id !in subscriptions
      modifies this
      ensures Valid()
      ensures (View(), r) == Subscribing(old(View()), Subscription(id, clientId, topic, params, now, now))
    {
      var sub := Subscription(id, clientId, topic, params, now, now);
      SubscribingKeepsInv(View(), sub);
      var held := if clientId in byClient then |byClient[clientId]| else 0;
      if held >= maxPerClient {
        return LimitReached;
      }
      var ok := IsValidMethod(topic);
      if !ok {
        return UnsupportedMethod;
      }
      subscriptions := subscriptions[id := sub];
      byClient := byClient[clientId := Get(byClient, clientId) + [id]];
      byMethod := byMethod[topic := Get(byMethod, topic) + [id]];
      return Subscribed(sub);
    }

    method RemoveFromSlice(ids: seq<Id>, item: Id) returns (r: seq<Id>)
      ensures r == RemoveFirst(ids, item)
    {
      for i := 0 to |ids|
        invariant item !in ids[..i]
      {
        if ids[i] == item {
          RemoveFirstAt(ids, item, i);
          return ids[..i] + ids[i + 1..];
        }
      }
      assert ids[..|ids|] == ids;
      RemoveFirstAbsent(ids, item);
      return ids;
    }

    method RemoveFromIndex(index: Index, key: string, id: Id) returns (r: Index)
      ensures r == PruneOne(index, key, id)
    {
      var ids := RemoveFromSlice(Get(index, key), id);
      r := index[key := ids];
      if |r[key]| == 0 {
        r := r - {key};
      }
      assert index[key := ids] - {key} == index - {key};
    }

    method Unsubscribe(id: Id) returns (found: bool)
      requires Valid()
      modifies this
      ensures Valid() && View() == Without(old(View()), {id})
      ensures found <==> id in old(subscriptions)
    {
      if id !in subscriptions {
        UnknownIsNothing(View(), id);
        return false;
      }
      RemovingOne(View(), id);
      WithoutKeepsInv(View(), {id});
      var sub := subscriptions[id];
      subscriptions := subscriptions - {id};
      byClient := RemoveFromIndex(byClient, sub.clientId, id);
      byMethod := RemoveFromIndex(byMethod, sub.topic, id);
      return true;
    }

    /** One turn of the loop of UnsubscribeClient: the client's own list is dropped at the end. */
    method RemoveButForClient(id: Id)
      requires id in subscriptions
      modifies `subscriptions, `byMethod
      ensures subscriptions == old(subscriptions) - {id}
      ensures byMethod == PruneOne(old(byMethod), old(subscriptions[id].topic), id)
    {
      var sub := subscriptions[id];
      subscriptions := subscriptions - {id};
      byMethod := RemoveFromIndex(byMethod, sub.topic, id);
    }

    method RemoveAll(ids: seq<Id>)
      requires PrunableOneByOne(View())
      requires NoDuplicates(ids) && forall id <- ids :: id in subscriptions
      modifies `subscriptions, `byMethod
      ensures subscriptions == old(subscriptions) - Members(ids)
      ensures byMethod == Pruned(old(byMethod), Members(ids))
    {
      ghost var was := View();
      assert Members(ids[..0]) == {} && was.subscriptions - {} == was.subscriptions;
      for i := 0 to |ids|
        invariant subscriptions == was.subscriptions - Members(ids[..i])
        invariant byMethod == Pruned(was.byMethod, Members(ids[..i]))
      {
        MembersStep(ids, i);
        if ids[i] in subscriptions {
          assert PruneOne(Pruned(was.byMethod, Members(ids[..i])), was.subscriptions[ids[i]].topic, ids[i])
                 == Pruned(was.byMethod, Members(ids[..i]) + {ids[i]});
          RemoveButForClient(ids[i]);
        }
      }
      assert ids[..|ids|] == ids;
    }

    method UnsubscribeClient(clientId: string)
      requires Valid()
      modifies this
      ensures Valid() && View() == Without(old(View()), OfClient(old(View()), clientId))
    {
      WithoutKeepsInv(View(), OfClient(View(), clientId));
      if clientId !in byClient {
        UnknownClient(View(), clientId);
        return;
      }
      ClientListLive(View(), clientId);
      ClientRemoved(View(), clientId);
      PruneOneByOne(View());
      RemoveAll(byClient[clientId]);
      byClient := byClient - {clientId};
    }

    /** One turn of the first loop of CleanupInactive: empty lists stay for now. */
    method RemoveEntry(id: Id)
      requires id in subscriptions
      modifies this
      ensures View() == EntryRemoved(old(View()), id, old(subscriptions[id]))
    {
      var sub := subscriptions[id];
      subscriptions := subscriptions - {id};
      var clientSubs := RemoveFromSlice(Get(byClient, sub.clientId), id);
      byClient := byClient[sub.clientId := clientSubs];
      var methodSubs := RemoveFromSlice(Get(byMethod, sub.topic), id);
      byMethod := byMethod[sub.topic := methodSubs];
    }

    /** The first loop of CleanupInactive, in any order over the primary map. */
    method RemoveInactive(cutoff: real) returns (removed: nat)
      requires CleanableOneByOne(View())
      modifies this
      ensures View() == HalfCleaned(old(View()), InactiveSince(old(View()), cutoff))
      ensures removed == |InactiveSince(old(View()), cutoff)|
    {
      ghost var was := View();
      removed := 0;
      var unseen := subscriptions.Keys;
      ghost var inactive := InactiveSince(was, cutoff);
      assert inactive - unseen == {};
      while unseen != {}
        invariant unseen <= was.subscriptions.Keys && inactive == InactiveSince(was, cutoff)
        invariant removed == |inactive - unseen| && View() == HalfCleaned(was, inactive - unseen)
        decreases unseen
      {
        var id :| id in unseen;
        if subscriptions[id].lastActive < cutoff {
          assert EntryRemoved(HalfCleaned(was, inactive - unseen), id, was.subscriptions[id])
                 == HalfCleaned(was, inactive - unseen + {id});
          RemoveEntry(id);
          removed := removed + 1;
        }
        SeenStep(inactive, unseen, id);
        unseen := unseen - {id};
      }
      assert inactive - {} == inactive;
    }

    method DropEmptyLists(index: Index) returns (r: Index)
      ensures r == DropEmpty(index)
    {
      r := index;
      var unseen := index.Keys;
      while unseen != {}
        invariant unseen <= index.Keys
        invariant r == map key | key in index && (key in unseen || index[key] != []) :: index[key]
        decreases unseen
      {
        var key :| key in unseen;
        if |index[key]| == 0 {
          r := r - {key};
        }
        unseen := unseen - {key};
      }
    }

    method RunCleanup(cutoff: real) returns (removed: nat)
      requires CleanableOneByOne(View())
      modifies this
      ensures View() == Without(old(View()), InactiveSince(old(View()), cutoff))
      ensures removed == |InactiveSince(old(View()), cutoff)|
    {
      removed := RemoveInactive(cutoff);
      byClient := DropEmptyLists(byClient);
      byMethod := DropEmptyLists(byMethod);
    }

    method CleanupInactive(cutoff: real) returns (removed: nat)
      requires Valid()
      modifies this
      ensures Valid() && View() == Without(old(View()), InactiveSince(old(View()), cutoff))
      ensures removed == |InactiveSince(old(View()), cutoff)|
    {
      CleanOneByOne(View());
      WithoutKeepsInv(View(), InactiveSince(View(), cutoff));
      removed := RunCleanup(cutoff);
    }

    method TouchSubscription(id: Id, now: real)
      requires Valid()
      modifies this
      ensures Valid() && View() == Touched(old(View()), id, now)
      ensures subscriptions == if id in old(subscriptions)
                               then old(subscriptions)[id := old(subscriptions)[id].(lastActive := now)]
                               else old(subscriptions)
    {
      TouchKeepsInv(View(), id, now);
      if id in subscriptions {
        subscriptions := subscriptions[id := subscriptions[id].(lastActive := now)];
      }
    }

    /** The subscriptions whose handler is started for an event, in the order of the index. */
    method Dispatch(event: Event) returns (dispatched: seq<Id>)
      requires Valid()
      ensures NoDuplicates(dispatched)
      ensures forall id :: id in dispatched <==>
                id in subscriptions && EventMethod(event.kind) == Some(subscriptions[id].topic)
                && Matches(subscriptions[id], event) && subscriptions[id].topic in handlers
    {
      dispatched := [];
      var topic := EventMethod(event.kind);
      if topic == None || topic.value !in byMethod {
        return;
      }
      var ids := byMethod[topic.value];
      for i := 0 to |ids|
        invariant NoDuplicates(dispatched)
        invariant forall id :: id in dispatched <==>
                    id in ids[..i] && Matches(subscriptions[id], event) && topic.value in handlers
      {
        assert forall id :: id in ids[..i + 1] <==> id in ids[..i] || id == ids[i];
        assert ids[i] !in ids[..i];
        if ids[i] in subscriptions {
          var sub := subscriptions[ids[i]];
          if Matches(sub, event) && topic.value in handlers {
            dispatched := dispatched + [ids[i]];
          }
        }
      }
      assert ids[..|ids|] == ids;
    }

    /** The event reaches, each once, exactly these: for a resource event, the subscriptions to its
        uri; for a list event, every subscription to that list. */
    method HandleEvent(event: Event) returns (dispatched: seq<Id>)
      requires Valid()
      ensures NoDuplicates(dispatched)
      ensures (event.kind == "resource/changed" || event.kind == "resource/deleted") && event.data.ResourceChange? ==>
                forall id :: id in dispatched <==>
                  id in subscriptions && subscriptions[id].topic == "resources/subscribe"
                  && subscriptions[id].params == ResourceParams(event.data.uri) && "resources/subscribe" in handlers
      ensures event.kind == "tools/list_changed" ==>
                forall id :: id in dispatched <==>
                  id in subscriptions && subscriptions[id].topic == "tools/subscribe" && "tools/subscribe" in handlers
      ensures event.kind == "resources/list_changed" ==>
                forall id :: id in dispatched <==>
                  id in subscriptions && subscriptions[id].topic == "resources/subscribeList"
                  && "resources/subscribeList" in handlers
      ensures event.kind == "prompts/list_changed" ==>
                forall id :: id in dispatched <==>
                  id in subscriptions && subscriptions[id].topic == "prompts/subscribe"
                  && "prompts/subscribe" in handlers
      ensures event.kind == "roots/list_changed" ==>
                forall id :: id in dispatched <==>
                  id in subscriptions && subscriptions[id].topic == "roots/subscribe" && "roots/subscribe" in handlers
      ensures dispatched != [] ==>
                || ((event.kind == "resource/changed" || event.kind == "resource/deleted")
                    && event.data.ResourceChange?)
                || event.kind == "tools/list_changed" || event.kind == "resources/list_changed"
                || event.kind == "prompts/list_changed" || event.kind == "roots/list_changed"
    {
      dispatched := Dispatch(event);
      if dispatched != [] {
        assert dispatched[0] in dispatched;
      }
    }
  }

  datatype Payload = ResourceChange(uri: string) | OtherPayload

  datatype Event = Event(kind: string, data: Payload)

  function EventMethod(kind: string): Option<string> {
    if kind == "resource/changed" || kind == "resource/deleted" then Some("resources/subscribe")
    else if kind == "tools/list_changed" then Some("tools/subscribe")
    else if kind == "resources/list_changed" then Some("resources/subscribeList")
    else if kind == "prompts/list_changed" then Some("prompts/subscribe")
    else if kind == "roots/list_changed" then Some("roots/subscribe")
    else None
  }

  function Matches(sub: Subscription, event: Event): bool {
    if sub.topic == "resources/subscribe" then
      sub.params.ResourceParams? && event.data.ResourceChange? && event.data.uri == sub.params.uri
    else sub.topic in ["tools/subscribe", "resources/subscribeList", "prompts/subscribe", "roots/subscribe"]
  }

  function Members(ids: seq<Id>): set<Id> {
    set id | id in ids
  }

  lemma SeenStep(inactive: set<Id>, unseen: set<Id>, id: Id)
    requires id in unseen
    ensures inactive - (unseen - {id}) == if id in inactive then inactive - unseen + {id} else inactive - unseen
    ensures |inactive - (unseen - {id})| == |inactive - unseen| + if id in inactive then 1 else 0
  {
    assert inactive - (unseen - {id}) == if id in inactive then inactive - unseen + {id} else inactive - unseen;
  }

  lemma MembersStep(ids: seq<Id>, i: nat)
    requires i < |ids|
    ensures Members(ids[..i + 1]) == Members(ids[..i]) + {ids[i]}
    ensures NoDuplicates(ids) ==> ids[i] !in Members(ids[..i])
  {
    assert ids[..i + 1] == ids[..i] + [ids[i]];
  }

  lemma UnknownClient(s: State, clientId: string)
    requires Inv(s) && clientId !in s.byClient
    ensures Without(s, OfClient(s, clientId)) == s
  {
    NothingGone(s.subscriptions, s.byClient, Client);
    NothingGone(s.subscriptions, s.byMethod, Method);
    assert OfClient(s, clientId) == {} && s.subscriptions - {} == s.subscriptions;
  }

  /** A cleanup before its second phase. */
  function HalfCleaned(s: State, gone: set<Id>): State {
    s.(subscriptions := s.subscriptions - gone,
       byClient := Shortened(s.byClient, gone), byMethod := Shortened(s.byMethod, gone))
  }

  function EntryRemoved(s: State, id: Id, sub: Subscription): State {
    s.(subscriptions := s.subscriptions - {id},
       byClient := s.byClient[sub.clientId := RemoveFirst(Get(s.byClient, sub.clientId), id)],
       byMethod := s.byMethod[sub.topic := RemoveFirst(Get(s.byMethod, sub.topic), id)])
  }

  /** With some ids gone already, a turn of the cleanup loop for one more leaves that one gone
      as well. */
  ghost predicate CleanableOneByOne(s: State) {
    && HalfCleaned(s, {}) == s
    && forall gone, id :: id in s.subscriptions ==>
         EntryRemoved(HalfCleaned(s, gone), id, s.subscriptions[id]) == HalfCleaned(s, gone + {id})
  }

  lemma CleanOneMore(s: State, gone: set<Id>, id: Id)
    requires Inv(s) && id in s.subscriptions
    ensures EntryRemoved(HalfCleaned(s, gone), id, s.subscriptions[id]) == HalfCleaned(s, gone + {id})
  {
    ShortenOneMore(s.subscriptions, s.byClient, Client, gone, id);
    ShortenOneMore(s.subscriptions, s.byMethod, Method, gone, id);
    assert s.subscriptions - gone - {id} == s.subscriptions - (gone + {id});
  }

  lemma CleanOneByOne(s: State)
    requires Inv(s)
    ensures CleanableOneByOne(s)
  {
    NothingGone(s.subscriptions, s.byClient, Client);
    NothingGone(s.subscriptions, s.byMethod, Method);
    assert s.subscriptions - {} == s.subscriptions;
    forall gone, id | id in s.subscriptions
      ensures EntryRemoved(HalfCleaned(s, gone), id, s.subscriptions[id]) == HalfCleaned(s, gone + {id})
    {
      CleanOneMore(s, gone, id);
    }
  }

  function PruneOne(index: Index, key: string, id: Id): Index {
    Store(index, key, RemoveFirst(Get(index, key), id))
  }

  /** The same for a turn of UnsubscribeClient's loop and the method index. */
  ghost predicate PrunableOneByOne(s: State) {
    && Pruned(s.byMethod, {}) == s.byMethod
    && forall gone, id :: id in s.subscriptions ==>
         PruneOne(Pruned(s.byMethod, gone), s.subscriptions[id].topic, id) == Pruned(s.byMethod, gone + {id})
  }

  lemma PruneOneByOne(s: State)
    requires Inv(s)
    ensures PrunableOneByOne(s)
  {
    NothingGone(s.subscriptions, s.byMethod, Method);
    forall gone, id | id in s.subscriptions
      ensures PruneOne(Pruned(s.byMethod, gone), s.subscriptions[id].topic, id) == Pruned(s.byMethod, gone + {id})
    {
      PruneOneMore(s.subscriptions, s.byMethod, Method, gone, id);
    }
  }

  lemma ClientListLive(s: State, clientId: string)
    requires Inv(s) && clientId in s.byClient
    ensures NoDuplicates(s.byClient[clientId]) && forall id <- s.byClient[clientId] :: id in s.subscriptions
  {}

  /** What UnsubscribeClient leaves behind. */
  lemma ClientRemoved(s: State, clientId: string)
    requires Inv(s) && clientId in s.byClient
    ensures Without(s, OfClient(s, clientId)) ==
            s.(subscriptions := s.subscriptions - Members(s.byClient[clientId]),
               byClient := s.byClient - {clientId},
               byMethod := Pruned(s.byMethod, Members(s.byClient[clientId])))
  {
    ListOfClient(s, clientId);
    DropClient(s, clientId);
  }

  lemma RemovingOne(s: State, id: Id)
    requires Inv(s) && id in s.subscriptions
    ensures var sub := s.subscriptions[id];
            Without(s, {id}) == s.(
              subscriptions := s.subscriptions - {id},
              byClient := Store(s.byClient, sub.clientId, RemoveFirst(Get(s.byClient, sub.clientId), id)),
              byMethod := Store(s.byMethod, sub.topic, RemoveFirst(Get(s.byMethod, sub.topic), id)))
  {
    NothingGone(s.subscriptions, s.byClient, Client);
    NothingGone(s.subscriptions, s.byMethod, Method);
    PruneOneMore(s.subscriptions, s.byClient, Client, {}, id);
    PruneOneMore(s.subscriptions, s.byMethod, Method, {}, id);
    assert {} + {id} == {id};
  }

  lemma UnknownIsNothing(s: State, id: Id)
    requires Inv(s) && id !in s.subscriptions
    ensures Without(s, {id}) == s
  {
    forall key | key in s.byClient ensures Keep(s.byClient[key], {id}) == s.byClient[key] {
      KeepNothingGone(s.byClient[key], {id});
    }
    forall key | key in s.byMethod ensures Keep(s.byMethod[key], {id}) == s.byMethod[key] {
      KeepNothingGone(s.byMethod[key], {id});
    }
    assert s.subscriptions - {id} == s.subscriptions;
  }

  // ---------------------------------------------------------------------------------------
  // Whom the removals leave
  // ---------------------------------------------------------------------------------------

  lemma ClientLeaves(s: State, clientId: string)
    ensures Without(s, OfClient(s, clientId)).subscriptions ==
            map id | id in s.subscriptions && s.subscriptions[id].clientId != clientId :: s.subscriptions[id]
  {}

  lemma InactiveLeave(s: State, cutoff: real)
    ensures Without(s, InactiveSince(s, cutoff)).subscriptions ==
            map id | id in s.subscriptions && s.subscriptions[id].lastActive >= cutoff :: s.subscriptions[id]
    ensures |InactiveSince(s, cutoff)| == |s.subscriptions| - |Without(s, InactiveSince(s, cutoff)).subscriptions|
  {
    RemovedCount(s.subscriptions, Without(s, InactiveSince(s, cutoff)).subscriptions, InactiveSince(s, cutoff));
  }

  lemma RemovedCount(subs: map<Id, Subscription>, left: map<Id, Subscription>, gone: set<Id>)
    requires gone <= subs.Keys && left == subs - gone
    ensures |gone| == |subs| - |left|
  {
    assert subs.Keys == left.Keys + gone;
    assert |subs.Keys| == |subs| && |left.Keys| == |left|;
  }

  // ---------------------------------------------------------------------------------------
  // When a subscription is accepted
  // ---------------------------------------------------------------------------------------

  lemma {:induction false} DistinctLength(ids: seq<Id>)
    requires NoDuplicates(ids)
    ensures |ids| == |Members(ids)|
  {
    if ids != [] {
      DistinctLength(ids[1..]);
      assert ids[0] !in ids[1..];
      assert Members(ids) == Members(ids[1..]) + {ids[0]};
    }
  }

  /** A subscription is accepted exactly if its client has fewer than the allowed number of live ones
      and the method is one of the five; being over the limit is found first. */
  lemma AcceptedIff(s: State, sub: Subscription)
    requires Inv(s)
    ensures var held := |set id | id in s.subscriptions && s.subscriptions[id].clientId == sub.clientId|;
            var (s', r) := Subscribing(s, sub);
            && (held >= s.maxPerClient ==> r == LimitReached && s' == s)
            && var known := sub.topic == "resources/subscribe" || sub.topic == "resources/subscribeList"
                            || sub.topic == "tools/subscribe" || sub.topic == "prompts/subscribe"
                            || sub.topic == "roots/subscribe";
               && (held < s.maxPerClient && !known ==> r == UnsupportedMethod && s' == s)
               && (held < s.maxPerClient && known ==>
                     r == Subscribed(sub) && s'.subscriptions == s.subscriptions[sub.id := sub])
  {
    var ids := Get(s.byClient, sub.clientId);
    var held := set id | id in s.subscriptions && s.subscriptions[id].clientId == sub.clientId;
    forall id ensures id in held <==> id in Members(ids) {
      if id in held {
        assert Key(Client, s.subscriptions[id]) == sub.clientId;
      }
    }
    assert held == Members(ids);
    DistinctLength(ids);
  }
}
