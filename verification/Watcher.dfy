/** The plugin watcher: each scan compares the plugin directory with the remembered manifests
    and edits the registry incrementally. */
module Watcher {
  import opened Wrappers
  import opened Registry

  type PluginId = string

  /** One declared tool, resource or prompt. */
  datatype Decl = Decl(name: string, payload: nat)

  /** `meta` stands for the fields of a manifest that the registry does not see. */
  datatype Manifest = Manifest(tools: seq<Decl>, resources: seq<Decl>, prompts: seq<Decl>,
                               tags: seq<string>, meta: nat)

  datatype Item = Item(key: Key, payload: nat)

  function Keyed(category: Category, decls: seq<Decl>): seq<Item> {
    if decls == [] then [] else [Item(Key(category, decls[0].name), decls[0].payload)] + Keyed(category, decls[1..])
  }

  /** What a manifest declares, in the order the watcher registers it. */
  function Items(m: Manifest): seq<Item> {
    Keyed(Tool, m.tools) + Keyed(Resource, m.resources) + Keyed(Prompt, m.prompts)
  }

  /** The outside world during a scan: the handlers that can be loaded, by tool name, and the
      tools whose subprocess cannot be killed. */
  datatype Environment = Environment(loads: map<string, nat>, stuck: set<string>)

  /** A manifest file found by a scan, and its contents if it could be read and parsed. */
  datatype Found = Found(id: PluginId, manifest: Option<Manifest>)

  /** Registry, loaded handlers and remembered manifests. */
  datatype World = World(reg: State, handlers: map<string, nat>, plugins: map<PluginId, Manifest>)

  function Source(id: PluginId): string { "plugin:" + id }

  /** LoadHandler and GetHandler for a tool; other items have no handler. */
  function Load(handlers: map<string, nat>, key: Key, env: Environment): (map<string, nat>, Option<nat>) {
    if key.category == Tool && key.name !in handlers && key.name in env.loads
    then (handlers[key.name := env.loads[key.name]], Some(env.loads[key.name]))
    else (handlers, None)
  }

  function Unload(handlers: map<string, nat>, key: Key, env: Environment): map<string, nat> {
    if key.category == Tool && key.name !in env.stuck then handlers - {key.name} else handlers
  }

  /** registerPlugin: stops at the first item the registry refuses. */
  function RegisterItems(w: World, items: seq<Item>, source: string, tags: seq<string>, env: Environment)
    : (World, bool)
    decreases |items|
  {
    if items == [] then (w, true) else
    var (handlers, h) := Load(w.handlers, items[0].key, env);
    var (reg, ok) := Register(w.reg, items[0].key, Info(items[0].payload, h, true, source, tags));
    var w' := w.(reg := reg, handlers := handlers);
    if ok then RegisterItems(w', items[1..], source, tags, env) else (w', false)
  }

  /** unregisterPlugin: carries on past items that are not registered. */
  function UnregisterItems(w: World, items: seq<Item>, env: Environment): World
    decreases |items|
  {
    if items == [] then w else
    UnregisterItems(w.(reg := Unregister(w.reg, items[0].key).0, handlers := Unload(w.handlers, items[0].key, env)),
                    items[1..], env)
  }

  function UnregisterPlugin(w: World, id: PluginId, env: Environment): World {
    if id in w.plugins then UnregisterItems(w, Items(w.plugins[id]), env) else w
  }

  function Remember(w: World, ok: bool, id: PluginId, m: Manifest): World {
    if ok then w.(plugins := w.plugins[id := m]) else w
  }

  /** One manifest file of a scan. */
  function ProcessFound(w: World, f: Found, env: Environment): World {
    match f.manifest
    case None => w
    case Some(m) =>
      if f.id in w.plugins && w.plugins[f.id] == m then w else
      var w' := UnregisterPlugin(w, f.id, env);
      var (w'', ok) := RegisterItems(w', Items(m), Source(f.id), m.tags, env);
      Remember(w'', ok, f.id, m)
  }

  function ProcessAll(w: World, listing: seq<Found>, env: Environment): World
    decreases |listing|
  {
    if listing == [] then w else ProcessAll(ProcessFound(w, listing[0], env), listing[1..], env)
  }

  function Forget(w: World, id: PluginId, env: Environment): World {
    var w' := UnregisterPlugin(w, id, env);
    w'.(plugins := w'.plugins - {id})
  }

  function ForgetAll(w: World, order: seq<PluginId>, env: Environment): World
    decreases |order|
  {
    if order == [] then w else ForgetAll(Forget(w, order[0], env), order[1..], env)
  }

  function SeenIds(listing: seq<Found>): set<PluginId> {
    set f | f in listing :: f.id
  }

  /** A whole scan, the plugins that are gone being forgotten in the given order. */
  function Scanned(w: World, listing: seq<Found>, env: Environment, order: seq<PluginId>): World {
    ForgetAll(ProcessAll(w, listing, env), order, env)
  }

  ghost predicate EachOnce(order: seq<PluginId>, ids: set<PluginId>) {
    && (forall i, j :: 0 <= i < j < |order| ==> order[i] != order[j])
    && (forall id :: id in order <==> id in ids)
  }

  /** The order is one of the plugins remembered but no longer seen. */
  ghost predicate IsForgetOrder(w: World, listing: seq<Found>, env: Environment, order: seq<PluginId>) {
    EachOnce(order, ProcessAll(w, listing, env).plugins.Keys - SeenIds(listing))
  }

  class PluginWatcher {
    const registry: RegistryObject
    var handlers: map<string, nat>
    var plugins: map<PluginId, Manifest>

    ghost function View(): World
      reads this, registry
    {
      World(registry.View(), handlers, plugins)
    }

    constructor (registry: RegistryObject)
      ensures this.registry == registry && handlers == map[] && plugins == map[]
    {
      this.registry := registry;
      handlers, plugins := map[], map[];
    }

    method LoadHandler(key: Key, env: Environment) returns (h: Option<nat>)
      modifies `handlers
      ensures (handlers, h) == Load(old(handlers), key, env)
    {
      if key.category != Tool || key.name in handlers || key.name !in env.loads {
        return None;
      }
      handlers := handlers[key.name := env.loads[key.name]];
      return Some(handlers[key.name]);
    }

    method UnloadHandler(key: Key, env: Environment)
      modifies `handlers
      ensures handlers == Unload(old(handlers), key, env)
    {
      if key.category == Tool && key.name in handlers && key.name !in env.stuck {
        handlers := handlers - {key.name};
      }
    }

    method RegisterPlugin(id: PluginId, m: Manifest, env: Environment) returns (ok: bool)
      requires registry.Valid()
      modifies `handlers, registry
      ensures registry.Valid()
      ensures (View(), ok) == RegisterItems(old(View()), Items(m), Source(id), m.tags, env)
    {
      var source, items := Source(id), Items(m);
      for i := 0 to |items|
        invariant registry.Valid() && plugins == old(plugins)
        invariant RegisterItems(View(), items[i..], source, m.tags, env)
               == RegisterItems(old(View()), items, source, m.tags, env)
      {
        assert items[i..][1..] == items[i + 1..];
        var h := LoadHandler(items[i].key, env);
        ok := registry.RegisterItem(items[i].key, Info(items[i].payload, h, true, source, m.tags));
        if !ok {
          return;
        }
      }
      assert items[|items|..] == [];
      return true;
    }

    method UnregisterAll(id: PluginId, env: Environment)
      requires registry.Valid()
      modifies `handlers, registry
      ensures registry.Valid() && View() == UnregisterPlugin(old(View()), id, env)
    {
      if id !in plugins {
        return;
      }
      var items := Items(plugins[id]);
      for i := 0 to |items|
        invariant registry.Valid() && plugins == old(plugins)
        invariant UnregisterItems(View(), items[i..], env) == UnregisterItems(old(View()), items, env)
      {
        assert items[i..][1..] == items[i + 1..];
        UnloadHandler(items[i].key, env);
        var _ := registry.UnregisterItem(items[i].key);
      }
      assert items[|items|..] == [];
    }

    /** One turn of the first loop of scan. */
    method Process(f: Found, env: Environment)
      requires registry.Valid()
      modifies this, registry
      ensures registry.Valid() && View() == ProcessFound(old(View()), f, env)
    {
      if f.manifest == None {
        return;
      }
      var m := f.manifest.value;
      var ok := true;
      if f.id !in plugins {
        ok := RegisterPlugin(f.id, m, env);
      } else if plugins[f.id] != m {
        UnregisterAll(f.id, env);
        ok := RegisterPlugin(f.id, m, env);
      }
      if ok {
        plugins := plugins[f.id := m];
      }
    }

    method ProcessListing(listing: seq<Found>, env: Environment) returns (seen: set<PluginId>)
      requires registry.Valid()
      modifies this, registry
      ensures registry.Valid() && View() == ProcessAll(old(View()), listing, env)
      ensures seen == SeenIds(listing)
    {
      seen := {};
      for i := 0 to |listing|
        invariant registry.Valid() && seen == SeenIds(listing[..i])
        invariant ProcessAll(View(), listing[i..], env) == ProcessAll(old(View()), listing, env)
      {
        assert listing[i..][1..] == listing[i + 1..];
        assert listing[..i + 1] == listing[..i] + [listing[i]];
        seen := seen + {listing[i].id};
        Process(listing[i], env);
      }
      assert listing[|listing|..] == [] && listing[..|listing|] == listing;
    }

    method ForgetUnseen(seen: set<PluginId>, env: Environment) returns (ghost order: seq<PluginId>)
      requires registry.Valid()
      modifies this, registry
      ensures registry.Valid() && EachOnce(order, old(plugins).Keys - seen)
      ensures View() == ForgetAll(old(View()), order, env)
    {
      order := [];
      var left := plugins.Keys;
      while left != {}
        invariant registry.Valid() && left <= old(plugins).Keys
        invariant EachOnce(order, old(plugins).Keys - left - seen)
        invariant View() == ForgetAll(old(View()), order, env)
        decreases left
      {
        var id :| id in left;
        if id !in seen {
          ForgetLast(old(View()), order, id, env);
          EachOnceAppend(order, old(plugins).Keys - left - seen, id);
          UnregisterAll(id, env);
          plugins := plugins - {id};
          order := order + [id];
        }
        assert old(plugins).Keys - (left - {id}) - seen
               == old(plugins).Keys - left - seen + if id in seen then {} else {id};
        left := left - {id};
      }
    }

    /** A scan.  A directory that cannot be listed is an error and changes nothing. */
    method Scan(listing: Option<seq<Found>>, env: Environment) returns (ok: bool, ghost order: seq<PluginId>)
      requires registry.Valid()
      modifies this, registry
      ensures registry.Valid() && (ok <==> listing.Some?)
      ensures ok ==> IsForgetOrder(old(View()), listing.value, env, order)
                     && View() == Scanned(old(View()), listing.value, env, order)
      ensures !ok ==> View() == old(View())
    {
      if listing == None {
        return false, [];
      }
      var seen := ProcessListing(listing.value, env);
      order := ForgetUnseen(seen, env);
      return true, order;
    }
  }

  lemma {:induction false} ForgetLast(w: World, order: seq<PluginId>, id: PluginId, env: Environment)
    ensures ForgetAll(w, order + [id], env) == Forget(ForgetAll(w, order, env), id, env)
    decreases |order|
  {
    if order != [] {
      assert (order + [id])[1..] == order[1..] + [id];
      ForgetLast(Forget(w, order[0], env), order[1..], id, env);
    }
  }

  lemma {:induction false} KeyedInOrder(category: Category, decls: seq<Decl>)
    ensures |Keyed(category, decls)| == |decls|
    ensures forall i :: 0 <= i < |decls| ==>
        Keyed(category, decls)[i] == Item(Key(category, decls[i].name), decls[i].payload)
    decreases |decls|
  {
    if decls != [] {
      KeyedInOrder(category, decls[1..]);
    }
  }

  lemma EachOnceAppend(order: seq<PluginId>, ids: set<PluginId>, id: PluginId)
    requires EachOnce(order, ids) && id !in ids
    ensures EachOnce(order + [id], ids + {id})
  {}

  // ---------------------------------------------------------------------------------------
  // Incremental edits agree with rebuilding
  // ---------------------------------------------------------------------------------------

  /** What a registry entry says about where it came from. */
  datatype Entry = Entry(payload: nat, source: string, tags: seq<string>)

  function Actual(reg: State, key: Key): Option<Entry> {
    if key in reg.items then Some(Entry(reg.items[key].payload, reg.items[key].source, reg.items[key].tags)) else None
  }

  function Find(items: seq<Item>, key: Key): Option<nat> {
    if items == [] then None else if items[0].key == key then Some(items[0].payload) else Find(items[1..], key)
  }

  function EntryOf(id: PluginId, m: Manifest, key: Key): Option<Entry> {
    match Find(Items(m), key)
    case None => None
    case Some(payload) => Some(Entry(payload, Source(id), m.tags))
  }

  /** What the remembered manifest of one plugin says about a key. */
  function Expected(plugins: map<PluginId, Manifest>, id: PluginId, key: Key): Option<Entry> {
    if id in plugins then EntryOf(id, plugins[id], key) else None
  }

  /** Who may declare a key; a key without an owner is left to registration by hand. */
  type Ownership = Key -> Option<PluginId>

  ghost predicate DistinctKeys(items: seq<Item>) {
    forall i, j :: 0 <= i < j < |items| ==> items[i].key != items[j].key
  }

  /** A manifest declares only keys of its plugin, each once. */
  ghost predicate Owned(owner: Ownership, id: PluginId, m: Manifest) {
    && DistinctKeys(Items(m))
    && forall k :: 0 <= k < |Items(m)| ==> owner(Items(m)[k].key) == Some(id)
  }

  ghost predicate OwnedListing(owner: Ownership, listing: seq<Found>) {
    forall k :: 0 <= k < |listing| && listing[k].manifest.Some? ==>
      Owned(owner, listing[k].id, listing[k].manifest.value)
  }

  /** The registry's entries under owned keys are exactly the union of the remembered manifests. */
  ghost predicate Agrees(owner: Ownership, w: World) {
    && (forall id :: id in w.plugins ==> Owned(owner, id, w.plugins[id]))
    && (forall key: Key :: owner(key).Some? ==> Actual(w.reg, key) == Expected(w.plugins, owner(key).value, key))
  }

  lemma {:induction false} FindSome(items: seq<Item>, key: Key)
    ensures Find(items, key).Some? <==> exists k :: 0 <= k < |items| && items[k].key == key
    decreases |items|
  {
    if items != [] {
      FindSome(items[1..], key);
      if Find(items, key).Some? && items[0].key != key {
        var k :| 0 <= k < |items[1..]| && items[1..][k].key == key;
        assert items[k + 1].key == key;
      }
      if exists k :: 0 < k < |items| && items[k].key == key {
        var k :| 0 < k < |items| && items[k].key == key;
        assert items[1..][k - 1].key == key;
      }
    }
  }

  /** Registering fresh, distinct items succeeds, adds exactly them, and emits one event each. */
  lemma {:induction false} RegisterItemsEffect(w: World, items: seq<Item>, source: string, tags: seq<string>,
                                               env: Environment)
    requires DistinctKeys(items) && forall k :: 0 <= k < |items| ==> items[k].key !in w.reg.items
    ensures var (w', ok) := RegisterItems(w, items, source, tags, env);
            && ok && w'.plugins == w.plugins
            && |w'.reg.log| == |w.reg.log| + |items|
            && (forall key :: Actual(w'.reg, key) == match Find(items, key)
                  case None => Actual(w.reg, key)
                  case Some(payload) => Some(Entry(payload, source, tags)))
    decreases |items|
  {
    if items != [] {
      var (handlers, h) := Load(w.handlers, items[0].key, env);
      var (reg, ok) := Register(w.reg, items[0].key, Info(items[0].payload, h, true, source, tags));
      assert items[0].key !in w.reg.items;
      RegisterItemsEffect(w.(reg := reg, handlers := handlers), items[1..], source, tags, env);
      FindSome(items[1..], items[0].key);
    }
  }

  /** Unregistering removes exactly the items; one event for each that was there. */
  lemma {:induction false} UnregisterItemsEffect(w: World, items: seq<Item>, env: Environment)
    ensures var w' := UnregisterItems(w, items, env);
            && w'.plugins == w.plugins
            && (forall key :: Actual(w'.reg, key) == if Find(items, key).Some? then None else Actual(w.reg, key))
            && (DistinctKeys(items) && (forall k :: 0 <= k < |items| ==> items[k].key in w.reg.items) ==>
                  |w'.reg.log| == |w.reg.log| + |items|)
    decreases |items|
  {
    if items != [] {
      var w1 := w.(reg := Unregister(w.reg, items[0].key).0, handlers := Unload(w.handlers, items[0].key, env));
      UnregisterItemsEffect(w1, items[1..], env);
      if DistinctKeys(items) && (forall k :: 0 <= k < |items| ==> items[k].key in w.reg.items) {
        assert forall k :: 0 <= k < |items[1..]| ==> items[1..][k] == items[k + 1];
      }
    }
  }

  /** The events one manifest file costs. */
  function Churn(plugins: map<PluginId, Manifest>, f: Found): nat {
    if f.manifest == None || (f.id in plugins && plugins[f.id] == f.manifest.value) then 0 else
    (if f.id in plugins then |Items(plugins[f.id])| else 0) + |Items(f.manifest.value)|
  }

  function Learned(plugins: map<PluginId, Manifest>, f: Found): map<PluginId, Manifest> {
    match f.manifest case None => plugins case Some(m) => plugins[f.id := m]
  }

  lemma OwnedKeysExpected(owner: Ownership, w: World, id: PluginId, m: Manifest, key: Key)
    requires Owned(owner, id, m) && owner(key) != Some(id)
    ensures Find(Items(m), key) == None
  {
    FindSome(Items(m), key);
  }

  lemma UnregisterPluginEffect(owner: Ownership, w: World, id: PluginId, env: Environment)
    requires Agrees(owner, w)
    ensures var w' := UnregisterPlugin(w, id, env);
            && w'.plugins == w.plugins
            && (forall key :: Actual(w'.reg, key) == if owner(key) == Some(id) then None else Actual(w.reg, key))
            && |w'.reg.log| == |w.reg.log| + if id in w.plugins then |Items(w.plugins[id])| else 0
  {
    var w' := UnregisterPlugin(w, id, env);
    if id in w.plugins {
      var items := Items(w.plugins[id]);
      UnregisterItemsEffect(w, items, env);
      forall k | 0 <= k < |items| ensures items[k].key in w.reg.items {
        FindSome(items, items[k].key);
        assert Actual(w.reg, items[k].key) == Expected(w.plugins, id, items[k].key);
      }
      forall key ensures Actual(w'.reg, key) == if owner(key) == Some(id) then None else Actual(w.reg, key) {
        if owner(key) == Some(id) {
          assert Actual(w.reg, key) == Expected(w.plugins, id, key);
        } else {
          OwnedKeysExpected(owner, w, id, w.plugins[id], key);
        }
      }
    } else {
      assert forall key: Key :: owner(key) == Some(id) ==> Actual(w.reg, key) == None;
    }
  }

  lemma NothingNew(w: World, f: Found, env: Environment)
    requires f.manifest == None || (f.id in w.plugins && w.plugins[f.id] == f.manifest.value)
    ensures ProcessFound(w, f, env) == w && Learned(w.plugins, f) == w.plugins && Churn(w.plugins, f) == 0
  {
    if f.manifest.Some? {
      assert w.plugins[f.id := f.manifest.value] == w.plugins;
    }
  }

  lemma SomethingNew(owner: Ownership, w: World, id: PluginId, m: Manifest, env: Environment)
    requires Agrees(owner, w) && Owned(owner, id, m) && !(id in w.plugins && w.plugins[id] == m)
    ensures var f := Found(id, Some(m));
            var w' := ProcessFound(w, f, env);
            && Agrees(owner, w') && w'.plugins == Learned(w.plugins, f)
            && |w'.reg.log| == |w.reg.log| + Churn(w.plugins, f)
            && (forall key :: owner(key) == None ==> Actual(w'.reg, key) == Actual(w.reg, key))
  {
    ReplacePlugin(owner, w, id, m, env);
    var (w2, ok) := RegisterItems(UnregisterPlugin(w, id, env), Items(m), Source(id), m.tags, env);
    assert ProcessFound(w, Found(id, Some(m)), env) == w2.(plugins := w2.plugins[id := m]);
  }

  /** One manifest file keeps the agreement, is remembered if it was readable, touches no key of
      another owner, and costs exactly its churn in events. */
  lemma ProcessFoundAgrees(owner: Ownership, w: World, f: Found, env: Environment)
    requires Agrees(owner, w) && (f.manifest.Some? ==> Owned(owner, f.id, f.manifest.value))
    ensures var w' := ProcessFound(w, f, env);
            && Agrees(owner, w') && w'.plugins == Learned(w.plugins, f)
            && |w'.reg.log| == |w.reg.log| + Churn(w.plugins, f)
            && (forall key :: owner(key) == None ==> Actual(w'.reg, key) == Actual(w.reg, key))
  {
    if f.manifest == None || (f.id in w.plugins && w.plugins[f.id] == f.manifest.value) {
      NothingNew(w, f, env);
    } else {
      SomethingNew(owner, w, f.id, f.manifest.value, env);
    }
  }

  lemma ReplacePlugin(owner: Ownership, w: World, id: PluginId, m: Manifest, env: Environment)
    requires Agrees(owner, w) && Owned(owner, id, m)
    ensures var w1 := UnregisterPlugin(w, id, env);
            var (w2, ok) := RegisterItems(w1, Items(m), Source(id), m.tags, env);
            var w' := w2.(plugins := w2.plugins[id := m]);
            && ok && w2.plugins == w.plugins && Agrees(owner, w')
            && |w2.reg.log| == |w.reg.log| + (if id in w.plugins then |Items(w.plugins[id])| else 0) + |Items(m)|
            && (forall key :: owner(key) == None ==> Actual(w2.reg, key) == Actual(w.reg, key))
  {
    var w1 := UnregisterPlugin(w, id, env);
    UnregisterPluginEffect(owner, w, id, env);
    forall k | 0 <= k < |Items(m)| ensures Items(m)[k].key !in w1.reg.items {
      assert Actual(w1.reg, Items(m)[k].key) == None;
    }
    RegisterItemsEffect(w1, Items(m), Source(id), m.tags, env);
    var w2 := RegisterItems(w1, Items(m), Source(id), m.tags, env).0;
    var plugins' := w2.plugins[id := m];
    forall key: Key | owner(key).Some?
      ensures Actual(w2.reg, key) == Expected(plugins', owner(key).value, key)
    {
      if owner(key) != Some(id) {
        OwnedKeysExpected(owner, w, id, m, key);
      }
    }
    forall key | owner(key) == None ensures Actual(w2.reg, key) == Actual(w.reg, key) {
      OwnedKeysExpected(owner, w, id, m, key);
    }
  }

  // ---------------------------------------------------------------------------------------
  // Whole scans
  // ---------------------------------------------------------------------------------------

  function LearnedAll(plugins: map<PluginId, Manifest>, listing: seq<Found>): map<PluginId, Manifest>
    decreases |listing|
  {
    if listing == [] then plugins else LearnedAll(Learned(plugins, listing[0]), listing[1..])
  }

  function TotalChurn(plugins: map<PluginId, Manifest>, listing: seq<Found>): nat
    decreases |listing|
  {
    if listing == [] then 0
    else Churn(plugins, listing[0]) + TotalChurn(Learned(plugins, listing[0]), listing[1..])
  }

  lemma {:induction false} ProcessAllAgrees(owner: Ownership, w: World, listing: seq<Found>, env: Environment)
    requires Agrees(owner, w) && OwnedListing(owner, listing)
    ensures var w' := ProcessAll(w, listing, env);
            && Agrees(owner, w') && w'.plugins == LearnedAll(w.plugins, listing)
            && |w'.reg.log| == |w.reg.log| + TotalChurn(w.plugins, listing)
            && (forall key :: owner(key) == None ==> Actual(w'.reg, key) == Actual(w.reg, key))
    decreases |listing|
  {
    if listing != [] {
      ProcessFoundAgrees(owner, w, listing[0], env);
      ProcessAllAgrees(owner, ProcessFound(w, listing[0], env), listing[1..], env);
    }
  }

  lemma ForgetAgrees(owner: Ownership, w: World, id: PluginId, env: Environment)
    requires Agrees(owner, w)
    ensures var w' := Forget(w, id, env);
            && Agrees(owner, w') && w'.plugins == w.plugins - {id}
            && (forall key :: owner(key) == None ==> Actual(w'.reg, key) == Actual(w.reg, key))
  {
    UnregisterPluginEffect(owner, w, id, env);
  }

  lemma {:induction false} ForgetAllAgrees(owner: Ownership, w: World, order: seq<PluginId>, env: Environment)
    requires Agrees(owner, w)
    ensures var w' := ForgetAll(w, order, env);
            && Agrees(owner, w') && w'.plugins == w.plugins - (set id | id in order)
            && (forall key :: owner(key) == None ==> Actual(w'.reg, key) == Actual(w.reg, key))
    decreases |order|
  {
    if order == [] {
      assert w.plugins - (set id | id in order) == w.plugins;
    } else {
      ForgetAgrees(owner, w, order[0], env);
      ForgetAllAgrees(owner, Forget(w, order[0], env), order[1..], env);
      assert (set id | id in order) == {order[0]} + set id | id in order[1..];
    }
  }

  /** The last readable manifest a listing has for a plugin. */
  function LastReadable(listing: seq<Found>, id: PluginId): Option<Manifest> {
    if listing == [] then None else
    var later := LastReadable(listing[1..], id);
    if later.Some? then later else if listing[0].id == id then listing[0].manifest else None
  }

  /** What is remembered after a scan: the loaded manifest where readable, the previous one where
      present but unreadable, nothing where the directory is gone. */
  function Remembered(plugins: map<PluginId, Manifest>, listing: seq<Found>): map<PluginId, Manifest> {
    map id | id in SeenIds(listing) && (LastReadable(listing, id).Some? || id in plugins) ::
      if LastReadable(listing, id).Some? then LastReadable(listing, id).value else plugins[id]
  }

  lemma {:induction false} LearnedAllLookup(plugins: map<PluginId, Manifest>, listing: seq<Found>, id: PluginId)
    ensures id in LearnedAll(plugins, listing) <==> LastReadable(listing, id).Some? || id in plugins
    ensures id in LearnedAll(plugins, listing) ==>
              LearnedAll(plugins, listing)[id]
              == if LastReadable(listing, id).Some? then LastReadable(listing, id).value else plugins[id]
    decreases |listing|
  {
    if listing != [] {
      LearnedAllLookup(Learned(plugins, listing[0]), listing[1..], id);
    }
  }

  lemma LearnedThenForgotten(plugins: map<PluginId, Manifest>, listing: seq<Found>, order: seq<PluginId>)
    requires EachOnce(order, LearnedAll(plugins, listing).Keys - SeenIds(listing))
    ensures LearnedAll(plugins, listing) - (set id | id in order) == Remembered(plugins, listing)
  {
    forall id ensures id in LearnedAll(plugins, listing) <==> LastReadable(listing, id).Some? || id in plugins
      ensures id in LearnedAll(plugins, listing) ==>
                LearnedAll(plugins, listing)[id]
                == if LastReadable(listing, id).Some? then LastReadable(listing, id).value else plugins[id]
    {
      LearnedAllLookup(plugins, listing, id);
    }
  }

  /** A scan over any directory state keeps the agreement, and remembers what it should. */
  lemma ScanAgrees(owner: Ownership, w: World, listing: seq<Found>, env: Environment, order: seq<PluginId>)
    requires Agrees(owner, w) && OwnedListing(owner, listing) && IsForgetOrder(w, listing, env, order)
    ensures var w' := Scanned(w, listing, env, order);
            && Agrees(owner, w') && w'.plugins == Remembered(w.plugins, listing)
            && (forall key :: owner(key) == None ==> Actual(w'.reg, key) == Actual(w.reg, key))
  {
    ProcessAllAgrees(owner, w, listing, env);
    ForgetAllAgrees(owner, ProcessAll(w, listing, env), order, env);
    LearnedThenForgotten(w.plugins, listing, order);
  }

  // ---------------------------------------------------------------------------------------
  // Runs of scans and registrations by hand
  // ---------------------------------------------------------------------------------------

  datatype Step = ScanStep(listing: seq<Found>, env: Environment, order: seq<PluginId>) | HandStep(op: Op)

  /** Manifests keep to their plugin's keys, and nobody else registers or unregisters those. */
  ghost predicate Legal(owner: Ownership, w: World, step: Step) {
    match step
    case ScanStep(listing, env, order) => OwnedListing(owner, listing) && IsForgetOrder(w, listing, env, order)
    case HandStep(op) => op.DoRegister? || op.DoUnregister? ==> owner(op.key) == None
  }

  function ApplyStep(w: World, step: Step): World {
    match step
    case ScanStep(listing, env, order) => Scanned(w, listing, env, order)
    case HandStep(op) => w.(reg := Apply(w.reg, op))
  }

  ghost predicate LegalRun(owner: Ownership, w: World, steps: seq<Step>)
    decreases |steps|
  {
    steps == [] || (Legal(owner, w, steps[0]) && LegalRun(owner, ApplyStep(w, steps[0]), steps[1..]))
  }

  function AfterSteps(w: World, steps: seq<Step>): World
    decreases |steps|
  {
    if steps == [] then w else AfterSteps(ApplyStep(w, steps[0]), steps[1..])
  }

  /** The manifests that should be remembered after a run. */
  function RememberedAfter(plugins: map<PluginId, Manifest>, steps: seq<Step>): map<PluginId, Manifest>
    decreases |steps|
  {
    if steps == [] then plugins else
    RememberedAfter(if steps[0].ScanStep? then Remembered(plugins, steps[0].listing) else plugins, steps[1..])
  }

  const NOTHING := World(EMPTY, map[], map[])

  lemma HandStepAgrees(owner: Ownership, w: World, op: Op)
    requires Agrees(owner, w) && Legal(owner, w, HandStep(op))
    ensures Agrees(owner, ApplyStep(w, HandStep(op)))
  {
    var w' := ApplyStep(w, HandStep(op));
    forall key: Key | owner(key).Some? ensures Actual(w'.reg, key) == Actual(w.reg, key) {}
  }

  lemma {:induction false} RunAgrees(owner: Ownership, w: World, steps: seq<Step>)
    requires Agrees(owner, w) && LegalRun(owner, w, steps)
    ensures Agrees(owner, AfterSteps(w, steps))
    ensures AfterSteps(w, steps).plugins == RememberedAfter(w.plugins, steps)
    decreases |steps|
  {
    if steps != [] {
      match steps[0] {
        case ScanStep(listing, env, order) => ScanAgrees(owner, w, listing, env, order);
        case HandStep(op) => HandStepAgrees(owner, w, op);
      }
      RunAgrees(owner, ApplyStep(w, steps[0]), steps[1..]);
    }
  }

  /** Starting over: register the remembered manifests, in some order, in an empty registry. */
  function Rebuilt(plugins: map<PluginId, Manifest>, order: seq<PluginId>, env: Environment): World
    requires forall id <- order :: id in plugins
  {
    ProcessAll(NOTHING, ListingOf(plugins, order), env)
  }

  function ListingOf(plugins: map<PluginId, Manifest>, order: seq<PluginId>): seq<Found>
    requires forall id <- order :: id in plugins
  {
    if order == [] then [] else [Found(order[0], Some(plugins[order[0]]))] + ListingOf(plugins, order[1..])
  }

  function Picked(plugins: map<PluginId, Manifest>, order: seq<PluginId>): map<PluginId, Manifest> {
    map id | id in order && id in plugins :: plugins[id]
  }

  lemma {:induction false} LearnedFromListing(known: map<PluginId, Manifest>, plugins: map<PluginId, Manifest>,
                                              order: seq<PluginId>)
    requires forall id <- order :: id in plugins
    ensures LearnedAll(known, ListingOf(plugins, order)) == known + Picked(plugins, order)
    decreases |order|
  {
    if order == [] {
      assert known + Picked(plugins, order) == known;
    } else {
      var next := known[order[0] := plugins[order[0]]];
      LearnedFromListing(next, plugins, order[1..]);
      assert next + Picked(plugins, order[1..]) == known + Picked(plugins, order);
    }
  }

  lemma {:induction false} ListingOwned(owner: Ownership, plugins: map<PluginId, Manifest>, order: seq<PluginId>)
    requires forall id <- order :: id in plugins
    requires forall id :: id in plugins ==> Owned(owner, id, plugins[id])
    ensures OwnedListing(owner, ListingOf(plugins, order))
    decreases |order|
  {
    if order != [] {
      ListingOwned(owner, plugins, order[1..]);
      var listing := ListingOf(plugins, order);
      assert listing == [Found(order[0], Some(plugins[order[0]]))] + ListingOf(plugins, order[1..]);
      assert forall k :: 0 < k < |listing| ==> listing[k] == ListingOf(plugins, order[1..])[k - 1];
    }
  }

  lemma NothingAgrees(owner: Ownership)
    ensures Agrees(owner, NOTHING)
  {}

  lemma RebuiltAgrees(owner: Ownership, plugins: map<PluginId, Manifest>, order: seq<PluginId>, env: Environment)
    requires forall id :: id in plugins ==> Owned(owner, id, plugins[id])
    requires EachOnce(order, plugins.Keys)
    ensures Agrees(owner, Rebuilt(plugins, order, env)) && Rebuilt(plugins, order, env).plugins == plugins
  {
    var listing := ListingOf(plugins, order);
    assert Agrees(owner, ProcessAll(NOTHING, listing, env))
           && ProcessAll(NOTHING, listing, env).plugins == LearnedAll(map[], listing) by {
      NothingAgrees(owner);
      ListingOwned(owner, plugins, order);
      ProcessAllAgrees(owner, NOTHING, listing, env);
    }
    LearnedFromListing(map[], plugins, order);
    assert Picked(plugins, order) == plugins;
  }

  lemma SameEntries(owner: Ownership, w: World, w': World, key: Key)
    requires Agrees(owner, w) && Agrees(owner, w') && w.plugins == w'.plugins && owner(key).Some?
    ensures Actual(w.reg, key) == Actual(w'.reg, key)
  {}

  /** The main result: after any run of scans over any directory states, with registrations by
      hand in between, the entries under plugin-owned keys are exactly those of a registry rebuilt
      from the manifests that should be remembered. */
  lemma IncrementalEqualsRebuild(owner: Ownership, steps: seq<Step>, order: seq<PluginId>, env: Environment, key: Key)
    requires LegalRun(owner, NOTHING, steps)
    requires EachOnce(order, RememberedAfter(map[], steps).Keys) && owner(key).Some?
    ensures AfterSteps(NOTHING, steps).plugins == RememberedAfter(map[], steps)
    ensures Actual(AfterSteps(NOTHING, steps).reg, key)
         == Actual(Rebuilt(RememberedAfter(map[], steps), order, env).reg, key)
  {
    NothingAgrees(owner);
    RunAgrees(owner, NOTHING, steps);
    RebuiltAgrees(owner, RememberedAfter(map[], steps), order, env);
    SameEntries(owner, AfterSteps(NOTHING, steps), Rebuilt(RememberedAfter(map[], steps), order, env), key);
  }

  // ---------------------------------------------------------------------------------------
  // Scanning an unchanged directory again
  // ---------------------------------------------------------------------------------------

  /** Replacing one by the other emits nothing: they are equal or neither declares anything. */
  predicate Similar(a: Manifest, b: Manifest) {
    a == b || (Items(a) == [] && Items(b) == [])
  }

  /** The readable manifests found under one id are alike.  Two can be found when a plugin
      directory bears the name of the directory that is watched. */
  predicate Steady(listing: seq<Found>) {
    forall i, j :: 0 <= i < j < |listing| && listing[i].id == listing[j].id
                   && listing[i].manifest.Some? && listing[j].manifest.Some? ==>
      Similar(listing[i].manifest.value, listing[j].manifest.value)
  }

  ghost predicate AllSimilar(plugins: map<PluginId, Manifest>, listing: seq<Found>) {
    forall k :: 0 <= k < |listing| && listing[k].manifest.Some? ==>
      listing[k].id in plugins && Similar(plugins[listing[k].id], listing[k].manifest.value)
  }

  /** A file that costs nothing leaves something similar remembered. */
  lemma QuietFileLearned(plugins: map<PluginId, Manifest>, f: Found, rest: seq<Found>)
    requires Churn(plugins, f) == 0 && (f.manifest.Some? ==> f.id in plugins)
    ensures f.manifest.Some? ==> Similar(plugins[f.id], f.manifest.value)
    ensures AllSimilar(Learned(plugins, f), rest) <==> AllSimilar(plugins, rest)
  {}

  lemma {:induction false} NoChurnIffSimilar(plugins: map<PluginId, Manifest>, listing: seq<Found>)
    requires forall k :: 0 <= k < |listing| && listing[k].manifest.Some? ==> listing[k].id in plugins
    ensures TotalChurn(plugins, listing) == 0 <==> AllSimilar(plugins, listing)
    decreases |listing|
  {
    if listing != [] {
      var f, rest, next := listing[0], listing[1..], Learned(plugins, listing[0]);
      forall k | 0 <= k < |rest| && rest[k].manifest.Some? ensures rest[k].id in next {
        assert rest[k] == listing[k + 1];
      }
      NoChurnIffSimilar(next, rest);
      if Churn(plugins, f) == 0 {
        QuietFileLearned(plugins, f, rest);
        assert forall k :: 0 <= k < |rest| ==> rest[k] == listing[k + 1];
        assert AllSimilar(plugins, listing) <==> AllSimilar(plugins, rest);
      }
    }
  }

  lemma {:induction false} LastReadableFacts(listing: seq<Found>, id: PluginId)
    ensures LastReadable(listing, id).Some? <==>
              exists k :: 0 <= k < |listing| && listing[k].id == id && listing[k].manifest.Some?
    ensures LastReadable(listing, id).Some? ==>
              exists k :: 0 <= k < |listing| && listing[k].id == id && listing[k].manifest == LastReadable(listing, id)
                          && forall j :: k < j < |listing| && listing[j].id == id ==> listing[j].manifest == None
    decreases |listing|
  {
    if listing != [] {
      var rest := listing[1..];
      LastReadableFacts(rest, id);
      if LastReadable(rest, id).Some? {
        var k :| 0 <= k < |rest| && rest[k].id == id && rest[k].manifest == LastReadable(rest, id)
                 && forall j :: k < j < |rest| && rest[j].id == id ==> rest[j].manifest == None;
        assert listing[k + 1] == rest[k];
        assert forall j :: k + 1 < j < |listing| ==> listing[j] == rest[j - 1];
      } else {
        assert forall j :: 0 < j < |listing| ==> listing[j] == rest[j - 1];
      }
    }
  }

  lemma SimilarToLastIffSteady(plugins: map<PluginId, Manifest>, listing: seq<Found>)
    ensures AllSimilar(Remembered(plugins, listing), listing) <==> Steady(listing)
  {
    var p := Remembered(plugins, listing);
    forall k | 0 <= k < |listing| && listing[k].manifest.Some?
      ensures listing[k].id in p && LastReadable(listing, listing[k].id) == Some(p[listing[k].id])
    {
      LastReadableFacts(listing, listing[k].id);
    }
    if AllSimilar(p, listing) {
      assert Steady(listing);
    }
    if Steady(listing) {
      forall k | 0 <= k < |listing| && listing[k].manifest.Some?
        ensures Similar(p[listing[k].id], listing[k].manifest.value)
      {
        LastReadableFacts(listing, listing[k].id);
        var last :| 0 <= last < |listing| && listing[last].id == listing[k].id
                    && listing[last].manifest == LastReadable(listing, listing[k].id)
                    && forall j :: last < j < |listing| && listing[j].id == listing[k].id ==>
                        listing[j].manifest == None;
        assert k <= last;
      }
    }
  }

  /** Scanning an unchanged directory again emits no event if and only if no plugin id stands
      for two unlike manifests. */
  lemma SecondScanSilentIff(owner: Ownership, w: World, listing: seq<Found>, env: Environment, order: seq<PluginId>,
                            env': Environment, order': seq<PluginId>)
    requires Agrees(owner, w) && OwnedListing(owner, listing) && IsForgetOrder(w, listing, env, order)
    requires IsForgetOrder(Scanned(w, listing, env, order), listing, env', order')
    ensures var first := Scanned(w, listing, env, order);
            |Scanned(first, listing, env', order').reg.log| == |first.reg.log| <==> Steady(listing)
  {
    var first := Scanned(w, listing, env, order);
    ScanAgrees(owner, w, listing, env, order);
    ProcessAllAgrees(owner, first, listing, env');
    NothingToForget(w.plugins, listing);
    if order' != [] {
      OrderOfSome(order', ProcessAll(first, listing, env').plugins.Keys - SeenIds(listing));
    }
    forall k | 0 <= k < |listing| && listing[k].manifest.Some? ensures listing[k].id in first.plugins {
      LastReadableFacts(listing, listing[k].id);
      assert listing[k].id in SeenIds(listing);
    }
    NoChurnIffSimilar(first.plugins, listing);
    SimilarToLastIffSteady(w.plugins, listing);
  }

  lemma OrderOfSome(order: seq<PluginId>, ids: set<PluginId>)
    requires EachOnce(order, ids) && order != []
    ensures ids != {}
  {
    assert order[0] in ids;
  }

  /** After a scan only seen plugins are remembered, so the next scan of the same listing forgets
      none. */
  lemma NothingToForget(plugins: map<PluginId, Manifest>, listing: seq<Found>)
    ensures LearnedAll(Remembered(plugins, listing), listing).Keys <= SeenIds(listing)
  {
    forall id | id in LearnedAll(Remembered(plugins, listing), listing) ensures id in SeenIds(listing) {
      LearnedAllLookup(Remembered(plugins, listing), listing, id);
      LastReadableFacts(listing, id);
    }
  }

  // ---------------------------------------------------------------------------------------
  // Listeners follow scans, too
  // ---------------------------------------------------------------------------------------

  lemma {:induction false} RegisterItemsKeepsInv(w: World, items: seq<Item>, source: string, tags: seq<string>,
                                                 env: Environment)
    requires Inv(w.reg)
    ensures Inv(RegisterItems(w, items, source, tags, env).0.reg)
    decreases |items|
  {
    if items != [] {
      var (handlers, h) := Load(w.handlers, items[0].key, env);
      var info := Info(items[0].payload, h, true, source, tags);
      RegisterKeepsInv(w.reg, items[0].key, info);
      var (reg, ok) := Register(w.reg, items[0].key, info);
      RegisterItemsKeepsInv(w.(reg := reg, handlers := handlers), items[1..], source, tags, env);
    }
  }

  lemma {:induction false} UnregisterItemsKeepsInv(w: World, items: seq<Item>, env: Environment)
    requires Inv(w.reg)
    ensures Inv(UnregisterItems(w, items, env).reg)
    decreases |items|
  {
    if items != [] {
      UnregisterKeepsInv(w.reg, items[0].key);
      UnregisterItemsKeepsInv(w.(reg := Unregister(w.reg, items[0].key).0,
                                 handlers := Unload(w.handlers, items[0].key, env)), items[1..], env);
    }
  }

  lemma UnregisterPluginKeepsInv(w: World, id: PluginId, env: Environment)
    requires Inv(w.reg)
    ensures Inv(UnregisterPlugin(w, id, env).reg)
  {
    if id in w.plugins {
      UnregisterItemsKeepsInv(w, Items(w.plugins[id]), env);
    }
  }

  lemma {:induction false} ProcessAllKeepsInv(w: World, listing: seq<Found>, env: Environment)
    requires Inv(w.reg)
    ensures Inv(ProcessAll(w, listing, env).reg)
    decreases |listing|
  {
    if listing != [] {
      var f := listing[0];
      if f.manifest.Some? {
        UnregisterPluginKeepsInv(w, f.id, env);
        var m := f.manifest.value;
        RegisterItemsKeepsInv(UnregisterPlugin(w, f.id, env), Items(m), Source(f.id), m.tags, env);
      }
      ProcessAllKeepsInv(ProcessFound(w, f, env), listing[1..], env);
    }
  }

  lemma {:induction false} ForgetAllKeepsInv(w: World, order: seq<PluginId>, env: Environment)
    requires Inv(w.reg)
    ensures Inv(ForgetAll(w, order, env).reg)
    decreases |order|
  {
    if order != [] {
      UnregisterPluginKeepsInv(w, order[0], env);
      ForgetAllKeepsInv(Forget(w, order[0], env), order[1..], env);
    }
  }

  lemma {:induction false} RunKeepsInv(w: World, steps: seq<Step>)
    requires Inv(w.reg)
    ensures Inv(AfterSteps(w, steps).reg)
    decreases |steps|
  {
    if steps != [] {
      match steps[0] {
        case ScanStep(listing, env, order) =>
          ProcessAllKeepsInv(w, listing, env);
          ForgetAllKeepsInv(ProcessAll(w, listing, env), order, env);
        case HandStep(op) => StepKeepsInv(w.reg, op);
      }
      RunKeepsInv(ApplyStep(w, steps[0]), steps[1..]);
    }
  }

  /** After any run of scans and other operations, with no condition on ownership, a listener that
      lost nothing can replay what it saw over the keys at its subscription and gets the present
      tools, resources and prompts. */
  lemma ListenersFollowScans(steps: seq<Step>, c: ChannelId)
    requires c in AfterSteps(NOTHING, steps).reg.listeners
    ensures var s := AfterSteps(NOTHING, steps).reg;
            && c in s.channels && s.channels[c].since <= |s.log| && |s.channels[c].buffer| <= BUFFER_SIZE
            && Subsequence(Seen(s.channels[c]), s.log[s.channels[c].since..])
            && (s.channels[c].dropped == 0 ==> Replay(s.channels[c].keysAtStart, Seen(s.channels[c])) == s.items.Keys)
  {
    RunKeepsInv(NOTHING, steps);
    var s := AfterSteps(NOTHING, steps).reg;
    assert ListenerInv(s.items, s.log, s.channels[c]) && ChannelInv(s.log, s.channels[c]);
  }
}
