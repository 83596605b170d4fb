/** What a scan does when plugins may declare each other's keys: exactly when it is silent, the
    churn of an update that is refused every time, and the entries that nothing takes back. */
module UnownedScans {
  import opened Wrappers
  import opened Registry
  import opened Watcher

  // ---------------------------------------------------------------------------------------
  // Exactly when a scan emits nothing
  // ---------------------------------------------------------------------------------------

  ghost predicate NoneRegistered(keys: set<Key>, m: Manifest) {
    forall k :: 0 <= k < |Items(m)| ==> Items(m)[k].key !in keys
  }

  /** Nothing to load, or unchanged, or nothing to unregister and nothing registered: the manifest
      declares nothing, or its first item is refused at once. */
  ghost predicate QuietFound(keys: set<Key>, plugins: map<PluginId, Manifest>, f: Found) {
    match f.manifest
    case None => true
    case Some(m) =>
      || (f.id in plugins && plugins[f.id] == m)
      || ((f.id in plugins ==> NoneRegistered(keys, plugins[f.id]))
          && (Items(m) == [] || Items(m)[0].key in keys))
  }

  function LearnedQuietly(plugins: map<PluginId, Manifest>, f: Found): map<PluginId, Manifest> {
    if f.manifest.Some? && Items(f.manifest.value) == [] then plugins[f.id := f.manifest.value] else plugins
  }

  ghost predicate QuietListing(keys: set<Key>, plugins: map<PluginId, Manifest>, listing: seq<Found>)
    decreases |listing|
  {
    listing == [] ||
    (QuietFound(keys, plugins, listing[0]) && QuietListing(keys, LearnedQuietly(plugins, listing[0]), listing[1..]))
  }

  function LearnedAllQuietly(plugins: map<PluginId, Manifest>, listing: seq<Found>): map<PluginId, Manifest>
    decreases |listing|
  {
    if listing == [] then plugins else LearnedAllQuietly(LearnedQuietly(plugins, listing[0]), listing[1..])
  }

  /** And no plugin to be forgotten has anything registered. */
  ghost predicate Quiet(keys: set<Key>, plugins: map<PluginId, Manifest>, listing: seq<Found>) {
    && QuietListing(keys, plugins, listing)
    && var after := LearnedAllQuietly(plugins, listing);
       forall id :: id in after && id !in SeenIds(listing) ==> NoneRegistered(keys, after[id])
  }

  /** What a step may do to the event log, and what it leaves if it emits nothing. */
  ghost predicate Silent(w: World, w': World) {
    |w'.reg.log| == |w.reg.log|
  }

  lemma {:induction false} UnregisterSilentIff(w: World, items: seq<Item>, env: Environment)
    ensures var w' := UnregisterItems(w, items, env);
            && |w'.reg.log| >= |w.reg.log| && w'.plugins == w.plugins
            && (Silent(w, w') <==> forall k :: 0 <= k < |items| ==> items[k].key !in w.reg.items)
            && (Silent(w, w') ==> w'.reg.items == w.reg.items)
    decreases |items|
  {
    if items != [] {
      var w1 := w.(reg := Unregister(w.reg, items[0].key).0, handlers := Unload(w.handlers, items[0].key, env));
      UnregisterSilentIff(w1, items[1..], env);
      assert forall k :: 0 < k < |items| ==> items[k] == items[1..][k - 1];
    }
  }

  lemma {:induction false} RegisterSilentIff(w: World, items: seq<Item>, source: string, tags: seq<string>,
                                             env: Environment)
    ensures var (w', ok) := RegisterItems(w, items, source, tags, env);
            && |w'.reg.log| >= |w.reg.log| && w'.plugins == w.plugins
            && (Silent(w, w') <==> items == [] || items[0].key in w.reg.items)
            && (Silent(w, w') ==> w'.reg.items == w.reg.items && (ok <==> items == []))
    decreases |items|
  {
    if items != [] {
      var (handlers, h) := Load(w.handlers, items[0].key, env);
      var (reg, ok) := Register(w.reg, items[0].key, Info(items[0].payload, h, true, source, tags));
      if ok {
        RegisterSilentIff(w.(reg := reg, handlers := handlers), items[1..], source, tags, env);
      }
    }
  }

  lemma FoundSilentIff(w: World, f: Found, env: Environment)
    ensures var w' := ProcessFound(w, f, env);
            && |w'.reg.log| >= |w.reg.log|
            && (Silent(w, w') <==> QuietFound(w.reg.items.Keys, w.plugins, f))
            && (Silent(w, w') ==> w'.reg.items == w.reg.items && w'.plugins == LearnedQuietly(w.plugins, f))
  {
    if f.manifest.Some? && !(f.id in w.plugins && w.plugins[f.id] == f.manifest.value) {
      var m := f.manifest.value;
      if f.id in w.plugins {
        UnregisterSilentIff(w, Items(w.plugins[f.id]), env);
      }
      RegisterSilentIff(UnregisterPlugin(w, f.id, env), Items(m), Source(f.id), m.tags, env);
    } else if f.manifest.Some? {
      assert w.plugins[f.id := f.manifest.value] == w.plugins;
    }
  }

  lemma {:induction false} ListingSilentIff(w: World, listing: seq<Found>, env: Environment)
    ensures var w' := ProcessAll(w, listing, env);
            && |w'.reg.log| >= |w.reg.log|
            && (Silent(w, w') <==> QuietListing(w.reg.items.Keys, w.plugins, listing))
            && (Silent(w, w') ==> w'.reg.items == w.reg.items && w'.plugins == LearnedAllQuietly(w.plugins, listing))
    decreases |listing|
  {
    if listing != [] {
      FoundSilentIff(w, listing[0], env);
      ListingSilentIff(ProcessFound(w, listing[0], env), listing[1..], env);
    }
  }

  lemma {:induction false} ForgettingSilentIff(w: World, order: seq<PluginId>, env: Environment)
    requires forall i, j :: 0 <= i < j < |order| ==> order[i] != order[j]
    requires forall i :: 0 <= i < |order| ==> order[i] in w.plugins
    ensures var w' := ForgetAll(w, order, env);
            && |w'.reg.log| >= |w.reg.log|
            && (Silent(w, w') <==>
                  forall i :: 0 <= i < |order| ==> NoneRegistered(w.reg.items.Keys, w.plugins[order[i]]))
    decreases |order|
  {
    if order != [] {
      var w1 := Forget(w, order[0], env);
      UnregisterSilentIff(w, Items(w.plugins[order[0]]), env);
      assert forall i :: 0 < i < |order| ==> order[i] == order[1..][i - 1];
      assert forall i :: 0 < i < |order| ==> w1.plugins[order[i]] == w.plugins[order[i]];
      ForgettingSilentIff(w1, order[1..], env);
    }
  }

  /** For any registry, remembered manifests and directory: a scan emits no event if and only if
      the condition holds. */
  lemma ScanSilentIff(w: World, listing: seq<Found>, env: Environment, order: seq<PluginId>)
    requires IsForgetOrder(w, listing, env, order)
    ensures Silent(w, Scanned(w, listing, env, order)) <==> Quiet(w.reg.items.Keys, w.plugins, listing)
  {
    var w1 := ProcessAll(w, listing, env);
    ListingSilentIff(w, listing, env);
    forall i | 0 <= i < |order| ensures order[i] in w1.plugins && order[i] !in SeenIds(listing) {
      assert order[i] in order;
    }
    ForgettingSilentIff(w1, order, env);
    if Silent(w, w1) {
      assert forall id :: id in w1.plugins && id !in SeenIds(listing) ==> id in order;
    }
  }

  // ---------------------------------------------------------------------------------------
  // An update that is refused every time
  // ---------------------------------------------------------------------------------------

  function Tools(names: seq<string>): Manifest {
    Manifest(seq(|names|, i requires 0 <= i < |names| => Decl(names[i], 0)), [], [], [], 0)
  }

  /** Plugin a declares x.  Plugin b declared y, and now declares y and x. */
  function Directory(b: seq<string>): seq<Found> {
    [Found("a", Some(Tools(["x"]))), Found("b", Some(Tools(b)))]
  }

  function Rescanned(w: World, listing: seq<Found>, env: Environment, times: nat): World
    decreases times
  {
    if times == 0 then w else Rescanned(Scanned(w, listing, env, []), listing, env, times - 1)
  }

  ghost predicate Churning(w: World) {
    && w.plugins == map["a" := Tools(["x"]), "b" := Tools(["y"])]
    && Key(Tool, "x") in w.reg.items && Key(Tool, "y") in w.reg.items
  }

  lemma ToolsItems(names: seq<string>)
    ensures |Items(Tools(names))| == |names|
    ensures forall i :: 0 <= i < |names| ==> Items(Tools(names))[i] == Item(Key(Tool, names[i]), 0)
  {
    KeyedInOrder(Tool, Tools(names).tools);
    assert Keyed(Resource, []) == [] && Keyed(Prompt, []) == [];
  }

  /** b's y is unregistered, y registered again, x refused: two events, and the old manifest of b
      is still the one remembered. */
  lemma ChurnStep(w: World, env: Environment)
    requires Churning(w)
    ensures IsForgetOrder(w, Directory(["y", "x"]), env, [])
    ensures var w' := Scanned(w, Directory(["y", "x"]), env, []);
            Churning(w') && |w'.reg.log| == |w.reg.log| + 2
  {
    var d := Directory(["y", "x"]);
    var b, y, x := Tools(["y", "x"]), Key(Tool, "y"), Key(Tool, "x");
    ToolsItems(["y"]);
    ToolsItems(["y", "x"]);
    assert Items(Tools(["y"])) == [Item(y, 0)];
    assert Items(b) == [Item(y, 0), Item(x, 0)];
    assert Items(b)[1..] == [Item(x, 0)];
    assert b != Tools(["y"]) by { assert |b.tools| == 2; }
    assert ProcessFound(w, d[0], env) == w;
    var w1 := UnregisterPlugin(w, "b", env);
    UnregisterOne(w, y, env);
    RegisterOneThenRefused(w1, y, x, Source("b"), b.tags, env);
    assert d[1..] == [d[1]] && d[1..][1..] == [];
    assert ProcessAll(w, d, env) == ProcessFound(w, d[1], env);
    assert SeenIds(d) == {"a", "b"} by { assert d[0] in d && d[1] in d; }
  }

  lemma UnregisterOne(w: World, y: Key, env: Environment)
    requires y in w.reg.items
    ensures var w' := UnregisterItems(w, [Item(y, 0)], env);
            && w'.plugins == w.plugins && w'.reg.items == w.reg.items - {y} && |w'.reg.log| == |w.reg.log| + 1
  {
    assert [Item(y, 0)][1..] == [];
  }

  lemma RegisterOneThenRefused(w: World, y: Key, x: Key, source: string, tags: seq<string>, env: Environment)
    requires y !in w.reg.items && x in w.reg.items
    ensures var (w', ok) := RegisterItems(w, [Item(y, 0), Item(x, 0)], source, tags, env);
            && !ok && w'.plugins == w.plugins && w'.reg.items.Keys == w.reg.items.Keys + {y}
            && |w'.reg.log| == |w.reg.log| + 1
  {
    assert [Item(y, 0), Item(x, 0)][1..] == [Item(x, 0)];
  }

  /** The directory never changes again and no plugin id stands for two manifests, yet every scan
      of it emits two events: the ownership condition is needed. */
  lemma {:induction false} PerpetualChurn(w: World, env: Environment, times: nat)
    requires Churning(w)
    ensures |Rescanned(w, Directory(["y", "x"]), env, times).reg.log| == |w.reg.log| + 2 * times
    ensures Churning(Rescanned(w, Directory(["y", "x"]), env, times))
    ensures Steady(Directory(["y", "x"]))
    decreases times
  {
    if times > 0 {
      ChurnStep(w, env);
      PerpetualChurn(Scanned(w, Directory(["y", "x"]), env, []), env, times - 1);
    }
  }

  /** It takes one scan of the directory as it was, from nothing, to get there. */
  lemma ChurnIsReached(env: Environment)
    ensures IsForgetOrder(NOTHING, Directory(["y"]), env, [])
    ensures Churning(Scanned(NOTHING, Directory(["y"]), env, []))
  {
    var d := Directory(["y"]);
    var x, y := Key(Tool, "x"), Key(Tool, "y");
    ToolsItems(["x"]);
    ToolsItems(["y"]);
    assert Items(Tools(["x"])) == [Item(x, 0)] && Items(Tools(["y"])) == [Item(y, 0)];
    var w1 := ProcessFound(NOTHING, d[0], env);
    RegisterItemsEffect(NOTHING, [Item(x, 0)], Source("a"), [], env);
    assert Find([Item(x, 0)], x) == Some(0) && Find([Item(x, 0)], y) == None;
    assert Actual(w1.reg, x).Some? && Actual(w1.reg, y) == None;
    RegisterItemsEffect(w1, [Item(y, 0)], Source("b"), [], env);
    assert Find([Item(y, 0)], y) == Some(0) && Find([Item(y, 0)], x) == None;
    var w2 := ProcessFound(w1, d[1], env);
    assert Actual(w2.reg, x).Some? && Actual(w2.reg, y).Some?;
    assert d[1..] == [d[1]] && d[1..][1..] == [];
    assert ProcessAll(NOTHING, d, env) == w2;
    assert SeenIds(d) == {"a", "b"} by { assert d[0] in d && d[1] in d; }
  }

  // ---------------------------------------------------------------------------------------
  // What a refused registration leaves behind
  // ---------------------------------------------------------------------------------------

  ghost predicate Declares(m: Manifest, key: Key) {
    exists k :: 0 <= k < |Items(m)| && Items(m)[k].key == key
  }

  /** A registered key that no remembered manifest declares. */
  ghost predicate Orphan(w: World, key: Key) {
    key in w.reg.items && forall id :: id in w.plugins ==> !Declares(w.plugins[id], key)
  }

  lemma {:induction false} UnregisterKeeps(w: World, items: seq<Item>, env: Environment, key: Key)
    requires key in w.reg.items && forall k :: 0 <= k < |items| ==> items[k].key != key
    ensures key in UnregisterItems(w, items, env).reg.items && UnregisterItems(w, items, env).plugins == w.plugins
    ensures UnregisterItems(w, items, env).reg.items[key] == w.reg.items[key]
    decreases |items|
  {
    if items != [] {
      var w1 := w.(reg := Unregister(w.reg, items[0].key).0, handlers := Unload(w.handlers, items[0].key, env));
      UnregisterKeeps(w1, items[1..], env, key);
    }
  }

  /** What is registered stays, and whoever declares it again is refused. */
  lemma {:induction false} RegisterKeeps(w: World, items: seq<Item>, source: string, tags: seq<string>,
                                         env: Environment, key: Key)
    requires key in w.reg.items
    ensures var (w', ok) := RegisterItems(w, items, source, tags, env);
            && key in w'.reg.items && w'.reg.items[key] == w.reg.items[key] && w'.plugins == w.plugins
            && (ok ==> forall k :: 0 <= k < |items| ==> items[k].key != key)
    decreases |items|
  {
    if items != [] {
      var (handlers, h) := Load(w.handlers, items[0].key, env);
      var (reg, ok) := Register(w.reg, items[0].key, Info(items[0].payload, h, true, source, tags));
      if ok {
        RegisterKeeps(w.(reg := reg, handlers := handlers), items[1..], source, tags, env, key);
        assert forall k :: 0 < k < |items| ==> items[k] == items[1..][k - 1];
      }
    }
  }

  lemma FoundKeepsOrphan(w: World, f: Found, env: Environment, key: Key)
    requires Orphan(w, key)
    ensures Orphan(ProcessFound(w, f, env), key)
    ensures ProcessFound(w, f, env).reg.items[key] == w.reg.items[key]
  {
    if f.manifest.Some? {
      var m := f.manifest.value;
      if f.id in w.plugins {
        assert !Declares(w.plugins[f.id], key);
        UnregisterKeeps(w, Items(w.plugins[f.id]), env, key);
      }
      RegisterKeeps(UnregisterPlugin(w, f.id, env), Items(m), Source(f.id), m.tags, env, key);
    }
  }

  lemma {:induction false} ListingKeepsOrphan(w: World, listing: seq<Found>, env: Environment, key: Key)
    requires Orphan(w, key)
    ensures Orphan(ProcessAll(w, listing, env), key)
    ensures ProcessAll(w, listing, env).reg.items[key] == w.reg.items[key]
    decreases |listing|
  {
    if listing != [] {
      FoundKeepsOrphan(w, listing[0], env, key);
      ListingKeepsOrphan(ProcessFound(w, listing[0], env), listing[1..], env, key);
    }
  }

  lemma {:induction false} ForgettingKeepsOrphan(w: World, order: seq<PluginId>, env: Environment, key: Key)
    requires Orphan(w, key)
    ensures Orphan(ForgetAll(w, order, env), key)
    ensures ForgetAll(w, order, env).reg.items[key] == w.reg.items[key]
    decreases |order|
  {
    if order != [] {
      if order[0] in w.plugins {
        assert !Declares(w.plugins[order[0]], key);
        UnregisterKeeps(w, Items(w.plugins[order[0]]), env, key);
      }
      ForgettingKeepsOrphan(Forget(w, order[0], env), order[1..], env, key);
    }
  }

  /** Whatever directories come and go, no scan takes an orphan back or replaces it. */
  lemma OrphansStay(w: World, listing: seq<Found>, env: Environment, order: seq<PluginId>, key: Key)
    requires Orphan(w, key)
    ensures Orphan(Scanned(w, listing, env, order), key)
    ensures Scanned(w, listing, env, order).reg.items[key] == w.reg.items[key]
  {
    ListingKeepsOrphan(w, listing, env, key);
    ForgettingKeepsOrphan(ProcessAll(w, listing, env), order, env, key);
  }

  function KeysOf(items: seq<Item>): set<Key> {
    set k | 0 <= k < |items| :: items[k].key
  }

  /** How many items the registry takes, one after the other, before it refuses one. */
  function Accepted(keys: set<Key>, items: seq<Item>): (p: nat)
    ensures p <= |items|
    decreases |items|
  {
    if items == [] || items[0].key in keys then 0 else 1 + Accepted(keys + {items[0].key}, items[1..])
  }

  /** No item is registered already, and none declared twice. */
  ghost predicate Fresh(keys: set<Key>, items: seq<Item>) {
    DistinctKeys(items) && forall k :: 0 <= k < |items| ==> items[k].key !in keys
  }

  lemma FreshCons(keys: set<Key>, items: seq<Item>)
    requires items != []
    ensures Fresh(keys, items) <==> items[0].key !in keys && Fresh(keys + {items[0].key}, items[1..])
  {
    if items[0].key !in keys && Fresh(keys + {items[0].key}, items[1..]) {
      assert forall k :: 0 < k < |items| ==> items[k] == items[1..][k - 1];
    }
    if Fresh(keys, items) {
      assert forall k :: 0 <= k < |items| - 1 ==> items[1..][k] == items[k + 1];
    }
  }

  /** The registry takes k items if and only if the first k are fresh. */
  lemma {:induction false} AcceptsIffFresh(keys: set<Key>, items: seq<Item>, k: nat)
    requires k <= |items|
    ensures k <= Accepted(keys, items) <==> Fresh(keys, items[..k])
    decreases |items|
  {
    if items != [] {
      AcceptsIffFresh(keys + {items[0].key}, items[1..], if k > 0 then k - 1 else 0);
      if k > 0 {
        assert items[..k][1..] == items[1..][..k - 1] && items[..k][0] == items[0];
        FreshCons(keys, items[..k]);
      }
    }
  }

  lemma KeysOfCons(items: seq<Item>, p: nat)
    requires 0 < p <= |items|
    ensures KeysOf(items[..p]) == {items[0].key} + KeysOf(items[1..][..p - 1])
  {
    assert items[..p][0] == items[0];
    assert forall k :: 0 < k < p ==> items[..p][k] == items[1..][..p - 1][k - 1];
    forall key | key in {items[0].key} + KeysOf(items[1..][..p - 1]) ensures key in KeysOf(items[..p]) {
      if key != items[0].key {
        var k :| 0 <= k < p - 1 && items[1..][..p - 1][k].key == key;
        assert items[..p][k + 1].key == key;
      }
    }
  }

  lemma {:induction false} RegistersAccepted(w: World, items: seq<Item>, source: string, tags: seq<string>,
                                             env: Environment)
    ensures var (w', ok) := RegisterItems(w, items, source, tags, env);
            var p := Accepted(w.reg.items.Keys, items);
            && (ok <==> p == |items|) && w'.plugins == w.plugins
            && w'.reg.items.Keys == w.reg.items.Keys + KeysOf(items[..p])
    decreases |items|
  {
    var p := Accepted(w.reg.items.Keys, items);
    if items != [] && p > 0 {
      var (handlers, h) := Load(w.handlers, items[0].key, env);
      var (reg, ok) := Register(w.reg, items[0].key, Info(items[0].payload, h, true, source, tags));
      assert reg.items.Keys == w.reg.items.Keys + {items[0].key};
      RegistersAccepted(w.(reg := reg, handlers := handlers), items[1..], source, tags, env);
      KeysOfCons(items, p);
    }
  }

  /** The keys registered once a plugin's remembered items are unregistered. */
  function Freed(w: World, id: PluginId): set<Key> {
    w.reg.items.Keys - if id in w.plugins then KeysOf(Items(w.plugins[id])) else {}
  }

  lemma {:induction false} UnregistersAll(w: World, items: seq<Item>, env: Environment)
    ensures UnregisterItems(w, items, env).reg.items.Keys == w.reg.items.Keys - KeysOf(items)
    ensures UnregisterItems(w, items, env).plugins == w.plugins
    decreases |items|
  {
    if items != [] {
      var w1 := w.(reg := Unregister(w.reg, items[0].key).0, handlers := Unload(w.handlers, items[0].key, env));
      UnregistersAll(w1, items[1..], env);
      assert w1.reg.items.Keys == w.reg.items.Keys - {items[0].key};
      KeysOfCons(items, |items|);
      assert items[..|items|] == items && items[1..][..|items| - 1] == items[1..];
    }
  }

  lemma AfterUnregistering(w: World, id: PluginId, env: Environment)
    ensures UnregisterPlugin(w, id, env).reg.items.Keys == Freed(w, id)
    ensures UnregisterPlugin(w, id, env).plugins == w.plugins
  {
    if id in w.plugins {
      UnregistersAll(w, Items(w.plugins[id]), env);
    }
  }

  ghost predicate DeclaredByNone(plugins: map<PluginId, Manifest>, key: Key) {
    forall i :: i in plugins ==> !Declares(plugins[i], key)
  }

  /** Which keys are orphans once a new or changed manifest has been processed, from what was there
      before.  If every item is fresh the manifest is remembered; otherwise the items before the first
      taken or repeated one stay registered and it is not. */
  lemma OrphansAfterIff(w: World, id: PluginId, m: Manifest, env: Environment, key: Key)
    requires id in w.plugins ==> w.plugins[id] != m
    ensures var freed, items := Freed(w, id), Items(m);
            Orphan(ProcessFound(w, Found(id, Some(m)), env), key) <==>
            if Fresh(freed, items) then key in freed && DeclaredByNone(w.plugins[id := m], key)
            else (key in freed || key in KeysOf(items[..Accepted(freed, items)])) && DeclaredByNone(w.plugins, key)
  {
    var freed, items := Freed(w, id), Items(m);
    var w1 := UnregisterPlugin(w, id, env);
    AfterUnregistering(w, id, env);
    RegistersAccepted(w1, items, Source(id), m.tags, env);
    AcceptsIffFresh(freed, items, |items|);
    assert items[..|items|] == items;
    var (w2, ok) := RegisterItems(w1, items, Source(id), m.tags, env);
    assert ProcessFound(w, Found(id, Some(m)), env) == Remember(w2, ok, id, m);
    if ok {
      if key in KeysOf(items) {
        var k :| 0 <= k < |items| && items[k].key == key;
        assert Declares(w.plugins[id := m][id], key);
      }
    }
  }

  /** So, of a new plugin or an update: an item that no remembered manifest declares, and that comes
      before any taken or repeated one, is left behind if and only if there is a taken or repeated one. */
  lemma RefusalOrphansIff(w: World, id: PluginId, m: Manifest, env: Environment, k: nat)
    requires id in w.plugins ==> w.plugins[id] != m
    requires k < |Items(m)| && Fresh(Freed(w, id), Items(m)[..k + 1])
    requires DeclaredByNone(w.plugins, Items(m)[k].key)
    ensures Orphan(ProcessFound(w, Found(id, Some(m)), env), Items(m)[k].key) <==> !Fresh(Freed(w, id), Items(m))
  {
    var freed, items, key := Freed(w, id), Items(m), Items(m)[k].key;
    OrphansAfterIff(w, id, m, env, key);
    AcceptsIffFresh(freed, items, k + 1);
    var p := Accepted(freed, items);
    assert items[..p][k].key == key;
    assert items[..k + 1][k].key !in freed;
  }
}
