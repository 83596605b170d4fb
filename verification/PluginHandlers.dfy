/** What the registry holds for each declaration of a plugin: which handler a tool is registered
    with, and that it follows the handlers that are loaded. */
module PluginHandlers {
  import opened Wrappers
  import opened Registry
  import opened Watcher

  // ---------------------------------------------------------------------------------------
  // What a manifest declares
  // ---------------------------------------------------------------------------------------

  /** Tools first, then resources, then prompts, each under its own category. */
  lemma DeclaredInOrder(m: Manifest)
    ensures var items, t, r := Items(m), |m.tools|, |m.resources|;
            && |items| == t + r + |m.prompts|
            && (forall i :: 0 <= i < t ==> items[i] == Item(Key(Tool, m.tools[i].name), m.tools[i].payload))
            && (forall i :: 0 <= i < r ==>
                  items[t + i] == Item(Key(Resource, m.resources[i].name), m.resources[i].payload))
            && (forall i :: 0 <= i < |m.prompts| ==>
                  items[t + r + i] == Item(Key(Prompt, m.prompts[i].name), m.prompts[i].payload))
  {
    KeyedInOrder(Tool, m.tools);
    KeyedInOrder(Resource, m.resources);
    KeyedInOrder(Prompt, m.prompts);
  }

  // ---------------------------------------------------------------------------------------
  // Registering and unregistering, handlers included
  // ---------------------------------------------------------------------------------------

  /** The item for the key is registered afresh, a tool with its handler if that can be loaded and
      is not loaded already. */
  ghost predicate RegisteredAfresh(w: World, payload: nat, source: string, tags: seq<string>, env: Environment,
                                   key: Key, w': World) {
    key in w'.reg.items
    && var info := w'.reg.items[key];
       && info.payload == payload && info.source == source && info.tags == tags && info.available
       && info.handler == if key.category == Tool && key.name in env.loads && key.name !in w.handlers
                          then Some(env.loads[key.name]) else None
  }

  ghost predicate SameEntry(w: World, key: Key, w': World) {
    && (key in w'.reg.items <==> key in w.reg.items)
    && (key in w.reg.items ==> w'.reg.items[key] == w.reg.items[key])
  }

  /** A tool's handler is loaded afterwards if it was before, or if its tool was registered and it
      can be loaded. */
  ghost predicate HandlerLoaded(w: World, items: seq<Item>, env: Environment, name: string, w': World) {
    if name in w.handlers then name in w'.handlers && w'.handlers[name] == w.handlers[name]
    else if name in env.loads && Find(items, Key(Tool, name)).Some?
    then name in w'.handlers && w'.handlers[name] == env.loads[name]
    else name !in w'.handlers
  }

  /** Registering fresh, distinct items: every entry and every handler afterwards. */
  lemma {:induction false} RegistersWithHandlers(w: World, items: seq<Item>, source: string, tags: seq<string>,
                                                 env: Environment)
    requires DistinctKeys(items) && forall k :: 0 <= k < |items| ==> items[k].key !in w.reg.items
    ensures var (w', ok) := RegisterItems(w, items, source, tags, env);
            && ok && w'.plugins == w.plugins
            && (forall key :: Find(items, key).Some? ==>
                  RegisteredAfresh(w, Find(items, key).value, source, tags, env, key, w'))
            && (forall key :: Find(items, key) == None ==> SameEntry(w, key, w'))
            && (forall name :: HandlerLoaded(w, items, env, name, w'))
    decreases |items|
  {
    if items != [] {
      var item, rest := items[0], items[1..];
      var (handlers, h) := Load(w.handlers, item.key, env);
      var (reg, ok) := Register(w.reg, item.key, Info(item.payload, h, true, source, tags));
      var w1 := w.(reg := reg, handlers := handlers);
      var w' := RegisterItems(w, items, source, tags, env).0;
      assert item.key !in w.reg.items && ok;
      RegistersWithHandlers(w1, rest, source, tags, env);
      FindSome(rest, item.key);
      assert SameEntry(w1, item.key, w');
      forall key | Find(items, key).Some?
        ensures RegisteredAfresh(w, Find(items, key).value, source, tags, env, key, w')
      {
        if key != item.key {
          assert RegisteredAfresh(w1, Find(rest, key).value, source, tags, env, key, w');
        }
      }
      forall key | Find(items, key) == None ensures SameEntry(w, key, w') {
        assert SameEntry(w1, key, w');
      }
      forall name ensures HandlerLoaded(w, items, env, name, w') {
        assert HandlerLoaded(w1, rest, env, name, w');
      }
    }
  }

  /** Unregistering: the items are gone, and so are their handlers but for stuck ones. */
  ghost predicate HandlerUnloaded(w: World, items: seq<Item>, env: Environment, name: string, w': World) {
    && (name in w'.handlers <==>
          name in w.handlers && (Find(items, Key(Tool, name)) == None || name in env.stuck))
    && (name in w'.handlers ==> w'.handlers[name] == w.handlers[name])
  }

  lemma {:induction false} UnregistersWithHandlers(w: World, items: seq<Item>, env: Environment)
    ensures var w' := UnregisterItems(w, items, env);
            && w'.plugins == w.plugins
            && (forall key :: Find(items, key).Some? ==> key !in w'.reg.items)
            && (forall key :: Find(items, key) == None ==> SameEntry(w, key, w'))
            && (forall name :: HandlerUnloaded(w, items, env, name, w'))
    decreases |items|
  {
    if items != [] {
      var item, rest := items[0], items[1..];
      var w1 := w.(reg := Unregister(w.reg, item.key).0, handlers := Unload(w.handlers, item.key, env));
      var w' := UnregisterItems(w, items, env);
      UnregistersWithHandlers(w1, rest, env);
      forall key | Find(items, key).Some? ensures key !in w'.reg.items {
        if Find(rest, key) == None {
          assert SameEntry(w1, key, w');
        }
      }
      forall key | Find(items, key) == None ensures SameEntry(w, key, w') {
        assert SameEntry(w1, key, w');
      }
      forall name ensures HandlerUnloaded(w, items, env, name, w') {
        assert HandlerUnloaded(w1, rest, env, name, w');
      }
    }
  }

  /** Every declaration of a new plugin, in its own words: registered under its own category, with
      the plugin as source, available, and only tools with a handler. */
  lemma NewPluginRegistered(w: World, id: PluginId, m: Manifest, env: Environment)
    requires DistinctKeys(Items(m)) && forall k :: 0 <= k < |Items(m)| ==> Items(m)[k].key !in w.reg.items
    requires id !in w.plugins
    ensures var w' := ProcessFound(w, Found(id, Some(m)), env);
            && w'.plugins == w.plugins[id := m]
            && (forall i :: 0 <= i < |m.tools| ==>
                  var name := m.tools[i].name;
                  && Key(Tool, name) in w'.reg.items
                  && w'.reg.items[Key(Tool, name)] ==
                     Info(m.tools[i].payload,
                          if name in env.loads && name !in w.handlers then Some(env.loads[name]) else None,
                          true, "plugin:" + id, m.tags))
            && (forall i :: 0 <= i < |m.resources| ==>
                  && Key(Resource, m.resources[i].name) in w'.reg.items
                  && w'.reg.items[Key(Resource, m.resources[i].name)] ==
                     Info(m.resources[i].payload, None, true, "plugin:" + id, m.tags))
            && (forall i :: 0 <= i < |m.prompts| ==>
                  && Key(Prompt, m.prompts[i].name) in w'.reg.items
                  && w'.reg.items[Key(Prompt, m.prompts[i].name)] ==
                     Info(m.prompts[i].payload, None, true, "plugin:" + id, m.tags))
  {
    var items := Items(m);
    RegistersWithHandlers(w, items, Source(id), m.tags, env);
    DeclaredInOrder(m);
    var (w', ok) := RegisterItems(w, items, Source(id), m.tags, env);
    forall k | 0 <= k < |items|
      ensures RegisteredAfresh(w, items[k].payload, Source(id), m.tags, env, items[k].key, w')
    {
      FindAt(items, k);
    }
    forall i | 0 <= i < |m.tools|
      ensures RegisteredAfresh(w, m.tools[i].payload, Source(id), m.tags, env, Key(Tool, m.tools[i].name), w')
    {
      assert items[i].key == Key(Tool, m.tools[i].name);
    }
    forall i | 0 <= i < |m.resources|
      ensures RegisteredAfresh(w, m.resources[i].payload, Source(id), m.tags, env,
                               Key(Resource, m.resources[i].name), w')
    {
      assert items[|m.tools| + i].key == Key(Resource, m.resources[i].name);
    }
    forall i | 0 <= i < |m.prompts|
      ensures RegisteredAfresh(w, m.prompts[i].payload, Source(id), m.tags, env, Key(Prompt, m.prompts[i].name), w')
    {
      assert items[|m.tools| + |m.resources| + i].key == Key(Prompt, m.prompts[i].name);
    }
  }

  lemma {:induction false} FindAt(items: seq<Item>, k: nat)
    requires DistinctKeys(items) && k < |items|
    ensures Find(items, items[k].key) == Some(items[k].payload)
    decreases k
  {
    if k > 0 {
      assert items[1..][k - 1] == items[k] && items[0].key != items[k].key;
      FindAt(items[1..], k - 1);
    }
  }

  // ---------------------------------------------------------------------------------------
  // The registry's handlers follow the loaded ones
  // ---------------------------------------------------------------------------------------

  /** A plugin's tool is registered with exactly the handler that is loaded for it, a resource or
      prompt with none, and no handler is loaded but for a registered tool of a plugin. */
  ghost predicate HandlersAgree(owner: Ownership, w: World) {
    && (forall key: Key :: owner(key).Some? && key in w.reg.items ==> HandlerRight(w, key))
    && (forall name :: name in w.handlers ==> HandlerNeeded(owner, w, name))
  }

  ghost predicate HandlerRight(w: World, key: Key)
    requires key in w.reg.items
  {
    w.reg.items[key].handler ==
    if key.category == Tool && key.name in w.handlers then Some(w.handlers[key.name]) else None
  }

  ghost predicate HandlerNeeded(owner: Ownership, w: World, name: string) {
    owner(Key(Tool, name)).Some? && Key(Tool, name) in w.reg.items
  }

  lemma UnregisteringKeepsHandlers(owner: Ownership, w: World, id: PluginId, env: Environment)
    requires Agrees(owner, w) && HandlersAgree(owner, w) && env.stuck == {}
    ensures HandlersAgree(owner, UnregisterPlugin(w, id, env))
    ensures forall name :: owner(Key(Tool, name)) == Some(id) ==> name !in UnregisterPlugin(w, id, env).handlers
  {
    var w' := UnregisterPlugin(w, id, env);
    UnregisterPluginEffect(owner, w, id, env);
    if id in w.plugins {
      UnregistersWithHandlers(w, Items(w.plugins[id]), env);
      forall key: Key | owner(key).Some? && key in w'.reg.items ensures HandlerRight(w', key) {
        assert SameEntry(w, key, w') && HandlerRight(w, key);
        assert key.category == Tool ==> HandlerUnloaded(w, Items(w.plugins[id]), env, key.name, w');
      }
    }
    forall name | name in w'.handlers ensures HandlerNeeded(owner, w', name) {
      if id in w.plugins {
        assert HandlerUnloaded(w, Items(w.plugins[id]), env, name, w');
        assert SameEntry(w, Key(Tool, name), w');
      }
      assert HandlerNeeded(owner, w, name);
    }
    forall name | owner(Key(Tool, name)) == Some(id) ensures name !in w'.handlers {
      assert Actual(w'.reg, Key(Tool, name)) == None;
    }
  }

  lemma RegisteringKeepsHandlers(owner: Ownership, w: World, id: PluginId, m: Manifest, env: Environment)
    requires HandlersAgree(owner, w) && Owned(owner, id, m)
    requires forall k :: 0 <= k < |Items(m)| ==> Items(m)[k].key !in w.reg.items
    requires forall name :: owner(Key(Tool, name)) == Some(id) ==> name !in w.handlers
    ensures HandlersAgree(owner, RegisterItems(w, Items(m), Source(id), m.tags, env).0)
  {
    var items := Items(m);
    var w' := RegisterItems(w, items, Source(id), m.tags, env).0;
    RegistersWithHandlers(w, items, Source(id), m.tags, env);
    forall key: Key | owner(key).Some? && key in w'.reg.items ensures HandlerRight(w', key) {
      assert key.category == Tool ==> HandlerLoaded(w, items, env, key.name, w');
      if Find(items, key).Some? {
        FindSome(items, key);
        assert RegisteredAfresh(w, Find(items, key).value, Source(id), m.tags, env, key, w');
      } else {
        assert SameEntry(w, key, w') && HandlerRight(w, key);
      }
    }
    forall name | name in w'.handlers ensures HandlerNeeded(owner, w', name) {
      var key := Key(Tool, name);
      assert HandlerLoaded(w, items, env, name, w');
      if name in w.handlers {
        assert HandlerNeeded(owner, w, name);
        assert Find(items, key) == None ==> SameEntry(w, key, w');
        assert Find(items, key).Some? ==>
            RegisteredAfresh(w, Find(items, key).value, Source(id), m.tags, env, key, w');
      } else {
        FindSome(items, key);
        assert RegisteredAfresh(w, Find(items, key).value, Source(id), m.tags, env, key, w');
      }
    }
  }

  /** Where no process is stuck, one manifest file keeps the handlers right; and a new or changed
      plugin's tools have their handlers afresh: exactly those that can be loaded now. */
  lemma FoundKeepsHandlers(owner: Ownership, w: World, f: Found, env: Environment)
    requires Agrees(owner, w) && (f.manifest.Some? ==> Owned(owner, f.id, f.manifest.value))
    requires HandlersAgree(owner, w) && env.stuck == {}
    ensures var w' := ProcessFound(w, f, env);
            && HandlersAgree(owner, w')
            && (f.manifest.Some? && !(f.id in w.plugins && w.plugins[f.id] == f.manifest.value) ==>
                  forall i :: 0 <= i < |f.manifest.value.tools| ==>
                    HasHandler(w', f.manifest.value.tools[i].name, env))
  {
    if f.manifest == None || (f.id in w.plugins && w.plugins[f.id] == f.manifest.value) {
      NothingNew(w, f, env);
    } else {
      ChangeKeepsHandlers(owner, w, f.id, f.manifest.value, env);
    }
  }

  ghost predicate HasHandler(w: World, name: string, env: Environment) {
    && Key(Tool, name) in w.reg.items && w.reg.items[Key(Tool, name)].available
    && w.reg.items[Key(Tool, name)].handler == if name in env.loads then Some(env.loads[name]) else None
  }

  lemma ChangeKeepsHandlers(owner: Ownership, w: World, id: PluginId, m: Manifest, env: Environment)
    requires Agrees(owner, w) && Owned(owner, id, m) && HandlersAgree(owner, w) && env.stuck == {}
    requires !(id in w.plugins && w.plugins[id] == m)
    ensures var w' := ProcessFound(w, Found(id, Some(m)), env);
            HandlersAgree(owner, w') && forall i :: 0 <= i < |m.tools| ==> HasHandler(w', m.tools[i].name, env)
  {
    var items, w1 := Items(m), UnregisterPlugin(w, id, env);
    UnregisteringKeepsHandlers(owner, w, id, env);
    UnregisterPluginEffect(owner, w, id, env);
    forall k | 0 <= k < |items| ensures items[k].key !in w1.reg.items {
      assert Actual(w1.reg, items[k].key) == None;
    }
    RegisteringKeepsHandlers(owner, w1, id, m, env);
    RegistersWithHandlers(w1, items, Source(id), m.tags, env);
    DeclaredInOrder(m);
    var (w2, ok) := RegisterItems(w1, items, Source(id), m.tags, env);
    var w' := ProcessFound(w, Found(id, Some(m)), env);
    assert w'.reg == w2.reg && w'.handlers == w2.handlers;
    OnlyRegistryMatters(owner, w2, w');
    forall i | 0 <= i < |m.tools| ensures HasHandler(w', m.tools[i].name, env) {
      assert items[i].key == Key(Tool, m.tools[i].name);
      FindAt(items, i);
      AfreshHasHandler(w1, m, id, env, m.tools[i].name, items[i].payload, w2);
    }
  }

  lemma AfreshHasHandler(w: World, m: Manifest, id: PluginId, env: Environment, name: string, payload: nat, w': World)
    requires RegisteredAfresh(w, payload, Source(id), m.tags, env, Key(Tool, name), w') && name !in w.handlers
    ensures HasHandler(w', name, env)
  {}

  lemma OnlyRegistryMatters(owner: Ownership, w: World, w': World)
    requires HandlersAgree(owner, w) && w'.reg.items == w.reg.items && w'.handlers == w.handlers
    ensures HandlersAgree(owner, w')
  {
    forall key: Key | owner(key).Some? && key in w'.reg.items ensures HandlerRight(w', key) {
      assert HandlerRight(w, key);
    }
    forall name | name in w'.handlers ensures HandlerNeeded(owner, w', name) {
      assert HandlerNeeded(owner, w, name);
    }
  }

  lemma {:induction false} ListingKeepsHandlers(owner: Ownership, w: World, listing: seq<Found>, env: Environment)
    requires Agrees(owner, w) && OwnedListing(owner, listing) && HandlersAgree(owner, w) && env.stuck == {}
    ensures HandlersAgree(owner, ProcessAll(w, listing, env)) && Agrees(owner, ProcessAll(w, listing, env))
    decreases |listing|
  {
    if listing != [] {
      assert forall k :: 0 <= k < |listing| - 1 ==> listing[1..][k] == listing[k + 1];
      FoundKeepsHandlers(owner, w, listing[0], env);
      ProcessFoundAgrees(owner, w, listing[0], env);
      ListingKeepsHandlers(owner, ProcessFound(w, listing[0], env), listing[1..], env);
    }
  }

  lemma {:induction false} ForgettingKeepsHandlers(owner: Ownership, w: World, order: seq<PluginId>, env: Environment)
    requires Agrees(owner, w) && HandlersAgree(owner, w) && env.stuck == {}
    ensures HandlersAgree(owner, ForgetAll(w, order, env))
    decreases |order|
  {
    if order != [] {
      UnregisteringKeepsHandlers(owner, w, order[0], env);
      OnlyRegistryMatters(owner, UnregisterPlugin(w, order[0], env), Forget(w, order[0], env));
      ForgetAgrees(owner, w, order[0], env);
      ForgettingKeepsHandlers(owner, Forget(w, order[0], env), order[1..], env);
    }
  }

  lemma HandStepKeepsHandlers(owner: Ownership, w: World, op: Op)
    requires HandlersAgree(owner, w) && Legal(owner, w, HandStep(op))
    ensures HandlersAgree(owner, ApplyStep(w, HandStep(op)))
  {
    var w' := ApplyStep(w, HandStep(op));
    forall key: Key | owner(key).Some?
      ensures key in w'.reg.items <==> key in w.reg.items
      ensures key in w'.reg.items ==> w'.reg.items[key].handler == w.reg.items[key].handler
    {}
    forall key: Key | owner(key).Some? && key in w'.reg.items ensures HandlerRight(w', key) {
      assert HandlerRight(w, key);
    }
    forall name | name in w'.handlers ensures HandlerNeeded(owner, w', name) {
      assert HandlerNeeded(owner, w, name);
    }
  }

  ghost predicate NeverStuck(steps: seq<Step>) {
    forall i :: 0 <= i < |steps| && steps[i].ScanStep? ==> steps[i].env.stuck == {}
  }

  lemma {:induction false} RunKeepsHandlers(owner: Ownership, w: World, steps: seq<Step>)
    requires Agrees(owner, w) && HandlersAgree(owner, w) && LegalRun(owner, w, steps) && NeverStuck(steps)
    ensures HandlersAgree(owner, AfterSteps(w, steps))
    decreases |steps|
  {
    if steps != [] {
      assert forall i :: 0 <= i < |steps| - 1 ==> steps[1..][i] == steps[i + 1];
      match steps[0] {
        case ScanStep(listing, env, order) =>
          ListingKeepsHandlers(owner, w, listing, env);
          ForgettingKeepsHandlers(owner, ProcessAll(w, listing, env), order, env);
          ScanAgrees(owner, w, listing, env, order);
        case HandStep(op) =>
          HandStepKeepsHandlers(owner, w, op);
          HandStepAgrees(owner, w, op);
      }
      RunKeepsHandlers(owner, ApplyStep(w, steps[0]), steps[1..]);
    }
  }

  /** After any run of scans, with registrations by hand in between, in which no process is stuck:
      every plugin's tool is registered with exactly the handler loaded for it, and no handler is
      left loaded for a tool that is gone. */
  lemma HandlersFollowScans(owner: Ownership, steps: seq<Step>)
    requires LegalRun(owner, NOTHING, steps) && NeverStuck(steps)
    ensures HandlersAgree(owner, AfterSteps(NOTHING, steps))
  {
    NothingAgrees(owner);
    RunKeepsHandlers(owner, NOTHING, steps);
  }
}
