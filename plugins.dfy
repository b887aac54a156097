/** The plugin registry of `plugin/manager.rs`: plugins keyed by their manifest id. */
module Plugins {
  import opened Common

  /** `PluginManifest`. */
  datatype PluginManifest = PluginManifest(
    name: string,
    version: string,
    id: string,
    description: Option<string>,
    author: string,
    main: string)

  /** `PluginAction`. */
  datatype PluginAction = PluginAction(name: string, id: string, description: Option<string>)

  /** `Plugin`. The child process and the WebSocket session are shared handles whose
      behaviour is outside the model; they are known here by identity only. */
  datatype Plugin = Plugin(manifest: PluginManifest, actions: seq<PluginAction>, process: nat, session: Option<nat>)

  /** The registry after inserting `p` under its manifest id. */
  function Registered(plugins: map<string, Plugin>, p: Plugin): map<string, Plugin>
  {
    plugins[p.manifest.id := p]
  }

  /** The registry after removing `id`. */
  function Unregistered(plugins: map<string, Plugin>, id: string): map<string, Plugin>
  {
    plugins - {id}
  }

  /** `HashMap::get`. */
  function Lookup(plugins: map<string, Plugin>, id: string): (r: Option<Plugin>)
    ensures r.Some? <==> id in plugins
    ensures r.Some? ==> r.value == plugins[id]
  {
    if id in plugins then Some(plugins[id]) else None
  }

  /** After `add` the plugin is what its id finds, and every other id finds what it
      found before. */
  lemma AddFound(plugins: map<string, Plugin>, p: Plugin, id: string)
    ensures Lookup(Registered(plugins, p), id) == if id == p.manifest.id then Some(p) else Lookup(plugins, id)
  {
  }

  /** After `remove` nothing is found for the id, and every other id finds what it
      found before. */
  lemma RemoveFound(plugins: map<string, Plugin>, id: string, q: string)
    ensures Lookup(Unregistered(plugins, id), q) == if q == id then None else Lookup(plugins, q)
  {
  }

  /** Removing an id that is not registered changes nothing. */
  lemma RemoveAbsent(plugins: map<string, Plugin>, id: string)
    requires id !in plugins
    ensures Unregistered(plugins, id) == plugins
  {
  }

  /** Adding twice under one id keeps only the later plugin. */
  lemma LaterAddWins(plugins: map<string, Plugin>, p: Plugin, p': Plugin)
    requires p.manifest.id == p'.manifest.id
    ensures Registered(Registered(plugins, p), p') == Registered(plugins, p')
  {
  }

  /** Adding a plugin under a fresh id and removing it again restores the registry. */
  lemma AddRemoveRestores(plugins: map<string, Plugin>, p: Plugin)
    requires p.manifest.id !in plugins
    ensures Unregistered(Registered(plugins, p), p.manifest.id) == plugins
  {
  }

  /** `PluginManager`. */
  class PluginManager {
    var plugins: map<string, Plugin>

    /** `PluginManager::new`: no plugins. */
    constructor ()
      ensures plugins == map[]
    {
      plugins := map[];
    }

    /** `add`: inserts under `manifest.id`, replacing any plugin with that id. */
    method Add(plugin: Plugin)
      modifies this
      ensures plugins == Registered(old(plugins), plugin)
    {
      plugins := plugins[plugin.manifest.id := plugin];
    }

    /** `get`. */
    function Get(id: string): (r: Option<Plugin>)
      reads this
      ensures r.Some? <==> id in plugins
      ensures r.Some? ==> r.value == plugins[id]
    {
      Lookup(plugins, id)
    }

    /** `get_all`: the whole registry. */
    function GetAll(): map<string, Plugin>
      reads this
    {
      plugins
    }

    /** `remove`: a no-op for an unknown id. */
    method Remove(id: string)
      modifies this
      ensures plugins == Unregistered(old(plugins), id)
    {
      plugins := plugins - {id};
    }
  }
}
