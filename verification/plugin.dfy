/**
 * The collaborators the uploader consumes: a loaded plugin (lunchbox::Plugin)
 * and the plugin registry (lunchbox::PluginRegistry). Only what the uploader
 * relies on is modelled: the descriptors a plugin advertises, the native
 * instances it creates and deletes, and the registry's lookup and traversal.
 */
module Plugins {
  import opened Compressor

  /**
   * A loaded plugin. The plugin API creates and deletes compressor and
   * decompressor instances through separate entry points, so the instances
   * it has handed out and not yet taken back form two pools.
   */
  class Plugin {
    const infos: seq<Info>
    var compressors: set<Instance>
    var decompressors: set<Instance>
    var issued: nat

    /** Every live instance is a non-null handle the plugin has issued. */
    ghost predicate Valid()
      reads this
    {
      && (forall h :: h in compressors ==> NULL_INSTANCE < h <= issued)
      && (forall h :: h in decompressors ==> NULL_INSTANCE < h <= issued)
    }

    constructor (infos: seq<Info>)
      ensures Valid()
      ensures this.infos == infos && compressors == {} && decompressors == {}
    {
      this.infos := infos;
      compressors, decompressors, issued := {}, {}, 0;
    }

    /** The first advertised descriptor called `name`, if any. */
    function FindInfo(name: uint32): (r: Option<Info>)
      ensures r.Some? ==> r.value.name == name && r.value in infos
      ensures r.None? <==> forall k :: 0 <= k < |infos| ==> infos[k].name != name
    {
      FirstNamed(infos, name)
    }

    predicate ImplementsType(name: uint32) {
      FindInfo(name).Some?
    }

    method NewCompressor(name: uint32) returns (h: Instance)
      requires Valid()
      modifies this
      ensures Valid()
      ensures h != NULL_INSTANCE && h !in old(compressors) && h !in old(decompressors)
      ensures compressors == old(compressors) + {h} && decompressors == old(decompressors)
    {
      issued := issued + 1;
      h := issued;
      compressors := compressors + {h};
    }

    method NewDecompressor(name: uint32) returns (h: Instance)
      requires Valid()
      modifies this
      ensures Valid()
      ensures h != NULL_INSTANCE && h !in old(compressors) && h !in old(decompressors)
      ensures decompressors == old(decompressors) + {h} && compressors == old(compressors)
    {
      issued := issued + 1;
      h := issued;
      decompressors := decompressors + {h};
    }

    method DeleteDecompressor(h: Instance)
      requires Valid()
      modifies this
      ensures Valid()
      ensures decompressors == old(decompressors) - {h} && compressors == old(compressors)
    {
      decompressors := decompressors - {h};
    }
  }

  function FirstNamed(infos: seq<Info>, name: uint32): (r: Option<Info>)
    ensures r.Some? ==> r.value.name == name && r.value in infos
    ensures r.None? <==> forall k :: 0 <= k < |infos| ==> infos[k].name != name
  {
    if infos == [] then None
    else if infos[0].name == name then Some(infos[0])
    else FirstNamed(infos[1..], name)
  }

  /** One (plugin, descriptor) pair, as the registry's traversal visits it. */
  datatype Entry = Entry(plugin: Plugin, info: Info)

  /** The registry: the loaded plugins, in load order. */
  datatype Registry = Registry(plugins: seq<Plugin>) {

    function Plugins(): set<Plugin> {
      set p | p in plugins
    }

    ghost predicate Valid()
      reads Plugins()
    {
      forall p :: p in plugins ==> p.Valid()
    }

    /** Every pair the traversal visits: plugin by plugin, descriptor by descriptor. */
    function Entries(): seq<Entry> {
      Flatten(plugins)
    }

    /** The first plugin that implements `name` (PluginRegistry::findPlugin). */
    function FindPlugin(name: uint32): (r: Option<Plugin>)
      ensures r.Some? ==> r.value in plugins && r.value.ImplementsType(name)
      ensures r.None? <==> forall k :: 0 <= k < |plugins| ==> !plugins[k].ImplementsType(name)
    {
      FirstImplementing(plugins, name)
    }

    /** No two visited descriptors share a name. */
    ghost predicate UniqueNames() {
      var entries := Entries();
      forall i, j :: 0 <= i < j < |entries| ==> entries[i].info.name != entries[j].info.name
    }
  }

  function FirstImplementing(plugins: seq<Plugin>, name: uint32): (r: Option<Plugin>)
    ensures r.Some? ==> r.value in plugins && r.value.ImplementsType(name)
    ensures r.None? <==> forall k :: 0 <= k < |plugins| ==> !plugins[k].ImplementsType(name)
  {
    if plugins == [] then None
    else if plugins[0].ImplementsType(name) then Some(plugins[0])
    else FirstImplementing(plugins[1..], name)
  }

  function EntriesOf(p: Plugin): seq<Entry> {
    seq(|p.infos|, k requires 0 <= k < |p.infos| => Entry(p, p.infos[k]))
  }

  function Flatten(plugins: seq<Plugin>): seq<Entry> {
    if plugins == [] then [] else EntriesOf(plugins[0]) + Flatten(plugins[1..])
  }

  /** The traversal visits exactly the pairs of a loaded plugin and one of its descriptors. */
  lemma {:induction false} FlattenMember(plugins: seq<Plugin>, e: Entry)
    ensures e in Flatten(plugins) <==> exists k :: 0 <= k < |plugins| && e.plugin == plugins[k] && e.info in plugins[k].infos
  {
    if plugins != [] {
      FlattenMember(plugins[1..], e);
      var p := plugins[0];
      assert e in EntriesOf(p) <==> e.plugin == p && e.info in p.infos by {
        if e.plugin == p && e.info in p.infos {
          var k :| 0 <= k < |p.infos| && p.infos[k] == e.info;
          assert EntriesOf(p)[k] == e;
        }
      }
      if e in Flatten(plugins[1..]) {
        var k :| 0 <= k < |plugins[1..]| && e.plugin == plugins[1..][k] && e.info in plugins[1..][k].infos;
        assert e.plugin == plugins[k + 1];
      }
      if exists k :: 0 <= k < |plugins| && e.plugin == plugins[k] && e.info in plugins[k].infos {
        var k :| 0 <= k < |plugins| && e.plugin == plugins[k] && e.info in plugins[k].infos;
        if k > 0 {
          assert e.plugin == plugins[1..][k - 1];
        }
      }
    }
  }
}
