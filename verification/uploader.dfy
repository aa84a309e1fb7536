/**
 * The uploader's lifecycle: detail::Uploader (`Impl`), which owns one native
 * plugin instance bound to a GL context, and the public Uploader, which holds
 * an `Impl` and replaces or exchanges it.
 *
 * isCompatible is a parameter of the predicates that consult it, so that
 * every statement holds whatever the plugin and the GL state answer, and the
 * answer is asked again at every call.
 */
module Lifecycle {
  import opened Compressor
  import opened Plugins
  import opened Selection

  /** The fields of a detail::Uploader, as a value. */
  datatype UploaderState = UploaderState(plugin: Plugin?, instance: Instance, info: Info, gl: Context) {

    predicate IsEmpty() {
      plugin == null && instance == NULL_INSTANCE
    }

    /**
     * What every uploader keeps: it has a plugin exactly when it has an
     * instance, and a bound uploader has a real name, the transfer capability
     * and a context.
     */
    ghost predicate Valid() {
      && (plugin == null <==> instance == NULL_INSTANCE)
      && (plugin != null ==> info.name > NONE && HasTransfer(info.capabilities) && gl != NO_CONTEXT)
    }

    /**
     * detail::Uploader::isGood: a context, a plugin and an instance. For an
     * uploader that keeps its invariant this is exactly "not empty".
     */
    predicate ImplGood(): (r: bool)
      ensures r ==> !IsEmpty()
      ensures Valid() ==> (r <==> !IsEmpty())
    {
      gl != NO_CONTEXT && plugin != null && instance != NULL_INSTANCE
    }

    /**
     * Uploader::isGood: bound, and the plugin accepts the context for this
     * name now. A good uploader is one that uses its own name and that its
     * plugin finds compatible.
     */
    predicate IsGood(compatible: Compat): (r: bool)
      ensures r <==> Uses(info.name) && plugin != null && compatible(plugin, info.name, gl)
    {
      ImplGood() && instance != NULL_INSTANCE && compatible(plugin, info.name, gl)
    }

    /** Uploader::uses: a bound uploader uses its own name only, and never a reserved one. */
    predicate Uses(name: uint32): (r: bool)
      ensures r ==> !IsEmpty() && info.name == name
      ensures Valid() && r ==> name > NONE
    {
      ImplGood() && instance != NULL_INSTANCE && info.name == name
    }

    /** Uploader::supports: only a good uploader supports anything. */
    predicate Supports(externalFormat: uint32, internalFormat: uint32, capabilities: Caps, compatible: Compat): (r: bool)
      ensures r ==> IsGood(compatible) && Uses(info.name)
      ensures Valid() && r && Covers(capabilities, TRANSFER) ==> HasTransfer(info.capabilities)
    {
      && IsGood(compatible)
      && info.outputTokenType == externalFormat
      && Covers(info.capabilities, capabilities)
      && info.tokenType == internalFormat
    }
  }

  /** What detail::Uploader() holds, and what `clear` leaves behind. */
  const EmptyState: UploaderState := UploaderState(null, NULL_INSTANCE, Named(NONE), NO_CONTEXT)

  /** What by-name construction demands: a context, a registered plugin, a transfer descriptor. */
  predicate CanInstantiate(registry: Registry, name: uint32, gl: Context) {
    || name <= NONE
    || (&& gl != NO_CONTEXT
        && registry.FindPlugin(name).Some?
        && HasTransfer(registry.FindPlugin(name).value.FindInfo(name).value.capabilities))
  }

  /**
   * The state by-name construction produces: empty for a name at or below
   * NONE, otherwise bound to the first plugin implementing `name`, with that
   * plugin's descriptor for it and a live instance.
   */
  ghost predicate Resolved(s: UploaderState, registry: Registry, name: uint32, gl: Context) {
    if name <= NONE then s == UploaderState(null, NULL_INSTANCE, Named(name), gl)
    else
      && registry.FindPlugin(name).Some?
      && s.plugin == registry.FindPlugin(name).value
      && s.instance != NULL_INSTANCE
      && s.info == registry.FindPlugin(name).value.FindInfo(name).value
      && s.gl == gl
  }

  /** The two kinds of instance a plugin hands out. */
  datatype Pool = CompressorPool | DecompressorPool

  /**
   * How by-name construction changes the plugins: for a real name, the chosen
   * plugin hands out one new instance `h` of the given kind; nothing else
   * changes.
   */
  twostate predicate Instantiated(registry: Registry, name: uint32, h: Instance, pool: Pool)
    reads registry.Plugins()
  {
    if name <= NONE then unchanged(registry.Plugins())
    else
      && registry.FindPlugin(name).Some?
      && var p := registry.FindPlugin(name).value;
      && h !in old(p.compressors) && h !in old(p.decompressors)
      && p.compressors == old(p.compressors) + (if pool == CompressorPool then {h} else {})
      && p.decompressors == old(p.decompressors) + (if pool == DecompressorPool then {h} else {})
      && forall other :: other in registry.Plugins() && other != p ==> unchanged(other)
  }

  /** How tearing down `s` changes its plugin: its instance goes back, nothing else. */
  twostate predicate Released(s: UploaderState)
    reads s.plugin
  {
    s.plugin != null ==>
      && s.plugin.decompressors == old(s.plugin.decompressors) - {s.instance}
      && s.plugin.compressors == old(s.plugin.compressors)
  }

  /** detail::Uploader */
  class Impl {
    var plugin: Plugin?
    var instance: Instance
    var info: Info
    const gl: Context

    function State(): UploaderState
      reads this
    {
      UploaderState(plugin, instance, info, gl)
    }

    constructor Empty()
      ensures State() == EmptyState
    {
      plugin, instance, info, gl := null, NULL_INSTANCE, Named(NONE), NO_CONTEXT;
    }

    /**
     * By-name construction: instantiate `name` through the first plugin
     * implementing it. The instance is created as a compressor.
     */
    constructor (registry: Registry, name: uint32, gl: Context)
      requires registry.Valid() && CanInstantiate(registry, name, gl)
      modifies registry.Plugins()
      ensures registry.Valid()
      ensures Resolved(State(), registry, name, gl) && State().Valid()
      ensures Instantiated(registry, name, instance, CompressorPool)
    {
      var p: Plugin? := null;
      var h := NULL_INSTANCE;
      var found := Named(name);
      if name > NONE {
        p := registry.FindPlugin(name).value;
        h := p.NewCompressor(name);
        found := p.FindInfo(name).value;
      }
      plugin, instance, info, this.gl := p, h, found, gl;
    }

    /**
     * By-name construction with the instance created as a decompressor, the
     * kind the destructor deletes.
     */
    constructor WithDecompressor(registry: Registry, name: uint32, gl: Context)
      requires registry.Valid() && CanInstantiate(registry, name, gl)
      modifies registry.Plugins()
      ensures registry.Valid()
      ensures Resolved(State(), registry, name, gl) && State().Valid()
      ensures Instantiated(registry, name, instance, DecompressorPool)
    {
      var p: Plugin? := null;
      var h := NULL_INSTANCE;
      var found := Named(name);
      if name > NONE {
        p := registry.FindPlugin(name).value;
        h := p.NewDecompressor(name);
        found := p.FindInfo(name).value;
      }
      plugin, instance, info, this.gl := p, h, found, gl;
    }

    /** ~detail::Uploader: delete a live instance through its plugin, then forget both. */
    method Destroy()
      requires State().Valid()
      requires plugin != null ==> plugin.Valid()
      modifies this, plugin
      ensures State() == old(State()).(plugin := null, instance := NULL_INSTANCE)
      ensures old(plugin) != null ==> old(plugin).Valid()
      ensures Released(old(State()))
    {
      if instance != NULL_INSTANCE {
        plugin.DeleteDecompressor(instance);
      }
      instance := NULL_INSTANCE;
      plugin := null;
    }
  }

  /** The arguments Uploader::upload forwards to the plugin's transfer routine. */
  type Dims = s: seq<uint64> | |s| == 4 witness [0, 0, 0, 0]

  datatype Transfer = Transfer(
    plugin: Plugin, instance: Instance, name: uint32, gl: Context,
    buffer: nat, inDims: Dims, flags: uint64, outDims: Dims, destination: uint32)

  /** The public Uploader: a handle on one detail::Uploader. */
  class Uploader {
    var impl: Impl

    ghost predicate Valid()
      reads this, impl
    {
      impl.State().Valid()
    }

    function State(): UploaderState
      reads this, impl
    {
      impl.State()
    }

    constructor ()
      ensures Valid() && fresh(impl)
      ensures State() == EmptyState
    {
      impl := new Impl.Empty();
    }

    constructor ByName(registry: Registry, name: uint32, gl: Context)
      requires registry.Valid() && CanInstantiate(registry, name, gl)
      modifies registry.Plugins()
      ensures Valid() && fresh(impl) && registry.Valid()
      ensures Resolved(State(), registry, name, gl)
      ensures Instantiated(registry, name, State().instance, CompressorPool)
    {
      impl := new Impl(registry, name, gl);
    }

    /** Construction by constraint: by-name construction with the name `choose` returns. */
    constructor ByConstraint(registry: Registry, externalFormat: uint32, internalFormat: uint32,
                             capabilities: Caps, gl: Context, compatible: Compat)
      requires registry.Valid()
      requires CanInstantiate(registry, Best(registry.Entries(), Query(externalFormat, internalFormat, capabilities, gl), compatible).name, gl)
      modifies registry.Plugins()
      ensures Valid() && fresh(impl) && registry.Valid()
      ensures var chosen := Best(registry.Entries(), Query(externalFormat, internalFormat, capabilities, gl), compatible).name;
        && Resolved(State(), registry, chosen, gl)
        && Instantiated(registry, chosen, State().instance, CompressorPool)
    {
      var name := Choose(registry, externalFormat, internalFormat, capabilities, gl, compatible);
      impl := new Impl(registry, name, gl);
    }

    /** ~Uploader: only an uploader that was cleared may be destroyed. */
    method Dispose()
      requires Valid() && State().plugin == null
      modifies impl
      ensures State() == old(State())
    {
      impl.Destroy();
    }

    /** Uploader::getInfo: a bound uploader's descriptor has a real name and can transfer. */
    function GetInfo(): (r: Info)
      reads this, impl
      requires Valid()
      ensures State().plugin != null ==> r.name > NONE && HasTransfer(r.capabilities)
    {
      impl.info
    }

    /** Uploader::swap: exchange the two detail::Uploader objects. */
    method Swap(other: Uploader)
      requires Valid() && other.Valid()
      modifies this, other
      ensures Valid() && other.Valid()
      ensures impl == old(other.impl) && other.impl == old(impl)
      ensures State() == old(other.State()) && other.State() == old(State())
    {
      var mine := impl;
      impl := other.impl;
      other.impl := mine;
    }

    /** Uploader::clear: destroy the current instance, then start over empty. */
    method Clear()
      requires Valid()
      requires State().plugin != null ==> State().plugin.Valid()
      modifies this, impl, impl.plugin
      ensures Valid() && fresh(impl)
      ensures State() == EmptyState
      ensures old(State().plugin) != null ==> old(State().plugin).Valid()
      ensures Released(old(State()))
    {
      impl.Destroy();
      impl := new Impl.Empty();
    }

    /** Uploader::upload: check isGood, then hand the bound instance and the arguments to the plugin. */
    method Upload(compatible: Compat, buffer: nat, inDims: Dims, flags: uint64, outDims: Dims, destination: uint32)
      returns (call: Transfer)
      requires Valid() && State().IsGood(compatible)
      ensures call.plugin == State().plugin && call.instance == State().instance
      ensures call.name == State().info.name && call.gl == State().gl
      ensures call.instance != NULL_INSTANCE && call.gl != NO_CONTEXT && compatible(call.plugin, call.name, call.gl)
      ensures call.buffer == buffer && call.inDims == inDims && call.flags == flags
      ensures call.outDims == outDims && call.destination == destination
    {
      call := Transfer(impl.plugin, impl.instance, impl.info.name, impl.gl,
                       buffer, inDims, flags, outDims, destination);
    }
  }

  /** An empty uploader is never good and uses and supports nothing. */
  lemma EmptyIsNotGood(s: UploaderState, compatible: Compat, name: uint32,
                       externalFormat: uint32, internalFormat: uint32, capabilities: Caps)
    requires s.IsEmpty()
    ensures !s.IsGood(compatible) && !s.Uses(name)
    ensures !s.Supports(externalFormat, internalFormat, capabilities, compatible)
  {
  }

  /** An uploader that supports a mask supports every sub-mask of it. */
  lemma SupportsFewer(s: UploaderState, compatible: Compat, externalFormat: uint32, internalFormat: uint32,
                      capabilities: Caps, fewer: Caps)
    requires s.Supports(externalFormat, internalFormat, capabilities, compatible)
    requires Covers(capabilities, fewer)
    ensures s.Supports(externalFormat, internalFormat, fewer, compatible)
  {
    CoversTransitive(s.info.capabilities, capabilities, fewer);
  }

  /** By-name construction with a name at or below NONE gives an empty uploader. */
  lemma ByNameEmpty(s: UploaderState, registry: Registry, name: uint32, gl: Context, compatible: Compat)
    requires name <= NONE && Resolved(s, registry, name, gl)
    ensures s.IsEmpty() && s.Valid() && s.info.name == name
    ensures !s.IsGood(compatible)
  {
  }

  /**
   * By-name construction with a real name gives an uploader that keeps the
   * invariant, carries the requested name and uses that name and no other.
   */
  lemma ByNameBound(s: UploaderState, registry: Registry, name: uint32, gl: Context)
    requires name > NONE && CanInstantiate(registry, name, gl) && Resolved(s, registry, name, gl)
    ensures s.Valid() && s.info.name == name && HasTransfer(s.info.capabilities)
    ensures s.Uses(name)
    ensures forall other: uint32 :: s.Uses(other) ==> other == name
  {
  }

  /** A name `choose` returns is always registered, so by-name lookup cannot fail for it. */
  lemma ChosenIsRegistered(registry: Registry, q: Query, compatible: Compat)
    ensures Best(registry.Entries(), q, compatible).name > NONE ==>
      registry.FindPlugin(Best(registry.Entries(), q, compatible).name).Some?
  {
    var entries := registry.Entries();
    var w := Winner(entries, q, compatible);
    if w.Some? {
      var e := entries[w.value];
      FlattenMember(registry.plugins, e);
      var k :| 0 <= k < |registry.plugins| && e.plugin == registry.plugins[k] && e.info in registry.plugins[k].infos;
      var m :| 0 <= m < |e.plugin.infos| && e.plugin.infos[m] == e.info;
      assert e.plugin.ImplementsType(e.info.name);
    }
  }

  /**
   * When nothing in the registry passes the five tests, construction by
   * constraint gives an empty uploader that is not good.
   */
  lemma {:induction false} ConstraintWithoutMatchIsEmpty(s: UploaderState, registry: Registry, q: Query, compatible: Compat)
    requires forall j :: 0 <= j < |registry.Entries()| ==> !Candidate(registry.Entries()[j], q, compatible)
    requires Resolved(s, registry, Best(registry.Entries(), q, compatible).name, q.gl)
    ensures s.IsEmpty() && s.info.name == NONE
    ensures !s.IsGood(compatible)
  {
    WinnerNoneIff(registry.Entries(), q, compatible);
  }

  /**
   * When descriptor names are unique, the registry's lookup for the winner's
   * name finds the winner's own plugin and descriptor again.
   */
  lemma LookupFindsWinner(registry: Registry, q: Query, compatible: Compat)
    requires registry.UniqueNames() && Winner(registry.Entries(), q, compatible).Some?
    ensures var e := registry.Entries()[Winner(registry.Entries(), q, compatible).value];
      && registry.FindPlugin(e.info.name) == Some(e.plugin)
      && e.plugin.FindInfo(e.info.name) == Some(e.info)
  {
    var entries := registry.Entries();
    var w := Winner(entries, q, compatible).value;
    var e := entries[w];
    FlattenMember(registry.plugins, e);
    var k :| 0 <= k < |registry.plugins| && e.plugin == registry.plugins[k] && e.info in registry.plugins[k].infos;
    var m :| 0 <= m < |e.plugin.infos| && e.plugin.infos[m] == e.info;
    assert e.plugin.ImplementsType(e.info.name);
    var p := registry.FindPlugin(e.info.name).value;
    var found := p.FindInfo(e.info.name).value;
    var k2 :| 0 <= k2 < |registry.plugins| && registry.plugins[k2] == p;
    FlattenMember(registry.plugins, Entry(p, found));
    var i :| 0 <= i < |entries| && entries[i] == Entry(p, found);
    assert i == w;
  }

  /**
   * When some pair passes the five tests, the uploader constructed by
   * constraint is good and supports the very formats and capabilities it was
   * asked for, provided the context is not null, every descriptor has a real
   * name and no two share one (`choose` passes on only the name, and by-name
   * construction looks the descriptor up again).
   */
  lemma ConstraintSupportsQuery(s: UploaderState, registry: Registry, q: Query, compatible: Compat)
    requires registry.UniqueNames() && NamesAboveNone(registry.Entries()) && q.gl != NO_CONTEXT
    requires exists j :: 0 <= j < |registry.Entries()| && Candidate(registry.Entries()[j], q, compatible)
    requires Resolved(s, registry, Best(registry.Entries(), q, compatible).name, q.gl)
    ensures s.IsGood(compatible)
    ensures s.Supports(q.externalFormat, q.internalFormat, q.capabilities, compatible)
  {
    WinnerNoneIff(registry.Entries(), q, compatible);
    LookupFindsWinner(registry, q, compatible);
  }

  /**
   * Under the same conditions, the uploader constructed by constraint is good
   * exactly when some pair in the registry passes the five tests.
   */
  lemma ConstraintGoodIff(s: UploaderState, registry: Registry, q: Query, compatible: Compat)
    requires registry.UniqueNames() && NamesAboveNone(registry.Entries()) && q.gl != NO_CONTEXT
    requires Resolved(s, registry, Best(registry.Entries(), q, compatible).name, q.gl)
    ensures s.IsGood(compatible) <==>
      exists j :: 0 <= j < |registry.Entries()| && Candidate(registry.Entries()[j], q, compatible)
  {
    if exists j :: 0 <= j < |registry.Entries()| && Candidate(registry.Entries()[j], q, compatible) {
      ConstraintSupportsQuery(s, registry, q, compatible);
    } else {
      ConstraintWithoutMatchIsEmpty(s, registry, q, compatible);
    }
  }

  /**
   * When the query asks for the transfer capability and the context is not
   * null, construction by constraint meets every demand of by-name
   * construction, provided no two descriptors share a name.
   */
  lemma ConstraintCanInstantiate(registry: Registry, q: Query, compatible: Compat)
    requires registry.UniqueNames() && q.gl != NO_CONTEXT && Covers(q.capabilities, TRANSFER)
    ensures CanInstantiate(registry, Best(registry.Entries(), q, compatible).name, q.gl)
  {
    var w := Winner(registry.Entries(), q, compatible);
    if w.Some? {
      LookupFindsWinner(registry, q, compatible);
      CoversTransitive(registry.Entries()[w.value].info.capabilities, q.capabilities, TRANSFER);
    }
  }

  /**
   * By-name construction followed by `clear`, as the source writes it: the
   * instance is created as a compressor and deleted as a decompressor, so it
   * is still live in the plugin's compressor pool after the uploader is empty.
   */
  method ConstructThenClearAsWritten(registry: Registry, name: uint32, gl: Context) returns (u: Uploader, h: Instance)
    requires registry.Valid() && CanInstantiate(registry, name, gl) && name > NONE
    modifies registry.Plugins()
    ensures u.Valid() && u.State() == EmptyState && registry.Valid()
    ensures registry.FindPlugin(name).Some?
    ensures var p := registry.FindPlugin(name).value;
      h != NULL_INSTANCE && h !in old(p.compressors) && h in p.compressors
  {
    u := new Uploader.ByName(registry, name, gl);
    h := u.State().instance;
    u.Clear();
  }

  /**
   * The same lifecycle with the instance created as a decompressor:
   * construction followed by the teardown `clear` performs leaves every
   * plugin's instance pools as they were.
   */
  method ConstructThenDestroyCorrected(registry: Registry, name: uint32, gl: Context) returns (impl: Impl)
    requires registry.Valid() && CanInstantiate(registry, name, gl)
    modifies registry.Plugins()
    ensures impl.State().IsEmpty() && impl.State().Valid() && registry.Valid()
    ensures forall p :: p in registry.Plugins() ==>
      p.compressors == old(p.compressors) && p.decompressors == old(p.decompressors)
  {
    impl := new Impl.WithDecompressor(registry, name, gl);
    impl.Destroy();
  }

  /** Clearing twice leaves the same state as clearing once, and the second clear releases nothing. */
  method ClearTwice(u: Uploader)
    requires u.Valid()
    requires u.State().plugin != null ==> u.State().plugin.Valid()
    modifies u, u.impl, u.impl.plugin
    ensures u.Valid() && u.State() == EmptyState
    ensures Released(old(u.State()))
  {
    u.Clear();
    ghost var once := u.State();
    u.Clear();
    assert u.State() == once;
  }

  /** Swapping twice restores both uploaders. */
  method SwapTwice(a: Uploader, b: Uploader)
    requires a.Valid() && b.Valid()
    modifies a, b
    ensures a.impl == old(a.impl) && b.impl == old(b.impl)
    ensures a.State() == old(a.State()) && b.State() == old(b.State())
  {
    a.Swap(b);
    a.Swap(b);
  }
}
