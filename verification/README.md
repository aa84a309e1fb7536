# Lunchbox uploader: plugin selection and uploader lifecycle

A Dafny model of `lunchbox/uploader.cpp`. An uploader owns one native plugin
instance that moves a buffer to the GPU. The model covers two parts:

- **Selection** (`Finder` and `Uploader::choose`). The registry is traversed
  once. A running best descriptor starts as `EQ_COMPRESSOR_NONE` with speed 0.
  A (plugin, descriptor) pair replaces it when all of these hold:
  - its capabilities cover the requested mask;
  - its output and input token types are the requested ones;
  - the plugin reports it compatible with the GL context;
  - it is strictly faster than the current best.
- **Lifecycle** (`detail::Uploader` and the public `Uploader`). An uploader can
  be constructed in three ways: empty, by name, or by constraint (which runs
  `choose` and then constructs by name). The model also covers `isGood`,
  `uses`, `supports`, `getInfo`, `swap`, `clear`, the destructor's check and
  `upload`'s check.

Files:

- `compressor.dfy`: the descriptor (`Info`), the reserved names, the
  capability masks, and the instance and context handles.
- `plugin.dfy`: the plugin and the registry that the uploader consumes. A
  plugin keeps its advertised descriptors and its pools of live compressor and
  decompressor instances. The registry is a list of plugins. It is traversed
  plugin by plugin and descriptor by descriptor.
- `finder.dfy`: selection. There are two parts:
  - `Finder` is a class, and its `Visit` updates `current` in place. `Choose`
    is the traversal loop over the registry.
  - `Winner` and `Best` state the same fold over prefixes of the traversal.
    `Choose` is proved against `Best`, and the lemmas say which pair wins.
- `uploader.dfy`: the lifecycle.
  - `Impl` models `detail::Uploader` and `Uploader` models the public class.
  - `UploaderState` is the value of an uploader's four fields. It carries
    `isGood`, `uses` and `supports`.
  - The lemmas connect construction by constraint to `choose` and to
    `supports`.

`Plugin::isCompatible` is a function parameter (`Compat`), so every statement
holds for any answer the plugin and the GL state give. `isGood` asks again at
every call, as the source does.

## Model

| member | source | states |
|---|---|---|
| `Plugins.Plugin.FindInfo` | lunchbox/uploader.cpp:51-53 | the descriptor found carries the requested name and is one the plugin advertises; there is none exactly when no advertised descriptor has that name |
| `Plugins.Registry.FindPlugin` | lunchbox/uploader.cpp:45-48 | the plugin found is loaded and implements the name; there is none exactly when no loaded plugin implements it |
| `Plugins.Plugin.NewCompressor` | lunchbox/uploader.cpp:50 | hands out a non-null instance not live before, added to the compressor pool; the decompressor pool is unchanged |
| `Plugins.Plugin.NewDecompressor` | lunchbox/uploader.cpp:50 | the entry point the corrected line 50 calls (see Findings): a non-null instance not live before joins the decompressor pool; the compressor pool is unchanged |
| `Plugins.Plugin.DeleteDecompressor` | lunchbox/uploader.cpp:62 | removes the instance from the decompressor pool only |
| `Plugins.FlattenMember` | lunchbox/uploader.cpp:171 | the traversal visits exactly the pairs of a loaded plugin and one of its own descriptors |
| `Selection.Winner` | lunchbox/uploader.cpp:142-154 | the pair the Finder ends on passes all four filters and has speed above 0 |
| `Selection.WinnerIsFirstFastest` | lunchbox/uploader.cpp:145-151 | every matching pair before the winner is strictly slower and every matching pair after it is no faster; with no winner, no pair passes all five tests |
| `Selection.WinnerNoneIff` | lunchbox/uploader.cpp:138-153 | the Finder keeps its initial NONE descriptor if and only if no pair passes all five tests |
| `Selection.WinnerUnique` | lunchbox/uploader.cpp:145-151 | a candidate strictly faster than every earlier match and no slower than every later match is the winner, so the characterisation determines the result |
| `Selection.TieKeepsFirst` | lunchbox/uploader.cpp:149 | of two equally fast qualifying pairs, the later one never wins |
| `Selection.SlowNeverWins` | lunchbox/uploader.cpp:138-149 | a pair whose speed is not above 0 never wins |
| `Selection.ChooseResult` | lunchbox/uploader.cpp:165-173 | when every descriptor has a real name, `choose` returns NONE exactly when nothing passes all five tests, and otherwise the descriptor of a qualifying pair at least as fast as every qualifying pair |
| `Selection.Finder.constructor` | lunchbox/uploader.cpp:131-140 | a new Finder holds the NONE descriptor with speed 0 and the query it was given |
| `Selection.Finder.Visit` | lunchbox/uploader.cpp:142-154 | adopts the visited descriptor exactly when it passes the four filters and is strictly faster than the current one; always asks to continue |
| `Selection.Choose` | lunchbox/uploader.cpp:165-173 | returns the name of `Best` over the whole traversal |
| `Lifecycle.Impl.Empty` | lunchbox/uploader.cpp:34 | no plugin, no instance, name NONE, null context |
| `Lifecycle.Impl.constructor` | lunchbox/uploader.cpp:36-57 | for a name at or below NONE, an empty uploader with the plugins untouched; otherwise it binds to the first plugin implementing the name, takes that plugin's descriptor and a fresh instance that joins the plugin's compressor pool, keeps the invariant, and changes no other plugin |
| `Lifecycle.Impl.WithDecompressor` | lunchbox/uploader.cpp:36-57 | the same construction with the instance created as a decompressor, the kind the destructor deletes (the corrected line 50 of the finding below) |
| `Lifecycle.Impl.Destroy` | lunchbox/uploader.cpp:59-65 | a live instance goes back to its plugin; afterwards there is no plugin and no instance, and the descriptor and context stay |
| `Lifecycle.Uploader.constructor` | lunchbox/uploader.cpp:73-77 | a fresh, empty, valid uploader |
| `Lifecycle.Uploader.ByName` | lunchbox/uploader.cpp:79-84 | the state by-name construction produces; for a real name the chosen plugin's compressor pool gains one fresh instance and nothing else changes |
| `Lifecycle.Uploader.ByConstraint` | lunchbox/uploader.cpp:86-95 | the same state and compressor-pool change as by-name construction with the name `choose` returns |
| `Lifecycle.Uploader.Dispose` | lunchbox/uploader.cpp:98-103 | may be called only on an uploader without a plugin, and then changes nothing |
| `Lifecycle.Uploader.GetInfo` | lunchbox/uploader.cpp:175-178 | a bound uploader's descriptor has a real name and the transfer capability |
| `Lifecycle.Uploader.Swap` | lunchbox/uploader.cpp:180-183 | the two uploaders exchange their whole state, and both stay valid |
| `Lifecycle.Uploader.Clear` | lunchbox/uploader.cpp:185-189 | any live instance goes back to its plugin, and the uploader ends empty with name NONE and a null context |
| `Lifecycle.Uploader.Upload` | lunchbox/uploader.cpp:191-198 | requires isGood; the bound plugin, instance, name and context go to the transfer with the caller's arguments unchanged, and the instance and context are never null |
| `Lifecycle.UploaderState.ImplGood` | lunchbox/uploader.cpp:67 | true only for a non-empty uploader; for one that keeps the invariant, exactly when it is not empty |
| `Lifecycle.UploaderState.IsGood` | lunchbox/uploader.cpp:105-110 | good exactly when the uploader uses its own name and its plugin reports that name compatible with the context |
| `Lifecycle.UploaderState.Uses` | lunchbox/uploader.cpp:112-115 | a name is used only by a non-empty uploader bound to that very name, and never a name at or below NONE |
| `Lifecycle.UploaderState.Supports` | lunchbox/uploader.cpp:117-124 | only a good uploader supports anything; one that supports a mask containing the transfer flag has a transfer descriptor |
| `Lifecycle.EmptyIsNotGood` | lunchbox/uploader.cpp:105-124 | an empty uploader is not good, and it uses and supports nothing |
| `Lifecycle.SupportsFewer` | lunchbox/uploader.cpp:117-124 | an uploader that supports a capability mask supports every sub-mask of it |
| `Lifecycle.ByNameEmpty` | lunchbox/uploader.cpp:41-42 | by-name construction with a name at or below NONE is empty, valid and not good |
| `Lifecycle.ByNameBound` | lunchbox/uploader.cpp:44-54 | by-name construction with a real name is valid: its descriptor has that name and the transfer capability, and it uses that name and no other |
| `Lifecycle.ChosenIsRegistered` | lunchbox/uploader.cpp:86-92 | a real name returned by `choose` always has a registered plugin, so the lookup in by-name construction cannot fail for it |
| `Lifecycle.ConstraintWithoutMatchIsEmpty` | lunchbox/uploader.cpp:86-92 | when nothing passes the five tests, construction by constraint gives an empty uploader named NONE that is not good |
| `Lifecycle.LookupFindsWinner` | lunchbox/uploader.cpp:44-53 | with unique descriptor names, looking up the winner's name finds the winner's own plugin and descriptor again |
| `Lifecycle.ConstraintSupportsQuery` | lunchbox/uploader.cpp:86-124 | with unique real names, a non-null context and some qualifying pair, the uploader constructed by constraint is good and supports the formats and capabilities it was asked for |
| `Lifecycle.ConstraintGoodIff` | lunchbox/uploader.cpp:86-110 | under the same conditions, the uploader constructed by constraint is good exactly when some pair passes all five tests |
| `Lifecycle.ConstraintCanInstantiate` | lunchbox/uploader.cpp:41-54 | with unique names, a non-null context and a query that asks for the transfer flag, the name `choose` returns meets every demand of by-name construction |
| `Lifecycle.ConstructThenClearAsWritten` | lunchbox/uploader.cpp:50-62 | by-name construction then `clear`, as written: the uploader ends empty but the instance it created is still live in the plugin's compressor pool |
| `Lifecycle.ConstructThenDestroyCorrected` | lunchbox/uploader.cpp:185-189 | with the instance created as a decompressor, construction followed by teardown leaves every plugin's instance pools as they were |
| `Lifecycle.ClearTwice` | lunchbox/uploader.cpp:185-189 | clearing twice gives the same state as clearing once, and the second clear releases nothing |
| `Lifecycle.SwapTwice` | lunchbox/uploader.cpp:180-183 | swapping twice restores both uploaders |

## Left out

- The plugin and registry headers are not part of this model. `EQ_COMPRESSOR_NONE` is 1 and `EQ_COMPRESSOR_INVALID` is 0; the `name <= EQ_COMPRESSOR_NONE` test treats both as "no plugin". `EQ_COMPRESSOR_TRANSFER` stands for one bit of the 64-bit mask; its numeric value does not matter to the model.
- The body of `PluginInstance` is not part of this model. Its name constructor is taken to set the descriptor's name, leave the other fields 0, and leave plugin and instance null. `PluginInstance::isGood` is taken to be "has a plugin and an instance".
- The release-build fallback `if( !plugin ) return;` (lines 47-48) is not modelled. The `LBASSERT` before it is a precondition of by-name construction, so the fallback cannot run.
- The plugin is modelled as always creating an instance, so the `LBASSERT( instance )` on line 52 always holds. A plugin that fails to create one is not modelled.
- The transfer itself (`plugin->upload`, line 196) is foreign GPU code. `Upload` returns the arguments it would forward and changes nothing.
- How `PluginRegistry::accept` traverses and how plugins are loaded live in other files. The traversal is modelled as the flattened sequence of (plugin, descriptor) pairs, with plugins in load order.
- Thread-affinity checks (`LB_TS_THREAD`, `LB_TS_SCOPED`) and logging (`LBLOG`) are not modelled.
- Descriptor speed is a float in the source and a real here. NaN speeds are not modelled.
- Deallocation: Dafny does not free objects. `Dispose` models the destructor's check and the teardown of `detail::Uploader`. The memory itself is not modelled.
- Descriptor fields the uploader never reads (version, quality, ratio, token sizes) are not modelled.
- Selection.ChooseResult: assumes every visited descriptor's name is above NONE. A descriptor that calls itself NONE could win and be indistinguishable from "no match".
- Lifecycle.ConstraintSupportsQuery: assumes no two descriptors in the registry share a name. `choose` passes on only the name, and by-name construction looks the descriptor up again through the first plugin implementing that name.
- Plugins.Plugin.NewDecompressor: the source calls `newCompressor` on line 50. `newDecompressor` is used only by `Lifecycle.Impl.WithDecompressor`, the corrected constructor of the finding below; the uploaders themselves construct as written.
- Three behaviours of the code worth noting; the model follows them:
  - Selection needs speed above 0, not just a match, because the running best starts at speed 0 and the test is strict.
  - `swap` exchanges only the implementation object; the thread-affinity tag stays.
  - `isGood` also requires a non-null context.

## Findings

| source | as written | input that shows it | evidently intended | confidence | as-written member | corrected member |
|---|---|---|---|---|---|---|
| lunchbox/uploader.cpp:50 | The instance is created with `newCompressor`, but `~detail::Uploader` (line 62) releases it with `deleteDecompressor`. | By-name construction with any registered name, then `clear`. The instance stays live in the plugin's compressor pool. | `newDecompressor`: it pairs with `deleteDecompressor`, and it creates the kind of instance the plugin's upload entry point works on. | medium; not executed | `Lifecycle.ConstructThenClearAsWritten` | `Lifecycle.ConstructThenDestroyCorrected` |
