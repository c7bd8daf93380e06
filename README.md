# Bedrock add-on manifest loader and version advancer, in Dafny

This project models the core of `advance_pack.py`, a small tool for Minecraft Bedrock add-ons. It does three things:

- It finds the `manifest.json` files of a behavior pack and a resource pack.
- It loads each manifest into a typed pack.
- It bumps the version of one pack when the user presses "Advance Minor Version" or "Advance Major Version".

The model has six modules:

- `Json` (json.dfy): the decoded JSON that `json.load` returns, and the three Python operations the loader uses on it. These are `d[key]` (`Subscript`), `d.get(key, default)` (`Get`) and iteration with `for` (`Elements`). A lookup that raises in Python returns `Err(KeyError(..))`, `Err(TypeError)` or `Err(AttributeError)` here.
- `Manifest` (manifest.dfy): the dataclasses `ManifestHeader`, `Dependency`, the four module classes, and `ResourcePack`/`BehaviorPack`. The two pack classes become one `Pack` datatype with a `kind` tag. `WellKinded` says that a pack's modules are of the variants its kind allows. Python never enforces the field annotations, so every field holds the JSON value the loader copied into it. An optional field that is absent holds `Null`, which stands for Python's `None`.
- `Loader` (loader.dfy): `_load_header`, `_load_dependencies`, `_load_behavior` and `_load_resource`. Specification functions (`LoadHeader`, `LoadModuleEntry`, `ModulesOf`, `DependenciesOf`, `PackOf`) say what each loader returns or raises. The methods `LoadDependencies` and `LoadPack` run the source's append loops, and each is proved to return exactly what its specification function says. `_load_behavior` and `_load_resource` differ only in the module tags they keep, so one method `LoadPack(kind, data)` models both.
- `Discovery` (discovery.dfy): the class `ManifestLoader`, with its two fields and its methods `Scan` and `LoadManifest`. `Scan` takes the files found by the directory walk, in walk order. Each file is either its decoded contents or `Unreadable`, which stands for a failure to open or decode it. `ScanFrom` is the loader state after a scan. The lemmas show that the last file that loads as a pack of a given kind is the one that stays.
- `Advance` (advance.dfy): the four `_advance_*` callbacks of the modify window. They are the methods of the class `ModifyManifests`, whose fields `rp` and `bp` are the two packs the buttons act on. All four share the method `AdvancePack`. It is proved against the specification function `Advanced`, and the lemmas about `Advanced` state the frame.
- `Scenarios` (scenarios.dfy): a worked example with two concrete manifests. It is loaded, scanned and bumped.

## Where the code and its description disagree (the model follows the code)

- A later manifest of the same kind replaces an earlier one. The scan keeps the last pack of each kind that loads, not the first (`ScanKeepsLastLoaded`).
- The kind of a manifest is decided by its first module typed `data`, `resources` or `client_data`. A `script` module does not decide it, and a manifest of `script` modules only is skipped (`FirstPackKindDecides`, `FirstPackKindUndecided`).
- The loader never checks the shape of a version. Any JSON value is accepted for `version`, and the bump callbacks raise on a version that is too short.
- A module entry whose `type` is not kept is dropped. A module entry without a `type`, or a kept one without `uuid` or `version`, makes the whole manifest fail to load (`ModulesOfSucceeds`).
- A Minor bump adds one at index 2 of the header version but at index 1 of each matching module version (`AdvancedModuleVersion`, `MinorSplitsModuleFromHeader`). Index 0 is never touched.
- The bump is never carried into the other pack's dependencies. The guard `type(dependency.version) == list[str]` compares a class with a generic alias, and that comparison is `False` for every value. So the other pack is never modified, and the early return before that loop has no visible effect.
- There is no writer. Nothing saves a pack back to disk.

## Model

| member | source | states |
|---|---|---|
| `Loader.LoadHeader` | advance_pack.py:124-131 | The load succeeds exactly when the header is a dict with `name`, `uuid` and `version`. The error is the first one missing, in that order, or `TypeError` for a non-dict. `description` defaults to `""` and `min_engine_version` to `None`. |
| `Loader.LoadModuleEntry` | advance_pack.py:150-190 | An entry loads exactly when it is a dict with a `type` and, if that type is kept, has `uuid` and `version`. It yields a module exactly when its tag is kept for the kind. The module's variant matches the tag, `description` defaults to `None`, and a script's `language` defaults to `"javascript"` and its `entry` to `None`. |
| `Loader.ModulesOf` | advance_pack.py:149-164 | Every module of a loaded list is of a variant the pack kind allows. |
| `Loader.LoadDependencyEntry` | advance_pack.py:137-142 | A dependency loads exactly when it is a dict with `version`. Its `uuid` and `module_name` default to `None`. |
| `Loader.DependenciesOf` | advance_pack.py:134-143 | A loaded dependency list has one entry per input entry. |
| `Loader.PackOf` | advance_pack.py:146-197 | A loaded pack has the requested kind and is well kinded, and its header is the loaded header. `format_version` defaults to 2 and `metadata` to `None`. Its modules are what the module loop `ModulesOf` loads from the `modules` entries, and its dependencies are what `DependenciesField` loads. `dependencies` is `None` exactly when the key is absent, and a present empty list loads as an empty list. |
| `Loader.PackOfContents` | advance_pack.py:146-197 | A loaded pack's modules are exactly the kept entries of its `modules` list, in their order, each loaded from its entry. A present `dependencies` list loads one dependency per entry, in order. |
| `Loader.LoadDependencies` | advance_pack.py:134-143 | The append loop returns exactly what `DependenciesFrom` specifies, including the first exception. |
| `Loader.LoadPack` | advance_pack.py:146-197 | The header load, the module append loop and the dependency load return exactly what `PackOf` specifies, including the first exception. |
| `Loader.ModulesOfSucceeds` | advance_pack.py:150-164 | The module loop raises exactly when some entry is malformed. |
| `Loader.ModulesOfKeepsEntries` | advance_pack.py:150-164 | The loaded modules are exactly the entries with a kept tag, in their original order, each loaded from its entry. Every other entry is dropped. |
| `Loader.DependenciesOfSucceeds` | advance_pack.py:134-143 | The dependency loop raises exactly when some entry lacks `version`. Otherwise it loads every entry, in order. |
| `Loader.PackOfSucceeds` | advance_pack.py:146-197 | A pack loads exactly when its header, every module entry and every dependency entry (when the key is present) are well formed. |
| `Manifest.PackKindOfTag` | advance_pack.py:115-121 | Exactly `data` makes a behavior pack, and exactly `resources` and `client_data` make a resource pack. Every other tag decides nothing, and `script` is the one behavior module tag that decides nothing. |
| `Discovery.ManifestOutcome` | advance_pack.py:109-121 | A manifest that loads is loaded as the kind its modules classify it as, by the loader of that kind. A manifest that classifies as no kind is no pack. |
| `Discovery.FirstPackKindDecides` | advance_pack.py:113-121 | Classification returns a kind exactly when some module decides that kind and every module before it is a dict that decides nothing. |
| `Discovery.FirstPackKindUndecided` | advance_pack.py:113-121 | Classification finds no kind exactly when every module is a dict that decides nothing. |
| `Discovery.LoadsAsExactly` | advance_pack.py:109-197 | A manifest loads as a pack of a kind exactly when it classifies as that kind and its header, modules and dependencies are well formed. |
| `Discovery.ManifestLoader.constructor` | advance_pack.py:94-98 | Both pack fields start as `None`. |
| `Discovery.ManifestLoader.LoadManifest` | advance_pack.py:109-121 | The classification loop and the load return exactly `ManifestOutcome`. Only a loaded pack changes the loader, and only the field of its kind. A load that raises changes nothing. |
| `Discovery.ManifestLoader.Scan` | advance_pack.py:101-106 | The loop over the found files, with exceptions swallowed, leaves the fields at `ScanFrom` of the old fields. |
| `Discovery.ScanKeepsLastLoaded` | advance_pack.py:101-121 | After a scan, a field holds the pack of the last file that loads as its kind. A later pack of a kind overwrites an earlier one. |
| `Discovery.ScanWithoutLoadKeepsField` | advance_pack.py:101-121 | A scan in which no file loads as a kind leaves that field as it was. Files that fail to load never change it. |
| `Advance.AdvancedHeaderVersion` | advance_pack.py:284-307 | The version keeps its length and index 0. Minor keeps index 1 and adds one at index 2. Major adds one at index 1 and sets index 2 to 0. Indices past 2 are unchanged. |
| `Advance.AdvancedModuleVersion` | advance_pack.py:290-313 | The version keeps its length and index 0, and both levels add one at index 1. Minor keeps every later index. Major sets index 2 to 0 and keeps the rest. |
| `Advance.AdvancePack` | advance_pack.py:284-359 | Bumping the header and then looping over the modules yields exactly `Advanced`. |
| `Advance.ModifyManifests.constructor` | advance_pack.py:245-257 | The window holds the resource pack and the behavior pack its buttons act on. |
| `Advance.ModifyManifests.AdvanceResourcePackMinor` | advance_pack.py:284-299 | An absent resource pack is left absent. A present one becomes its Minor bump. The behavior pack is unchanged. |
| `Advance.ModifyManifests.AdvanceResourcePackMajor` | advance_pack.py:302-320 | An absent resource pack is left absent. A present one becomes its Major bump. The behavior pack is unchanged. |
| `Advance.ModifyManifests.AdvanceBehaviorPackMinor` | advance_pack.py:323-338 | An absent behavior pack is left absent. A present one becomes its Minor bump. The resource pack is unchanged. |
| `Advance.ModifyManifests.AdvanceBehaviorPackMajor` | advance_pack.py:341-359 | An absent behavior pack is left absent. A present one becomes its Major bump. The resource pack is unchanged. |
| `Advance.AdvanceFrame` | advance_pack.py:284-320 | A bump changes only the header version and the versions of modules whose `uuid` equals the header's. Each such module becomes itself with its version bumped, so a script's `language` and `entry` are kept. Identity, name, description, dependencies, metadata and every other module are unchanged, the header version keeps its length, and well-kindedness is preserved. |
| `Advance.AdvanceStaysAdvanceable` | advance_pack.py:284-359 | A bump leaves the pack safe for every level it was safe for before, so repeated clicks never start to raise. |
| `Advance.MajorKeepsModuleInStep` | advance_pack.py:302-313 | Under Major, a matching module whose version equals the header's still equals it afterwards. |
| `Advance.MinorSplitsModuleFromHeader` | advance_pack.py:284-293 | Under Minor, a matching module whose version equals the header's differs from it afterwards, at index 1 and at index 2. |
| `Scenarios.BehaviorManifestLoads` | advance_pack.py:146-171 | A concrete behavior manifest loads with `format_version` 2, an empty description and its one pinned dependency. |
| `Scenarios.ResourceManifestLoads` | advance_pack.py:174-197 | A concrete resource manifest without a `dependencies` key loads with `dependencies` equal to `None`. |
| `Scenarios.ScanFindsBothPacks` | advance_pack.py:101-121 | Scanning the concrete behavior manifest and then the resource manifest fills both fields. |
| `Scenarios.ScanFindsBothPacksSwapped` | advance_pack.py:101-121 | Scanning the two concrete manifests in the other order also fills both fields. |
| `Scenarios.MajorBumpOfResourcePack` | advance_pack.py:302-313 | A Major bump moves the concrete resource pack's header and module from 1.0.0 to 1.1.0. |
| `Scenarios.PressResourceMajor` | advance_pack.py:302-320 | Pressing the resource pack's Major button in a window over both concrete packs moves the resource pack to 1.1.0. It leaves the behavior pack, and its dependency on the resource pack at 1.0.0, unchanged. |

## Left out

- The Tkinter interface is not modelled: `LoaderApp`, building the widgets and buttons of the modify window, the folder dialog, the message boxes and the main loop. It is presentation only.
- The `print` calls in the bump callbacks are console output with no effect on state.
- The directory walk with `rglob`, opening files and `json.load` are I/O and library decoding. `Scan` takes the decoded files in walk order, and a file that cannot be opened or decoded is `Unreadable`. So the loader's `root` field is not modelled either.
- JSON numbers are integers only. Floating-point values are not modelled.
- Python's cross-type equality (`1 == True`, `1 == 1.0`) is not modelled. Values compare structurally.
- Iterating a non-empty string or dict yields strings, and every loop of the loader raises on the first one. The model reports this as a `TypeError` from `Elements`. Python raises `AttributeError` in `_load_manifest` and `TypeError` in the loaders. Only the error kind differs, and `scan` discards it.
- `Advance.AdvancePack`: requires every version it bumps to be a list long enough, with numbers where it adds one (`Advanceable`). In Python a malformed version raises `IndexError` or `TypeError` in the button callback after part of the pack has been bumped. That partial update is not modelled. Adding one to a boolean (`True + 1`) is not modelled either.
- The dependency-propagation loop at the end of each callback is not written out. Its guard is `False` for every value, so it can never change anything. The model states this as the other pack being unchanged.
- Sharing of pack objects is not modelled. In Python the loader and the modify window hold the same objects, so a window opened later sees earlier bumps. In the model the window holds its own copies of the packs.
- `metadata` is kept as an opaque JSON value and passed through unchanged.
- Saving packs back to disk is not modelled, because the source has no writer.
