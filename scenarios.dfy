/** A worked example run through the whole model: a scan that finds a behavior
    pack depending on a resource pack, and then a Major bump of the resource pack. */
module Scenarios {
  import opened Json
  import opened Manifest
  import Loader
  import opened Discovery
  import opened Advance

  function Version(major: int, minor: int, patch: int): Value {
    Arr([Num(major), Num(minor), Num(patch)])
  }

  /** A resource pack `A` at 1.0.0 whose one module carries its identity. */
  function ResourceManifest(): Value {
    Obj(map[
      "header" := Obj(map["name" := Str("RP"), "uuid" := Str("A"), "version" := Version(1, 0, 0)]),
      "modules" := Arr([Obj(map["type" := Str("resources"), "uuid" := Str("A"), "version" := Version(1, 0, 0)])])
    ])
  }

  /** A behavior pack `B` at 2.0.0 that depends on pack `A` at 1.0.0. */
  function BehaviorManifest(): Value {
    Obj(map[
      "header" := Obj(map["name" := Str("BP"), "uuid" := Str("B"), "version" := Version(2, 0, 0)]),
      "modules" := Arr([Obj(map["type" := Str("data"), "uuid" := Str("B"), "version" := Version(2, 0, 0)])]),
      "dependencies" := Arr([Obj(map["uuid" := Str("A"), "version" := Version(1, 0, 0)])])
    ])
  }

  /** The behavior pack `BehaviorManifest` loads as: `format_version` 2 and an
      empty description by default. */
  function BehaviorPackLoaded(): Pack {
    Pack(Behavior, Num(2), ManifestHeader(Str("BP"), Str(""), Str("B"), Version(2, 0, 0), Null),
         [DataModule(Str("B"), Version(2, 0, 0), Null)],
         Some([Dependency(Version(1, 0, 0), Str("A"), Null)]), Null)
  }

  /** The resource pack `ResourceManifest` loads as; it has no `dependencies` key. */
  function ResourcePackLoaded(): Pack {
    Pack(Resource, Num(2), ManifestHeader(Str("RP"), Str(""), Str("A"), Version(1, 0, 0), Null),
         [ResourceModule(Str("A"), Version(1, 0, 0), Null)], None, Null)
  }

  lemma BehaviorDependenciesLoad()
    ensures Loader.DependenciesField(BehaviorManifest().fields) == Ok(BehaviorPackLoaded().dependencies)
  {
    var depEntry := BehaviorManifest().fields["dependencies"].items[0];
    var dep := Dependency(Version(1, 0, 0), Str("A"), Null);
    assert Loader.LoadDependencyEntry(depEntry) == Ok(dep);
    assert [depEntry][..0] == [] && Loader.DependenciesOf([]) == Ok([]);
    var deps := Loader.DependenciesOf([depEntry]);
    assert deps.Ok? && |deps.value| == 1 && deps.value[0] == dep;
    assert deps.value == [dep];
  }

  lemma BehaviorModulesLoad()
    ensures Loader.ModulesOf(Behavior, BehaviorManifest().fields["modules"].items) == Ok(BehaviorPackLoaded().modules)
  {
    var entry := BehaviorManifest().fields["modules"].items[0];
    var loaded := BehaviorPackLoaded().modules[0];
    assert BehaviorManifest().fields["modules"].items == [entry];
    assert Loader.LoadModuleEntry(Behavior, entry) == Ok(Some(loaded));
    assert [entry][..0] == [] && Loader.ModulesOf(Behavior, []) == Ok([]);
    var modules := Loader.ModulesOf(Behavior, [entry]);
    assert modules.Ok? && |modules.value| == 1 && modules.value[0] == loaded;
    assert modules.value == [loaded];
  }

  lemma BehaviorPackOf()
    ensures Loader.PackOf(Behavior, BehaviorManifest()) == Ok(BehaviorPackLoaded())
  {
    var bm := BehaviorManifest();
    BehaviorModulesLoad();
    BehaviorDependenciesLoad();
    assert Loader.LoadHeader(bm.fields["header"]) == Ok(BehaviorPackLoaded().header);
    assert Elements(Get(bm.fields, "modules", Arr([]))) == Ok(bm.fields["modules"].items);
  }

  lemma BehaviorManifestLoads()
    ensures ManifestOutcome(BehaviorManifest()) == Ok(LoadedPack(BehaviorPackLoaded()))
  {
    var bm := BehaviorManifest();
    assert FirstPackKind([bm.fields["modules"].items[0]]) == Ok(Some(Behavior));
    assert Classify(bm) == Ok(Some(Behavior));
    BehaviorPackOf();
  }

  lemma ResourceManifestLoads()
    ensures ManifestOutcome(ResourceManifest()) == Ok(LoadedPack(ResourcePackLoaded()))
  {
    var rm := ResourceManifest();
    var entry := rm.fields["modules"].items[0];
    assert FirstPackKind([entry]) == Ok(Some(Resource));
    assert Classify(rm) == Ok(Some(Resource));
    var loaded := ResourcePackLoaded().modules[0];
    assert Loader.LoadModuleEntry(Resource, entry) == Ok(Some(loaded));
    assert [entry][..0] == [] && Loader.ModulesOf(Resource, []) == Ok([]);
    var modules := Loader.ModulesOf(Resource, [entry]);
    assert modules.Ok? && |modules.value| == 1 && modules.value[0] == loaded;
    assert modules.value == [loaded];
  }

  /** Scanning the behavior manifest and then the resource manifest fills both
      fields. */
  lemma ScanFindsBothPacks()
    ensures ScanFrom(LoaderState(None, None), [Decoded(BehaviorManifest()), Decoded(ResourceManifest())])
            == LoaderState(Some(BehaviorPackLoaded()), Some(ResourcePackLoaded()))
  {
    BehaviorManifestLoads();
    ResourceManifestLoads();
    var files := [Decoded(BehaviorManifest()), Decoded(ResourceManifest())];
    assert files[..1] == [Decoded(BehaviorManifest())] && files[..1][..0] == [];
  }

  /** The scan finds both packs in the other walk order too. */
  lemma ScanFindsBothPacksSwapped()
    ensures ScanFrom(LoaderState(None, None), [Decoded(ResourceManifest()), Decoded(BehaviorManifest())])
            == LoaderState(Some(BehaviorPackLoaded()), Some(ResourcePackLoaded()))
  {
    BehaviorManifestLoads();
    ResourceManifestLoads();
    var files := [Decoded(ResourceManifest()), Decoded(BehaviorManifest())];
    assert files[..1] == [Decoded(ResourceManifest())] && files[..1][..0] == [];
  }

  /** A Major bump of the loaded resource pack moves its header and its module
      to 1.1.0. */
  lemma MajorBumpOfResourcePack()
    ensures Advanceable(ResourcePackLoaded(), Major)
    ensures Advanced(ResourcePackLoaded(), Major).header.version == Version(1, 1, 0)
    ensures Advanced(ResourcePackLoaded(), Major).modules == [ResourceModule(Str("A"), Version(1, 1, 0), Null)]
  {
    var rp := ResourcePackLoaded();
    var advanced := Advanced(rp, Major);
    assert advanced.modules[0] == AdvancedModule(rp.modules[0], Str("A"), Major);
  }

  /** The Major button of the resource pack pressed in a window over both loaded
      packs: the resource pack moves to 1.1.0, and the behavior pack, with its
      dependency on `A` at 1.0.0, is not touched. */
  method PressResourceMajor() returns (rp: Option<Pack>, bp: Option<Pack>)
    ensures rp.Some? && rp.value.header.version == Version(1, 1, 0)
    ensures rp.value.modules == [ResourceModule(Str("A"), Version(1, 1, 0), Null)]
    ensures bp == Some(BehaviorPackLoaded())
    ensures bp.value.dependencies == Some([Dependency(Version(1, 0, 0), Str("A"), Null)])
  {
    MajorBumpOfResourcePack();
    var window := new ModifyManifests(Some(ResourcePackLoaded()), Some(BehaviorPackLoaded()));
    window.AdvanceResourcePackMajor();
    rp, bp := window.rp, window.bp;
  }
}
