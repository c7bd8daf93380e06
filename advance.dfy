/** Version advancement: the four `_advance_*` callbacks of the modify window.
    Each bumps the source pack's header version and the version of every module
    whose `uuid` equals the header's, in place. Index 0 of a version is never
    touched, and a Minor bump moves index 2 of the header but index 1 of the
    matching modules.

    Each callback ends with a loop that is meant to carry the bump into the other
    pack's dependencies. Its guard `type(dependency.version) == list[str]`
    compares a class with a generic alias, which is `False` for every value, so
    the loop changes nothing and the other pack is never modified. */
module Advance {
  import opened Json
  import opened Manifest

  /** Which button was pressed. */
  datatype Level = Minor | Major

  /** `v[i] += 1` runs without raising: `v` is a list with a number at index `i`. */
  predicate CanIncrement(v: Value, i: nat) {
    v.Arr? && i < |v.items| && v.items[i].Num?
  }

  /** `v[i] += 1` on a version list. */
  function Incremented(v: Value, i: nat): (r: Value)
    requires CanIncrement(v, i)
    ensures r.Arr? && |r.items| == |v.items|
    ensures r.items[i] == Num(v.items[i].n + 1)
    ensures forall k :: 0 <= k < |v.items| && k != i ==> r.items[k] == v.items[k]
  {
    Arr(v.items[i := Num(v.items[i].n + 1)])
  }

  /** `v[i] = 0` on a version list. */
  function Zeroed(v: Value, i: nat): (r: Value)
    requires v.Arr? && i < |v.items|
    ensures r.Arr? && |r.items| == |v.items|
    ensures r.items[i] == Num(0)
    ensures forall k :: 0 <= k < |v.items| && k != i ==> r.items[k] == v.items[k]
  {
    Arr(v.items[i := Num(0)])
  }

  /** The header version survives the bump of `level` without raising. */
  predicate HeaderAdvanceable(v: Value, level: Level) {
    match level
    case Minor => CanIncrement(v, 2)
    case Major => CanIncrement(v, 1) && |v.items| > 2
  }

  /** A matching module's version survives the bump of `level` without raising. */
  predicate ModuleAdvanceable(v: Value, level: Level) {
    match level
    case Minor => CanIncrement(v, 1)
    case Major => CanIncrement(v, 1) && |v.items| > 2
  }

  /** The header version after the bump: Minor adds one at index 2; Major adds
      one at index 1 and resets index 2 to zero. */
  function AdvancedHeaderVersion(v: Value, level: Level): (r: Value)
    requires HeaderAdvanceable(v, level)
    ensures r.Arr? && |r.items| == |v.items|
    ensures r.items[0] == v.items[0]
    ensures level == Minor ==> r.items[1] == v.items[1] && r.items[2] == Num(v.items[2].n + 1)
    ensures level == Major ==> r.items[1] == Num(v.items[1].n + 1) && r.items[2] == Num(0)
    ensures forall k :: 3 <= k < |v.items| ==> r.items[k] == v.items[k]
  {
    match level
    case Minor => Incremented(v, 2)
    case Major => Zeroed(Incremented(v, 1), 2)
  }

  /** A matching module's version after the bump: both levels add one at index 1;
      Major also resets index 2 to zero. */
  function AdvancedModuleVersion(v: Value, level: Level): (r: Value)
    requires ModuleAdvanceable(v, level)
    ensures r.Arr? && |r.items| == |v.items|
    ensures r.items[0] == v.items[0]
    ensures r.items[1] == Num(v.items[1].n + 1)
    ensures level == Minor ==> forall k :: 2 <= k < |v.items| ==> r.items[k] == v.items[k]
    ensures level == Major ==> r.items[2] == Num(0) && forall k :: 3 <= k < |v.items| ==> r.items[k] == v.items[k]
  {
    match level
    case Minor => Incremented(v, 1)
    case Major => Zeroed(Incremented(v, 1), 2)
  }

  /** The callback of `level` on `p` runs without raising. */
  predicate Advanceable(p: Pack, level: Level) {
    && HeaderAdvanceable(p.header.version, level)
    && forall k :: 0 <= k < |p.modules| && p.modules[k].uuid == p.header.uuid ==>
         ModuleAdvanceable(p.modules[k].version, level)
  }

  /** One turn of the module loop: a module whose `uuid` is `uuid` is bumped. */
  function AdvancedModule(m: Module, uuid: Value, level: Level): Module
    requires m.uuid == uuid ==> ModuleAdvanceable(m.version, level)
  {
    if m.uuid == uuid then m.(version := AdvancedModuleVersion(m.version, level)) else m
  }

  /** The source pack after the callback of `level`. */
  function Advanced(p: Pack, level: Level): Pack
    requires Advanceable(p, level)
  {
    p.(header := p.header.(version := AdvancedHeaderVersion(p.header.version, level)),
       modules := seq(|p.modules|, k requires 0 <= k < |p.modules| =>
                        AdvancedModule(p.modules[k], p.header.uuid, level)))
  }

  /** The callback of `level` on a pack that may be absent: `if not pack: return`. */
  function AdvancedIfPresent(p: Option<Pack>, level: Level): Option<Pack>
    requires p.Some? ==> Advanceable(p.value, level)
  {
    match p
    case None => None
    case Some(pack) => Some(Advanced(pack, level))
  }

  /** The body shared by the four callbacks: bump the header, then walk the
      modules and bump each one whose `uuid` equals the header's. */
  method AdvancePack(source: Pack, level: Level) returns (r: Pack)
    requires Advanceable(source, level)
    ensures r == Advanced(source, level)
  {
    var uuid := source.header.uuid;
    var header := source.header.(version := AdvancedHeaderVersion(source.header.version, level));
    var modules := source.modules;
    var i := 0;
    while i < |modules|
      invariant 0 <= i <= |modules| == |source.modules|
      invariant forall k :: 0 <= k < i ==> modules[k] == AdvancedModule(source.modules[k], uuid, level)
      invariant forall k :: i <= k < |modules| ==> modules[k] == source.modules[k]
    {
      if modules[i].uuid == uuid {
        modules := modules[i := modules[i].(version := AdvancedModuleVersion(modules[i].version, level))];
      }
      i := i + 1;
    }
    r := source.(header := header, modules := modules);
  }

  /** The modify window: the resource pack and the behavior pack its buttons
      act on. Each callback replaces the pack it bumps with its bumped value,
      which stands for the in-place update of the pack's version lists. */
  class ModifyManifests {
    var rp: Option<Pack>
    var bp: Option<Pack>

    constructor (rp: Option<Pack>, bp: Option<Pack>)
      ensures this.rp == rp && this.bp == bp
    {
      this.rp := rp;
      this.bp := bp;
    }

    /** `_advance_resource_pack_minor` */
    method AdvanceResourcePackMinor()
      requires rp.Some? ==> Advanceable(rp.value, Minor)
      modifies this
      ensures rp == AdvancedIfPresent(old(rp), Minor)
      ensures bp == old(bp)
    {
      if rp.None? {
        return;
      }
      var p := AdvancePack(rp.value, Minor);
      rp := Some(p);
    }

    /** `_advance_resource_pack_major` */
    method AdvanceResourcePackMajor()
      requires rp.Some? ==> Advanceable(rp.value, Major)
      modifies this
      ensures rp == AdvancedIfPresent(old(rp), Major)
      ensures bp == old(bp)
    {
      if rp.None? {
        return;
      }
      var p := AdvancePack(rp.value, Major);
      rp := Some(p);
    }

    /** `_advance_behavior_pack_minor` */
    method AdvanceBehaviorPackMinor()
      requires bp.Some? ==> Advanceable(bp.value, Minor)
      modifies this
      ensures bp == AdvancedIfPresent(old(bp), Minor)
      ensures rp == old(rp)
    {
      if bp.None? {
        return;
      }
      var p := AdvancePack(bp.value, Minor);
      bp := Some(p);
    }

    /** `_advance_behavior_pack_major` */
    method AdvanceBehaviorPackMajor()
      requires bp.Some? ==> Advanceable(bp.value, Major)
      modifies this
      ensures bp == AdvancedIfPresent(old(bp), Major)
      ensures rp == old(rp)
    {
      if bp.None? {
        return;
      }
      var p := AdvancePack(bp.value, Major);
      bp := Some(p);
    }
  }

  // ---------- Lemmas ----------

  /** What a bump changes: the header's version, and the version of each module
      whose `uuid` is the header's, which becomes its bumped version; every other
      field of that module (a script's `language` and `entry` included), the
      identity, the dependencies, the metadata and every other module stay as
      they were. */
  lemma AdvanceFrame(p: Pack, level: Level)
    requires Advanceable(p, level)
    ensures var r := Advanced(p, level);
            && r.kind == p.kind && r.formatVersion == p.formatVersion
            && r.dependencies == p.dependencies && r.metadata == p.metadata
            && r.header.name == p.header.name && r.header.uuid == p.header.uuid
            && r.header.description == p.header.description
            && r.header.minEngineVersion == p.header.minEngineVersion
            && |r.header.version.items| == |p.header.version.items|
            && |r.modules| == |p.modules|
            && (WellKinded(p) ==> WellKinded(r))
            && forall k :: 0 <= k < |p.modules| ==>
                 && r.modules[k].uuid == p.modules[k].uuid
                 && r.modules[k].Tag() == p.modules[k].Tag()
                 && r.modules[k].description == p.modules[k].description
                 && (p.modules[k].uuid != p.header.uuid ==> r.modules[k] == p.modules[k])
                 && (p.modules[k].uuid == p.header.uuid ==>
                       r.modules[k] == p.modules[k].(version := AdvancedModuleVersion(p.modules[k].version, level)))
  {
    var r := Advanced(p, level);
    forall k | 0 <= k < |p.modules|
      ensures r.modules[k] == AdvancedModule(p.modules[k], p.header.uuid, level)
    {
    }
  }

  /** A pack the buttons can bump stays one: a bump of one level leaves the pack
      safe for any level it was safe for, so any sequence of clicks that was safe
      at the start stays safe. */
  lemma AdvanceStaysAdvanceable(p: Pack, level: Level, next: Level)
    requires Advanceable(p, level) && Advanceable(p, next)
    ensures Advanceable(Advanced(p, level), next)
  {
    var r := Advanced(p, level);
    forall k | 0 <= k < |r.modules| && r.modules[k].uuid == r.header.uuid
      ensures ModuleAdvanceable(r.modules[k].version, next)
    {
      assert r.modules[k] == AdvancedModule(p.modules[k], p.header.uuid, level);
    }
  }

  /** A Major bump keeps a matching module in step with its header: equal
      versions before are equal after. */
  lemma MajorKeepsModuleInStep(p: Pack, k: nat)
    requires Advanceable(p, Major) && k < |p.modules|
    requires p.modules[k].uuid == p.header.uuid && p.modules[k].version == p.header.version
    ensures Advanced(p, Major).modules[k].version == Advanced(p, Major).header.version
  {
    var r := Advanced(p, Major);
    assert r.modules[k] == AdvancedModule(p.modules[k], p.header.uuid, Major);
    assert r.header.version.items == r.modules[k].version.items;
  }

  /** A Minor bump takes a matching module out of step with its header: equal
      versions before differ after, at index 1 and at index 2. */
  lemma MinorSplitsModuleFromHeader(p: Pack, k: nat)
    requires Advanceable(p, Minor) && k < |p.modules|
    requires p.modules[k].uuid == p.header.uuid && p.modules[k].version == p.header.version
    ensures var r := Advanced(p, Minor);
            && r.modules[k].version.items[1] != r.header.version.items[1]
            && r.modules[k].version.items[2] != r.header.version.items[2]
  {
    var r := Advanced(p, Minor);
    assert r.modules[k] == AdvancedModule(p.modules[k], p.header.uuid, Minor);
  }
}
