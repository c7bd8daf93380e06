/** The typed manifest of a Bedrock add-on pack. The source declares its fields
    with type annotations that Python never enforces: every field holds the decoded
    JSON value the loader copied into it, and an optional field that is absent
    holds `Null` (Python's `None`). */
module Manifest {
  import opened Json

  /** The `header` block: display name, identity and version. */
  datatype ManifestHeader = ManifestHeader(
    name: Value,
    description: Value,
    uuid: Value,
    version: Value,
    minEngineVersion: Value)

  /** A reference to another pack; `version` is a list or a free-form string. */
  datatype Dependency = Dependency(version: Value, uuid: Value, moduleName: Value)

  /** The four module dataclasses; each fixes its own `type` tag. */
  datatype Module =
    | ResourceModule(uuid: Value, version: Value, description: Value)
    | ClientDataModule(uuid: Value, version: Value, description: Value)
    | DataModule(uuid: Value, version: Value, description: Value)
    | ScriptModule(uuid: Value, version: Value, description: Value, language: Value, entry: Value)
  {
    function Tag(): string {
      match this
      case ResourceModule(_, _, _) => "resources"
      case ClientDataModule(_, _, _) => "client_data"
      case DataModule(_, _, _) => "data"
      case ScriptModule(_, _, _, _, _) => "script"
    }
  }

  /** Which of the two pack dataclasses a value stands for. */
  datatype PackKind = Resource | Behavior

  /** `ResourcePack` or `BehaviorPack`: the two share every field and differ only
      in the module variants they hold. `dependencies` is `None` when the manifest
      has no `dependencies` key; `metadata` is passed through untouched. */
  datatype Pack = Pack(
    kind: PackKind,
    formatVersion: Value,
    header: ManifestHeader,
    modules: seq<Module>,
    dependencies: Option<seq<Dependency>>,
    metadata: Value)

  /** The module variants a pack of `kind` holds. */
  predicate Fits(kind: PackKind, m: Module) {
    match kind
    case Resource => m.ResourceModule? || m.ClientDataModule?
    case Behavior => m.DataModule? || m.ScriptModule?
  }

  /** The module list's element type annotation holds. */
  predicate WellKinded(p: Pack) {
    forall k :: 0 <= k < |p.modules| ==> Fits(p.kind, p.modules[k])
  }

  /** The `type` tags whose entries the loader of `kind` keeps. */
  predicate IsModuleTag(kind: PackKind, t: Value) {
    match kind
    case Resource => t == Str("resources") || t == Str("client_data")
    case Behavior => t == Str("data") || t == Str("script")
  }

  /** The pack kind a module's `type` tag makes a manifest: only `data`,
      `resources` and `client_data` decide it, `script` does not. */
  function PackKindOfTag(t: Value): (r: Option<PackKind>)
    ensures r == Some(Behavior) <==> t == Str("data")
    ensures r == Some(Resource) <==> IsModuleTag(Resource, t)
    ensures r.None? <==> t != Str("data") && !IsModuleTag(Resource, t)
    ensures r.None? && IsModuleTag(Behavior, t) <==> t == Str("script")
  {
    if t == Str("data") then Some(Behavior)
    else if t == Str("resources") || t == Str("client_data") then Some(Resource)
    else None
  }
}
