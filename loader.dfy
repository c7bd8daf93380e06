/** Mapping one decoded manifest onto a typed pack: the header, the module list
    filtered by `type` tag, and the optional dependency list. The specification
    functions below say what each loader returns; the methods run the loops the
    loader runs and are proved to return exactly that. */
module Loader {
  import opened Json
  import opened Manifest

  // ---------- Header ----------

  /** A header the loader reads without raising. */
  predicate HeaderLoads(h: Value) {
    h.Obj? && "name" in h.fields && "uuid" in h.fields && "version" in h.fields
  }

  /** `_load_header`: `name`, `uuid` and `version` are required, looked up in that
      order; `description` defaults to the empty string and `min_engine_version`
      to `None`. */
  function LoadHeader(h: Value): (r: Result<ManifestHeader>)
    ensures r.Ok? <==> HeaderLoads(h)
    ensures !h.Obj? ==> r == Err(TypeError)
    ensures h.Obj? && "name" !in h.fields ==> r == Err(KeyError("name"))
    ensures h.Obj? && "name" in h.fields && "uuid" !in h.fields ==> r == Err(KeyError("uuid"))
    ensures h.Obj? && "name" in h.fields && "uuid" in h.fields && "version" !in h.fields
            ==> r == Err(KeyError("version"))
    ensures r.Ok? ==>
              && r.value.name == h.fields["name"]
              && r.value.uuid == h.fields["uuid"]
              && r.value.version == h.fields["version"]
              && r.value.description
                 == (if "description" in h.fields then h.fields["description"] else Str(""))
              && r.value.minEngineVersion
                 == (if "min_engine_version" in h.fields then h.fields["min_engine_version"] else Null)
  {
    var name :- Subscript(h, "name");
    var uuid :- Subscript(h, "uuid");
    var version :- Subscript(h, "version");
    Ok(ManifestHeader(name, Get(h.fields, "description", Str("")), uuid, version,
                      Get(h.fields, "min_engine_version", Null)))
  }

  // ---------- Modules ----------

  /** A module entry the loader of `kind` gets past without raising: it must be a
      dict with a `type`, and an entry it keeps must have a `uuid` and a `version`. */
  predicate ModuleEntryLoads(kind: PackKind, e: Value) {
    e.Obj? && "type" in e.fields &&
    (IsModuleTag(kind, e.fields["type"]) ==> "uuid" in e.fields && "version" in e.fields)
  }

  /** An entry whose `type` tag the loader of `kind` keeps. */
  predicate IsKept(kind: PackKind, e: Value) {
    e.Obj? && "type" in e.fields && IsModuleTag(kind, e.fields["type"])
  }

  /** One turn of the module loop of `_load_behavior` (kind `Behavior`) or
      `_load_resource` (kind `Resource`): the typed module, or `None` for an entry
      of another type, which is dropped. */
  function LoadModuleEntry(kind: PackKind, e: Value): (r: Result<Option<Module>>)
    ensures r.Ok? <==> ModuleEntryLoads(kind, e)
    ensures r.Ok? ==> (r.value.Some? <==> IsKept(kind, e))
    ensures r.Ok? && r.value.Some? ==>
              var m := r.value.value;
              && Fits(kind, m)
              && Str(m.Tag()) == e.fields["type"]
              && m.uuid == e.fields["uuid"]
              && m.version == e.fields["version"]
              && m.description == (if "description" in e.fields then e.fields["description"] else Null)
              && (m.ScriptModule? ==>
                    && m.language == (if "language" in e.fields then e.fields["language"] else Str("javascript"))
                    && m.entry == (if "entry" in e.fields then e.fields["entry"] else Null))
  {
    var t :- Subscript(e, "type");
    match kind
    case Behavior =>
      if t == Str("data") then
        var uuid :- Subscript(e, "uuid");
        var version :- Subscript(e, "version");
        Ok(Some(DataModule(uuid, version, Get(e.fields, "description", Null))))
      else if t == Str("script") then
        var uuid :- Subscript(e, "uuid");
        var version :- Subscript(e, "version");
        Ok(Some(ScriptModule(uuid, version, Get(e.fields, "description", Null),
                             Get(e.fields, "language", Str("javascript")), Get(e.fields, "entry", Null))))
      else
        Ok(None)
    case Resource =>
      if t == Str("resources") then
        var uuid :- Subscript(e, "uuid");
        var version :- Subscript(e, "version");
        Ok(Some(ResourceModule(uuid, version, Get(e.fields, "description", Null))))
      else if t == Str("client_data") then
        var uuid :- Subscript(e, "uuid");
        var version :- Subscript(e, "version");
        Ok(Some(ClientDataModule(uuid, version, Get(e.fields, "description", Null))))
      else
        Ok(None)
  }

  /** The module list the loop over `es` builds, or the first exception it meets. */
  function ModulesOf(kind: PackKind, es: seq<Value>): (r: Result<seq<Module>>)
    ensures r.Ok? ==> forall k :: 0 <= k < |r.value| ==> Fits(kind, r.value[k])
    decreases |es|
  {
    if es == [] then Ok([])
    else
      var init :- ModulesOf(kind, es[..|es| - 1]);
      var m :- LoadModuleEntry(kind, es[|es| - 1]);
      match m
      case None => Ok(init)
      case Some(entry) => Ok(init + [entry])
  }

  /** The entries of `es` that the loader of `kind` keeps, in their order. */
  function KeptEntries(kind: PackKind, es: seq<Value>): seq<Value> {
    if es == [] then []
    else (if IsKept(kind, es[0]) then [es[0]] else []) + KeptEntries(kind, es[1..])
  }

  // ---------- Dependencies ----------

  /** A dependency entry the loader reads without raising. */
  predicate DependencyEntryLoads(e: Value) {
    e.Obj? && "version" in e.fields
  }

  /** One turn of the loop of `_load_dependencies`: `version` is required,
      `uuid` and `module_name` default to `None`. */
  function LoadDependencyEntry(e: Value): (r: Result<Dependency>)
    ensures r.Ok? <==> DependencyEntryLoads(e)
    ensures r.Ok? ==>
              && r.value.version == e.fields["version"]
              && r.value.uuid == (if "uuid" in e.fields then e.fields["uuid"] else Null)
              && r.value.moduleName == (if "module_name" in e.fields then e.fields["module_name"] else Null)
  {
    var version :- Subscript(e, "version");
    Ok(Dependency(version, Get(e.fields, "uuid", Null), Get(e.fields, "module_name", Null)))
  }

  /** The dependency list the loop over `es` builds, or the first exception. */
  function DependenciesOf(es: seq<Value>): (r: Result<seq<Dependency>>)
    ensures r.Ok? ==> |r.value| == |es|
    decreases |es|
  {
    if es == [] then Ok([])
    else
      var init :- DependenciesOf(es[..|es| - 1]);
      var d :- LoadDependencyEntry(es[|es| - 1]);
      Ok(init + [d])
  }

  /** `_load_dependencies(v)`: iterate over `v` and load every entry. */
  function DependenciesFrom(v: Value): Result<seq<Dependency>> {
    var es :- Elements(v);
    DependenciesOf(es)
  }

  /** The `dependencies` field of a pack: `None` when the key is absent, and the
      loaded list when it is present, even when that list is empty. */
  function DependenciesField(fields: map<string, Value>): Result<Option<seq<Dependency>>> {
    if "dependencies" in fields then
      var ds :- DependenciesFrom(fields["dependencies"]);
      Ok(Some(ds))
    else
      Ok(None)
  }

  // ---------- Packs ----------

  /** `_load_behavior(data)` for kind `Behavior`, `_load_resource(data)` for kind
      `Resource`: the header first, then the modules, then the dependencies. */
  function PackOf(kind: PackKind, data: Value): (r: Result<Pack>)
    ensures r.Ok? ==> data.Obj? && "header" in data.fields
    ensures r.Ok? ==> r.value.kind == kind && WellKinded(r.value)
    ensures r.Ok? ==> Ok(r.value.header) == LoadHeader(data.fields["header"])
    ensures r.Ok? ==> r.value.formatVersion
                      == (if "format_version" in data.fields then data.fields["format_version"] else Num(2))
    ensures r.Ok? ==> Elements(Get(data.fields, "modules", Arr([]))).Ok?
                      && ModulesOf(kind, Elements(Get(data.fields, "modules", Arr([]))).value) == Ok(r.value.modules)
    ensures r.Ok? ==> DependenciesField(data.fields) == Ok(r.value.dependencies)
    ensures r.Ok? ==> (r.value.dependencies.None? <==> "dependencies" !in data.fields)
    ensures r.Ok? && "dependencies" in data.fields && data.fields["dependencies"] == Arr([])
            ==> r.value.dependencies == Some([])
    ensures r.Ok? ==> r.value.metadata
                      == (if "metadata" in data.fields then data.fields["metadata"] else Null)
  {
    var h :- Subscript(data, "header");
    var header :- LoadHeader(h);
    var es :- Elements(Get(data.fields, "modules", Arr([])));
    var modules :- ModulesOf(kind, es);
    var deps :- DependenciesField(data.fields);
    Ok(Pack(kind, Get(data.fields, "format_version", Num(2)), header, modules, deps,
            Get(data.fields, "metadata", Null)))
  }

  /** The modules of `v` all get past the loader of `kind`. */
  predicate ModulesLoad(kind: PackKind, v: Value) {
    Elements(v).Ok? &&
    forall i :: 0 <= i < |Elements(v).value| ==> ModuleEntryLoads(kind, Elements(v).value[i])
  }

  /** The dependencies, if the key is present, all get past the loader. */
  predicate DependenciesLoad(fields: map<string, Value>) {
    "dependencies" in fields ==>
      Elements(fields["dependencies"]).Ok? &&
      forall i :: 0 <= i < |Elements(fields["dependencies"]).value| ==>
        DependencyEntryLoads(Elements(fields["dependencies"]).value[i])
  }

  /** Everything the loader of `kind` needs from a manifest to return a pack. */
  predicate PackLoads(kind: PackKind, data: Value) {
    && data.Obj?
    && "header" in data.fields
    && HeaderLoads(data.fields["header"])
    && ModulesLoad(kind, Get(data.fields, "modules", Arr([])))
    && DependenciesLoad(data.fields)
  }

  // ---------- The loops ----------

  /** `_load_dependencies`: the append loop over the dependency entries. */
  method LoadDependencies(deps: Value) returns (r: Result<seq<Dependency>>)
    ensures r == DependenciesFrom(deps)
  {
    var es :- Elements(deps);
    var result: seq<Dependency> := [];
    var i := 0;
    while i < |es|
      invariant 0 <= i <= |es|
      invariant DependenciesOf(es[..i]) == Ok(result)
    {
      var d := LoadDependencyEntry(es[i]);
      assert es[..i + 1][..i] == es[..i];
      if d.Err? {
        DependenciesOfErrorSticks(es, i + 1);
        return Err(d.error);
      }
      result := result + [d.value];
      i := i + 1;
    }
    assert es[..i] == es;
    r := Ok(result);
  }

  /** `_load_behavior` and `_load_resource`: load the header, run the append
      loop over the module entries, then load the dependencies if the key is
      present. */
  method LoadPack(kind: PackKind, data: Value) returns (r: Result<Pack>)
    ensures r == PackOf(kind, data)
  {
    var h :- Subscript(data, "header");
    var header :- LoadHeader(h);
    var es :- Elements(Get(data.fields, "modules", Arr([])));
    var modules: seq<Module> := [];
    var i := 0;
    while i < |es|
      invariant 0 <= i <= |es|
      invariant ModulesOf(kind, es[..i]) == Ok(modules)
    {
      var m := LoadModuleEntry(kind, es[i]);
      assert es[..i + 1][..i] == es[..i];
      if m.Err? {
        ModulesOfErrorSticks(kind, es, i + 1);
        return Err(m.error);
      }
      if m.value.Some? {
        modules := modules + [m.value.value];
      }
      i := i + 1;
    }
    assert es[..i] == es;
    var deps: Option<seq<Dependency>> := None;
    if "dependencies" in data.fields {
      var loaded :- LoadDependencies(data.fields["dependencies"]);
      deps := Some(loaded);
    }
    r := Ok(Pack(kind, Get(data.fields, "format_version", Num(2)), header, modules, deps,
                 Get(data.fields, "metadata", Null)));
  }

  // ---------- Lemmas ----------

  /** Once a prefix of the entries raises, the whole loop raises that exception. */
  lemma {:induction false} ModulesOfErrorSticks(kind: PackKind, es: seq<Value>, n: nat)
    requires n <= |es| && ModulesOf(kind, es[..n]).Err?
    ensures ModulesOf(kind, es) == ModulesOf(kind, es[..n])
    decreases |es|
  {
    if n < |es| {
      var init := es[..|es| - 1];
      assert init[..n] == es[..n];
      ModulesOfErrorSticks(kind, init, n);
    } else {
      assert es[..n] == es;
    }
  }

  /** Once a prefix of the entries raises, the whole loop raises that exception. */
  lemma {:induction false} DependenciesOfErrorSticks(es: seq<Value>, n: nat)
    requires n <= |es| && DependenciesOf(es[..n]).Err?
    ensures DependenciesOf(es) == DependenciesOf(es[..n])
    decreases |es|
  {
    if n < |es| {
      var init := es[..|es| - 1];
      assert init[..n] == es[..n];
      DependenciesOfErrorSticks(init, n);
    } else {
      assert es[..n] == es;
    }
  }

  /** The module loop raises exactly when some entry is malformed. */
  lemma {:induction false} ModulesOfSucceeds(kind: PackKind, es: seq<Value>)
    ensures ModulesOf(kind, es).Ok? <==> forall i :: 0 <= i < |es| ==> ModuleEntryLoads(kind, es[i])
    decreases |es|
  {
    if es != [] {
      var init := es[..|es| - 1];
      ModulesOfSucceeds(kind, init);
      assert forall i :: 0 <= i < |init| ==> init[i] == es[i];
    }
  }

  /** Keeping entries distributes over appending one more. */
  lemma {:induction false} KeptEntriesAppend(kind: PackKind, es: seq<Value>, e: Value)
    ensures KeptEntries(kind, es + [e]) == KeptEntries(kind, es) + (if IsKept(kind, e) then [e] else [])
    decreases |es|
  {
    if es == [] {
      assert es + [e] == [e];
    } else {
      var tail := if IsKept(kind, e) then [e] else [];
      var head := if IsKept(kind, es[0]) then [es[0]] else [];
      assert (es + [e])[0] == es[0];
      assert (es + [e])[1..] == es[1..] + [e];
      KeptEntriesAppend(kind, es[1..], e);
      calc {
        KeptEntries(kind, es + [e]);
        head + KeptEntries(kind, es[1..] + [e]);
        head + (KeptEntries(kind, es[1..]) + tail);
        (head + KeptEntries(kind, es[1..])) + tail;
      }
    }
  }

  /** The last turn of the module loop appends the last entry's module, if any. */
  lemma ModulesOfLast(kind: PackKind, es: seq<Value>)
    requires es != [] && ModulesOf(kind, es).Ok?
    ensures ModulesOf(kind, es[..|es| - 1]).Ok?
    ensures LoadModuleEntry(kind, es[|es| - 1]).Ok?
    ensures var m := LoadModuleEntry(kind, es[|es| - 1]).value;
            ModulesOf(kind, es).value
              == ModulesOf(kind, es[..|es| - 1]).value + (if m.Some? then [m.value] else [])
  {
  }

  /** Appending a module and the entry it was loaded from keeps the two lists
      in step. */
  lemma LoadedEntriesAppend(kind: PackKind, ms: seq<Module>, kept: seq<Value>, m: Module, last: Value)
    requires |ms| == |kept| && LoadModuleEntry(kind, last) == Ok(Some(m))
    requires forall i :: 0 <= i < |ms| ==> LoadModuleEntry(kind, kept[i]) == Ok(Some(ms[i]))
    ensures |ms + [m]| == |kept + [last]|
    ensures forall i :: 0 <= i < |ms + [m]| ==> LoadModuleEntry(kind, (kept + [last])[i]) == Ok(Some((ms + [m])[i]))
  {
    forall i | 0 <= i < |ms + [m]|
      ensures LoadModuleEntry(kind, (kept + [last])[i]) == Ok(Some((ms + [m])[i]))
    {
      if i < |ms| {
        assert (kept + [last])[i] == kept[i] && (ms + [m])[i] == ms[i];
      }
    }
  }

  /** A loaded pack's modules are exactly its kept entries, in their order, each
      loaded by `LoadModuleEntry`; every other entry is dropped. */
  lemma {:induction false} ModulesOfKeepsEntries(kind: PackKind, es: seq<Value>)
    requires ModulesOf(kind, es).Ok?
    ensures var ms := ModulesOf(kind, es).value;
            var kept := KeptEntries(kind, es);
            && |ms| == |kept|
            && forall i :: 0 <= i < |ms| ==> LoadModuleEntry(kind, kept[i]) == Ok(Some(ms[i]))
    decreases |es|
  {
    if es != [] {
      var init, last := es[..|es| - 1], es[|es| - 1];
      assert es == init + [last];
      ModulesOfLast(kind, es);
      var ms, m := ModulesOf(kind, init).value, LoadModuleEntry(kind, last).value;
      ModulesOfKeepsEntries(kind, init);
      KeptEntriesAppend(kind, init, last);
      var kept := KeptEntries(kind, init);
      if m.Some? {
        LoadedEntriesAppend(kind, ms, kept, m.value, last);
        assert ModulesOf(kind, es).value == ms + [m.value];
        assert KeptEntries(kind, es) == kept + [last];
      } else {
        assert ModulesOf(kind, es).value == ms;
        assert KeptEntries(kind, es) == kept;
      }
    }
  }

  /** The dependency loop raises exactly when some entry is malformed, and
      otherwise loads every entry, in order. */
  lemma {:induction false} DependenciesOfSucceeds(es: seq<Value>)
    ensures DependenciesOf(es).Ok? <==> forall i :: 0 <= i < |es| ==> DependencyEntryLoads(es[i])
    ensures DependenciesOf(es).Ok? ==>
              forall i :: 0 <= i < |es| ==> LoadDependencyEntry(es[i]) == Ok(DependenciesOf(es).value[i])
    decreases |es|
  {
    if es != [] {
      var init := es[..|es| - 1];
      DependenciesOfSucceeds(init);
      assert forall i :: 0 <= i < |init| ==> init[i] == es[i];
    }
  }

  /** A manifest loads as a pack of `kind` exactly when its header, every module
      entry and every dependency entry are well formed. */
  lemma PackOfSucceeds(kind: PackKind, data: Value)
    ensures PackOf(kind, data).Ok? <==> PackLoads(kind, data)
  {
    if data.Obj? {
      var modules := Elements(Get(data.fields, "modules", Arr([])));
      if modules.Ok? {
        ModulesOfSucceeds(kind, modules.value);
      }
      if "dependencies" in data.fields && Elements(data.fields["dependencies"]).Ok? {
        DependenciesOfSucceeds(Elements(data.fields["dependencies"]).value);
      }
    }
  }

  /** The modules of a loaded pack are exactly the entries its kind keeps, in
      their order, each loaded from its entry; a present `dependencies` list
      loads one dependency per entry, in order. */
  lemma PackOfContents(kind: PackKind, data: Value)
    requires PackOf(kind, data).Ok?
    ensures var p := PackOf(kind, data).value;
            var kept := KeptEntries(kind, Elements(Get(data.fields, "modules", Arr([]))).value);
            && |p.modules| == |kept|
            && (forall i :: 0 <= i < |kept| ==> LoadModuleEntry(kind, kept[i]) == Ok(Some(p.modules[i])))
    ensures var p := PackOf(kind, data).value;
            "dependencies" in data.fields ==>
              && Elements(data.fields["dependencies"]).Ok?
              && var es := Elements(data.fields["dependencies"]).value;
                 && p.dependencies.Some? && |p.dependencies.value| == |es|
                 && forall i :: 0 <= i < |es| ==> LoadDependencyEntry(es[i]) == Ok(p.dependencies.value[i])
  {
    ModulesOfKeepsEntries(kind, Elements(Get(data.fields, "modules", Arr([]))).value);
    if "dependencies" in data.fields {
      DependenciesOfSucceeds(Elements(data.fields["dependencies"]).value);
    }
  }
}
