/** `ManifestLoader`: classifies each decoded manifest by its modules and keeps
    the last behavior pack and the last resource pack that load. Finding the
    `manifest.json` files and decoding them are left to the caller, which hands
    over one `ManifestFile` per file found, in the order the walk finds them. */
module Discovery {
  import opened Json
  import opened Manifest
  import opened Loader

  /** A file the directory walk found: its decoded contents, or `Unreadable`
      when opening it or decoding its JSON raised. */
  datatype ManifestFile = Decoded(data: Value) | Unreadable

  /** What `_load_manifest` made of a manifest that did not raise. */
  datatype Loaded = NotAPack | LoadedPack(pack: Pack)

  /** The `type` of a module entry, `None` when it has none (`module.get("type")`). */
  function TypeOf(e: Value): Value
    requires e.Obj?
  {
    Get(e.fields, "type", Null)
  }

  /** A module entry the classification loop passes over. */
  predicate Undecided(e: Value) {
    e.Obj? && PackKindOfTag(TypeOf(e)).None?
  }

  /** The classification loop of `_load_manifest`: the kind the first module
      typed `data`, `resources` or `client_data` decides, `None` when there is no
      such module; an entry before it that is not a dict raises. */
  function FirstPackKind(es: seq<Value>): Result<Option<PackKind>> {
    if es == [] then Ok(None)
    else if !es[0].Obj? then Err(AttributeError)
    else
      match PackKindOfTag(TypeOf(es[0]))
      case Some(kind) => Ok(Some(kind))
      case None => FirstPackKind(es[1..])
  }

  /** The kind of pack a manifest is, read from its `modules` list. */
  function Classify(data: Value): Result<Option<PackKind>> {
    if !data.Obj? then Err(AttributeError)
    else
      var es :- Elements(Get(data.fields, "modules", Arr([])));
      FirstPackKind(es)
  }

  /** `_load_manifest` on decoded contents: classify, then load the pack of that
      kind. */
  function ManifestOutcome(data: Value): (r: Result<Loaded>)
    ensures r.Ok? && r.value.LoadedPack? ==>
              && Classify(data) == Ok(Some(r.value.pack.kind))
              && Ok(r.value.pack) == PackOf(r.value.pack.kind, data)
    ensures Classify(data) == Ok(None) ==> r == Ok(NotAPack)
  {
    var kind :- Classify(data);
    match kind
    case None => Ok(NotAPack)
    case Some(k) =>
      var p :- PackOf(k, data);
      Ok(LoadedPack(p))
  }

  /** The two fields of a `ManifestLoader`. */
  datatype LoaderState = LoaderState(behaviorPack: Option<Pack>, resourcePack: Option<Pack>) {
    function Field(kind: PackKind): Option<Pack> {
      match kind
      case Behavior => behaviorPack
      case Resource => resourcePack
    }
  }

  /** The fields after `_load_manifest` had `outcome`: a loaded pack replaces the
      field of its kind; an exception or a manifest that is no pack changes nothing. */
  function Absorb(s: LoaderState, outcome: Result<Loaded>): LoaderState {
    if outcome.Ok? && outcome.value.LoadedPack? then
      var p := outcome.value.pack;
      match p.kind
      case Behavior => s.(behaviorPack := Some(p))
      case Resource => s.(resourcePack := Some(p))
    else s
  }

  /** One turn of the loop of `scan`, exceptions caught. */
  function ScanStep(s: LoaderState, f: ManifestFile): LoaderState {
    match f
    case Unreadable => s
    case Decoded(data) => Absorb(s, ManifestOutcome(data))
  }

  /** The fields after `scan` has run over `files`, starting from `s`. */
  function ScanFrom(s: LoaderState, files: seq<ManifestFile>): LoaderState
    decreases |files|
  {
    if files == [] then s
    else ScanStep(ScanFrom(s, files[..|files| - 1]), files[|files| - 1])
  }

  /** `f` is a manifest that loads as a pack of `kind`. */
  predicate LoadsAs(f: ManifestFile, kind: PackKind) {
    && f.Decoded?
    && ManifestOutcome(f.data).Ok?
    && ManifestOutcome(f.data).value.LoadedPack?
    && ManifestOutcome(f.data).value.pack.kind == kind
  }

  class ManifestLoader {
    var behaviorPack: Option<Pack>
    var resourcePack: Option<Pack>

    function State(): LoaderState
      reads this
    {
      LoaderState(behaviorPack, resourcePack)
    }

    constructor ()
      ensures State() == LoaderState(None, None)
    {
      behaviorPack := None;
      resourcePack := None;
    }

    /** `scan`: load every file in turn; an exception skips the file. */
    method Scan(files: seq<ManifestFile>)
      modifies this
      ensures State() == ScanFrom(old(State()), files)
    {
      var i := 0;
      while i < |files|
        invariant 0 <= i <= |files|
        invariant State() == ScanFrom(old(State()), files[..i])
      {
        assert files[..i + 1][..i] == files[..i];
        match files[i] {
          case Unreadable =>
          case Decoded(data) =>
            var outcome := LoadManifest(data);
        }
        i := i + 1;
      }
      assert files[..i] == files;
    }

    /** `_load_manifest`: walk the modules until one decides the kind, then
        load the pack and assign it to the field of that kind. The field is
        assigned only once the load has returned, so a load that raises leaves
        both fields as they were. */
    method LoadManifest(data: Value) returns (outcome: Result<Loaded>)
      modifies this
      ensures outcome == ManifestOutcome(data)
      ensures State() == Absorb(old(State()), outcome)
    {
      if !data.Obj? {
        return Err(AttributeError);
      }
      var es :- Elements(Get(data.fields, "modules", Arr([])));
      var i := 0;
      while i < |es|
        invariant 0 <= i <= |es|
        invariant FirstPackKind(es[i..]) == FirstPackKind(es)
        invariant State() == old(State())
      {
        if !es[i].Obj? {
          return Err(AttributeError);
        }
        var t := Get(es[i].fields, "type", Null);
        if t == Str("data") {
          var p :- LoadPack(Behavior, data);
          behaviorPack := Some(p);
          return Ok(LoadedPack(p));
        }
        if t == Str("resources") || t == Str("client_data") {
          var p :- LoadPack(Resource, data);
          resourcePack := Some(p);
          return Ok(LoadedPack(p));
        }
        assert es[i..][1..] == es[i + 1..];
        i := i + 1;
      }
      return Ok(NotAPack);
    }
  }

  // ---------- Lemmas ----------

  /** The classification loop returns `kind` exactly when some module decides
      `kind` and every module before it is a dict that decides nothing. */
  lemma {:induction false} FirstPackKindDecides(es: seq<Value>, kind: PackKind)
    ensures FirstPackKind(es) == Ok(Some(kind)) <==>
              exists i :: 0 <= i < |es| && es[i].Obj? && PackKindOfTag(TypeOf(es[i])) == Some(kind)
                          && forall j :: 0 <= j < i ==> Undecided(es[j])
    decreases |es|
  {
    if es == [] {
    } else if !es[0].Obj? {
    } else if PackKindOfTag(TypeOf(es[0])).Some? {
      if FirstPackKind(es) == Ok(Some(kind)) {
        assert es[0].Obj? && PackKindOfTag(TypeOf(es[0])) == Some(kind);
      }
    } else {
      var rest := es[1..];
      FirstPackKindDecides(rest, kind);
      if FirstPackKind(es) == Ok(Some(kind)) {
        var i :| 0 <= i < |rest| && rest[i].Obj? && PackKindOfTag(TypeOf(rest[i])) == Some(kind)
                 && forall j :: 0 <= j < i ==> Undecided(rest[j]);
        assert forall j :: 0 <= j < i + 1 ==> Undecided(es[j]) by {
          forall j | 0 <= j < i + 1 ensures Undecided(es[j]) {
            if j > 0 { assert es[j] == rest[j - 1]; }
          }
        }
        assert es[i + 1] == rest[i];
      }
      if exists i :: 0 <= i < |es| && es[i].Obj? && PackKindOfTag(TypeOf(es[i])) == Some(kind)
                     && forall j :: 0 <= j < i ==> Undecided(es[j]) {
        var i :| 0 <= i < |es| && es[i].Obj? && PackKindOfTag(TypeOf(es[i])) == Some(kind)
                 && forall j :: 0 <= j < i ==> Undecided(es[j]);
        assert i > 0;
        assert rest[i - 1] == es[i];
        assert forall j :: 0 <= j < i - 1 ==> Undecided(rest[j]) by {
          forall j | 0 <= j < i - 1 ensures Undecided(rest[j]) {
            assert rest[j] == es[j + 1];
          }
        }
      }
    }
  }

  /** The classification loop finds no kind exactly when every module is a dict
      that decides nothing: a manifest of `script` modules only is no pack. */
  lemma {:induction false} FirstPackKindUndecided(es: seq<Value>)
    ensures FirstPackKind(es) == Ok(None) <==> forall j :: 0 <= j < |es| ==> Undecided(es[j])
    decreases |es|
  {
    if es != [] && Undecided(es[0]) {
      var rest := es[1..];
      FirstPackKindUndecided(rest);
      assert forall j :: 0 <= j < |rest| ==> rest[j] == es[j + 1];
      if forall j :: 0 <= j < |rest| ==> Undecided(rest[j]) {
        forall j | 0 <= j < |es| ensures Undecided(es[j]) {
          if j > 0 { assert es[j] == rest[j - 1]; }
        }
      }
    }
  }

  /** A manifest loads as a pack of `kind` exactly when its modules classify it
      as `kind` and the loader of `kind` accepts it. */
  lemma LoadsAsExactly(data: Value, kind: PackKind)
    ensures LoadsAs(Decoded(data), kind) <==> Classify(data) == Ok(Some(kind)) && PackLoads(kind, data)
  {
    PackOfSucceeds(kind, data);
  }

  /** After a scan, the field of `kind` holds the pack of the last file that
      loads as `kind`: a later pack of the same kind overwrites an earlier one,
      and files that raise or load as the other kind do not disturb it. */
  lemma {:induction false} ScanKeepsLastLoaded(s: LoaderState, files: seq<ManifestFile>, kind: PackKind, i: nat)
    requires i < |files| && LoadsAs(files[i], kind)
    requires forall j :: i < j < |files| ==> !LoadsAs(files[j], kind)
    ensures ScanFrom(s, files).Field(kind) == Some(ManifestOutcome(files[i].data).value.pack)
    decreases |files|
  {
    var init := files[..|files| - 1];
    if i < |files| - 1 {
      assert forall j :: i < j < |init| ==> init[j] == files[j];
      ScanKeepsLastLoaded(s, init, kind, i);
      assert !LoadsAs(files[|files| - 1], kind);
    }
  }

  /** A scan in which no file loads as `kind` leaves the field of `kind` as it was. */
  lemma {:induction false} ScanWithoutLoadKeepsField(s: LoaderState, files: seq<ManifestFile>, kind: PackKind)
    requires forall j :: 0 <= j < |files| ==> !LoadsAs(files[j], kind)
    ensures ScanFrom(s, files).Field(kind) == s.Field(kind)
    decreases |files|
  {
    if files != [] {
      var init := files[..|files| - 1];
      assert forall j :: 0 <= j < |init| ==> init[j] == files[j];
      ScanWithoutLoadKeepsField(s, init, kind);
      assert !LoadsAs(files[|files| - 1], kind);
    }
  }
}
