/** The manifest side of scripts/clean-package-json.js: the loaded
    `package.json` loses its development-only keys, and the published manifest
    is the union of three layers, each overriding the one before it:
    generated defaults, the stripped loaded manifest, and generated fields that
    are always forced. */
module PackageManifest {
  import opened JsonValues
  import opened ExportMap

  // ---------------------------------------------------------------------------
  // Stripping (lines 14-16)

  /** The keys deleted from the loaded manifest, in the order they are deleted. */
  const StrippedKeys: seq<string> := ["scripts", "devDependencies", "lint-staged", "private"]

  /** The loaded manifest after the deletions. */
  function Stripped(loaded: Manifest): (r: Manifest)
    ensures forall k :: k in StrippedKeys ==> k !in r
    ensures forall k :: k in loaded && k !in StrippedKeys ==> k in r && r[k] == loaded[k]
    ensures r.Keys <= loaded.Keys
  {
    loaded - Elements(StrippedKeys)
  }

  /** The `forEach` of `delete packageJson[key]`: one key at a time. Deleting a
      key that is absent changes nothing. */
  method Strip(loaded: Manifest) returns (m: Manifest)
    ensures m == Stripped(loaded)
  {
    m := loaded;
    for i := 0 to |StrippedKeys|
      invariant m == loaded - Elements(StrippedKeys[..i])
    {
      var key := StrippedKeys[i];
      assert StrippedKeys[..i + 1] == StrippedKeys[..i] + [key];
      ElementsAppend(StrippedKeys[..i], key);
      m := m - {key};
    }
    assert StrippedKeys[..|StrippedKeys|] == StrippedKeys;
  }

  // ---------------------------------------------------------------------------
  // The generated layers (lines 65-120)

  /** The descriptive values the script writes as constants. The layers below
      take them as a parameter; `Script` holds the script's own. */
  datatype Metadata = Metadata(
    author: Json, description: Json, keywords: Json, homepage: Json,
    bugs: Json, repository: Json, publishConfig: Json)

  const Script: Metadata := Metadata(
    JObject(map[
      "name" := JString("花生亻"),
      "email" := JString("earthnut.dev@outlook.com"),
      "url" := JString("https://earthnut.dev")]),
    JString("JavaScript/TypeScript 的类型检测工具，支持 TypeScript 类型收缩"),
    JArray([
      JString("a-type-of-js"), JString("earthnut"), JString("Mr.MudBean"), JString("type of js"),
      JString("type check"), JString("type validation"), JString("javascript type"),
      JString("typescript type"), JString("类型检测"), JString("类型判断"), JString("类型收缩"),
      JString("JS 类型"), JString("TS 类型")]),
    JString("https://earthnut.dev/npm/a-type-of-js"),
    JObject(map[
      "url" := JString("https://github.com/MrMudBean/a-type-of-js/issues"),
      "email" := JString("Mr.MudBean@outlook.com")]),
    JObject(map[
      "type" := JString("git"),
      "url" := JString("git+https://github.com/MrMudBean/a-type-of-js.git")]),
    JObject(map[
      "access" := JString("public"),
      "registry" := JString("https://registry.npmjs.org/")]))

  /** The lowest layer: values used only when the loaded manifest has none. */
  function Defaults(meta: Metadata): Manifest
  {
    map[
      "main" := JString("index.cjs.js"),
      "module" := JString("index.mjs.js"),
      "types" := JString("index.d.ts"),
      "author" := meta.author,
      "description" := meta.description,
      "sideEffects" := JBool(false),
      "engines" := JObject(map["node" := JString(">=14.0.0")]),
      "license" := JString("MIT")]
  }

  const DefaultKeys: set<string> :=
    {"main", "module", "types", "author", "description", "sideEffects", "engines", "license"}

  const Files: Json := JArray([JString("index.cjs.js"), JString("index.mjs.js"), JString("index.d.ts"), JString("src")])

  /** The targets of the package root, the `.` entry of `exports`. */
  const RootTargets: Targets := Targets("./index.mjs.js", "./index.mjs.js", "./index.cjs.js", "./index.d.ts")

  const ForcedKeys: set<string> :=
    {"files", "exports", "keywords", "homepage", "bugs", "repository", "publishConfig"}

  /** One export-map entry as a JSON object. */
  function TargetsJson(t: Targets): Json
  {
    JObject(map[
      "default" := JString(t.defaultPath),
      "import" := JString(t.importPath),
      "require" := JString(t.requirePath),
      "types" := JString(t.typesPath)])
  }

  /** `exports`: the root entry, then the derived entries spread over it. */
  function ExportsJson(exports: Exports): (r: Json)
    ensures r.JObject? && r.fields.Keys == {"."} + exports.Keys
    ensures "." !in exports ==> r.fields["."] == TargetsJson(RootTargets)
    ensures forall k :: k in exports ==> r.fields[k] == TargetsJson(exports[k])
  {
    JObject(map["." := TargetsJson(RootTargets)] + map k | k in exports :: TargetsJson(exports[k]))
  }

  /** The highest layer: values that replace whatever the loaded manifest has. */
  function Forced(meta: Metadata, exports: Exports): Manifest
  {
    map[
      "files" := Files,
      "exports" := ExportsJson(exports),
      "keywords" := meta.keywords,
      "homepage" := meta.homepage,
      "bugs" := meta.bugs,
      "repository" := meta.repository,
      "publishConfig" := meta.publishConfig]
  }

  /** The object literal of lines 65-120: defaults, then `...packageJson`,
      then the forced fields; on a shared key the later layer wins. */
  function Assemble(meta: Metadata, stripped: Manifest, exports: Exports): (r: Manifest)
    ensures r.Keys == Defaults(meta).Keys + stripped.Keys + Forced(meta, exports).Keys
    ensures forall k :: k in Forced(meta, exports) ==> r[k] == Forced(meta, exports)[k]
    ensures forall k :: k in stripped && k !in Forced(meta, exports) ==> r[k] == stripped[k]
    ensures forall k :: k in Defaults(meta) && k !in stripped && k !in Forced(meta, exports) ==>
      r[k] == Defaults(meta)[k]
  {
    Defaults(meta) + stripped + Forced(meta, exports)
  }

  lemma DefaultsKeys(meta: Metadata)
    ensures Defaults(meta).Keys == DefaultKeys
  {
  }

  lemma ForcedKeySet(meta: Metadata, exports: Exports)
    ensures Forced(meta, exports).Keys == ForcedKeys
  {
  }

  lemma ForcedValues(meta: Metadata, exports: Exports)
    ensures Forced(meta, exports)["files"] == Files
    ensures Forced(meta, exports)["exports"] == ExportsJson(exports)
    ensures Forced(meta, exports)["keywords"] == meta.keywords
    ensures Forced(meta, exports)["homepage"] == meta.homepage
    ensures Forced(meta, exports)["bugs"] == meta.bugs
    ensures Forced(meta, exports)["repository"] == meta.repository
    ensures Forced(meta, exports)["publishConfig"] == meta.publishConfig
  {
  }

  /** No layer shares a key with another, and none of them holds a stripped key. */
  lemma LayersDisjoint()
    ensures DefaultKeys !! ForcedKeys
    ensures Elements(StrippedKeys) !! DefaultKeys + ForcedKeys
  {
  }

  // ---------------------------------------------------------------------------
  // The whole script

  /** The published manifest for a loaded manifest and a listing of `src/`, or
      the error that aborts the script before anything is written. */
  function Build(meta: Metadata, loaded: Manifest, entries: seq<Entry>): Result<Manifest, DeriveError>
  {
    match Derive(entries)
    case Err(e) => Err(e)
    case Ok(exports) => Ok(Assemble(meta, Stripped(loaded), exports))
  }

  /** The script from its first statement to the value it writes. */
  method Generate(loaded: Manifest, entries: seq<Entry>) returns (r: Result<Manifest, DeriveError>)
    ensures r == Build(Script, loaded, entries)
  {
    var packageJson := Strip(loaded);
    var exportsList := DeriveExports(entries);
    match exportsList
    case Err(e) =>
      r := Err(e);
    case Ok(exports) =>
      r := Ok(Assemble(Script, packageJson, exports));
  }

  // ---------------------------------------------------------------------------
  // Properties of the published manifest

  /** The script writes a manifest exactly when no child that is not skipped is
      unreadable or of an unsupported kind; otherwise it fails with the
      derivation's error. */
  lemma BuildSucceeds(meta: Metadata, loaded: Manifest, entries: seq<Entry>)
    ensures Build(meta, loaded, entries).Ok? <==>
      forall i :: 0 <= i < |entries| && !IsExcluded(entries[i].name) ==> !Rejected(entries[i].probe)
    ensures Build(meta, loaded, entries).Err? ==> Build(meta, loaded, entries) == Err(Derive(entries).error)
  {
    DeriveSucceeds(entries);
  }

  /** None of the stripped keys reaches the published manifest: the loaded
      manifest loses them and no generated layer puts them back. */
  lemma BuildOmitsStrippedKeys(meta: Metadata, loaded: Manifest, entries: seq<Entry>, m: Manifest)
    requires Build(meta, loaded, entries) == Ok(m)
    ensures forall k :: k in StrippedKeys ==> k !in m
  {
    var exports := Derive(entries).value;
    DefaultsKeys(meta);
    ForcedKeySet(meta, exports);
    LayersDisjoint();
  }

  /** For `main`, `module`, `types`, `author`, `description`, `sideEffects`,
      `engines` and `license` the loaded manifest wins, and the generated
      default fills in only what it lacks. */
  lemma BuildDefaultsYieldToLoaded(meta: Metadata, loaded: Manifest, entries: seq<Entry>, m: Manifest, k: string)
    requires Build(meta, loaded, entries) == Ok(m)
    requires k in DefaultKeys
    ensures k in m && m[k] == if k in loaded then loaded[k] else Defaults(meta)[k]
  {
    var exports := Derive(entries).value;
    DefaultsKeys(meta);
    ForcedKeySet(meta, exports);
    LayersDisjoint();
    assert k !in StrippedKeys;
  }

  /** `files`, `exports`, `keywords`, `homepage`, `bugs`, `repository` and
      `publishConfig` always hold the generated values, whatever was loaded. */
  lemma BuildForcesGeneratedFields(meta: Metadata, loaded: Manifest, entries: seq<Entry>, m: Manifest)
    requires Build(meta, loaded, entries) == Ok(m)
    ensures ForcedKeys <= m.Keys
    ensures m["files"] == Files && m["exports"] == ExportsJson(Derive(entries).value)
    ensures m["keywords"] == meta.keywords && m["homepage"] == meta.homepage && m["bugs"] == meta.bugs
    ensures m["repository"] == meta.repository && m["publishConfig"] == meta.publishConfig
  {
    ForcedKeySet(meta, Derive(entries).value);
    ForcedValues(meta, Derive(entries).value);
  }

  /** Every other key of the loaded manifest passes through unchanged, and the
      manifest has no key besides the generated ones and the loaded ones. */
  lemma BuildPassesThroughOtherKeys(meta: Metadata, loaded: Manifest, entries: seq<Entry>, m: Manifest)
    requires Build(meta, loaded, entries) == Ok(m)
    ensures m.Keys == DefaultKeys + ForcedKeys + (loaded.Keys - Elements(StrippedKeys))
    ensures forall k :: k in loaded && k !in StrippedKeys && k !in ForcedKeys ==> m[k] == loaded[k]
  {
    DefaultsKeys(meta);
    ForcedKeySet(meta, Derive(entries).value);
  }

  /** `exports` holds the root entry and exactly one entry per import path the
      derivation produced, the root never being overwritten. */
  lemma ExportsOfDerivation(entries: seq<Entry>, x: Exports)
    requires Derive(entries) == Ok(x)
    ensures ExportsJson(x).fields.Keys == {"."} + Elements(KeysOf(entries))
    ensures ExportsJson(x).fields["."] == TargetsJson(RootTargets)
    ensures forall k :: k in x ==> ExportsJson(x).fields[k] == TargetsJson(x[k])
  {
    DeriveKeys(entries, x);
    DeriveKeysArePaths(entries, x);
    assert "." !in x;
  }
}
