# clean-package-json, modelled in Dafny

`scripts/clean-package-json.js` is the build step of the `a-type-of-js` package
that writes the published `dist/package.json`. It reads the repository's
`package.json` and deletes four development-only keys. It then lists the
immediate children of `src/` and derives an `exports` map from them: test files
and two internal modules are skipped, and every other child becomes an entry
`./<stem>` with `default`, `import`, `require` and `types` targets. An
unreadable child, or one that is neither a file nor a directory, aborts the
script. Finally it writes a manifest that is the union of three layers:
generated defaults, then the stripped loaded manifest, then generated fields
that always win.

The project has four modules, one per file:

- `JsonValues` (`json.dfy`): JSON values, a manifest as `map<string, Json>`,
  and a `Result` for steps that throw.
- `NodePath` (`node_path.dfy`): the Node.js string functions the script
  applies to a child's name: `endsWith`, `path.extname` and
  `path.basename(name, ext)`. `LastIndexOf` is the search for the last dot
  that `path.extname` does.
- `ExportMap` (`exports.dfy`): the skip rule, the import path and the targets
  of a child, the two errors, and the loop over the children. The loop is the
  method `DeriveExports`, proved equal to the function `Derive`, whose
  properties are proved as lemmas.
- `PackageManifest` (`manifest.dfy`): the stripping loop `Strip`, proved equal
  to the function `Stripped`; the layers `Defaults` and `Forced`; the merge
  `Assemble`; and the whole script, `Generate`, proved equal to `Build`.

File-system results are inputs. The loaded manifest is a map. The listing of
`src/` is a sequence of `Entry(name, probe)` in listing order, where `probe` is
what `fileExist` returned: `NoStats`, or `Stats(isDirectory, isFile)`. The
script's constant metadata (author, description, keywords, homepage, bugs,
repository, publishConfig) is a `Metadata` value. `Script` holds the script's
own values, and the layer lemmas hold for any metadata.

Details of the code worth noting:

- A directory's key also loses its extension (line 38 applies to every
  child): `lib.v2/` gets the key `./lib`, while its targets use the full name
  `lib.v2` (lines 47-50). See `ExportMap.DirectoryKeyExample`.
- The two denylisted names are matched in full, including `.ts` (line 34).
  A directory named `types` is therefore exported.
- The forced layer holds `keywords`, `homepage`, `bugs`, `repository` and
  `publishConfig` as well as `files` and `exports` (lines 82-119).
- The map has one entry per child only when the import paths are distinct.
  Otherwise a later child overwrites an earlier one.
- Node's `path.extname` also returns "" for the name `..`, and the model
  does the same.

## Model

| member | source | states |
|---|---|---|
| NodePath.EndsWithIsSuffix | scripts/clean-package-json.js:32 | `endsWith` holds exactly when the suffix is the tail of the name |
| NodePath.LastIndexOf | scripts/clean-package-json.js:38 | the last-dot search inside `path.extname`: the result is -1 or an index holding the character, and no later index holds it |
| NodePath.ExtensionSpec | scripts/clean-package-json.js:38 | the extension is a tail of the name that starts with a dot, has no other dot and is shorter than the name; it is empty exactly when the name is `..` or has no dot after its first character |
| NodePath.StemSpec | scripts/clean-package-json.js:38 | stem followed by extension gives the name back; a non-empty name has a non-empty stem |
| NodePath.ExtensionUnique | scripts/clean-package-json.js:38 | any dot-led, dot-free proper tail of a name other than `..` is its extension |
| NodePath.Examples | scripts/clean-package-json.js:38 | extension and stem of `index.ts`, `foo.test.ts`, `utils`, `.npmrc`, `..` and `a.` |
| ExportMap.ExclusionRule | scripts/clean-package-json.js:30-36 | a child is skipped exactly when its name ends in `.test.ts` or is `testData.ts` or `types.ts` |
| ExportMap.ExportKeyShape | scripts/clean-package-json.js:38-53 | the import path is `./` followed by the stem, and the stem plus the extension gives the name |
| ExportMap.UnreadableError | scripts/clean-package-json.js:43 | an unreadable child throws a RangeError whose message starts with its name |
| ExportMap.UnsupportedKindErrorAsWritten | scripts/clean-package-json.js:59-61 | as written, a child of any other kind throws a ReferenceError |
| ExportMap.UnsupportedKindError | scripts/clean-package-json.js:59-61 | the intended error: a RangeError whose message starts with the child's name |
| ExportMap.Kept | scripts/clean-package-json.js:28-36 | the children not skipped: at most as many as listed, and containing exactly the listed children that are not skipped |
| ExportMap.KeptCounts | scripts/clean-package-json.js:28-36 | each child that is not skipped is kept as often as it is listed, and a skipped child not at all, so `Kept` has exactly one element per listed child that is not skipped |
| ExportMap.KeysOf | scripts/clean-package-json.js:38-53 | one import path per child not skipped |
| ExportMap.KeysOfKept | scripts/clean-package-json.js:38-53 | the i-th path is the import path of the i-th child not skipped |
| ExportMap.DeriveExports | scripts/clean-package-json.js:26-62 | the loop, updating the map in place and skipping, overwriting or throwing per child, returns exactly `Derive(entries)`, with the intended line-60 error (see Left out) |
| ExportMap.DeriveErrorPersists | scripts/clean-package-json.js:43-60 | once a child throws, the children after it change nothing |
| ExportMap.DeriveSucceeds | scripts/clean-package-json.js:28-62 | the derivation succeeds exactly when no child that is not skipped is unreadable or of another kind |
| ExportMap.DeriveAbortsOnFirstRejected | scripts/clean-package-json.js:43-61 | a failing derivation fails with the error of the first rejected child that is not skipped |
| ExportMap.PrefixSucceeds | scripts/clean-package-json.js:28-62 | the listing up to the first rejected child is derived without error |
| ExportMap.StepRejects | scripts/clean-package-json.js:42-61 | a rejected child that is not skipped throws its error whatever the map so far |
| ExportMap.DeriveSkipsExcluded | scripts/clean-package-json.js:30-36 | a skipped child, whatever its probe, can be removed from anywhere in the listing without changing the result |
| ExportMap.DeriveKeys | scripts/clean-package-json.js:46-53 | the map's keys are exactly the import paths of the children not skipped |
| ExportMap.ElementsAppend | scripts/clean-package-json.js:46-53 | adding an import path adds exactly that key |
| ExportMap.ElementsCardinality | scripts/clean-package-json.js:46-53 | there are no more distinct paths than paths, and as many exactly when they are pairwise distinct |
| ExportMap.DeriveKeysArePaths | scripts/clean-package-json.js:46-53 | every derived key has at least the two characters of `./`, so none is the root `.` |
| ExportMap.DeriveSize | scripts/clean-package-json.js:28-62 | the map has at most one entry per kept child, and exactly one each when their import paths are distinct |
| ExportMap.DeriveLastWins | scripts/clean-package-json.js:45-58 | a child's import path maps to that child's targets when no later kept child has the same path |
| ExportMap.DirectoryTargetsAreIndexTargets | scripts/clean-package-json.js:45-58 | a directory's targets are those of a file `<name>/index` |
| ExportMap.AppendCancel | scripts/clean-package-json.js:47-57 | a template with a fixed prefix and suffix determines what fills it |
| ExportMap.FileTargetsInjective | scripts/clean-package-json.js:52-58 | files with different stems never share the target of any one condition |
| ExportMap.DirectoryTargetsInjective | scripts/clean-package-json.js:45-51 | different directories never share the target of any one condition |
| ExportMap.ErrorsIdentifyEntry | scripts/clean-package-json.js:43-60 | equal errors come from the same name and the same kind of failure |
| ExportMap.MessagesDiffer | scripts/clean-package-json.js:43-60 | the unreadable message never equals the unsupported-kind message |
| ExportMap.AsWrittenErrorLosesName | scripts/clean-package-json.js:60 | as written, two different unsupported children throw the same error; the intended errors differ |
| ExportMap.CollisionExample | scripts/clean-package-json.js:45-58 | a file `foo.ts` after a directory `foo` replaces the directory's entry |
| ExportMap.DirectoryKeyExample | scripts/clean-package-json.js:38-51 | a directory `lib.v2` is keyed `./lib` with targets under `lib.v2` |
| PackageManifest.Stripped | scripts/clean-package-json.js:14-16 | none of the four keys remains, every other loaded key is kept with its value, and nothing is added |
| PackageManifest.Strip | scripts/clean-package-json.js:14-16 | deleting the keys one by one gives exactly `Stripped(loaded)` |
| PackageManifest.ExportsJson | scripts/clean-package-json.js:83-91 | `exports` has the root key `.` and every derived key; the root holds the root targets unless a derived key is `.`; each derived key holds its targets |
| PackageManifest.Assemble | scripts/clean-package-json.js:65-120 | the union has the keys of all three layers; a forced field wins, then a loaded key, then a default |
| PackageManifest.DefaultsKeys | scripts/clean-package-json.js:66-80 | proof step for the `Build` lemmas: the default layer's key set is exactly `main`, `module`, `types`, `author`, `description`, `sideEffects`, `engines` and `license` |
| PackageManifest.ForcedKeySet | scripts/clean-package-json.js:82-119 | proof step for the `Build` lemmas: the forced layer's key set is exactly `files`, `exports`, `keywords`, `homepage`, `bugs`, `repository` and `publishConfig` |
| PackageManifest.ForcedValues | scripts/clean-package-json.js:82-119 | proof step for `BuildForcesGeneratedFields`: the forced layer's value for each of its keys |
| PackageManifest.LayersDisjoint | scripts/clean-package-json.js:14-119 | defaults and forced fields share no key, and neither holds a stripped key |
| PackageManifest.Generate | scripts/clean-package-json.js:12-120 | stripping, derivation and assembly in order give exactly `Build(Script, loaded, entries)`, with the intended line-60 error (see Left out) |
| PackageManifest.BuildSucceeds | scripts/clean-package-json.js:43-60 | a manifest is produced exactly when no kept child is rejected; otherwise the derivation's error is the result |
| PackageManifest.BuildOmitsStrippedKeys | scripts/clean-package-json.js:14-120 | the published manifest has none of the four stripped keys |
| PackageManifest.BuildDefaultsYieldToLoaded | scripts/clean-package-json.js:65-81 | for each default key the loaded value is used if present, else the default |
| PackageManifest.BuildForcesGeneratedFields | scripts/clean-package-json.js:82-119 | every forced field is present and holds the generated value, whatever was loaded |
| PackageManifest.BuildPassesThroughOtherKeys | scripts/clean-package-json.js:65-120 | the manifest's keys are the defaults, the forced fields and the non-stripped loaded keys; every other loaded key passes through unchanged |
| PackageManifest.ExportsOfDerivation | scripts/clean-package-json.js:83-91 | `exports` holds exactly the root and the derived import paths, the root entry with the root targets, and each derived entry with its targets |

## Left out

- Reading `package.json` (line 12), listing `src/` (line 24) and probing each child with `fileExist` (line 42) are inputs. Writing `dist/package.json` (lines 122-127) becomes the returned manifest.
- `getDirectoryBy` (lines 18, 20) and `pathJoin` (lines 22, 40, 124) only locate the files that are read and written. They are library calls and are not modelled.
- `console.log` (line 41) is diagnostic output and is left out.
- JSON parsing, serialisation and key order belong to the library that reads and writes files. A manifest is a map, so key order is not modelled.
- The loaded manifest is taken to be a JSON object. A `package.json` that is not an object is not modelled.
- Children's names are single path components as a directory listing returns them, so `path.extname` and `path.basename` are modelled without separator handling.
- `fileExist` returns stats or nothing. The model does not distinguish its different falsy results, or a throwing probe, from `NoStats`.
- A separate `es/`/`cjs/` output layout does not appear in this script and is not modelled.
- ExportMap.DeriveKeysArePaths: states only that every derived key has length at least 2, which is what excludes the root key. The full `./` prefix is stated per key by ExportMap.ExportKeyShape.
- ExportMap.Step, ExportMap.DeriveExports, PackageManifest.Generate: for a child that is not skipped and is neither a file nor a directory, they throw the intended error of line 60, `UnsupportedKindError` (a RangeError naming the child). The script as written throws the ReferenceError of `UnsupportedKindErrorAsWritten` instead (see Findings). `Derive` and `Build` do the same. The model keeps the intended error so that errors identify their child (`ErrorsIdentifyEntry`). No derivation that throws the as-written error is modelled, so the model does not prove that such a derivation aborts on the same inputs and the same child.

## Findings

| source | as written | input that shows it | evidently intended | confidence | as-written member | corrected member |
|---|---|---|---|---|---|---|
| scripts/clean-package-json.js:60 | `throw new Range(...)`: no `Range` is in scope, so the throw is a ReferenceError "Range is not defined", and the message naming the child is never built | a non-skipped child `socket` that is neither a file nor a directory, `Entry("socket", Stats(false, false))` | `throw new RangeError(...)` naming the child, as on line 43 | not executed | ExportMap.UnsupportedKindErrorAsWritten (shown by ExportMap.AsWrittenErrorLosesName) | ExportMap.UnsupportedKindError |
