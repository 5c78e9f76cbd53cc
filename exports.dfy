/** The export-map derivation of scripts/clean-package-json.js: every immediate
    child of `src/` that is not a test file or an internal module becomes one
    entry of the `exports` map, keyed by `./<stem>` and pointing at the
    ES-module, CommonJS and declaration files of the classic build layout
    (`.mjs.js`, `.cjs.js` and `.d.ts` files mirrored under `src/`). */
module ExportMap {
  import opened JsonValues
  import opened NodePath

  /** What `fileExist(childPath)` reports for a child: nothing (the entry could
      not be read), or its file-system metadata, of which the script asks
      `isDirectory()` and then `isFile()`. */
  datatype Probe = NoStats | Stats(isDirectory: bool, isFile: bool)

  /** One immediate child of `src/`, in directory-listing order, with the
      result of probing it. */
  datatype Entry = Entry(name: string, probe: Probe)

  /** The four conditions of one export-map entry. */
  datatype Targets = Targets(defaultPath: string, importPath: string, requirePath: string, typesPath: string)

  /** The error thrown when the derivation aborts. */
  datatype DeriveError = RangeError(message: string) | ReferenceError(message: string)

  /** The export map under construction: import path to targets. */
  type Exports = map<string, Targets>

  const TestSuffix: string := ".test.ts"

  /** Full names of internal modules that are never exported. */
  const Denylist: seq<string> := ["testData.ts", "types.ts"]

  /** The skip rule: test files by suffix, internal modules by full name. */
  predicate IsExcluded(name: string)
  {
    EndsWith(name, TestSuffix) || name in Denylist
  }

  /** A child is skipped exactly when its name ends in ".test.ts" or is one of
      the two internal module names in full. */
  lemma ExclusionRule(name: string)
    ensures IsExcluded(name) <==>
      (|name| >= |TestSuffix| && name[|name| - |TestSuffix|..] == TestSuffix)
      || name == "testData.ts" || name == "types.ts"
  {
    EndsWithIsSuffix(name, TestSuffix);
  }

  /** The import path of a child. Directories and files alike lose their
      extension here. */
  function ExportKey(name: string): string
  {
    "./" + Stem(name)
  }

  /** The import path is "./" followed by the stem, so the stem can be read
      back from it and the name from the stem and the extension. */
  lemma ExportKeyShape(name: string)
    ensures |ExportKey(name)| >= 2 && ExportKey(name)[..2] == "./"
    ensures ExportKey(name)[2..] + Extension(name) == name
  {
    StemSpec(name);
  }

  /** Targets of a directory child: its `index` files, under its FULL name. */
  function DirectoryTargets(name: string): Targets
  {
    Targets(
      "./src/" + name + "/index.mjs.js",
      "./src/" + name + "/index.mjs.js",
      "./src/" + name + "/index.cjs.js",
      "./src/" + name + "/index.d.ts")
  }

  /** Targets of a file child with stem `base`. */
  function FileTargets(base: string): Targets
  {
    Targets(
      "./src/" + base + ".mjs.js",
      "./src/" + base + ".mjs.js",
      "./src/" + base + ".cjs.js",
      "./src/" + base + ".d.ts")
  }

  /** The message of the error thrown for an entry that could not be read. */
  function UnreadableError(name: string): (e: DeriveError)
    ensures e.RangeError? && |e.message| > |name| && e.message[..|name|] == name
  {
    RangeError(name + " 文件未能读取")
  }

  /** The error the script actually throws for an entry that is neither a file
      nor a directory: it calls `new Range(...)`, and since no `Range` is in
      scope the call itself fails before its message is built. */
  function UnsupportedKindErrorAsWritten(name: string): (e: DeriveError)
    ensures e.ReferenceError?
  {
    ReferenceError("Range is not defined")
  }

  /** The error evidently intended for such an entry: a RangeError naming it,
      like the one for an unreadable entry. */
  function UnsupportedKindError(name: string): (e: DeriveError)
    ensures e.RangeError? && |e.message| > |name| && e.message[..|name|] == name
  {
    RangeError(name + " 文件类型不符合要求")
  }

  /** A probe result that aborts the derivation. */
  predicate Rejected(p: Probe)
  {
    p.NoStats? || (!p.isDirectory && !p.isFile)
  }

  /** The error a rejected entry aborts with. */
  function ErrorFor(e: Entry): DeriveError
    requires Rejected(e.probe)
  {
    if e.probe.NoStats? then UnreadableError(e.name) else UnsupportedKindError(e.name)
  }

  /** The targets an accepted entry gets: `isDirectory()` is asked first. */
  function TargetsFor(e: Entry): Targets
  {
    if e.probe.Stats? && e.probe.isDirectory then DirectoryTargets(e.name) else FileTargets(Stem(e.name))
  }

  /** One iteration of the loop over the children. */
  function Step(exports: Exports, e: Entry): Result<Exports, DeriveError>
  {
    if IsExcluded(e.name) then Ok(exports)
    else match e.probe
      case NoStats => Err(UnreadableError(e.name))
      case Stats(isDirectory, isFile) =>
        if isDirectory then Ok(exports[ExportKey(e.name) := DirectoryTargets(e.name)])
        else if isFile then Ok(exports[ExportKey(e.name) := FileTargets(Stem(e.name))])
        else Err(UnsupportedKindError(e.name))
  }

  /** The export map the loop builds from `{}` over `entries`, or the error of
      the first entry that aborts it. */
  function Derive(entries: seq<Entry>): Result<Exports, DeriveError>
  {
    if entries == [] then Ok(map[])
    else match Derive(entries[..|entries| - 1])
      case Err(e) => Err(e)
      case Ok(m) => Step(m, entries[|entries| - 1])
  }

  /** The children that are not skipped, in order. */
  function Kept(entries: seq<Entry>): (k: seq<Entry>)
    ensures |k| <= |entries|
    ensures forall e :: e in k <==> e in entries && !IsExcluded(e.name)
  {
    if entries == [] then []
    else
      var init, last := entries[..|entries| - 1], entries[|entries| - 1];
      assert entries == init + [last];
      if IsExcluded(last.name) then Kept(init) else Kept(init) + [last]
  }

  /** The import paths of the children that are not skipped, in order. */
  function KeysOf(entries: seq<Entry>): (ks: seq<string>)
    ensures |ks| == |Kept(entries)|
  {
    if entries == [] then []
    else
      var init, last := entries[..|entries| - 1], entries[|entries| - 1];
      if IsExcluded(last.name) then KeysOf(init) else KeysOf(init) + [ExportKey(last.name)]
  }

  /** Each child that is not skipped is kept as often as it is listed, and a
      skipped child not at all. */
  lemma {:induction false} KeptCounts(entries: seq<Entry>)
    ensures forall x :: multiset(Kept(entries))[x] == if IsExcluded(x.name) then 0 else multiset(entries)[x]
    decreases |entries|
  {
    if entries != [] {
      var init, last := entries[..|entries| - 1], entries[|entries| - 1];
      KeptCounts(init);
      assert entries == init + [last];
    }
  }

  /** The i-th import path is that of the i-th child not skipped. */
  lemma {:induction false} KeysOfKept(entries: seq<Entry>)
    ensures forall i :: 0 <= i < |KeysOf(entries)| ==> KeysOf(entries)[i] == ExportKey(Kept(entries)[i].name)
    decreases |entries|
  {
    if entries != [] {
      KeysOfKept(entries[..|entries| - 1]);
    }
  }

  function Elements(s: seq<string>): set<string>
  {
    set x | x in s
  }

  predicate Distinct(s: seq<string>)
  {
    forall i, j :: 0 <= i < j < |s| ==> s[i] != s[j]
  }

  /** The loop of lines 28-62: the export map as it is updated in place. */
  method DeriveExports(entries: seq<Entry>) returns (r: Result<Exports, DeriveError>)
    ensures r == Derive(entries)
  {
    var exports: Exports := map[];
    for i := 0 to |entries|
      invariant Derive(entries[..i]) == Ok(exports)
    {
      var entry := entries[i];
      assert entries[..i + 1][..i] == entries[..i];
      if IsExcluded(entry.name) {
        continue;
      }
      var key := ExportKey(entry.name);
      var error: DeriveError;
      if entry.probe.NoStats? {
        error := UnreadableError(entry.name);
      } else if entry.probe.isDirectory {
        exports := exports[key := DirectoryTargets(entry.name)];
        continue;
      } else if entry.probe.isFile {
        exports := exports[key := FileTargets(Stem(entry.name))];
        continue;
      } else {
        error := UnsupportedKindError(entry.name);
      }
      r := Err(error);
      DeriveErrorPersists(entries[..i + 1], entries[i + 1..]);
      assert entries[..i + 1] + entries[i + 1..] == entries;
      return;
    }
    assert entries[..|entries|] == entries;
    r := Ok(exports);
  }

  // ---------------------------------------------------------------------------
  // Properties of the derivation

  /** After a throw nothing further is processed. */
  lemma {:induction false} DeriveErrorPersists(a: seq<Entry>, b: seq<Entry>)
    requires Derive(a).Err?
    ensures Derive(a + b) == Derive(a)
    decreases |b|
  {
    if b != [] {
      var b', x := b[..|b| - 1], b[|b| - 1];
      assert (a + b)[..|a + b| - 1] == a + b';
      assert (a + b)[|a + b| - 1] == x;
      DeriveErrorPersists(a, b');
    } else {
      assert a + b == a;
    }
  }

  /** The derivation succeeds exactly when no child that is not skipped is
      unreadable or of an unsupported kind. */
  lemma {:induction false} DeriveSucceeds(entries: seq<Entry>)
    ensures Derive(entries).Ok? <==>
      forall i :: 0 <= i < |entries| && !IsExcluded(entries[i].name) ==> !Rejected(entries[i].probe)
    decreases |entries|
  {
    if entries != [] {
      var init := entries[..|entries| - 1];
      DeriveSucceeds(init);
      assert forall i :: 0 <= i < |init| ==> init[i] == entries[i];
    }
  }

  /** A failing derivation aborts with the error of the FIRST rejected child. */
  lemma {:induction false} DeriveAbortsOnFirstRejected(entries: seq<Entry>, i: nat)
    requires i < |entries| && !IsExcluded(entries[i].name) && Rejected(entries[i].probe)
    requires forall j :: 0 <= j < i && !IsExcluded(entries[j].name) ==> !Rejected(entries[j].probe)
    ensures Derive(entries) == Err(ErrorFor(entries[i]))
    decreases |entries|
  {
    var init := entries[..|entries| - 1];
    if i == |entries| - 1 {
      PrefixSucceeds(entries, i);
      var m0 :| Derive(init) == Ok(m0);
      StepRejects(m0, entries[i]);
    } else {
      assert init[i] == entries[i];
      assert forall j :: 0 <= j < i ==> init[j] == entries[j];
      DeriveAbortsOnFirstRejected(init, i);
    }
  }

  lemma PrefixSucceeds(entries: seq<Entry>, i: nat)
    requires i <= |entries|
    requires forall j :: 0 <= j < i && !IsExcluded(entries[j].name) ==> !Rejected(entries[j].probe)
    ensures Derive(entries[..i]).Ok?
  {
    var prefix := entries[..i];
    assert forall j :: 0 <= j < |prefix| ==> prefix[j] == entries[j];
    DeriveSucceeds(prefix);
  }

  lemma StepRejects(m: Exports, e: Entry)
    requires !IsExcluded(e.name) && Rejected(e.probe)
    ensures Step(m, e) == Err(ErrorFor(e))
  {
  }

  /** A skipped child contributes nothing, whatever its probe would report:
      removing it from anywhere in the listing leaves the result unchanged. */
  lemma {:induction false} DeriveSkipsExcluded(a: seq<Entry>, e: Entry, b: seq<Entry>)
    requires IsExcluded(e.name)
    ensures Derive(a + [e] + b) == Derive(a + b)
    decreases |b|
  {
    if b == [] {
      assert (a + [e] + b)[..|a|] == a;
      assert a + b == a;
    } else {
      var b', x := b[..|b| - 1], b[|b| - 1];
      assert (a + [e] + b)[..|a + [e] + b| - 1] == a + [e] + b';
      assert (a + b)[..|a + b| - 1] == a + b';
      DeriveSkipsExcluded(a, e, b');
    }
  }

  /** The export map has exactly the import paths of the children not skipped. */
  lemma {:induction false} DeriveKeys(entries: seq<Entry>, m: Exports)
    requires Derive(entries) == Ok(m)
    ensures m.Keys == Elements(KeysOf(entries))
    decreases |entries|
  {
    if entries != [] {
      var init, last := entries[..|entries| - 1], entries[|entries| - 1];
      var m0 :| Derive(init) == Ok(m0);
      DeriveKeys(init, m0);
      if !IsExcluded(last.name) {
        var k := ExportKey(last.name);
        assert m.Keys == m0.Keys + {k};
        ElementsAppend(KeysOf(init), k);
      }
    }
  }

  lemma ElementsAppend(s: seq<string>, x: string)
    ensures Elements(s + [x]) == Elements(s) + {x}
  {
    assert forall y :: y in s + [x] <==> y in s || y == x;
  }

  lemma {:induction false} ElementsCardinality(s: seq<string>)
    ensures |Elements(s)| <= |s|
    ensures |Elements(s)| == |s| <==> Distinct(s)
    decreases |s|
  {
    if s != [] {
      var init, x := s[..|s| - 1], s[|s| - 1];
      ElementsCardinality(init);
      assert s == init + [x];
      assert Elements(s) == Elements(init) + {x};
      if x in init {
        assert Elements(s) == Elements(init);
        var k :| 0 <= k < |init| && init[k] == x;
        assert s[k] == s[|s| - 1];
      } else {
        assert |Elements(s)| == |Elements(init)| + 1;
        if Distinct(init) {
          forall i, j | 0 <= i < j < |s| ensures s[i] != s[j] {
            if j == |s| - 1 {
              assert s[i] == init[i];
            } else {
              assert s[i] == init[i] && s[j] == init[j];
            }
          }
        } else {
          var i, j :| 0 <= i < j < |init| && init[i] == init[j];
          assert s[i] == s[j];
        }
      }
    }
  }

  /** Every import path the derivation produces has the "./" prefix, so none
      of them is the package root ".". */
  lemma {:induction false} DeriveKeysArePaths(entries: seq<Entry>, x: Exports)
    requires Derive(entries) == Ok(x)
    ensures forall k :: k in x ==> |k| >= 2
    decreases |entries|
  {
    if entries != [] {
      var init, last := entries[..|entries| - 1], entries[|entries| - 1];
      var x0 :| Derive(init) == Ok(x0);
      DeriveKeysArePaths(init, x0);
      assert |ExportKey(last.name)| >= 2;
    }
  }

  /** One entry per distinct import path: never more entries than children
      kept, and as many exactly when their import paths are pairwise distinct. */
  lemma DeriveSize(entries: seq<Entry>, m: Exports)
    requires Derive(entries) == Ok(m)
    ensures |m| <= |Kept(entries)|
    ensures |m| == |Kept(entries)| <==> Distinct(KeysOf(entries))
  {
    DeriveKeys(entries, m);
    ElementsCardinality(KeysOf(entries));
    assert |m| == |m.Keys|;
  }

  /** The entry for a child's import path holds that child's targets when no
      later kept child has the same import path: later children overwrite. */
  lemma {:induction false} DeriveLastWins(entries: seq<Entry>, m: Exports, i: nat)
    requires Derive(entries) == Ok(m)
    requires i < |entries| && !IsExcluded(entries[i].name)
    requires forall j :: i < j < |entries| && !IsExcluded(entries[j].name) ==>
      ExportKey(entries[j].name) != ExportKey(entries[i].name)
    ensures ExportKey(entries[i].name) in m && m[ExportKey(entries[i].name)] == TargetsFor(entries[i])
    decreases |entries|
  {
    var init, last := entries[..|entries| - 1], entries[|entries| - 1];
    var m0 :| Derive(init) == Ok(m0);
    assert Step(m0, last) == Ok(m);
    if i < |entries| - 1 {
      assert forall j :: 0 <= j < |init| ==> init[j] == entries[j];
      DeriveLastWins(init, m0, i);
    }
  }

  /** The targets of a directory are the targets of a file `<name>/index`. */
  lemma DirectoryTargetsAreIndexTargets(name: string)
    ensures DirectoryTargets(name) == FileTargets(name + "/index")
  {
    assert "./src/" + (name + "/index") + ".mjs.js" == "./src/" + name + "/index.mjs.js";
    assert "./src/" + (name + "/index") + ".cjs.js" == "./src/" + name + "/index.cjs.js";
    assert "./src/" + (name + "/index") + ".d.ts" == "./src/" + name + "/index.d.ts";
  }

  lemma AppendCancel(a: string, b: string, p: string, s: string)
    requires p + a + s == p + b + s
    ensures a == b
  {
    assert |a| == |b|;
    assert a == (p + a + s)[|p|..|p| + |a|];
    assert b == (p + b + s)[|p|..|p| + |b|];
  }

  /** Files with different stems never share a target of any condition. */
  lemma FileTargetsInjective(b1: string, b2: string)
    requires FileTargets(b1).defaultPath == FileTargets(b2).defaultPath
      || FileTargets(b1).importPath == FileTargets(b2).importPath
      || FileTargets(b1).requirePath == FileTargets(b2).requirePath
      || FileTargets(b1).typesPath == FileTargets(b2).typesPath
    ensures b1 == b2
  {
    if FileTargets(b1).defaultPath == FileTargets(b2).defaultPath
      || FileTargets(b1).importPath == FileTargets(b2).importPath {
      AppendCancel(b1, b2, "./src/", ".mjs.js");
    } else if FileTargets(b1).requirePath == FileTargets(b2).requirePath {
      AppendCancel(b1, b2, "./src/", ".cjs.js");
    } else {
      AppendCancel(b1, b2, "./src/", ".d.ts");
    }
  }

  /** Different directories never share a target of any condition. */
  lemma DirectoryTargetsInjective(n1: string, n2: string)
    requires DirectoryTargets(n1).defaultPath == DirectoryTargets(n2).defaultPath
      || DirectoryTargets(n1).importPath == DirectoryTargets(n2).importPath
      || DirectoryTargets(n1).requirePath == DirectoryTargets(n2).requirePath
      || DirectoryTargets(n1).typesPath == DirectoryTargets(n2).typesPath
    ensures n1 == n2
  {
    if DirectoryTargets(n1).defaultPath == DirectoryTargets(n2).defaultPath
      || DirectoryTargets(n1).importPath == DirectoryTargets(n2).importPath {
      AppendCancel(n1, n2, "./src/", "/index.mjs.js");
    } else if DirectoryTargets(n1).requirePath == DirectoryTargets(n2).requirePath {
      AppendCancel(n1, n2, "./src/", "/index.cjs.js");
    } else {
      AppendCancel(n1, n2, "./src/", "/index.d.ts");
    }
  }

  /** Every error names the child that caused it, and tells an unreadable
      child from one of an unsupported kind. */
  lemma ErrorsIdentifyEntry(e1: Entry, e2: Entry)
    requires Rejected(e1.probe) && Rejected(e2.probe)
    requires ErrorFor(e1) == ErrorFor(e2)
    ensures e1.name == e2.name
    ensures e1.probe.NoStats? <==> e2.probe.NoStats?
  {
    MessagesDiffer(e1.name, e2.name);
    MessagesDiffer(e2.name, e1.name);
    if e1.probe.NoStats? && e2.probe.NoStats? {
      AppendCancel(e1.name, e2.name, "", " 文件未能读取");
    } else if !e1.probe.NoStats? && !e2.probe.NoStats? {
      AppendCancel(e1.name, e2.name, "", " 文件类型不符合要求");
    }
  }

  lemma MessagesDiffer(a: string, b: string)
    ensures UnreadableError(a).message != UnsupportedKindError(b).message
  {
    var x, y := UnreadableError(a).message, UnsupportedKindError(b).message;
    assert x[|x| - 1] != y[|y| - 1];
  }

  /** As written, the error for an unsupported child is the same for every
      child, so it cannot tell which entry was at fault. */
  lemma AsWrittenErrorLosesName()
    ensures UnsupportedKindErrorAsWritten("socket") == UnsupportedKindErrorAsWritten("fifo")
    ensures UnsupportedKindError("socket") != UnsupportedKindError("fifo")
  {
    var a, b := UnsupportedKindError("socket"), UnsupportedKindError("fifo");
    assert a.message[0] != b.message[0];
  }

  /** A file `foo.ts` listed after a directory `foo` replaces its entry. */
  lemma CollisionExample()
    ensures Derive([Entry("foo", Stats(true, false)), Entry("foo.ts", Stats(false, true))])
      == Ok(map["./foo" := FileTargets("foo")])
  {
    var dir, file := Entry("foo", Stats(true, false)), Entry("foo.ts", Stats(false, true));
    ExtensionUnique(file.name, ".ts");
    ExtensionSpec(dir.name);
    assert Extension(dir.name) == "" by {
      assert forall k :: 1 <= k < |dir.name| ==> dir.name[k] != '.';
    }
    assert Stem(dir.name) == "foo" && Stem(file.name) == "foo";
    assert ExportKey(dir.name) == "./foo" && ExportKey(file.name) == "./foo";
    assert !IsExcluded(dir.name) by { EndsWithIsSuffix(dir.name, TestSuffix); }
    assert !IsExcluded(file.name) by { EndsWithIsSuffix(file.name, TestSuffix); }
    var first := Step(map[], dir);
    assert first == Ok(map["./foo" := DirectoryTargets("foo")]);
    assert first.value["./foo" := FileTargets("foo")] == map["./foo" := FileTargets("foo")];
    assert Step(first.value, file) == Ok(map["./foo" := FileTargets("foo")]);
    var entries := [dir, file];
    assert entries[..1] == [dir] && [dir][..0] == [];
    assert Derive([dir]) == first;
  }

  /** A directory whose name has a dot gets a key without the extension but
      targets under its full name. */
  lemma DirectoryKeyExample()
    ensures Step(map[], Entry("lib.v2", Stats(true, false)))
      == Ok(map["./lib" := DirectoryTargets("lib.v2")])
  {
    var name := "lib.v2";
    ExtensionUnique(name, ".v2");
    assert Stem(name) == "lib";
    assert ExportKey(name) == "./lib";
    assert !IsExcluded(name) by { EndsWithIsSuffix(name, TestSuffix); }
  }
}
