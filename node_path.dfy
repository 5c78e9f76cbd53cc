/** The string functions of Node.js that the build script uses on the name of
    a directory entry: `String.prototype.endsWith`, `path.extname` and
    `path.basename(name, ext)`. A name returned by a directory listing is a
    single path component (it never contains '/'), so these are stated for
    one component. */
module NodePath {

  /** `s.endsWith(suffix)`, comparing from the last character backwards. */
  predicate EndsWith(s: string, suffix: string)
  {
    if suffix == [] then true
    else if s == [] then false
    else s[|s| - 1] == suffix[|suffix| - 1] && EndsWith(s[..|s| - 1], suffix[..|suffix| - 1])
  }

  /** `EndsWith` holds exactly when `suffix` is the tail of `s`. */
  lemma {:induction false} EndsWithIsSuffix(s: string, suffix: string)
    ensures EndsWith(s, suffix) <==> |suffix| <= |s| && s[|s| - |suffix|..] == suffix
    decreases |suffix|
  {
    if suffix != [] && s != [] {
      var s', t' := s[..|s| - 1], suffix[..|suffix| - 1];
      EndsWithIsSuffix(s', t');
      if |suffix| <= |s| {
        assert s[|s| - |suffix|..] == s'[|s'| - |t'|..] + [s[|s| - 1]];
        assert suffix == t' + [suffix[|suffix| - 1]];
      }
    }
  }

  /** `s.lastIndexOf(ch)`: the index of the last occurrence of `ch`, or -1. */
  function LastIndexOf(s: string, ch: char): (r: int)
    ensures -1 <= r < |s|
    ensures r >= 0 ==> s[r] == ch
    ensures forall k :: r < k < |s| ==> s[k] != ch
  {
    if s == [] then -1
    else if s[|s| - 1] == ch then |s| - 1
    else LastIndexOf(s[..|s| - 1], ch)
  }

  /** `path.extname(name)` for a name without separators: the suffix that starts
      at the last '.', or "" when there is no dot, when that dot is the first
      character (a "dot file" such as ".npmrc") or when the name is "..". */
  function Extension(name: string): string
  {
    var dot := LastIndexOf(name, '.');
    if dot <= 0 || name == ".." then "" else name[dot..]
  }

  /** `path.basename(name, path.extname(name))`: the name without its extension. */
  function Stem(name: string): string
  {
    var e := Extension(name);
    if |e| <= |name| then name[..|name| - |e|] else name
  }

  /** The extension is a tail of the name that starts with its only dot, and it
      is empty exactly when the name has no dot after its first character or
      is "..". */
  lemma ExtensionSpec(name: string)
    ensures |Extension(name)| <= |name| && name[|name| - |Extension(name)|..] == Extension(name)
    ensures Extension(name) != [] ==> |Extension(name)| < |name| && Extension(name)[0] == '.'
    ensures forall k :: 1 <= k < |Extension(name)| ==> Extension(name)[k] != '.'
    ensures Extension(name) == [] <==> name == ".." || forall k :: 1 <= k < |name| ==> name[k] != '.'
  {
  }

  /** Stem and extension put back together give the name; a non-empty name has
      a non-empty stem. */
  lemma StemSpec(name: string)
    ensures Stem(name) + Extension(name) == name
    ensures |name| > 0 ==> |Stem(name)| > 0
  {
    ExtensionSpec(name);
  }

  /** The extension is determined by the name alone: any suffix that starts with
      a dot, has no further dot and leaves a non-empty stem that does not reduce
      to ".." is the extension. */
  lemma {:induction false} ExtensionUnique(name: string, e: string)
    requires e != [] && |e| < |name| && name[|name| - |e|..] == e
    requires e[0] == '.' && forall k :: 1 <= k < |e| ==> e[k] != '.'
    requires name != ".."
    ensures Extension(name) == e
  {
    var dot := |name| - |e|;
    assert name[dot] == e[0] == '.';
    assert forall k :: dot < k < |name| ==> name[k] == e[k - dot];
    var last := LastIndexOf(name, '.');
    assert last == dot;
  }

  /** A few names as the script meets them. */
  lemma Examples()
    ensures Extension("index.ts") == ".ts" && Stem("index.ts") == "index"
    ensures Stem("foo.test.ts") == "foo.test"
    ensures Extension("utils") == "" && Stem("utils") == "utils"
    ensures Extension(".npmrc") == "" && Stem(".npmrc") == ".npmrc"
    ensures Extension("..") == "" && Extension("a.") == "."
  {
    ExtensionUnique("index.ts", ".ts");
    ExtensionUnique("foo.test.ts", ".ts");
    ExtensionUnique("a.", ".");
    assert Extension("utils") == "" by {
      assert forall k :: 1 <= k < |"utils"| ==> "utils"[k] != '.';
    }
  }
}
