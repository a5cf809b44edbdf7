/**
 The ignore engine of the directory scanner: `should_ignore` decides whether
 one directory entry name is excluded, using exact file names, exact folder
 names, exact extensions (as `os.path.splitext` computes them) and an
 optional hidden-name flag.
 */
module Ignore {
  import opened Common

  /**
   The ignore-pattern document. `ignoreHidden` is `None` when the
   `"ignore_hidden"` key is absent from it.
   */
  datatype Patterns = Patterns(
    files: seq<string>,
    folders: seq<string>,
    extensions: seq<string>,
    ignoreHidden: Option<bool>)

  /** The scanner's default: all three lists empty and no `"ignore_hidden"` key. */
  const DefaultPatterns := Patterns([], [], [], None)

  /** `ignore_patterns.get("ignore_hidden", False)` */
  function HiddenFlag(p: Patterns): bool {
    p.ignoreHidden.GetOr(false)
  }

  /** `s.rfind(c)`: the last index holding `c`, or -1 when there is none. */
  function RFind(s: string, c: char): (i: int)
    ensures -1 <= i < |s|
    ensures 0 <= i ==> s[i] == c
    ensures forall j :: i < j < |s| ==> s[j] != c
  {
    if s == [] then -1
    else if s[|s| - 1] == c then |s| - 1
    else RFind(s[..|s| - 1], c)
  }

  /** Some character of `s[lo..hi]` is not a dot. */
  predicate HasNonDot(s: string, lo: int, hi: int)
    requires 0 <= lo <= hi <= |s|
  {
    exists k :: lo <= k < hi && s[k] != '.'
  }

  /**
   `os.path.splitext` with the POSIX separator: the extension starts at the
   last dot of the last path component, provided some non-dot character
   precedes that dot inside the component; otherwise it is empty.
   */
  function Splitext(p: string): (r: (string, string))
    ensures r.0 + r.1 == p
    ensures r.1 == [] || (r.1[0] == '.' && '.' !in r.1[1..] && '/' !in r.1)
  {
    var sepIndex := RFind(p, '/');
    var dotIndex := RFind(p, '.');
    if dotIndex > sepIndex && HasNonDot(p, sepIndex + 1, dotIndex) then
      assert forall j :: dotIndex < j < |p| ==> p[j] != '.' && p[j] != '/';
      (p[..dotIndex], p[dotIndex..])
    else
      (p, [])
  }

  /** `os.path.splitext(name)[1]` */
  function Ext(name: string): string {
    Splitext(name).1
  }

  /** The ignore predicate: the same test prunes folders and filters files. */
  predicate ShouldIgnore(name: string, p: Patterns): (ignored: bool)
    ensures !ignored ==> Ext(name) !in p.extensions && name !in p.files && name !in p.folders
    ensures !ignored && HiddenFlag(p) ==> |name| == 0 || name[0] != '.'
  {
    || Ext(name) in p.extensions
    || name in p.files
    || name in p.folders
    || (HiddenFlag(p) && StartsWith(name, "."))
  }

  /**
   A name made of a separator-free stem, a dot and a dot-free, separator-free
   suffix has that dot and suffix as its extension exactly when the stem holds
   some non-dot character; a stem of dots only (`..log`, `...`) leaves the
   extension empty, since leading dots never start one.
   */
  lemma ExtOfStemAndSuffix(stem: string, suffix: string)
    requires '/' !in stem
    requires '.' !in suffix && '/' !in suffix
    ensures Ext(stem + "." + suffix) ==
              if exists k :: 0 <= k < |stem| && stem[k] != '.' then "." + suffix else ""
  {
    var p := stem + "." + suffix;
    var d := |stem|;
    assert p[d] == '.';
    assert forall j :: d < j < |p| ==> p[j] == suffix[j - d - 1];
    assert RFind(p, '.') == d;
    assert forall j :: 0 <= j < |p| ==> p[j] != '/';
    assert RFind(p, '/') == -1;
    if exists k :: 0 <= k < |stem| && stem[k] != '.' {
      var k :| 0 <= k < |stem| && stem[k] != '.';
      assert p[k] == stem[k];
      assert HasNonDot(p, 0, d);
    } else {
      assert forall k :: 0 <= k < d ==> p[k] == stem[k];
      assert !HasNonDot(p, 0, d);
    }
  }

  /**
   A hidden name whose only dot is the leading one (".log", ".env") has an
   empty extension, so the extension list never matches it.
   */
  lemma {:induction false} DotfileHasNoExt(rest: string)
    requires '.' !in rest && '/' !in rest
    ensures Ext("." + rest) == ""
  {
    var p := "." + rest;
    assert forall j :: 0 < j < |p| ==> p[j] == rest[j - 1] && p[j] != '.';
    assert p[0] == '.';
  }

  /** With the default patterns nothing is ignored. */
  lemma DefaultKeepsEverything(name: string)
    ensures !ShouldIgnore(name, DefaultPatterns)
  {
  }

  /** A name on either name list is ignored, whether it names a file or a folder. */
  lemma ListedNamesIgnored(name: string, p: Patterns)
    requires name in p.files || name in p.folders
    ensures ShouldIgnore(name, p)
  {
  }

  /**
   A missing `"ignore_hidden"` key behaves as `false`; when the flag is on,
   every name starting with a dot is ignored, and when it is off a name is
   ignored only through the three lists, leading dot or not.
   */
  lemma HiddenRule(name: string, p: Patterns)
    ensures p.ignoreHidden.None? ==> ShouldIgnore(name, p) == ShouldIgnore(name, p.(ignoreHidden := Some(false)))
    ensures HiddenFlag(p) && StartsWith(name, ".") ==> ShouldIgnore(name, p)
    ensures !HiddenFlag(p) ==> (ShouldIgnore(name, p) <==> Ext(name) in p.extensions || name in p.files || name in p.folders)
  {
  }

  /** Patterns listing only the extension `.log`. */
  const LogOnly := Patterns([], [], [".log"], None)

  /** With only the extension `.log` listed, `x.log` is ignored. */
  lemma LogExtensionExample()
    ensures ShouldIgnore("x.log", LogOnly)
  {
    assert "x"[0] != '.';
    ExtOfStemAndSuffix("x", "log");
    assert "x.log" == "x" + "." + "log";
  }

  /** With only the extension `.log` listed, `x.txt` is kept. */
  lemma OtherExtensionKept()
    ensures !ShouldIgnore("x.txt", LogOnly)
  {
    assert "x"[0] != '.';
    ExtOfStemAndSuffix("x", "txt");
    assert "x.txt" == "x" + "." + "txt";
    assert ".txt" != ".log" by { assert ".txt"[1] != ".log"[1]; }
  }

  /** A dotfile spelled like the extension is kept: `.log` has no extension. */
  lemma DotfileNamedLikeExtensionKept()
    ensures !ShouldIgnore(".log", LogOnly)
  {
    DotfileHasNoExt("log");
    assert ".log" == "." + "log";
  }

  /** Leading dots never start an extension: `..log` is kept too. */
  lemma DoubleDotNameKept()
    ensures !ShouldIgnore("..log", LogOnly)
  {
    ExtOfStemAndSuffix(".", "log");
    assert "..log" == "." + "." + "log";
  }

  /** `q` ignores at least what `p` ignores: every list grows and the hidden flag is not switched off. */
  predicate Extends(p: Patterns, q: Patterns) {
    && (forall x :: x in p.files ==> x in q.files)
    && (forall x :: x in p.folders ==> x in q.folders)
    && (forall x :: x in p.extensions ==> x in q.extensions)
    && (HiddenFlag(p) ==> HiddenFlag(q))
  }

  /** Adding patterns or turning the hidden flag on never turns an ignored name into a kept one. */
  lemma Monotone(name: string, p: Patterns, q: Patterns)
    requires Extends(p, q)
    ensures ShouldIgnore(name, p) ==> ShouldIgnore(name, q)
  {
  }
}
