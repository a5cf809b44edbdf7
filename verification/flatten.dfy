/**
 The path transformer of the fan-out script: `transform_path` collapses a
 relative path into one flat file name by three successive `str.replace`
 passes, and `is_visual_file` classifies a flat name by its suffix.
 */
module Flatten {
  import opened Common

  /**
   Python's `s.replace(pat, rep)` for a non-empty `pat`: scanning left to
   right, each occurrence not overlapping an earlier replaced one is replaced.
   */
  function Replace(s: string, pat: string, rep: string): (r: string)
    requires |pat| > 0
    ensures forall c :: c in r ==> c in s || c in rep
    ensures !Contains(s, pat) ==> r == s
    decreases |s|
  {
    if |s| < |pat| then s
    else if s[..|pat|] == pat then
      assert OccursAt(s, 0, pat);
      rep + Replace(s[|pat|..], pat, rep)
    else
      assert forall i :: 0 <= i <= |s[1..]| && OccursAt(s[1..], i, pat) ==> OccursAt(s, i + 1, pat);
      [s[0]] + Replace(s[1..], pat, rep)
  }

  /**
   Replacing one character by one character rewrites that character
   everywhere and leaves every other position alone.
   */
  lemma {:induction false} ReplaceCharIsMap(s: string, a: char, b: char)
    ensures Replace(s, [a], [b]) == MapChar(s, a, b)
    decreases |s|
  {
    if |s| > 0 {
      ReplaceCharIsMap(s[1..], a, b);
      assert s[..1] == [s[0]];
      assert Replace(s, [a], [b]) == (if s[0] == a then [b] else [s[0]]) + Replace(s[1..], [a], [b]);
      assert MapChar(s, a, b) == [if s[0] == a then b else s[0]] + MapChar(s[1..], a, b);
    }
  }

  /** `transform_path(parent_dir, filepath)`; `parent_dir` is accepted and unused. */
  function TransformPath(parentDir: string, filepath: string): (r: string)
    ensures '/' !in r && '\\' !in r
    ensures '/' !in filepath && '\\' !in filepath ==> r == filepath
  {
    if '/' !in filepath && '\\' !in filepath then filepath
    else
      var noDot := Replace(filepath, ".\\", "");
      var noBack := Replace(noDot, "\\", "@");
      assert '\\' !in noBack by { ReplaceCharIsMap(noDot, '\\', '@'); }
      ReplaceCharIsMap(noBack, '/', '@');
      Replace(noBack, "/", "@")
  }

  /** The parent directory argument plays no part in the result. */
  lemma ParentIgnored(parentDir: string, otherParent: string, filepath: string)
    ensures TransformPath(parentDir, filepath) == TransformPath(otherParent, filepath)
  {
  }

  /** Flattening an already flat name changes nothing, so flattening twice is flattening once. */
  lemma TransformIdempotent(parentDir: string, otherParent: string, filepath: string)
    ensures TransformPath(otherParent, TransformPath(parentDir, filepath)) == TransformPath(parentDir, filepath)
  {
  }

  /**
   A path without backslashes is flattened by turning each `/` into `@`,
   position by position; in particular `/`-joined segments that contain no
   separator become the same segments joined by `@`.
   */
  lemma PosixPathFlattens(parentDir: string, filepath: string)
    requires '\\' !in filepath
    ensures TransformPath(parentDir, filepath) == MapChar(filepath, '/', '@')
  {
    if '/' !in filepath {
      assert MapChar(filepath, '/', '@') == filepath;
    } else {
      assert !Contains(filepath, ".\\") by {
        forall i | 0 <= i <= |filepath| ensures !OccursAt(filepath, i, ".\\") {
          if i + 2 <= |filepath| {
            assert filepath[i..i + 2][1] == filepath[i + 1];
          }
        }
      }
      assert !Contains(filepath, "\\") by {
        forall i | 0 <= i <= |filepath| ensures !OccursAt(filepath, i, "\\") {
          if i + 1 <= |filepath| {
            assert filepath[i..i + 1][0] == filepath[i];
          }
        }
      }
      ReplaceCharIsMap(filepath, '/', '@');
    }
  }

  lemma {:induction false} JoinSegments(segs: seq<string>)
    requires forall i :: 0 <= i < |segs| ==> '/' !in segs[i]
    ensures MapChar(JoinWith(segs, '/'), '/', '@') == JoinWith(segs, '@')
    decreases |segs|
  {
    if |segs| == 1 {
      assert MapChar(segs[0], '/', '@') == segs[0];
    } else if |segs| > 1 {
      JoinSegments(segs[1..]);
      var rest := JoinWith(segs[1..], '/');
      var x := segs[0] + ['/'] + rest;
      assert MapChar(x, '/', '@') == segs[0] + ['@'] + MapChar(rest, '/', '@') by {
        forall k | 0 <= k < |x| ensures MapChar(x, '/', '@')[k] == (segs[0] + ['@'] + MapChar(rest, '/', '@'))[k] {
          if k < |segs[0]| {
            assert x[k] == segs[0][k];
          }
        }
      }
    }
  }

  /**
   A file at relative segments `segs` (none holding a separator) gets the
   flat name of its segments joined by `@`; a root-level file keeps its name.
   */
  lemma FlattenSegments(parentDir: string, segs: seq<string>)
    requires forall i :: 0 <= i < |segs| ==> '/' !in segs[i] && '\\' !in segs[i]
    ensures TransformPath(parentDir, JoinWith(segs, '/')) == JoinWith(segs, '@')
  {
    JoinSegmentsNoBackslash(segs);
    PosixPathFlattens(parentDir, JoinWith(segs, '/'));
    JoinSegments(segs);
  }

  lemma {:induction false} JoinSegmentsNoBackslash(segs: seq<string>)
    requires forall i :: 0 <= i < |segs| ==> '\\' !in segs[i]
    ensures '\\' !in JoinWith(segs, '/')
    decreases |segs|
  {
    if |segs| > 1 {
      JoinSegmentsNoBackslash(segs[1..]);
    }
  }

  /**
   Flattening is not injective: a file `b` in subdirectory `a` and a root
   file named `a@b` receive the same flat name, as `sub/b.txt` and
   `sub@b.txt` do.
   */
  lemma FlattenCollision(root: string, a: string, b: string)
    requires '/' !in a && '\\' !in a && '/' !in b && '\\' !in b
    ensures a + "/" + b != a + "@" + b
    ensures TransformPath(root, a + "/" + b) == TransformPath(root, a + "@" + b) == a + "@" + b
  {
    var x, y := a + "/" + b, a + "@" + b;
    assert x[|a|] != y[|a|];
    assert '\\' !in x;
    PosixPathFlattens(root, x);
    forall i | 0 <= i < |x|
      ensures MapChar(x, '/', '@')[i] == y[i]
    {
      if i < |a| {
        assert x[i] == a[i] == y[i];
      } else if i > |a| {
        assert x[i] == b[i - |a| - 1] == y[i];
      }
    }
    assert MapChar(x, '/', '@') == y;
    assert '/' !in y && '\\' !in y;
  }

  /**
   The `".\\"` pass (strings here are written as Dafny literals) does not
   touch a backslash-free stretch `a` as long as `a` and what follows do not
   meet in a `".\\"` at the border.
   */
  lemma {:induction false} ReplaceDotBackslashSkips(a: string, t: string)
    requires '\\' !in a
    requires |a| > 0 && |t| > 0 ==> !(a[|a| - 1] == '.' && t[0] == '\\')
    ensures Replace(a + t, ".\\", "") == a + Replace(t, ".\\", "")
    decreases |a|
  {
    if |a| > 0 {
      var s := a + t;
      assert s[1..] == a[1..] + t;
      ReplaceDotBackslashSkips(a[1..], t);
      if |s| >= 2 {
        assert s[..2] != ".\\" by {
          assert s[..2][0] == a[0] && s[..2][1] == s[1];
          if |a| > 1 { assert s[1] == a[1]; } else { assert s[1] == t[0]; }
        }
      }
      assert Replace(s, ".\\", "") == [s[0]] + Replace(s[1..], ".\\", "");
      assert a == [s[0]] + a[1..];
    } else {
      assert a + t == t;
    }
  }

  /** The `else` branch of `TransformPath`, for a path holding a backslash. */
  lemma TransformPathPasses(root: string, x: string)
    requires '\\' in x
    ensures TransformPath(root, x) == Replace(Replace(Replace(x, ".\\", ""), "\\", "@"), "/", "@")
  {
  }

  /** A backslash-free name holds no `".\\"` to delete. */
  lemma UntouchedByDotBackslash(b: string)
    requires '\\' !in b
    ensures Replace(b, ".\\", "") == b
  {
    ReplaceDotBackslashSkips(b, "");
    assert b + "" == b;
  }

  /** A leading `".\\"` before a backslash-free name is deleted. */
  lemma DropsLeadingDotBackslash(b: string)
    requires '\\' !in b
    ensures Replace(".\\" + b, ".\\", "") == b
  {
    var t := ".\\" + b;
    assert t[..2] == ".\\" && t[2..] == b;
    UntouchedByDotBackslash(b);
  }

  /** A name with no backslash and no slash is fixed by the two one-character passes. */
  lemma SeparatorFreeFixed(x: string)
    requires '\\' !in x && '/' !in x
    ensures Replace(Replace(x, "\\", "@"), "/", "@") == x
  {
    ReplaceCharIsMap(x, '\\', '@');
    assert MapChar(x, '\\', '@') == x;
    ReplaceCharIsMap(x, '/', '@');
    assert MapChar(x, '/', '@') == x;
  }

  /**
   The first pass deletes `".\\"` wherever it occurs, not only at the start:
   a name ending in `.` followed by a backslash-separated name is merged
   with it, so `"a.\\b"` becomes `"ab"` and collides with a root file `ab`.
   */
  lemma DotBackslashMerges(root: string, a: string, b: string)
    requires '/' !in a && '\\' !in a && '/' !in b && '\\' !in b
    ensures TransformPath(root, a + ".\\" + b) == TransformPath(root, a + b) == a + b
  {
    var t := ".\\" + b;
    var x := a + t;
    assert a + ".\\" + b == x;
    assert x[|a| + 1] == '\\';
    ReplaceDotBackslashSkips(a, t);
    assert t[..2] == ".\\" && t[2..] == b;
    DropsLeadingDotBackslash(b);
    var merged := a + b;
    assert a + Replace(t, ".\\", "") == merged;
    assert '/' !in merged && '\\' !in merged;
    SeparatorFreeFixed(merged);
    TransformPathPasses(root, x);
  }

  /**
   A Windows-style relative path `".\\a\\b"` loses its leading `".\\"` and
   has its remaining separator turned into `@`, provided `a` does not end
   in `.` (which would start another `".\\"`).
   */
  lemma WindowsRelativePath(root: string, a: string, b: string)
    requires '/' !in a && '\\' !in a && '/' !in b && '\\' !in b
    requires |a| > 0 ==> a[|a| - 1] != '.'
    ensures TransformPath(root, ".\\" + a + "\\" + b) == a + "@" + b
  {
    var u := "\\" + b;
    var rest := a + "\\" + b;
    var x := ".\\" + rest;
    assert rest == a + u;
    assert ".\\" + a + "\\" + b == x;
    KeepsBackslashStart(b);
    ReplaceDotBackslashSkips(a, u);
    var noDot := Replace(x, ".\\", "");
    assert noDot == rest by { DropsLeadingDotBackslashAny(rest); }
    BackslashBecomesAt(a, b);
    assert '\\' in x by { assert x[1] == '\\'; }
    TransformPathPasses(root, x);
  }

  /** A path starting with `".\\"` loses that prefix, and the pass goes on over the rest. */
  lemma DropsLeadingDotBackslashAny(rest: string)
    ensures Replace(".\\" + rest, ".\\", "") == Replace(rest, ".\\", "")
  {
    var t := ".\\" + rest;
    assert t[..2] == ".\\" && t[2..] == rest;
  }

  /** A backslash followed by a backslash-free name holds no `".\\"`. */
  lemma KeepsBackslashStart(b: string)
    requires '\\' !in b
    ensures Replace("\\" + b, ".\\", "") == "\\" + b
  {
    var u := "\\" + b;
    assert u[1..] == b;
    UntouchedByDotBackslash(b);
    if |u| >= 2 {
      assert u[..2][0] == '\\';
    }
  }

  /** The two one-character passes turn `a + "\\" + b` into `a + "@" + b` for separator-free `a` and `b`. */
  lemma BackslashBecomesAt(a: string, b: string)
    requires '/' !in a && '\\' !in a && '/' !in b && '\\' !in b
    ensures Replace(Replace(a + "\\" + b, "\\", "@"), "/", "@") == a + "@" + b
  {
    var rest := a + "\\" + b;
    var y := a + "@" + b;
    ReplaceCharIsMap(rest, '\\', '@');
    assert MapChar(rest, '\\', '@') == y by {
      forall i | 0 <= i < |rest| ensures MapChar(rest, '\\', '@')[i] == y[i] {
        if i < |a| {
          assert rest[i] == a[i] == y[i];
        } else if i > |a| {
          assert rest[i] == b[i - |a| - 1] == y[i];
        }
      }
    }
    assert '/' !in y;
    ReplaceCharIsMap(y, '/', '@');
    assert MapChar(y, '/', '@') == y;
  }

  /** `filepath.lower().endswith(('.png', '.jpg', '.jpeg', '.pdf'))`; every such name has a dot. */
  predicate IsVisual(filepath: string): (visual: bool)
    ensures visual ==> '.' in filepath
  {
    var l := Lower(filepath);
    if EndsWith(l, ".png") then SuffixDot(filepath, ".png"); true
    else if EndsWith(l, ".jpg") then SuffixDot(filepath, ".jpg"); true
    else if EndsWith(l, ".jpeg") then SuffixDot(filepath, ".jpeg"); true
    else if EndsWith(l, ".pdf") then SuffixDot(filepath, ".pdf"); true
    else false
  }

  /** A name whose lower-cased form ends with a suffix starting with a dot has that dot itself. */
  lemma SuffixDot(s: string, suffix: string)
    requires |suffix| > 0 && suffix[0] == '.' && EndsWith(Lower(s), suffix)
    ensures '.' in s
  {
    var j := |s| - |suffix|;
    assert Lower(s)[j] == Lower(s)[j..][0] == '.';
  }

  lemma LowerIdempotent(s: string)
    ensures Lower(Lower(s)) == Lower(s)
  {
  }

  /** The classification ignores case: a name and its lower-case form are classified alike. */
  lemma VisualIgnoresCase(filepath: string)
    ensures IsVisual(filepath) == IsVisual(Lower(filepath))
  {
    LowerIdempotent(filepath);
  }

  /** Upper-case suffixes count: `scan.PDF` and `photo.Jpeg` are visual, `notes.txt` is not. */
  lemma VisualExamples()
    ensures IsVisual("scan.PDF")
    ensures IsVisual("photo.Jpeg")
    ensures !IsVisual("notes.txt")
  {
    assert Lower("scan.PDF")[4..] == ".pdf";
    assert Lower("photo.Jpeg")[5..] == ".jpeg";
    assert Lower("notes.txt") == "notes.txt";
  }
}
