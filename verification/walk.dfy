/**
 The manifest builder `create_directory_lookup_table`: a top-down, pre-order
 walk of a directory tree that records, for every visited directory, its
 non-ignored subdirectory and file names, and descends only into the
 subdirectories it kept. The filesystem is an immutable tree whose entries
 are listed in the order the platform enumerates them.
 */
module Walk {
  import opened Common
  import opened Ignore

  /** One name in a directory listing: a file, or a subdirectory with its own listing. */
  datatype Entry = File(name: string) | Sub(name: string, dir: Dir)

  /** A directory's listing, in enumeration order. */
  datatype Dir = Dir(entries: seq<Entry>)

  /** One manifest entry: the directory's path and its kept `dirs` and `files`. */
  datatype Record = Record(path: string, dirs: seq<string>, files: seq<string>)

  /** The subdirectory names of a listing, in order (the `dirs` that `os.walk` yields). */
  function DirNames(es: seq<Entry>): seq<string> {
    if es == [] then []
    else DirNames(es[..|es| - 1]) + (if es[|es| - 1].Sub? then [es[|es| - 1].name] else [])
  }

  /** The file names of a listing, in order (the `files` that `os.walk` yields). */
  function FileNames(es: seq<Entry>): seq<string> {
    if es == [] then []
    else FileNames(es[..|es| - 1]) + (if es[|es| - 1].File? then [es[|es| - 1].name] else [])
  }

  /** `[n for n in names if not should_ignore(n, p)]` */
  function Kept(names: seq<string>, p: Patterns): seq<string> {
    Filter(names, n => !ShouldIgnore(n, p))
  }

  /** The record made for one visited directory. */
  function RecordOf(path: string, d: Dir, p: Patterns): Record {
    Record(path, Kept(DirNames(d.entries), p), Kept(FileNames(d.entries), p))
  }

  /**
   `create_directory_lookup_table(path, p)`, its dict given as the list of
   its entries in insertion order: the directory's own record first, then,
   in listing order, the walks of the subdirectories that survived the filter.
   */
  function Walk(path: string, d: Dir, p: Patterns): (rs: seq<Record>)
    ensures |rs| > 0 && rs[0] == RecordOf(path, d, p)
    decreases d
  {
    [RecordOf(path, d, p)] + WalkEntries(path, d.entries, p)
  }

  /** The walks below `path` for the kept subdirectories among `es`, in order. */
  function WalkEntries(path: string, es: seq<Entry>, p: Patterns): seq<Record>
    decreases es
  {
    if es == [] then [] else Visit(path, es[0], p) + WalkEntries(path, es[1..], p)
  }

  /** What one listing entry adds: nothing for a file or a pruned subdirectory, the subdirectory's walk otherwise. */
  function Visit(path: string, e: Entry, p: Patterns): seq<Record>
    decreases e
  {
    match e
    case File(_) => []
    case Sub(n, sd) => if ShouldIgnore(n, p) then [] else Walk(JoinPath(path, n), sd, p)
  }

  /** The path reached from `root` by joining `names` one after the other. */
  function PathOf(root: string, names: seq<string>): string
    decreases |names|
  {
    if names == [] then root else PathOf(JoinPath(root, names[0]), names[1..])
  }

  /** Following the subdirectory names `names` down from `d` can arrive at `target`. */
  ghost predicate DirAt(d: Dir, names: seq<string>, target: Dir)
    decreases |names|
  {
    if names == [] then target == d
    else exists i :: 0 <= i < |d.entries| && d.entries[i].Sub? && d.entries[i].name == names[0]
                     && DirAt(d.entries[i].dir, names[1..], target)
  }

  /** No name on the route is ignored. */
  ghost predicate AllKept(names: seq<string>, p: Patterns) {
    forall i :: 0 <= i < |names| ==> !ShouldIgnore(names[i], p)
  }

  /** A directory reached from the root through kept subdirectory names only. */
  ghost predicate Reachable(d: Dir, names: seq<string>, target: Dir, p: Patterns) {
    AllKept(names, p) && DirAt(d, names, target)
  }

  /**
   Each recorded `dirs` and `files` list holds only names that pass the
   ignore test, and is an order-preserving subsequence of the subdirectory
   (respectively file) names of that directory's listing.
   */
  lemma RecordFiltered(path: string, d: Dir, p: Patterns)
    ensures forall n :: n in RecordOf(path, d, p).dirs ==> !ShouldIgnore(n, p)
    ensures forall n :: n in RecordOf(path, d, p).files ==> !ShouldIgnore(n, p)
    ensures IsSubseq(RecordOf(path, d, p).dirs, DirNames(d.entries))
    ensures IsSubseq(RecordOf(path, d, p).files, FileNames(d.entries))
    ensures forall n :: n in DirNames(d.entries) && !ShouldIgnore(n, p) ==> n in RecordOf(path, d, p).dirs
    ensures forall n :: n in FileNames(d.entries) && !ShouldIgnore(n, p) ==> n in RecordOf(path, d, p).files
  {
    var keep := n => !ShouldIgnore(n, p);
    FilterIsSubseq(DirNames(d.entries), keep);
    FilterIsSubseq(FileNames(d.entries), keep);
    forall n | true
      ensures n in Kept(DirNames(d.entries), p) <==> n in DirNames(d.entries) && !ShouldIgnore(n, p)
      ensures n in Kept(FileNames(d.entries), p) <==> n in FileNames(d.entries) && !ShouldIgnore(n, p)
    {
      FilterMembers(DirNames(d.entries), keep, n);
      FilterMembers(FileNames(d.entries), keep, n);
    }
  }

  lemma VisitMember(path: string, e: Entry, p: Patterns, r: Record)
    requires r in Visit(path, e, p)
    ensures e.Sub? && !ShouldIgnore(e.name, p) && r in Walk(JoinPath(path, e.name), e.dir, p)
  {
  }

  /** A record in the walk of a listing comes from the walk of one kept subdirectory in it. */
  lemma {:induction false} WalkEntriesMember(path: string, es: seq<Entry>, p: Patterns, r: Record)
    requires r in WalkEntries(path, es, p)
    ensures exists i :: 0 <= i < |es| && es[i].Sub? && !ShouldIgnore(es[i].name, p)
                        && r in Walk(JoinPath(path, es[i].name), es[i].dir, p)
    decreases es
  {
    if r in Visit(path, es[0], p) {
      VisitMember(path, es[0], p, r);
    } else {
      WalkEntriesMember(path, es[1..], p, r);
      var i :| 0 <= i < |es[1..]| && es[1..][i].Sub? && !ShouldIgnore(es[1..][i].name, p)
               && r in Walk(JoinPath(path, es[1..][i].name), es[1..][i].dir, p);
      assert es[i + 1] == es[1..][i];
    }
  }

  /** Conversely, the walk of every kept subdirectory of a listing is part of the listing's walk. */
  lemma {:induction false} WalkEntriesInclude(path: string, es: seq<Entry>, p: Patterns, i: int, r: Record)
    requires 0 <= i < |es| && es[i].Sub? && !ShouldIgnore(es[i].name, p)
    requires r in Walk(JoinPath(path, es[i].name), es[i].dir, p)
    ensures r in WalkEntries(path, es, p)
    decreases es
  {
    var first, rest := Visit(path, es[0], p), WalkEntries(path, es[1..], p);
    assert WalkEntries(path, es, p) == first + rest;
    if i > 0 {
      assert es[1..][i - 1] == es[i];
      WalkEntriesInclude(path, es[1..], p, i - 1, r);
      assert r in rest;
    } else {
      VisitInclude(path, es[0], p, r);
      assert r in first;
    }
  }

  lemma VisitInclude(path: string, e: Entry, p: Patterns, r: Record)
    requires e.Sub? && !ShouldIgnore(e.name, p) && r in Walk(JoinPath(path, e.name), e.dir, p)
    ensures r in Visit(path, e, p)
  {
  }

  /**
   Soundness of the manifest: every recorded entry belongs to a directory
   reachable from the root through non-ignored names, sits at the path those
   names spell, and lists that directory's kept names. Nothing below a pruned
   subdirectory is ever recorded.
   */
  lemma {:induction false} WalkSound(root: string, d: Dir, p: Patterns, r: Record)
    requires r in Walk(root, d, p)
    ensures exists names, t :: Reachable(d, names, t, p) && r == RecordOf(PathOf(root, names), t, p)
    decreases d
  {
    assert Walk(root, d, p) == [RecordOf(root, d, p)] + WalkEntries(root, d.entries, p);
    if r == RecordOf(root, d, p) {
      assert Reachable(d, [], d, p) && PathOf(root, []) == root;
    } else {
      assert r in WalkEntries(root, d.entries, p);
      WalkEntriesMember(root, d.entries, p, r);
      var i :| 0 <= i < |d.entries| && d.entries[i].Sub? && !ShouldIgnore(d.entries[i].name, p)
               && r in Walk(JoinPath(root, d.entries[i].name), d.entries[i].dir, p);
      var n, sd := d.entries[i].name, d.entries[i].dir;
      WalkSound(JoinPath(root, n), sd, p, r);
      var names, t :| Reachable(sd, names, t, p) && r == RecordOf(PathOf(JoinPath(root, n), names), t, p);
      ExtendRoute(root, d, i, names, t, p);
    }
  }

  /** A route from a kept subdirectory extends to a route from its parent, one name longer. */
  lemma ExtendRoute(root: string, d: Dir, i: int, names: seq<string>, t: Dir, p: Patterns)
    requires 0 <= i < |d.entries| && d.entries[i].Sub? && !ShouldIgnore(d.entries[i].name, p)
    requires Reachable(d.entries[i].dir, names, t, p)
    ensures Reachable(d, [d.entries[i].name] + names, t, p)
    ensures PathOf(root, [d.entries[i].name] + names) == PathOf(JoinPath(root, d.entries[i].name), names)
  {
    var full := [d.entries[i].name] + names;
    assert full[1..] == names;
    assert DirAt(d, full, t);
    assert forall j :: 0 < j < |full| ==> full[j] == names[j - 1];
  }

  /**
   Completeness of the manifest: every directory reachable from the root
   through non-ignored names has its record, at the path those names spell.
   The root itself is always recorded, whatever its own name.
   */
  lemma {:induction false} WalkComplete(root: string, d: Dir, p: Patterns, names: seq<string>, t: Dir)
    requires Reachable(d, names, t, p)
    ensures RecordOf(PathOf(root, names), t, p) in Walk(root, d, p)
    decreases |names|
  {
    if names != [] {
      var i :| 0 <= i < |d.entries| && d.entries[i].Sub? && d.entries[i].name == names[0]
               && DirAt(d.entries[i].dir, names[1..], t);
      var n, sd := names[0], d.entries[i].dir;
      assert AllKept(names[1..], p) by {
        forall j | 0 <= j < |names[1..]| ensures !ShouldIgnore(names[1..][j], p) {
          assert names[1..][j] == names[j + 1];
        }
      }
      assert !ShouldIgnore(names[0], p);
      WalkComplete(JoinPath(root, n), sd, p, names[1..], t);
      WalkEntriesInclude(root, d.entries, p, i, RecordOf(PathOf(root, names), t, p));
    }
  }
}
