/**
 Fan-out mode (`claude_concat.py`): check the manifest's shape, then copy
 every manifest file under its flattened name into the output root, or into
 the `visual` subdirectory for images and PDFs, summing token counts of the
 text files on the way. Reading, decoding, writing and counting are inputs:
 each file comes with the outcome of its read, of its UTF-8 decoding and of
 its write, and with whether its own counting call raised; a counting call
 that does not raise answers as a function of backend and text.
 */
module FanOut {
  import opened Common
  import opened Json
  import opened Flatten
  import opened Tokens

  /** A manifest value the fan-out script accepts: an object holding both keys. */
  predicate WellShaped(v: Json) {
    v.JObj? && HasKey(v.fields, "dirs") && HasKey(v.fields, "files")
  }

  /** The loop of `validate_json`, stopping at the first malformed value. */
  function ValidateFields(fs: seq<(string, Json)>): (ok: bool)
    ensures ok <==> forall i :: 0 <= i < |fs| ==> WellShaped(fs[i].1)
  {
    if fs == [] then true
    else if !WellShaped(fs[0].1) then false
    else ValidateFields(fs[1..])
  }

  /**
   `validate_json`: the manifest is an object and each of its values is an
   object with `"dirs"` and `"files"` keys; what those keys hold is not
   looked at, and an empty object passes.
   */
  function ValidateJson(j: Json): (ok: bool)
    ensures ok <==> j.JObj? && forall i :: 0 <= i < |j.fields| ==> WellShaped(j.fields[i].1)
  {
    match j
    case JObj(fs) => ValidateFields(fs)
    case _ => false
  }

  /** The element types are not checked: numbers under both keys pass, and so does `{}`. */
  lemma ValidateExamples()
    ensures ValidateJson(JObj([]))
    ensures ValidateJson(JObj([("/p", JObj([("dirs", JNum(1)), ("files", JNum(2))]))]))
    ensures !ValidateJson(JObj([("/p", JObj([("dirs", JArr([]))]))]))
    ensures !ValidateJson(JArr([]))
  {
    var ok := JObj([("dirs", JNum(1)), ("files", JNum(2))]);
    assert ok.fields[0].0 == "dirs" && ok.fields[1].0 == "files";
    var bad := JObj([("dirs", JArr([]))]);
    assert !HasKey(bad.fields, "files");
  }

  /**
   One manifest entry as the fan-out loop uses it: the key, the key's path
   relative to the first key as segments (`os.path.relpath`), and the files.
   */
  datatype RelDir = RelDir(key: string, rel: seq<string>, dirs: seq<string>, files: seq<string>)

  /**
   What happens to the copy of one file. Opening the target for writing
   either raises, leaving any earlier copy alone, or truncates it; after a
   truncating open the write either completes or raises once only the first
   `kept` bytes have reached the target.
   */
  datatype WriteOutcome = OpenFailed | WriteFailed(kept: nat) | Written

  /**
   What happens to one file: its bytes (`None` when opening or reading
   raised), its UTF-8 text (`None` when decoding raised), the outcome of its
   copy, and whether its own counting call raised (a rate limit or a network
   error hits one call, and the count functions catch it for that file only).
   */
  datatype FileIO = FileIO(bytes: Option<seq<byte>>, text: Option<string>, write: WriteOutcome, countRaised: bool)

  /** The target's content after a truncating open of a file that was read: all of its bytes, or the prefix that reached it before the write raised. */
  function Stored(f: FileIO): (r: seq<byte>)
    requires f.bytes.Some? && !f.write.OpenFailed?
    ensures r <= f.bytes.value
    ensures f.write.Written? ==> r == f.bytes.value
  {
    match f.write
    case Written => f.bytes.value
    case WriteFailed(kept) => if kept < |f.bytes.value| then f.bytes.value[..kept] else f.bytes.value
  }

  /** The observable outcome of one run. */
  datatype FanOutRun = FanOutRun(
    created: seq<string>,
    visual: seq<string>,
    rootFiles: map<string, seq<byte>>,
    visualFiles: map<string, seq<byte>>,
    visualDirMade: bool,
    setup: Setup,
    totalTokens: nat,
    warned: bool)

  /** `os.path.relpath(os.path.join(key, f), parent_dir)` for each file of one entry. */
  function DirRelPaths(e: RelDir): seq<string> {
    seq(|e.files|, i requires 0 <= i < |e.files| => JoinWith(e.rel + [e.files[i]], '/'))
  }

  /** The relative paths of all manifest files, in manifest order. */
  function RelPaths(m: seq<RelDir>): seq<string> {
    if m == [] then [] else RelPaths(m[..|m| - 1]) + DirRelPaths(m[|m| - 1])
  }

  /** The flattened names of the given relative paths, in order. */
  function FlattenPaths(parentDir: string, paths: seq<string>): (names: seq<string>)
    ensures |names| == |paths|
  {
    seq(|paths|, i requires 0 <= i < |paths| => TransformPath(parentDir, paths[i]))
  }

  /** The flattened names of all manifest files, in manifest order. */
  function FlatNames(parentDir: string, m: seq<RelDir>): (names: seq<string>)
    ensures |names| == |RelPaths(m)|
  {
    FlattenPaths(parentDir, RelPaths(m))
  }

  predicate NotVisual(name: string) {
    !IsVisual(name)
  }

  /** What one file adds to the total: only text files whose own counting call, on an enabled backend, did not raise. */
  function Contribution(s: Setup, name: string, io: FileIO, answer: (Backend, string) -> Option<nat>): Option<nat> {
    if s.enabled && !IsVisual(name) && io.bytes.Some? && io.text.Some? && !io.countRaised then
      CountFileTokens(s.tokenizer, s.counter, io.text.value, answer)
    else None
  }

  /** The running total over the first files. */
  function TotalTokens(s: Setup, names: seq<string>, io: seq<FileIO>, answer: (Backend, string) -> Option<nat>): nat
    requires |names| == |io|
  {
    if names == [] then 0
    else
      var n := |names| - 1;
      TotalTokens(s, names[..n], io[..n], answer) + Contribution(s, names[n], io[n], answer).GetOr(0)
  }

  /** The copies in one output directory (`visual` or the root) after the first files: each truncating open replaces the copy under its name by what the write left. */
  function Outputs(names: seq<string>, io: seq<FileIO>, visualDir: bool): map<string, seq<byte>>
    requires |names| == |io|
  {
    if names == [] then map[]
    else
      var n := |names| - 1;
      var before := Outputs(names[..n], io[..n], visualDir);
      if IsVisual(names[n]) == visualDir && io[n].bytes.Some? && !io[n].write.OpenFailed? then
        before[names[n] := Stored(io[n])]
      else before
  }

  lemma {:induction false} RelPathsPrefix(m: seq<RelDir>, e: nat)
    requires e <= |m|
    ensures RelPaths(m[..e]) <= RelPaths(m)
    decreases |m| - e
  {
    if e < |m| {
      RelPathsPrefix(m, e + 1);
      assert m[..e + 1][..e] == m[..e];
      assert RelPaths(m[..e + 1]) == RelPaths(m[..e]) + DirRelPaths(m[e]);
    } else {
      assert m[..e] == m;
    }
  }

  /** The `j`-th file of entry `d` is file number `|RelPaths(m[..d])| + j` of the whole manifest. */
  lemma RelPathsAt(m: seq<RelDir>, d: nat, j: nat)
    requires d < |m| && j < |m[d].files|
    ensures |RelPaths(m[..d])| + j < |RelPaths(m)|
    ensures RelPaths(m)[|RelPaths(m[..d])| + j] == JoinWith(m[d].rel + [m[d].files[j]], '/')
  {
    RelPathsPrefix(m, d + 1);
    assert m[..d + 1][..d] == m[..d];
    assert RelPaths(m[..d + 1]) == RelPaths(m[..d]) + DirRelPaths(m[d]);
  }

  lemma RelPathsStep(m: seq<RelDir>, d: nat)
    requires d < |m|
    ensures RelPaths(m[..d + 1]) == RelPaths(m[..d]) + DirRelPaths(m[d])
  {
    assert m[..d + 1][..d] == m[..d];
  }

  /** The loop's running state: the two name lists, both output directories, whether `visual` exists yet, and the total. */
  datatype Acc = Acc(
    created: seq<string>,
    visual: seq<string>,
    rootFiles: map<string, seq<byte>>,
    visualFiles: map<string, seq<byte>>,
    visualDirMade: bool,
    total: nat)

  const Start := Acc([], [], map[], map[], false, 0)

  /**
   One iteration of the file loop. The name is recorded first; then, if the
   read succeeded, a non-visual decodable file is counted, and unless opening
   the target raised, the target's content becomes what the write left.
   */
  function Step(s: Setup, acc: Acc, name: string, f: FileIO, answer: (Backend, string) -> Option<nat>): Acc {
    var recorded :=
      if IsVisual(name) then acc.(visualDirMade := true, visual := acc.visual + [name])
      else acc.(created := acc.created + [name]);
    if f.bytes.None? then recorded
    else
      var counted := recorded.(total := recorded.total + Contribution(s, name, f, answer).GetOr(0));
      if f.write.OpenFailed? then counted
      else if IsVisual(name) then counted.(visualFiles := counted.visualFiles[name := Stored(f)])
      else counted.(rootFiles := counted.rootFiles[name := Stored(f)])
  }

  /**
   What one pass does to the state: the name goes to exactly one list, by its
   kind; the total never decreases; a failed read or a failed open leaves both
   directories alone; and a file only ever touches the directory of its kind.
   */
  lemma StepEffects(s: Setup, acc: Acc, name: string, f: FileIO, answer: (Backend, string) -> Option<nat>)
    ensures var r := Step(s, acc, name, f, answer);
            && (IsVisual(name) ==> r.visual == acc.visual + [name] && r.created == acc.created && r.visualDirMade)
            && (!IsVisual(name) ==> r.created == acc.created + [name] && r.visual == acc.visual
                                    && r.visualDirMade == acc.visualDirMade)
            && r.total >= acc.total
            && (f.bytes.None? || f.write.OpenFailed? ==> r.rootFiles == acc.rootFiles && r.visualFiles == acc.visualFiles)
            && (IsVisual(name) ==> r.rootFiles == acc.rootFiles)
            && (!IsVisual(name) ==> r.visualFiles == acc.visualFiles)
  {
  }

  /** The state after the loop has handled the files `names` in order. */
  function Run(s: Setup, names: seq<string>, io: seq<FileIO>, answer: (Backend, string) -> Option<nat>): Acc
    requires |names| == |io|
  {
    if names == [] then Start
    else
      var n := |names| - 1;
      Step(s, Run(s, names[..n], io[..n], answer), names[n], io[n], answer)
  }

  /**
   What the loop state means: the name lists are the visual/non-visual split
   of all names in order, each directory holds, per name, what the write after
   the last truncating open of that name left, `visual` exists once a visual
   name was seen, and the total sums the per-file counts.
   */
  lemma {:induction false} RunMeaning(s: Setup, names: seq<string>, io: seq<FileIO>, answer: (Backend, string) -> Option<nat>)
    requires |names| == |io|
    ensures Run(s, names, io, answer).created == Filter(names, NotVisual)
    ensures Run(s, names, io, answer).visual == Filter(names, IsVisual)
    ensures Run(s, names, io, answer).visualDirMade == (|Filter(names, IsVisual)| > 0)
    ensures Run(s, names, io, answer).rootFiles == Outputs(names, io, false)
    ensures Run(s, names, io, answer).visualFiles == Outputs(names, io, true)
    ensures Run(s, names, io, answer).total == TotalTokens(s, names, io, answer)
  {
    RunLists(s, names, io, answer);
    RunCopies(s, names, io, answer);
    RunTotal(s, names, io, answer);
  }

  /** The name lists and the `visual` directory flag after the loop. */
  lemma {:induction false} RunLists(s: Setup, names: seq<string>, io: seq<FileIO>, answer: (Backend, string) -> Option<nat>)
    requires |names| == |io|
    ensures Run(s, names, io, answer).created == Filter(names, NotVisual)
    ensures Run(s, names, io, answer).visual == Filter(names, IsVisual)
    ensures Run(s, names, io, answer).visualDirMade == (|Filter(names, IsVisual)| > 0)
  {
    if names != [] {
      var n := |names| - 1;
      var pre := names[..n];
      RunLists(s, pre, io[..n], answer);
      StepEffects(s, Run(s, pre, io[..n], answer), names[n], io[n], answer);
      assert Filter(names, NotVisual) == Filter(pre, NotVisual) + (if NotVisual(names[n]) then [names[n]] else []);
      assert Filter(names, IsVisual) == Filter(pre, IsVisual) + (if IsVisual(names[n]) then [names[n]] else []);
    }
  }

  /** The contents of both output directories after the loop. */
  lemma {:induction false} RunCopies(s: Setup, names: seq<string>, io: seq<FileIO>, answer: (Backend, string) -> Option<nat>)
    requires |names| == |io|
    ensures Run(s, names, io, answer).rootFiles == Outputs(names, io, false)
    ensures Run(s, names, io, answer).visualFiles == Outputs(names, io, true)
  {
    if names != [] {
      var n := |names| - 1;
      RunCopies(s, names[..n], io[..n], answer);
    }
  }

  /** The running total after the loop. */
  lemma {:induction false} RunTotal(s: Setup, names: seq<string>, io: seq<FileIO>, answer: (Backend, string) -> Option<nat>)
    requires |names| == |io|
    ensures Run(s, names, io, answer).total == TotalTokens(s, names, io, answer)
  {
    if names != [] {
      var n := |names| - 1;
      RunTotal(s, names[..n], io[..n], answer);
    }
  }

  /** One pass of the loop body, on a file's relative path and what happens to it. */
  function FileStep(s: Setup, parentDir: string, answer: (Backend, string) -> Option<nat>): (Acc, (string, FileIO)) -> Acc {
    (acc: Acc, f: (string, FileIO)) => Step(s, acc, TransformPath(parentDir, f.0), f.1, answer)
  }

  /** The loop body on a file already given its flattened name. */
  function NameStep(s: Setup, answer: (Backend, string) -> Option<nat>): (Acc, (string, FileIO)) -> Acc {
    (acc: Acc, f: (string, FileIO)) => Step(s, acc, f.0, f.1, answer)
  }

  /** `Run` is the fold of the loop body over the names paired with their outcomes. */
  lemma {:induction false} RunIsFold(s: Setup, names: seq<string>, io: seq<FileIO>, answer: (Backend, string) -> Option<nat>)
    requires |names| == |io|
    ensures FoldLeft(NameStep(s, answer), Start, Zip(names, io)) == Run(s, names, io, answer)
  {
    if names != [] {
      var n := |names| - 1;
      RunIsFold(s, names[..n], io[..n], answer);
      assert Zip(names, io)[..n] == Zip(names[..n], io[..n]);
    }
  }

  /** Running the loop body over the paths paired with their outcomes folds `Step` over the flattened names. */
  lemma FoldFileSteps(s: Setup, parentDir: string, paths: seq<string>, io: seq<FileIO>,
                      answer: (Backend, string) -> Option<nat>)
    requires |paths| == |io|
    ensures FoldLeft(FileStep(s, parentDir, answer), Start, Zip(paths, io)) == Run(s, FlattenPaths(parentDir, paths), io, answer)
  {
    var names := FlattenPaths(parentDir, paths);
    var zp, zn := Zip(paths, io), Zip(names, io);
    forall b: Acc, i | 0 <= i < |zp|
      ensures FileStep(s, parentDir, answer)(b, zp[i]) == NameStep(s, answer)(b, zn[i])
    {
      assert zn[i].0 == TransformPath(parentDir, zp[i].0) && zn[i].1 == zp[i].1;
    }
    FoldLeftPointwise(FileStep(s, parentDir, answer), NameStep(s, answer), Start, zp, zn);
    RunIsFold(s, names, io, answer);
  }

  /**
   The two nested loops' enumeration: every manifest file's path relative to
   the first key, entry by entry and file by file. Nothing the loop body does
   to a file changes which files come next, so the enumeration is computed
   ahead of the per-file work.
   */
  method EnumerateFiles(m: seq<RelDir>) returns (rel: seq<string>)
    ensures rel == RelPaths(m)
  {
    rel := [];
    var d := 0;
    while d < |m|
      invariant 0 <= d <= |m|
      invariant rel == RelPaths(m[..d])
    {
      var entry := m[d];
      var j := 0;
      while j < |entry.files|
        invariant 0 <= j <= |entry.files|
        invariant rel == RelPaths(m[..d]) + DirRelPaths(entry)[..j]
      {
        assert DirRelPaths(entry)[..j + 1] == DirRelPaths(entry)[..j] + [JoinWith(entry.rel + [entry.files[j]], '/')];
        rel := rel + [JoinWith(entry.rel + [entry.files[j]], '/')];
        j := j + 1;
      }
      assert DirRelPaths(entry)[..j] == DirRelPaths(entry);
      RelPathsStep(m, d);
      d := d + 1;
    }
    assert m[..d] == m;
  }

  /** The per-file work of the loop body, applied to the enumerated files in order. */
  method ProcessFiles(s: Setup, parentDir: string, m: seq<RelDir>, io: seq<FileIO>, answer: (Backend, string) -> Option<nat>)
    returns (acc: Acc)
    requires |io| == |RelPaths(m)|
    ensures acc == Run(s, FlatNames(parentDir, m), io, answer)
  {
    var rel := EnumerateFiles(m);
    acc := Fold(FileStep(s, parentDir, answer), Start, Zip(rel, io));
    FoldFileSteps(s, parentDir, rel, io, answer);
  }

  /**
   `concat_dir_data`: `None` when the manifest is empty (taking its first key
   raises). Otherwise every file's flattened name is appended to `visual` or
   `created` before its copy is attempted; a file whose read fails is
   skipped, a text file adds its count when counting is enabled, and every
   open that succeeds replaces any earlier copy under the same name by what
   its write leaves.
   */
  method ConcatDirData(m: seq<RelDir>, io: seq<FileIO>, countTokens: bool, tokenizer: string,
                       anthropicOk: bool, tiktokenOk: bool, answer: (Backend, string) -> Option<nat>)
    returns (r: Option<FanOutRun>)
    requires |io| == |RelPaths(m)|
    ensures r.None? <==> m == []
    ensures r.Some? ==>
              var names := FlatNames(m[0].key, m);
              var run := r.value;
              && run.setup == SetupTokenCounter(countTokens, tokenizer, anthropicOk, tiktokenOk)
              && run.created == Filter(names, NotVisual)
              && run.visual == Filter(names, IsVisual)
              && run.visualDirMade == (|run.visual| > 0)
              && run.rootFiles == Outputs(names, io, false)
              && run.visualFiles == Outputs(names, io, true)
              && run.totalTokens == TotalTokens(run.setup, names, io, answer)
              && run.warned == (run.setup.enabled && run.totalTokens > WarnThreshold)
  {
    if m == [] {
      return None;
    }
    var setup := SetupTokenCounter(countTokens, tokenizer, anthropicOk, tiktokenOk);
    var parentDir := m[0].key;
    var acc := ProcessFiles(setup, parentDir, m, io, answer);
    RunMeaning(setup, FlatNames(parentDir, m), io, answer);
    var warned := WarnsTooLarge(setup.enabled, acc.total);
    return Some(FanOutRun(acc.created, acc.visual, acc.rootFiles, acc.visualFiles, acc.visualDirMade,
                          setup, acc.total, warned));
  }

  /**
   Every manifest file lands in exactly one of the two name lists, whatever
   happens to its read or write: together the lists have one entry per file
   and hold exactly the flattened names, with multiplicity.
   */
  lemma EveryFileListedOnce(parentDir: string, m: seq<RelDir>)
    ensures |Filter(FlatNames(parentDir, m), NotVisual)| + |Filter(FlatNames(parentDir, m), IsVisual)| == |RelPaths(m)|
    ensures multiset(Filter(FlatNames(parentDir, m), NotVisual)) + multiset(Filter(FlatNames(parentDir, m), IsVisual))
            == multiset(FlatNames(parentDir, m))
  {
    FilterPartition(FlatNames(parentDir, m), NotVisual, IsVisual);
  }

  /** File `i` was read, is of the directory's kind, and opening its target truncated it. */
  predicate Opened(names: seq<string>, io: seq<FileIO>, i: int, visualDir: bool)
    requires |names| == |io|
  {
    0 <= i < |names| && IsVisual(names[i]) == visualDir && io[i].bytes.Some? && !io[i].write.OpenFailed?
  }

  /**
   The last truncating open decides: a name is present in an output
   directory exactly when some file of that kind with that flattened name was
   read and its target opened, and it then holds what the write of the last
   such file left, a prefix of that file's bytes, all of them when the write
   completed. A later write that raises after its open does not leave the
   earlier copy in place.
   */
  lemma LastWriteWins(names: seq<string>, io: seq<FileIO>, visualDir: bool, name: string)
    requires |names| == |io|
    ensures name in Outputs(names, io, visualDir) <==>
              exists i :: Opened(names, io, i, visualDir) && names[i] == name
    ensures name in Outputs(names, io, visualDir) ==>
              exists i :: Opened(names, io, i, visualDir) && names[i] == name
                          && Outputs(names, io, visualDir)[name] == Stored(io[i])
                          && Outputs(names, io, visualDir)[name] <= io[i].bytes.value
                          && (io[i].write.Written? ==> Outputs(names, io, visualDir)[name] == io[i].bytes.value)
                          && forall j :: i < j < |names| && names[j] == name ==> !Opened(names, io, j, visualDir)
  {
    OutputsPresent(names, io, visualDir, name);
    if name in Outputs(names, io, visualDir) {
      OutputsLastWriter(names, io, visualDir, name);
    }
  }

  /**
   A failed rewrite does not keep the earlier copy: when a second file with
   the same flattened name is read and its target opened, but the write
   raises before any byte reaches it, the target is left empty.
   */
  lemma FailedRewriteEmptiesCopy(name: string, first: seq<byte>, second: seq<byte>, t1: Option<string>, t2: Option<string>)
    ensures var io := [FileIO(Some(first), t1, Written, false), FileIO(Some(second), t2, WriteFailed(0), false)];
            var out := Outputs([name, name], io, IsVisual(name));
            name in out && out[name] == []
  {
    var io := [FileIO(Some(first), t1, Written, false), FileIO(Some(second), t2, WriteFailed(0), false)];
    assert [name, name][..1] == [name] && io[..1] == [io[0]];
    assert [name][..0] == [] && [io[0]][..0] == [];
  }

  /** A name is present exactly when some file of the right kind with that name was read and its target opened. */
  lemma {:induction false} OutputsPresent(names: seq<string>, io: seq<FileIO>, visualDir: bool, name: string)
    requires |names| == |io|
    ensures name in Outputs(names, io, visualDir) <==>
              exists i :: Opened(names, io, i, visualDir) && names[i] == name
  {
    if names != [] {
      var n := |names| - 1;
      var pre, pio := names[..n], io[..n];
      OutputsPresent(pre, pio, visualDir, name);
      forall i | 0 <= i < n
        ensures Opened(pre, pio, i, visualDir) == Opened(names, io, i, visualDir)
        ensures pre[i] == names[i]
      {
      }
    }
  }

  /** A present name holds what the last write under it left. */
  lemma {:induction false} OutputsLastWriter(names: seq<string>, io: seq<FileIO>, visualDir: bool, name: string)
    requires |names| == |io| && name in Outputs(names, io, visualDir)
    ensures exists i :: Opened(names, io, i, visualDir) && names[i] == name
                        && Outputs(names, io, visualDir)[name] == Stored(io[i])
                        && forall j :: i < j < |names| && names[j] == name ==> !Opened(names, io, j, visualDir)
  {
    var n := |names| - 1;
    var pre, pio := names[..n], io[..n];
    var before := Outputs(pre, pio, visualDir);
    assert Outputs(names, io, visualDir) == if Opened(names, io, n, visualDir) then before[names[n] := Stored(io[n])] else before;
    if Opened(names, io, n, visualDir) && names[n] == name {
      assert Outputs(names, io, visualDir)[name] == Stored(io[n]);
    } else {
      assert name in Outputs(pre, pio, visualDir);
      OutputsLastWriter(pre, pio, visualDir, name);
      var i :| Opened(pre, pio, i, visualDir) && pre[i] == name
               && Outputs(pre, pio, visualDir)[name] == Stored(pio[i])
               && forall j :: i < j < n && pre[j] == name ==> !Opened(pre, pio, j, visualDir);
      assert Opened(names, io, i, visualDir) && names[i] == name;
      forall j | i < j < |names| && names[j] == name
        ensures !Opened(names, io, j, visualDir)
      {
        if j < n {
          assert pre[j] == names[j] && !Opened(pre, pio, j, visualDir);
        }
      }
    }
  }

  /** With counting disabled, or both backends unavailable, the total stays zero and no warning is possible. */
  lemma {:induction false} DisabledCountsNothing(s: Setup, names: seq<string>, io: seq<FileIO>, answer: (Backend, string) -> Option<nat>)
    requires |names| == |io| && !s.enabled
    ensures TotalTokens(s, names, io, answer) == 0
  {
    if names != [] {
      var n := |names| - 1;
      DisabledCountsNothing(s, names[..n], io[..n], answer);
    }
  }

  /**
   Counting failures are per call: of two text files with the same content,
   the one whose call raised adds nothing while the other adds its count, so
   the total is that count once, where two successful calls give it twice.
   */
  lemma {:induction false} TransientFailureCountsOnce(s: Setup, a: string, b: string, bytes: seq<byte>, text: string,
                                                      answer: (Backend, string) -> Option<nat>, n: nat)
    requires s.enabled && !IsVisual(a) && !IsVisual(b)
    requires CountFileTokens(s.tokenizer, s.counter, text, answer) == Some(n)
    ensures TotalTokens(s, [a, b], [FileIO(Some(bytes), Some(text), Written, false), FileIO(Some(bytes), Some(text), Written, true)], answer) == n
    ensures TotalTokens(s, [a, b], [FileIO(Some(bytes), Some(text), Written, false), FileIO(Some(bytes), Some(text), Written, false)], answer) == 2 * n
  {
    var ok, raised := FileIO(Some(bytes), Some(text), Written, false), FileIO(Some(bytes), Some(text), Written, true);
    assert [a, b][..1] == [a] && [ok, raised][..1] == [ok] && [ok, ok][..1] == [ok];
    assert [a][..0] == [] && [ok][..0] == [];
    assert TotalTokens(s, [a], [ok], answer) == n;
  }

  /**
   A file listed under the first key, whose name holds no separator, keeps
   its own name when the first key's relative path is empty.
   */
  lemma RootFileKeepsName(m: seq<RelDir>, j: nat)
    requires |m| > 0 && m[0].rel == [] && j < |m[0].files|
    requires '/' !in m[0].files[j] && '\\' !in m[0].files[j]
    ensures j < |FlatNames(m[0].key, m)| && FlatNames(m[0].key, m)[j] == m[0].files[j]
  {
    RelPathsAt(m, 0, j);
    assert m[..0] == [];
    assert m[0].rel + [m[0].files[j]] == [m[0].files[j]];
  }
}
