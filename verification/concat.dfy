/**
 Concatenation mode (`single_file_concat.py`): check the manifest against
 the filesystem, then fold every manifest file, in order, into one document
 in which each successfully read file appears wrapped between a header and
 a footer naming its path. Which keys are directories, what reading each
 file yields, and what the tiktoken encoder answers are inputs.
 */
module Concat {
  import opened Common
  import opened Json
  import FanOut
  import Tokens

  /** `FILE_HEADER.format(path)` */
  function Header(path: string): string {
    "\n--- " + path + " START ---\n"
  }

  /** `FILE_FOOTER.format(path)` */
  function Footer(path: string): string {
    "\n--- " + path + " END ---\n"
  }

  /**
   The frame lines identify their file: distinct paths get distinct headers
   and distinct footers, and no header is ever a footer.
   */
  lemma FramesIdentifyPath(p: string, q: string)
    ensures Header(p) == Header(q) <==> p == q
    ensures Footer(p) == Footer(q) <==> p == q
    ensures Header(p) != Footer(q)
  {
    if Header(p) == Header(q) {
      assert p == Header(p)[5..|Header(p)| - 11];
    }
    if Footer(p) == Footer(q) {
      assert p == Footer(p)[5..|Footer(p)| - 9];
    }
    var h, f := Header(p), Footer(q);
    assert h[|h| - 6] == 'T' && f[|f| - 6] == 'D';
  }

  /** The formatted content of one file: header, newline, content, newline, footer, newline. */
  function Block(path: string, content: string): (b: string)
    ensures StartsWith(b, Header(path) + "\n")
    ensures EndsWith(b, "\n" + Footer(path) + "\n")
    ensures |b| == |Header(path)| + |content| + |Footer(path)| + 3
  {
    Header(path) + "\n" + content + "\n" + Footer(path) + "\n"
  }

  /**
   Reading a block back: the text between the header line and the footer,
   or `None` when `b` is not framed by the header and footer of `path`.
   */
  function Unwrap(path: string, b: string): (r: Option<string>)
    ensures r.Some? ==> Block(path, r.value) == b
  {
    var front := Header(path) + "\n";
    var back := "\n" + Footer(path) + "\n";
    if |front| + |back| <= |b| && b[..|front|] == front && b[|b| - |back|..] == back then
      var c := b[|front|..|b| - |back|];
      SplitThree(b, |front|, |b| - |back|);
      Some(c)
    else None
  }

  lemma SplitThree(b: string, i: nat, j: nat)
    requires i <= j <= |b|
    ensures b == b[..i] + b[i..j] + b[j..]
  {
  }

  /** The wrapping loses nothing: the content is recovered from its block. */
  lemma UnwrapBlock(path: string, content: string)
    ensures Unwrap(path, Block(path, content)) == Some(content)
  {
    var front := Header(path) + "\n";
    var back := "\n" + Footer(path) + "\n";
    var b := Block(path, content);
    assert b == front + content + back;
    assert b[..|front|] == front;
    assert b[|b| - |back|..] == back;
    assert b[|front|..|b| - |back|] == content;
  }

  /** One manifest entry: a directory key and the names listed under it. */
  datatype DirEntry = DirEntry(key: string, dirs: seq<string>, files: seq<string>)

  /** `os.path.join(k, f)` for each file of one entry. */
  function DirPaths(e: DirEntry): seq<string> {
    seq(|e.files|, i requires 0 <= i < |e.files| => JoinPath(e.key, e.files[i]))
  }

  /** The paths of all manifest files, in manifest order. */
  function Paths(m: seq<DirEntry>): seq<string> {
    if m == [] then [] else Paths(m[..|m| - 1]) + DirPaths(m[|m| - 1])
  }

  /** One manifest file as the fold sees it: its joined path and what reading it gave (`None` when the read raised). */
  datatype Item = Item(path: string, content: Option<string>)

  /** The manifest's paths paired with their read outcomes. */
  function Items(paths: seq<string>, contents: seq<Option<string>>): (items: seq<Item>)
    requires |paths| == |contents|
    ensures |items| == |paths|
  {
    seq(|paths|, i requires 0 <= i < |paths| => Item(paths[i], contents[i]))
  }

  /** What one file adds to the document: its block if it was read, nothing otherwise. */
  function Piece(item: Item): string {
    if item.content.Some? then Block(item.path, item.content.value) else ""
  }

  /** What one file adds to the total: the encoder's count of its block, if it was read and counted. */
  function PieceTokens(item: Item, answer: string -> Option<nat>): nat {
    if item.content.Some? then answer(Block(item.path, item.content.value)).GetOr(0) else 0
  }

  /** The document the fold builds from the given files, in order. */
  function Document(items: seq<Item>): string {
    ConcatMap(items, Piece)
  }

  /** The sum of the encoder's counts of the blocks of the successfully read files. */
  function BlockTokens(items: seq<Item>, answer: string -> Option<nat>): nat {
    SumMap(items, item => PieceTokens(item, answer))
  }

  /** The result of one run: the document, whether counting was on, the total and the warning. */
  datatype ConcatRun = ConcatRun(document: string, countingEnabled: bool, totalTokens: nat, warned: bool)

  lemma ItemsStep(items: seq<Item>, answer: string -> Option<nat>, k: nat)
    requires k < |items|
    ensures Document(items[..k + 1]) == Document(items[..k]) + Piece(items[k])
    ensures BlockTokens(items[..k + 1], answer) == BlockTokens(items[..k], answer) + PieceTokens(items[k], answer)
  {
    ConcatMapStep(items, Piece, k);
    SumMapStep(items, item => PieceTokens(item, answer), k);
  }

  /**
   The two nested loops' enumeration: `os.path.join(k, f)` for every file of
   every entry, in manifest order. Nothing the loop body does changes which
   files come next, so the enumeration is computed ahead of the per-file work.
   */
  method EnumeratePaths(m: seq<DirEntry>) returns (paths: seq<string>)
    ensures paths == Paths(m)
  {
    paths := [];
    var d := 0;
    while d < |m|
      invariant 0 <= d <= |m|
      invariant paths == Paths(m[..d])
    {
      var entry := m[d];
      var j := 0;
      while j < |entry.files|
        invariant 0 <= j <= |entry.files|
        invariant paths == Paths(m[..d]) + DirPaths(entry)[..j]
      {
        assert DirPaths(entry)[..j + 1] == DirPaths(entry)[..j] + [JoinPath(entry.key, entry.files[j])];
        paths := paths + [JoinPath(entry.key, entry.files[j])];
        j := j + 1;
      }
      assert DirPaths(entry)[..j] == DirPaths(entry);
      assert m[..d + 1][..d] == m[..d];
      d := d + 1;
    }
    assert m[..d] == m;
  }

  /**
   `concat_dir_data`: tiktoken is set up once; for each file in manifest
   order, a successful read appends its block to the document and, when
   counting is on, adds the encoder's count of that whole block to the
   total. The document itself never depends on counting.
   */
  method ConcatDirData(m: seq<DirEntry>, contents: seq<Option<string>>, countingRequested: bool,
                       tiktokenOk: bool, answer: string -> Option<nat>)
    returns (r: ConcatRun)
    requires |contents| == |Paths(m)|
    ensures r.document == Document(Items(Paths(m), contents))
    ensures r.countingEnabled == (countingRequested && tiktokenOk)
    ensures r.totalTokens == if r.countingEnabled then BlockTokens(Items(Paths(m), contents), answer) else 0
    ensures r.warned == (r.countingEnabled && r.totalTokens > Tokens.WarnThreshold)
  {
    var enabled := Tokens.SetupTiktoken(countingRequested, tiktokenOk).0;
    var paths := EnumeratePaths(m);
    ghost var items := Items(paths, contents);
    var doc := "";
    var total: nat := 0;
    var k := 0;
    while k < |paths|
      invariant 0 <= k <= |paths|
      invariant doc == Document(items[..k])
      invariant total == if enabled then BlockTokens(items[..k], answer) else 0
    {
      var item := Item(paths[k], contents[k]);
      ItemsStep(items, answer, k);
      doc := doc + Piece(item);
      if enabled {
        total := total + PieceTokens(item, answer);
      }
      k := k + 1;
    }
    assert items[..k] == items;
    var warned := Tokens.WarnsTooLarge(enabled, total);
    return ConcatRun(doc, enabled, total, warned);
  }

  /** The document of two runs of files is the document of the first followed by that of the second. */
  lemma DocumentAppend(a: seq<Item>, b: seq<Item>)
    ensures Document(a + b) == Document(a) + Document(b)
  {
    ConcatMapAppend(a, b, Piece);
  }

  /**
   A file whose read fails contributes nothing and does not stop the loop:
   the document is the one built from the manifest without that file.
   */
  lemma FailedReadSkipped(items: seq<Item>, i: nat)
    requires i < |items| && items[i].content.None?
    ensures Document(items) == Document(items[..i] + items[i + 1..])
  {
    assert items == items[..i] + [items[i]] + items[i + 1..];
    DocumentAppend(items[..i] + [items[i]], items[i + 1..]);
    DocumentAppend(items[..i], [items[i]]);
    DocumentAppend(items[..i], items[i + 1..]);
    assert [items[i]][..0] == [];
  }

  /** A single file read successfully yields exactly its block. */
  lemma SingleFileDocument(path: string, content: string)
    ensures Document([Item(path, Some(content))]) == Block(path, content)
  {
    var items := [Item(path, Some(content))];
    ConcatMapStep(items, Piece, 0);
    assert items[..1] == items && items[..0] == [];
  }

  /** A manifest whose entries list no files (or no entries at all) yields the empty document. */
  lemma {:induction false} NoFilesNoDocument(m: seq<DirEntry>)
    requires forall i :: 0 <= i < |m| ==> m[i].files == []
    ensures Paths(m) == []
    ensures Document(Items(Paths(m), [])) == ""
  {
    if m != [] {
      NoFilesNoDocument(m[..|m| - 1]);
    }
  }

  /** The outcome of `validate_json`: it returns a boolean or raises `KeyError`. */
  datatype Verdict = Valid | Invalid | KeyError

  /** The value under `key` is present and is a list. */
  predicate IsList(fields: seq<(string, Json)>, key: string) {
    Get(fields, key).Some? && Get(fields, key).value.JArr?
  }

  /**
   The checks made for one key, in order: the key is a directory, its value
   is an object, `v["dirs"]` is a list, `v["files"]` is a list. Indexing a
   missing key raises instead of answering false.
   */
  function CheckEntry(k: string, v: Json, isDir: string -> bool): (r: Verdict)
    ensures r == Valid <==> isDir(k) && v.JObj? && IsList(v.fields, "dirs") && IsList(v.fields, "files")
    ensures r == KeyError <==>
              isDir(k) && v.JObj?
              && (!HasKey(v.fields, "dirs") || (IsList(v.fields, "dirs") && !HasKey(v.fields, "files")))
  {
    if !isDir(k) then Invalid
    else if !v.JObj? then Invalid
    else
      match Get(v.fields, "dirs")
      case None => KeyError
      case Some(dirs) =>
        if !dirs.JArr? then Invalid
        else
          match Get(v.fields, "files")
          case None => KeyError
          case Some(files) => if !files.JArr? then Invalid else Valid
  }

  /** The loop of `validate_json`: the first key that fails decides the outcome. */
  function ValidateFields(fs: seq<(string, Json)>, isDir: string -> bool): (r: Verdict)
    ensures r == Valid <==> forall i :: 0 <= i < |fs| ==> CheckEntry(fs[i].0, fs[i].1, isDir) == Valid
    ensures r != Valid ==>
              exists i :: 0 <= i < |fs| && CheckEntry(fs[i].0, fs[i].1, isDir) == r
                          && forall j :: 0 <= j < i ==> CheckEntry(fs[j].0, fs[j].1, isDir) == Valid
  {
    if fs == [] then Valid
    else
      var head := CheckEntry(fs[0].0, fs[0].1, isDir);
      if head != Valid then head
      else
        var rest := ValidateFields(fs[1..], isDir);
        assert forall i :: 0 < i < |fs| ==> fs[i] == fs[1..][i - 1];
        rest
  }

  /** `validate_json`: a non-object is rejected outright. */
  function ValidateJson(j: Json, isDir: string -> bool): (r: Verdict)
    ensures !j.JObj? ==> r == Invalid
    ensures j.JObj? ==> r == ValidateFields(j.fields, isDir)
  {
    match j
    case JObj(fs) => ValidateFields(fs, isDir)
    case _ => Invalid
  }

  /**
   The concatenation check is stricter than the fan-out one: a manifest it
   accepts is accepted by the fan-out script's `validate_json` as well.
   */
  lemma StricterThanFanOut(j: Json, isDir: string -> bool)
    requires ValidateJson(j, isDir) == Valid
    ensures FanOut.ValidateJson(j)
  {
    forall i | 0 <= i < |j.fields|
      ensures FanOut.WellShaped(j.fields[i].1)
    {
      assert CheckEntry(j.fields[i].0, j.fields[i].1, isDir) == Valid;
    }
  }

  /**
   A value missing `"files"` makes this check raise `KeyError` where the
   fan-out check answers false; a missing directory answers `Invalid`; list
   contents are never looked at, so lists holding a number and a null pass.
   */
  lemma ValidateExamples()
    ensures ValidateJson(JObj([("/p", JObj([("dirs", JArr([]))]))]), _ => true) == KeyError
    ensures !FanOut.ValidateJson(JObj([("/p", JObj([("dirs", JArr([]))]))]))
    ensures ValidateJson(JObj([("/p", JObj([("dirs", JArr([])), ("files", JArr([]))]))]), _ => false) == Invalid
    ensures ValidateJson(JObj([]), _ => false) == Valid
    ensures ValidateJson(JArr([]), _ => true) == Invalid
    ensures ValidateJson(JObj([("/p", JObj([("dirs", JArr([JNum(1)])), ("files", JArr([JNull]))]))]), _ => true) == Valid
  {
    var v := JObj([("dirs", JArr([]))]);
    assert v.fields[0].0 == "dirs";
    assert !HasKey(v.fields, "files");
    var ok := JObj([("dirs", JArr([JNum(1)])), ("files", JArr([JNull]))]);
    assert ok.fields[0].0 == "dirs" && ok.fields[1].0 == "files";
  }
}
