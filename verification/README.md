# Directory manifest, fan-out and concatenation — a Dafny model

The toolkit prepares a source tree for an LLM chat session in two steps.
`dir_scanner.py` walks a directory and writes a *manifest*: a JSON object
mapping every visited directory path to the lists of its non-ignored
subdirectory names (`dirs`) and file names (`files`). Ignoring is decided by
`should_ignore` from exact file names, folder names, extensions (as
`os.path.splitext` computes them) and an optional hidden-name rule. The
manifest is then consumed by one of two modes:

* **fan-out** (`claude_concat.py`) copies every listed file into one flat
  output directory under a name made by `transform_path` (path separators
  become `@`), puts images and PDFs into a `visual` subdirectory, and
  optionally sums token counts from the Anthropic API or tiktoken, with a
  single fallback from the former to the latter;
* **concatenation** (`single_file_concat.py`) folds every listed file, in
  manifest order, into one document in which each file is framed by a
  `--- path START ---` header and a `--- path END ---` footer, optionally
  counting tiktoken tokens of each framed block.

Both modes print a warning when counting was on and the total exceeds
80,000 tokens.

Module layout:

* `Common`: `Option`, bytes, and the string helpers. These are prefix and
  suffix tests, substring occurrence, ASCII lower-casing, POSIX `os.path.join`,
  order-preserving filtering, and the folds `ConcatMap` and `SumMap`.
* `Json`: a JSON value tree and key lookup in an object.
* `Ignore`: the ignore patterns, POSIX `splitext`, and `should_ignore`.
* `Walk`: the filesystem as an immutable tree and `create_directory_lookup_table`
  as a top-down pre-order walk that prunes ignored subdirectories.
* `Flatten`: Python's `str.replace`, `transform_path` and `is_visual_file`.
* `Tokens`: backend setup with fallback, per-file count dispatch, and the
  warning threshold.
* `FanOut`: the fan-out script's `validate_json` and `concat_dir_data`.
* `Concat`: the concatenation script's framing, `concat_dir_data` and its
  three-outcome `validate_json`.

Everything the programs obtain from the outside world is a parameter of the
model:
* the directory tree being walked;
* which manifest keys are directories;
* for each file, the outcome of its read, its UTF-8 decoding and its write;
* whether each tokenizer backend can be constructed;
* for each file in fan-out mode, whether its own counting call raised (a
  rate limit or a network error caught for that file only,
  claude_concat.py:95-103 and 109-115);
* what a backend answers for a text when the call does not raise, where
  `None` stands for a counter that cannot count it.

Points where the code behaves differently from what its names suggest:
* `validate_json` in the fan-out script (claude_concat.py:24-38) checks only
  that every value is an object holding both `dirs` and `files` keys. It never
  looks at what the keys hold. `FanOut.ValidateExamples` shows this.
* `validate_json` in the concatenation script (single_file_concat.py:45-66)
  checks that both values are lists but not what the lists hold. When a key
  is missing it raises `KeyError` rather than answering false.
  `Concat.ValidateExamples` shows both: lists holding a number and a null
  pass, and a value missing `files` gives `KeyError`.
* The tokenizer fallback goes only from `anthropic` to `tiktoken`
  (claude_concat.py:122-128), never the other way round. See
  `Tokens.SetupTokenCounter`.
* In fan-out, `transform_path` deletes every `.` followed by a backslash
  (claude_concat.py:18), not only a leading `./`-style prefix. A directory
  name ending in `.` therefore merges with the next name: the path `a.\b`
  flattens to `ab`, the flat name of a root file `ab`. See
  `Flatten.DotBackslashMerges`.
* In fan-out, a text file's tokens are added before its copy is written
  (claude_concat.py:180-193). A file whose write then fails still counts
  towards the total. See `FanOut.Step`.
* In fan-out, opening the target with mode `"wb"` (claude_concat.py:192)
  truncates any earlier copy under the same flattened name. A write that
  then raises is caught (claude_concat.py:195-197) and leaves only a prefix
  of the new bytes, so the earlier copy is lost. `FanOut.WriteOutcome`
  distinguishes a failed open, a failed write and a completed write, and
  `FanOut.FailedRewriteEmptiesCopy` shows an earlier copy emptied.

## Model

| member | source | states |
|---|---|---|
| Ignore.Splitext | dir_scanner.py:13 | `splitext` splits a name into stem and extension that concatenate back to the name. The extension is empty or starts at the last dot, contains no other dot and no `/`. |
| Ignore.ExtOfStemAndSuffix | dir_scanner.py:13 | For a separator-free stem, a dot and a dot-free suffix, the extension is that dot and suffix exactly when the stem holds a non-dot character. Otherwise it is empty, as for `..log` or `...`. |
| Ignore.DotfileHasNoExt | dir_scanner.py:13 | A name with a single leading dot and no other dot, such as `.bashrc`, has an empty extension. |
| Ignore.DefaultKeepsEverything | dir_scanner.py:5-21 | With the default (empty) patterns and no hidden flag nothing is ignored, not even hidden names. |
| Ignore.ListedNamesIgnored | dir_scanner.py:15-18 | A name in the files list or in the folders list is ignored, whatever its kind. |
| Ignore.ShouldIgnore | dir_scanner.py:11-21 | A kept name has no listed extension, is on neither name list, and does not start with a dot when the hidden rule is on. |
| Ignore.HiddenRule | dir_scanner.py:19 | An absent `ignore_hidden` counts as false. With the flag on, every name starting with a dot is ignored. With it off, a name is ignored exactly when its extension or the name itself is listed, whatever its first character. |
| Ignore.LogExtensionExample | dir_scanner.py:13-14 | With the extension `.log` listed, `x.log` is ignored. |
| Ignore.OtherExtensionKept | dir_scanner.py:13-14 | With only `.log` listed, `x.txt` is kept. |
| Ignore.DotfileNamedLikeExtensionKept | dir_scanner.py:13-14 | With only `.log` listed, the dotfile `.log` is kept, because its extension is empty. |
| Ignore.DoubleDotNameKept | dir_scanner.py:13-14 | With only `.log` listed, `..log` is kept, because leading dots never start an extension. |
| Ignore.Monotone | dir_scanner.py:11-21 | Adding patterns or switching the hidden rule on never un-ignores a name. |
| Walk.Walk | dir_scanner.py:23-33 | The first manifest entry is the root's own record, recorded whatever the root's name. |
| Walk.RecordFiltered | dir_scanner.py:29-32 | Each recorded `dirs`/`files` list is an order-preserving subsequence of that directory's subdirectory/file names. It holds exactly the names that pass the ignore test. |
| Walk.WalkSound | dir_scanner.py:25-32 | Every manifest entry belongs to a directory reached from the root through non-ignored names only. It is keyed by the path those names spell and lists that directory's kept names. Nothing below a pruned directory appears. |
| Walk.ExtendRoute | dir_scanner.py:29-32 | A route of kept names from a kept subdirectory extends, one name longer, to a route from its parent, and spells the same path. |
| Walk.WalkComplete | dir_scanner.py:25-32 | Every directory reachable through non-ignored names has its entry at the path those names spell. |
| Flatten.Replace | claude_concat.py:18-22 | `str.replace` introduces only characters of its input or of the replacement. A text without the pattern is returned unchanged. |
| Flatten.ReplaceCharIsMap | claude_concat.py:19-22 | Replacing one character by another rewrites exactly that character at every position. |
| Flatten.TransformPath | claude_concat.py:12-22 | The flat name contains no `/` and no `\`. A name that had no separator is returned unchanged. |
| Flatten.ParentIgnored | claude_concat.py:12-22 | The `parent_dir` argument has no influence on the result. |
| Flatten.TransformIdempotent | claude_concat.py:12-22 | Flattening a flattened name changes nothing. |
| Flatten.PosixPathFlattens | claude_concat.py:17-22 | A path without backslashes is flattened by turning every `/` into `@` and nothing else. |
| Flatten.FlattenSegments | claude_concat.py:158-160 | A file at relative segments holding no separator gets its segments joined by `@`. |
| Flatten.FlattenCollision | claude_concat.py:12-22 | Flattening is not injective. For any separator-free `a` and `b`, the distinct paths `a/b` and `a@b` both become `a@b`, so file `b` in subdirectory `a` and a root file `a@b` collide. |
| Flatten.ReplaceDotBackslashSkips | claude_concat.py:18 | The `.\` pass leaves a backslash-free stretch untouched, provided it does not end in `.` right before a backslash. |
| Flatten.DotBackslashMerges | claude_concat.py:14-22 | For separator-free `a` and `b`, the path `a.\b` (a `.`-ended name, then a backslash) flattens to `ab`, the same flat name as a root file `ab`: the `.\` pass deletes the pair wherever it occurs, not only at the start. |
| Flatten.WindowsRelativePath | claude_concat.py:14-22 | A Windows-style relative path `.\a\b` loses its leading `.\` and becomes `a@b`, provided `a` does not end in `.`. |
| Flatten.IsVisual | claude_concat.py:40-42 | A name classed as visual contains a dot. |
| Flatten.VisualIgnoresCase | claude_concat.py:40-42 | The visual classification gives a name and its lower-cased form the same answer. |
| Flatten.VisualExamples | claude_concat.py:40-42 | `scan.PDF` and `photo.Jpeg` are visual. `notes.txt` is not. |
| Tokens.SetupAnthropic | claude_concat.py:44-68 | The enabled flag and the counter agree. Counting is enabled exactly when it was requested and the client was constructed, and the counter is then the API client. |
| Tokens.SetupTiktoken | claude_concat.py:70-88 | The enabled flag and the counter agree. Counting is enabled exactly when it was requested and the encoder loaded, and the counter is then the encoder. |
| Tokens.CountAnthropic | claude_concat.py:90-103 | Only the API client yields a count, and that count is the API's answer. Any other counter, or none, yields no count. |
| Tokens.CountTiktoken | claude_concat.py:105-115 | Only the encoder yields a count, and that count is the encoder's answer. Any other counter, or none, yields no count. |
| Tokens.SetupTokenCounter | claude_concat.py:117-132 | With counting off nothing is tried. Otherwise `anthropic` is tried first and falls back once to tiktoken, and the active name becomes `tiktoken` only if the fallback succeeds. Any other choice tries tiktoken alone. Counting is enabled exactly when a counter exists, and the active name matches it. |
| Tokens.CountFileTokens | claude_concat.py:134-139 | A count is dispatched on the active name. No counter gives no count, and a count always comes from the counter in hand. |
| Tokens.DispatchMatchesSetup | claude_concat.py:117-139 | After any setup, every later count reaches exactly the backend setup constructed, or gives nothing when counting is disabled. |
| Tokens.WarnsTooLarge | claude_concat.py:199-204 | The warning fires exactly when counting was enabled and the total exceeds 80,000. |
| FanOut.ValidateFields | claude_concat.py:29-38 | The loop accepts exactly when every value is an object with both `dirs` and `files` keys. |
| FanOut.ValidateJson | claude_concat.py:24-38 | A manifest is accepted exactly when it is an object whose every value is well shaped. What the lists hold is not checked. |
| FanOut.ValidateExamples | claude_concat.py:24-38 | `{}` passes. Numbers under both keys pass, since the contents are never looked at. A value missing `files` fails, and so does a non-object. |
| FanOut.Stored | claude_concat.py:192-193 | After a truncating open the target holds a prefix of the file's bytes, and all of them when the write completed. |
| FanOut.StepEffects | claude_concat.py:162-197 | One file's name is appended to exactly one of the two lists, by its kind. The total never decreases. A failed read or a failed open leaves both output directories alone, and a file only ever touches the directory of its own kind. |
| FanOut.RunMeaning | claude_concat.py:156-197 | After the loop, `created`/`visual` are the non-visual/visual split of all flattened names in manifest order. Each output directory holds, per name, what the write after the last truncating open left. `visual` exists once a visual name was seen. The total is the sum of per-file counts. |
| FanOut.EnumerateFiles | claude_concat.py:156-159 | The nested loops over entries and files visit every manifest file exactly once, entry by entry and file by file, as its path relative to the first key. |
| FanOut.FoldFileSteps | claude_concat.py:156-197 | Running the loop body over each relative path with its outcome is the same as folding one step per flattened name. |
| FanOut.ProcessFiles | claude_concat.py:156-197 | The loop leaves the state obtained by handling every manifest file once, in manifest order, under its flattened name. |
| FanOut.ConcatDirData | claude_concat.py:141-206 | An empty manifest fails. Otherwise the first key is the parent directory. The name lists, the copies (including those truncated by a failed write), the total and the warning equal their reference definitions. |
| FanOut.EveryFileListedOnce | claude_concat.py:162-170 | Every manifest file appears in exactly one of the two name lists, whatever happens to its read or write. |
| FanOut.LastWriteWins | claude_concat.py:166-197 | A name is present in an output directory exactly when some file of that kind with that flattened name was read and its target opened. It then holds what the last such file's write left: a prefix of its bytes, all of them if the write completed. A later failed write does not keep the earlier copy. |
| FanOut.FailedRewriteEmptiesCopy | claude_concat.py:192-197 | When a second file with the same flattened name is read and opened but its write fails before any byte, the copy is empty and the first file's bytes are gone. |
| FanOut.TransientFailureCountsOnce | claude_concat.py:90-115 | Counting failures are per call. Of two text files with identical content, one whose call raised adds nothing while the other adds its count, so the total is that count once; two successful calls give twice the count. |
| FanOut.DisabledCountsNothing | claude_concat.py:180-186 | With counting disabled the total is zero. |
| FanOut.RootFileKeepsName | claude_concat.py:154-160 | A file listed directly under the first key keeps its own name. |
| Concat.FramesIdentifyPath | single_file_concat.py:10-16 | Distinct paths get distinct headers and distinct footers, and no header equals any footer. |
| Concat.Block | single_file_concat.py:98-102 | A block starts with the path's header and a newline, ends with a newline, the footer and a newline, and is exactly the content plus that framing in length. |
| Concat.Unwrap | single_file_concat.py:10-16 | Whatever content is read back from a block re-wraps to exactly that block. |
| Concat.UnwrapBlock | single_file_concat.py:98-102 | The framing loses nothing: the content is recovered from its block. |
| Concat.EnumeratePaths | single_file_concat.py:87-89 | The nested loops visit every listed file once, in manifest order, as its key joined with its file name. |
| Concat.ConcatDirData | single_file_concat.py:80-128 | The document is the in-order concatenation of the blocks of successfully read files, and does not depend on counting. Counting is on exactly when requested and tiktoken loads. The total sums the encoder's counts of the whole blocks. The warning fires exactly when counting is on and the total exceeds 80,000. |
| Concat.DocumentAppend | single_file_concat.py:87-105 | The document of two runs of files is the first run's document followed by the second's. |
| Concat.FailedReadSkipped | single_file_concat.py:92-120 | A file whose read fails contributes nothing and does not stop the loop. |
| Concat.SingleFileDocument | single_file_concat.py:98-105 | One successfully read file yields exactly header, newline, content, newline, footer, newline. |
| Concat.NoFilesNoDocument | single_file_concat.py:81-88 | A manifest listing no files yields the empty document. |
| Concat.CheckEntry | single_file_concat.py:50-64 | An entry is valid exactly when its key is a directory, its value an object, and both keys hold lists. A missing `dirs`, or a missing `files` after a list-valued `dirs`, raises `KeyError`. |
| Concat.ValidateFields | single_file_concat.py:49-66 | The loop accepts exactly when every entry is valid. Otherwise the first failing entry decides between false and `KeyError`. |
| Concat.ValidateJson | single_file_concat.py:45-66 | A non-object is rejected outright. An object is judged by its entries. |
| Concat.StricterThanFanOut | single_file_concat.py:45-66 | A manifest the concatenation check accepts is also accepted by the fan-out check. |
| Concat.ValidateExamples | single_file_concat.py:45-66 | A value missing `files` raises `KeyError` here, where the fan-out check answers false. Lists holding a number and a null pass, since list contents are never looked at. A non-directory key fails, and `{}` passes. |

## Left out

- The `main` functions are not modelled. This covers argument parsing, confirmation prompts, reading the manifest and pattern files, writing the outputs, and all console output other than the decision to warn.
- FanOut.Contribution: a counting call that does not raise answers as a function of backend and text, so two successful calls on identical text give the same count; per-call failures are modelled per file, but a remote counter that returned different numbers for the same text is not.
- Filesystem and network effects are inputs, not computations: directory listings, `os.path.isdir`, reads, UTF-8 decoding, writes, and the tokenizer libraries and API. The order in which the platform enumerates a directory is the order of its listing in the tree.
- `os.walk` details are not modelled: its error callback, symlinks, and being given a path that is not a directory.
- Walk: the list of records equals the Python dict only for listings of distinct names that are non-empty and hold no `/`, as real directories have. A tree with repeated names is not ruled out, and for it the list keeps two records for one path where the dict would keep one.
- `WriteOutcome.WriteFailed` keeps a prefix of the new bytes. What exactly a failed buffered write or close leaves on disk depends on the platform; the model takes the number of bytes that reached the target as an input.
- `splitext` and `os.path.join` follow POSIX rules only. Windows drive letters and the `\` alternative separator are not modelled.
- `os.path.relpath` is not computed. Each fan-out manifest entry carries its path relative to the first key as segments, so normalisation of `..` and absolute file names under a key are outside the model.
- `os.makedirs` for the `visual` directory is assumed to succeed. In the source a failure there is not caught and would end the run.
- The Anthropic model name is not modelled. It only selects what the API answers, and that answer is already an input.
- JSON parsing is not modelled, including duplicate keys. Converting a manifest value into typed `files` lists is not modelled either: the modes take lists of strings. In the source, a non-list or a list of non-strings that passed validation would iterate or fail at run time.
- Pattern documents that lack `files`, `folders` or `extensions`, or hold non-list values, are not modelled. In the source these raise, or use `in` on a string.
- A truthy non-boolean `ignore_hidden` is not modelled.
- `str.lower` covers ASCII letters only. Non-ASCII case mapping is not modelled.
- `Replace`: requires a non-empty pattern, because `transform_path` only ever replaces non-empty patterns.
