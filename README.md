# photo_sorter, modelled in Dafny

A model of the classifying core of `photo_sorter.py`, with proofs about it.
The script walks a directory tree and reads a date `YYYYMMDD` out of each file
name. Three naming conventions are recognised:

- the timestamp form `20241019_111535`;
- the screenshot form `Screenshot_20250831_203240_LINE`;
- the video-capture form `VideoCapture_20251028`.

Each dated file is moved into `<photos folder>/<YYYYMMDD>`. When the name is
already taken there, the script tries `<stem>_1<suffix>`, `<stem>_2<suffix>`,
… until a name is free.

The modules follow the script's structure:

- `Paths` (`paths.dfy`): a path is a sequence of components, and the root is
  `[]`. It defines `Path.parent`, `Path.name`, `Path.parents`, and the
  directories `mkdir(parents=True)` creates.
- `FileNames` (`file_names.dfy`): the `pathlib` stem and suffix of a name.
  It also defines the decimal rendering of the collision counter and the
  alternative names `<stem>_<n><suffix>`.
- `DatePatterns` (`date_patterns.dfy`): the three regular expressions and
  `extract_date_from_name`. The timestamp and screenshot conventions are
  written twice:
  - once as the language their regular expression accepts, where the
    lengths a backtracking matcher may choose are existentials;
  - once as a deterministic scanner that takes the longest digit run.

  Lemmas prove that each scanner and its regular expression accept the same
  names. The video-capture expression has no repetition whose length a
  matcher must choose, so that convention is written once, as the predicate
  its regular expression states. The extractor therefore returns the date of the first
  convention, in the script's order, that the stem matches.
- `Discovery` (`discovery.dfy`): the filter of `iter_candidate_files`. It
  keeps regular files and drops those whose resolved parent lies strictly
  inside the exclusion directory. A file that fails to resolve is kept.
- `FileSystemModel` (`file_system.dfy`): a class `FileSystem` holds the sets
  of regular files and directories, and its invariant is that they form a
  tree. Its methods are:
  - `MakeDirs`: `mkdir(parents=True, exist_ok=True)`;
  - `FindDestination`: the collision loop of `move_file`;
  - `Rename`: `shutil.move`;
  - `MoveFile`: `move_file` itself.

  The loop is proved to terminate by a pigeonhole argument: among the first
  `|taken| + 1` alternative names, one is free.
- `Classifier` (`classifier.dfy`): `classify_photos` as a loop over the
  discovered files. It keeps the two counters and aborts on the first failed
  move. It also holds the idempotence result: a second run over the tree the
  first run leaves behind moves nothing.

  Idempotence rests on the exclusion filter (photo_sorter.py:85), not on the
  "already placed" skip (photo_sorter.py:130-132). A file that resolves into
  the folder of its date lies strictly inside the destination root, so
  discovery has already dropped it (`KeptNeverAlreadyPlaced`). The skip can
  only fire when the resolution in discovery and the one in the loop
  disagree, and the model takes them to agree. This is the model's claim
  about the source; nothing was executed.

Several parts of the script are parameters of the model:

- The directory walk is an input sequence of entries, in the order the walk
  reports them.
- Resolving a path is the identity on these normalised paths. Each entry
  carries a flag saying whether resolving it raised.
- The filesystem is the `FileSystem` object passed in.

## Model

| member | source | states |
|---|---|---|
| FileNames.LastDotIsLast | photo_sorter.py:94 | the index `LastDot` finds holds a dot, and no dot follows it (this is `rfind('.')`) |
| FileNames.StemSuffixSplit | photo_sorter.py:94 | stem followed by suffix is the name; a suffix is a dot plus at least one non-dot character; a name has a suffix only if its stem is non-empty; without a suffix the stem is the whole name |
| FileNames.NatToStringInjective | photo_sorter.py:109 | distinct counters render as distinct decimal strings |
| FileNames.DupNameInjective | photo_sorter.py:109 | distinct counters give distinct alternative names `<stem>_<n><suffix>` |
| FileNames.DupNameKeepsSuffix | photo_sorter.py:109 | for a name that has a suffix, an alternative name keeps that suffix and has stem `<stem>_<n>`, so suffixes never pile up |
| FileNames.DupNameWithoutSuffix | photo_sorter.py:109 | for a name without a suffix, the alternative is the whole name followed by `_<n>` |
| FileNames.DupNameTrailingDot | photo_sorter.py:109 | a name ending in a dot has no suffix, and its alternative gains one: `foo.` becomes `foo._1`, whose suffix is `._1` |
| DatePatterns.ExtractDate | photo_sorter.py:92-99 | any extracted date is exactly eight ASCII digits, and names shorter than 13 characters never yield one |
| DatePatterns.ScanTimestampCorrect | photo_sorter.py:24 | the scanner accepts a stem exactly when `^\d{8}_\d{4,6}.*$` matches it |
| DatePatterns.ScanScreenshotCorrect | photo_sorter.py:27-30 | the scanner accepts a stem exactly when `^screenshot_\d{8}_\d{4,6}_.+$` matches it, ignoring case |
| DatePatterns.ExtractDateFirstMatch | photo_sorter.py:94-99 | the result is the date group of the first of the three patterns, in source order, that matches the stem, and None when none matches |
| DatePatterns.FirstCharacterRulesOut | photo_sorter.py:24-36 | the patterns are anchored: a first character that is not a digit, not `s`/`S` or not `v`/`V` rules out the timestamp, screenshot or video-capture form |
| DatePatterns.ExampleTimestamp | photo_sorter.py:23-24 | `20241019_111535.jpg` gives `20241019` |
| DatePatterns.ExampleScreenshot | photo_sorter.py:26-28 | `Screenshot_20250831_203240_LINE.png` gives `20250831` |
| DatePatterns.ExampleVideoCapture | photo_sorter.py:32-34 | `VideoCapture_20251028_foo.mp4` gives `20251028` |
| DatePatterns.ExampleScreenshotWithoutTail | photo_sorter.py:28 | `Screenshot_20250831_203240.png` gives nothing, because the screenshot form needs a non-empty tail after the time |
| DatePatterns.ExampleNoConvention | photo_sorter.py:92-99 | `random_photo.jpg` gives nothing |
| Paths.ParentsAreProperPrefixes | photo_sorter.py:85 | membership in `Path.parents` is exactly being a proper prefix |
| Paths.MkdirPathsArePrefixes | photo_sorter.py:103 | the directories `mkdir(parents=True)` makes for a target are exactly its non-root prefixes, the target itself included |
| Discovery.CandidateFiles | photo_sorter.py:74-89 | the generator yields exactly the kept entries of the walk: each kept entry as often as the walk reported it, nothing else, and never more entries than the walk reported |
| Discovery.ExcludedIffStrictlyInside | photo_sorter.py:83-86 | a resolvable file is skipped exactly when its parent lies strictly inside the exclusion directory |
| Discovery.NoExclusionYieldsEveryFile | photo_sorter.py:77-79 | without an exclusion directory every regular file is yielded, and nothing else |
| Discovery.DirectChildOfExclusionKept | photo_sorter.py:83-85 | a file directly inside the exclusion directory is still yielded |
| Discovery.DeeperFileDropped | photo_sorter.py:85-86 | a resolvable file below a sub-directory of the exclusion directory is not yielded |
| Discovery.UnresolvableFileKept | photo_sorter.py:87-89 | a file whose resolution raises is yielded whatever the exclusion |
| FileSystemModel.CandidateInjective | photo_sorter.py:109 | distinct counters give distinct candidate paths |
| FileSystemModel.TakenCandidatesBound | photo_sorter.py:106-113 | if the first `m` candidates all exist, at least `m` paths exist |
| FileSystemModel.FreeCandidateExists | photo_sorter.py:106-113 | one of the first `|taken| + 1` candidates is free, so the collision loop ends |
| FileSystemModel.FirstFreeUnique | photo_sorter.py:104-113 | the destination choice is deterministic: at most one path is the first free one |
| FileSystemModel.FirstFreeIgnoresShorter | photo_sorter.py:103-106 | directories that `mkdir` creates above `dest_dir` do not change which entry of `dest_dir` is free |
| FileSystemModel.TreeMkdir | photo_sorter.py:103 | creating the directories of `mkdir(parents=True)` keeps the filesystem a tree when none of them is a file |
| FileSystemModel.TreeRename | photo_sorter.py:115 | renaming a file to a free path in an existing directory keeps the filesystem a tree |
| FileSystemModel.FileSystem.MakeDirs | photo_sorter.py:103 | succeeds exactly when no directory to be made is a regular file; on success it adds them all to the directories; files are unchanged; the tree invariant is kept |
| FileSystemModel.FileSystem.FindDestination | photo_sorter.py:104-113 | returns `dest_dir/name` when that does not exist, and otherwise the candidate with the smallest counter `>= 1` that does not exist; the result never exists |
| FileSystemModel.FileSystem.Rename | photo_sorter.py:115 | moves a regular file to a free path in an existing directory, and fails without changes when the source is not a regular file |
| FileSystemModel.FileSystem.MoveFile | photo_sorter.py:102-115 | fails with `MkdirFailed` exactly when `mkdir` meets a file, and with `SourceNotFile` exactly when the source is not a regular file; on success the file moves to the first free name in `dest_dir`, nothing is overwritten, and the tree invariant is kept |
| Classifier.Decide | photo_sorter.py:122-135 | a file is moved only when it has a date, resolves, and does not already sit in `<root>/<date>`; it then goes to that folder; it is `NoDate` exactly when the extractor finds nothing |
| Classifier.DecideCases | photo_sorter.py:122-135 | each of the four outcomes holds exactly when its condition does: no date; a date but resolving raised; a date and already in `<root>/<date>`; a date, resolvable and elsewhere, which is moved to `<root>/<date>` |
| Classifier.DateDirsOnDatePath | photo_sorter.py:103 | creating a date folder `<root>/<date>` makes only directories on its path: non-root prefixes of `<root>`, or the date folder itself |
| Classifier.MovedFromOutside | photo_sorter.py:85 | a candidate the run moves does not already sit directly inside a date folder |
| Classifier.MovedToOwnDate | photo_sorter.py:122-135 | a moved file goes to the folder named by the date in its own name |
| Classifier.MoveCount | photo_sorter.py:119-138 | the number of moves is at most the number of files |
| Classifier.NothingToMove | photo_sorter.py:119-138 | the number of moves is zero exactly when `Decide` moves none of the files |
| Classifier.ClassifyOne | photo_sorter.py:122-138 | one iteration: skips exactly the files `Decide` does not move, and leaves the filesystem unchanged for them; fails with `MkdirFailed` exactly when a directory to be made for the date folder is a file, and with `SourceNotFile` exactly when the source is not a regular file; a failed move leaves the files unchanged; the directories grow by exactly those `mkdir` makes for the date folder, except after `MkdirFailed`, which leaves them unchanged; a moved file had been a regular file and now lies directly inside the folder of its date, under the first free name among `<dir>/<name>`, `<dir>/<stem>_1<suffix>`, `<dir>/<stem>_2<suffix>`, …, so it keeps its name or takes one of its alternative names |
| Classifier.ClassifyNext | photo_sorter.py:120-138 | one turn of the loop keeps the loop invariant with both counters advanced by the outcome; a turn fails only at a file `Decide` moves, and then the run so far has the outcome of an aborted run |
| Classifier.PlacementExact | photo_sorter.py:119-138 | once the moves are recorded both ways, the files are exactly the unmoved originals plus the new places, and no two moved files share a new place |
| Classifier.ClassifyCandidates | photo_sorter.py:119-140 | a complete run counts every candidate once, as moved or skipped, and `moved` is the number `Decide` sends to a date folder; a failed move aborts the run, with fewer candidates counted, and only at a candidate `Decide` moves, so a run with nothing to move completes with `moved = 0`; after a complete run the ghost map `placed` sends each moved original, and nothing else, to its own new place, directly inside the folder of the date in that original's name and under that original's name or one of its alternative names `<stem>_<n><suffix>`; no two originals share a new place, and the files are exactly the unmoved originals plus those new places; in any case every file is an original or lies in a date folder, no unmoved original disappears, the number of files is unchanged, and the only new directories are non-root prefixes of `<root>/<date>` for dates `<date>` |
| Classifier.ClassifyPhotos | photo_sorter.py:118-140 | the same, over the files discovery yields with the destination root excluded |
| Classifier.DateFolderFileStays | photo_sorter.py:85 | a file directly inside a date folder is never moved again: discovery drops it, or it does not resolve and is skipped |
| Classifier.AlreadyPlacedIsSkipped | photo_sorter.py:130-132 | a file already in the folder of its own date is skipped |
| Classifier.KeptNeverAlreadyPlaced | photo_sorter.py:83-86 | a file discovery yields with the destination root excluded is never one `Decide` finds already in the folder of its date |
| Classifier.RerunCandidateStays | photo_sorter.py:121-132 | a file of the second run that lies in a date folder, or that the first run left alone, is not moved |
| Classifier.RerunMovesNothing | photo_sorter.py:121-138 | a second run whose walk reports only files in date folders and files the first run left alone, unchanged, moves nothing |
| Classifier.Idempotent | photo_sorter.py:118-140 | idempotence: if both walks are complete walks of their trees, and the second tree is one a complete first run can leave behind, the second run moves nothing |

## Left out

- The `Logger` class, `resolve_app_dir` and `main` are not modelled. That is
  console and log output, the working directory, the check that the root
  folder exists, and the final report. `ClassifyPhotos` returns the two
  counters those lines print.
- The walk `root.rglob("*")` is not modelled. Its output is an input sequence
  of entries, so the lazy interleaving of the generator with the moves is
  not captured. Files already in date folders are excluded either way.
- `Path.resolve()` is the identity on normalised paths, so symbolic links are
  not modelled. A resolution error is a flag on each entry. Resolving the
  exclusion directory and `dest_dir` is assumed to succeed.
- One flag stands for both resolution calls on a file, in discovery
  (photo_sorter.py:81) and in the loop (photo_sorter.py:130). They are
  assumed to agree.
- The resolution flag merges two different `except` clauses. Discovery
  catches `FileNotFoundError` and `ValueError` (photo_sorter.py:87), and
  the loop catches only `FileNotFoundError` (photo_sorter.py:133). A
  `ValueError` at photo_sorter.py:130 would end the run with an exception.
  The model skips that file as `Unresolved` instead.
- `Classifier.Idempotent` assumes that resolving a path gives the same
  outcome in both runs: both walks share one resolution function `res`.
- Path equality, and so `exists()`, the exclusion test
  (photo_sorter.py:85) and the already-placed test (photo_sorter.py:130),
  is exact, case-sensitive comparison, component by component.
  Case-insensitive filesystems are not modelled: the Windows build of the
  script (photo_sorter.py:145) and a default macOS volume treat
  `screenshot_20250831_203240_line.png` as taken once
  `Screenshot_20250831_203240_LINE.png` is in the date folder, and the
  script then names the second file `…_line_1.png`
  (photo_sorter.py:106-110). The model counts the two names as distinct and
  keeps the second name as it is.
- `Paths.Name` and the other name functions treat each component as one
  name. Separators inside a component and empty components are not
  modelled.
- `FileSystemModel.FileSystem.Rename`: only moving a regular file is
  modelled. `shutil.move` of a directory or of a missing path is the
  `SourceNotFile` error. Permission and cross-device failures are left out.
- `FileSystemModel.FileSystem.MoveFile` requires a non-root source. The
  source only passes paths of files found by the walk, and those are never
  the root.
- `Classifier.ClassifyCandidates` requires every candidate to be one that
  discovery keeps. Its only caller, `ClassifyPhotos`, passes discovery's
  output, as `classify_photos` does.
- `FileSystemModel.FileSystem.MakeDirs`: the only `mkdir` failure modelled is
  a regular file in the way. Permission errors are left out.
- `DatePatterns.ExtractDate` uses ASCII digits and ASCII case folding.
  Python's `\d` also accepts other Unicode decimal digits, and `IGNORECASE`
  applies Unicode case folding; neither is modelled.
- `FileNames.Stem` follows `pathlib` from Python 3.8 to 3.13, where a name
  has a suffix when its last dot is neither the first nor the last
  character. The suffix rule that changed in later versions is not
  modelled.
- An exception from `move_file` ends `classify_photos` by propagation. The
  model returns the error kind as `failure` alongside the counters reached
  so far.
- Month grouping of date folders is not part of `photo_sorter.py`, and it is
  not part of this model.
