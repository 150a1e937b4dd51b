/**
 * `classify_photos`: walk the candidates once, skip what has no date, what
 * cannot be resolved and what already sits in its date folder, and move the
 * rest into `<destination root>/<YYYYMMDD>`.
 */
module Classifier {
  import opened Optional
  import opened Paths
  import opened DatePatterns
  import opened Discovery
  import opened FileSystemModel
  import opened FileNames

  /** What the loop body decides for one candidate. */
  datatype Decision = NoDate | Unresolved | AlreadyPlaced | MoveTo(dir: Path)

  /**
   * The decision for one file: no date, resolving raised, already in the
   * folder of its date, or to be moved into `<destRoot>/<date>`.
   */
  function Decide(e: Entry, destRoot: Path): (r: Decision)
    ensures r.MoveTo? ==> e.resolves && |e.path| > 0 && Parent(e.path) != r.dir
    ensures r.MoveTo? ==> |r.dir| == |destRoot| + 1 && r.dir[..|destRoot|] == destRoot
    ensures r.MoveTo? ==> ExtractDate(Name(e.path)) == Some(r.dir[|destRoot|])
    ensures r == NoDate <==> ExtractDate(Name(e.path)).None?
  {
    match ExtractDate(Name(e.path))
    case None => NoDate
    case Some(date) =>
      var dir := destRoot + [date];
      if !e.resolves then Unresolved
      else if Parent(e.path) == dir then AlreadyPlaced
      else MoveTo(dir)
  }

  /** The four decisions, each exactly when its condition holds. */
  lemma DecideCases(e: Entry, destRoot: Path)
    ensures var date := ExtractDate(Name(e.path));
      && (Decide(e, destRoot) == NoDate <==> date.None?)
      && (Decide(e, destRoot) == Unresolved <==> date.Some? && !e.resolves)
      && (Decide(e, destRoot) == AlreadyPlaced <==>
            date.Some? && e.resolves && Parent(e.path) == destRoot + [date.value])
      && (Decide(e, destRoot).MoveTo? <==>
            date.Some? && e.resolves && Parent(e.path) != destRoot + [date.value])
      && (Decide(e, destRoot).MoveTo? ==> Decide(e, destRoot).dir == destRoot + [date.value])
  {
  }

  /** A path directly inside a date folder `<root>/<YYYYMMDD>`. */
  predicate InDateFolder(p: Path, root: Path) {
    |p| == |root| + 2 && p[..|root|] == root && IsDateKey(p[|root|])
  }

  /** Number of candidates the classifier moves. */
  function MoveCount(cands: seq<Entry>, destRoot: Path): (r: nat)
    ensures r <= |cands|
  {
    if cands == [] then 0
    else
      var last := cands[|cands| - 1];
      MoveCount(cands[..|cands| - 1], destRoot) + if Decide(last, destRoot).MoveTo? then 1 else 0
  }

  /** Nothing is moved exactly when no candidate is to be moved. */
  lemma {:induction false} NothingToMove(cands: seq<Entry>, destRoot: Path)
    ensures MoveCount(cands, destRoot) == 0 <==> forall i :: 0 <= i < |cands| ==> !Decide(cands[i], destRoot).MoveTo?
  {
    if cands != [] {
      var init := cands[..|cands| - 1];
      assert forall i :: 0 <= i < |init| ==> init[i] == cands[i];
      NothingToMove(init, destRoot);
    }
  }

  /** The original paths of the candidates the classifier moves. */
  ghost function MovedPaths(cands: seq<Entry>, destRoot: Path): set<Path> {
    if cands == [] then {}
    else
      var last := cands[|cands| - 1];
      MovedPaths(cands[..|cands| - 1], destRoot) + if Decide(last, destRoot).MoveTo? then {last.path} else {}
  }

  /** The path of every candidate the classifier moves is recorded. */
  lemma {:induction false} MovedPathRecorded(cands: seq<Entry>, e: Entry, destRoot: Path)
    requires e in cands && Decide(e, destRoot).MoveTo?
    ensures e.path in MovedPaths(cands, destRoot)
  {
    var n := |cands| - 1;
    if cands[n] != e {
      var i :| 0 <= i < |cands| && cands[i] == e;
      assert cands[..n][i] == e;
      MovedPathRecorded(cands[..n], e, destRoot);
    }
  }

  /** Extending the candidates by one adds that candidate's move, if any. */
  lemma MoveStep(cands: seq<Entry>, i: nat, destRoot: Path)
    requires i < |cands|
    ensures MoveCount(cands[..i + 1], destRoot) ==
      MoveCount(cands[..i], destRoot) + if Decide(cands[i], destRoot).MoveTo? then 1 else 0
    ensures MovedPaths(cands[..i + 1], destRoot) ==
      MovedPaths(cands[..i], destRoot) + if Decide(cands[i], destRoot).MoveTo? then {cands[i].path} else {}
  {
    assert cands[..i + 1][..i] == cands[..i];
  }

  /**
   * Where the files are after some of the moves: every file is an original
   * one that was not moved, or lies directly inside a date folder; and every
   * original file that was not moved is still there.
   */
  ghost predicate Tracks(files0: set<Path>, files: set<Path>, moved: set<Path>, destRoot: Path) {
    && (forall p :: p in files ==> (p in files0 && p !in moved) || InDateFolder(p, destRoot))
    && (forall p :: p in files0 && p !in moved ==> p in files)
  }

  /** Moving a file to a free path keeps the number of files. */
  lemma MoveKeepsCount(files: set<Path>, src: Path, dest: Path)
    requires src in files && dest !in files
    ensures |files - {src} + {dest}| == |files|
  {
  }

  /** A non-root prefix of `<destRoot>/<date>` for some date: the directories a move may create. */
  predicate OnDatePath(q: Path, destRoot: Path) {
    || (1 <= |q| <= |destRoot| && q == destRoot[..|q|])
    || (|q| == |destRoot| + 1 && q[..|destRoot|] == destRoot && IsDateKey(q[|destRoot|]))
  }

  /** `mkdir(parents=True)` of a date folder creates only directories on its path. */
  lemma DateDirsOnDatePath(destRoot: Path, dir: Path)
    requires |dir| == |destRoot| + 1 && dir[..|destRoot|] == destRoot && IsDateKey(dir[|destRoot|])
    ensures forall q :: q in MkdirPaths(dir) ==> OnDatePath(q, destRoot)
  {
    MkdirPathsArePrefixes(dir);
    forall q | q in MkdirPaths(dir) ensures OnDatePath(q, destRoot) {
      if |q| <= |destRoot| {
        assert q == dir[..|destRoot|][..|q|];
      } else {
        assert q == dir;
      }
    }
  }

  /** A moved file keeps its name, or takes one of its alternative names `<stem>_<n><suffix>`. */
  ghost predicate KeepsName(src: Path, dest: Path) {
    Name(dest) == Name(src) || exists n: nat :: 1 <= n && Name(dest) == DupName(Name(src), n)
  }

  /**
   * Each moved original path `src` has its new location `placed[src]`:
   * a file directly inside the folder of the date of `src`, under the name
   * of `src` or one of its alternative names.
   */
  ghost predicate PlacedByDate(files: set<Path>, placed: map<Path, Path>, destRoot: Path) {
    forall src :: src in placed ==>
      && placed[src] in files && InDateFolder(placed[src], destRoot)
      && ExtractDate(Name(src)).Some? && Parent(placed[src]) == destRoot + [ExtractDate(Name(src)).value]
      && KeepsName(src, placed[src])
  }

  /** Moving a file from outside the date folders into the folder of its date keeps `PlacedByDate`. */
  lemma PlacedMove(files: set<Path>, placed: map<Path, Path>, src: Path, dest: Path, destRoot: Path)
    requires PlacedByDate(files, placed, destRoot)
    requires dest !in files && src !in placed
    requires !InDateFolder(src, destRoot) && InDateFolder(dest, destRoot)
    requires ExtractDate(Name(src)).Some? && Parent(dest) == destRoot + [ExtractDate(Name(src)).value]
    requires KeepsName(src, dest)
    ensures PlacedByDate(files - {src} + {dest}, placed[src := dest], destRoot)
  {
  }

  /** What the loop body did with one candidate. */
  datatype Step = Skipped | MovedTo(dest: Path) | Aborted(error: MoveError)

  /** The body of the loop of `classify_photos` for one candidate. */
  method ClassifyOne(fs: FileSystem, e: Entry, destRoot: Path) returns (s: Step)
    requires fs.Valid()
    modifies fs
    ensures fs.Valid()
    ensures s.Skipped? <==> !Decide(e, destRoot).MoveTo?
    ensures s.Skipped? ==> fs.files == old(fs.files) && fs.dirs == old(fs.dirs)
    ensures s == Aborted(MkdirFailed) <==>
      Decide(e, destRoot).MoveTo? && !(MkdirPaths(Decide(e, destRoot).dir) !! old(fs.files))
    ensures s == Aborted(SourceNotFile) <==>
      Decide(e, destRoot).MoveTo? && MkdirPaths(Decide(e, destRoot).dir) !! old(fs.files) && e.path !in old(fs.files)
    ensures s.Aborted? ==> fs.files == old(fs.files)
    ensures s == Aborted(MkdirFailed) ==> fs.dirs == old(fs.dirs)
    ensures s.MovedTo? || s == Aborted(SourceNotFile) ==>
      fs.dirs == old(fs.dirs) + MkdirPaths(Decide(e, destRoot).dir)
    ensures old(fs.dirs) <= fs.dirs
    ensures forall q :: q in fs.dirs ==> q in old(fs.dirs) || OnDatePath(q, destRoot)
    ensures s.MovedTo? ==>
      && e.path in old(fs.files) && s.dest !in old(fs.files)
      && Decide(e, destRoot) == MoveTo(Parent(s.dest))
      && InDateFolder(s.dest, destRoot)
      && fs.files == old(fs.files) - {e.path} + {s.dest}
    ensures s.MovedTo? ==>
      && FirstFree(old(fs.files) + old(fs.dirs), Decide(e, destRoot).dir, Name(e.path), s.dest)
      && KeepsName(e.path, s.dest)
  {
    var date := ExtractDate(Name(e.path));
    if date.None? {
      return Skipped;
    }
    var destDir := destRoot + [date.value];
    if !e.resolves || Parent(e.path) == destDir {
      return Skipped;
    }
    DateDirsOnDatePath(destRoot, destDir);
    var r := fs.MoveFile(e.path, destDir);
    if r.Failed? {
      return Aborted(r.error);
    }
    assert r.dest[..|destRoot|] == destDir[..|destRoot|];
    if destDir + [Name(e.path)] in old(fs.files) + old(fs.dirs) {
      var n :| 1 <= n && r.dest == Candidate(destDir, Name(e.path), n) && r.dest !in old(fs.files) + old(fs.dirs) &&
               forall k :: 1 <= k < n ==> Candidate(destDir, Name(e.path), k) in old(fs.files) + old(fs.dirs);
      assert Name(r.dest) == DupName(Name(e.path), n);
    }
    s := MovedTo(r.dest);
  }

  /**
   * `classify_photos`: run the loop over the files discovery yields with
   * the destination root excluded (see `ClassifyCandidates`).
   */
  method ClassifyPhotos(fs: FileSystem, entries: seq<Entry>, destRoot: Path)
    returns (moved: nat, skipped: nat, failure: Option<MoveError>, ghost placed: map<Path, Path>)
    requires fs.Valid()
    modifies fs
    ensures fs.Valid()
    ensures var cands := CandidateFiles(entries, Some(destRoot));
      && (failure.None? ==> moved + skipped == |cands| && moved == MoveCount(cands, destRoot))
      && (failure.Some? ==> moved + skipped < |cands|)
      && (failure.Some? ==> exists i :: 0 <= i < |cands| && Decide(cands[i], destRoot).MoveTo?)
      && (MoveCount(cands, destRoot) == 0 ==> failure.None? && moved == 0)
      && (failure.None? ==> forall p :: p in fs.files ==>
            (p in old(fs.files) && p !in MovedPaths(cands, destRoot)) || InDateFolder(p, destRoot))
      && (failure.None? ==> placed.Keys == MovedPaths(cands, destRoot) && PlacedByDate(fs.files, placed, destRoot))
      && (failure.None? ==> forall a, b :: a in placed && b in placed && a != b ==> placed[a] != placed[b])
      && (failure.None? ==> fs.files == (old(fs.files) - placed.Keys) + placed.Values)
      && (forall p :: p in fs.files ==> p in old(fs.files) || InDateFolder(p, destRoot))
      && (forall p :: p in old(fs.files) && p !in MovedPaths(cands, destRoot) ==> p in fs.files)
    ensures |fs.files| == |old(fs.files)|
    ensures old(fs.dirs) <= fs.dirs
    ensures forall q :: q in fs.dirs ==> q in old(fs.dirs) || OnDatePath(q, destRoot)
  {
    var cands := CandidateFiles(entries, Some(destRoot));
    assert forall i :: 0 <= i < |cands| ==> cands[i] in cands;
    moved, skipped, failure, placed := ClassifyCandidates(fs, cands, destRoot);
  }

  /**
   * The loop of `classify_photos`, with the outcome `RunOutcome` states.
   * The ghost map `placed` records where each moved file went; inside the
   * loop, the ghost map `origin` records the same moves backwards.
   */
  method ClassifyCandidates(fs: FileSystem, cands: seq<Entry>, destRoot: Path)
    returns (moved: nat, skipped: nat, failure: Option<MoveError>, ghost placed: map<Path, Path>)
    requires fs.Valid()
    requires forall i :: 0 <= i < |cands| ==> Keep(cands[i], Some(destRoot))
    modifies fs
    ensures fs.Valid()
    ensures RunOutcome(old(fs.files), old(fs.dirs), fs.files, fs.dirs, cands, moved, skipped, failure, placed, destRoot)
  {
    moved, skipped, failure, placed := 0, 0, None, map[];
    ghost var origin: map<Path, Path> := map[];
    var i := 0;
    while i < |cands|
      invariant fs.Valid()
      invariant Progress(old(fs.files), old(fs.dirs), fs.files, fs.dirs, cands, i, moved, skipped, placed, origin, destRoot)
    {
      var m, k, f, pl, og := ClassifyNext(fs, cands, i, destRoot, moved, skipped, placed, origin, old(fs.files), old(fs.dirs));
      if f.Some? {
        failure := f;
        return;
      }
      moved, skipped, placed, origin := m, k, pl, og;
      i := i + 1;
    }
    ProgressComplete(old(fs.files), old(fs.dirs), fs.files, fs.dirs, cands, i, moved, skipped, placed, origin, destRoot);
  }

  /**
   * What a run of the loop over `cands` establishes, from the files `files0`
   * and directories `dirs0` it started with: the counters, where the moved
   * files went, and what became of the files and directories.
   */
  ghost predicate RunOutcome(files0: set<Path>, dirs0: set<Path>, files: set<Path>, dirs: set<Path>,
                             cands: seq<Entry>, moved: nat, skipped: nat, failure: Option<MoveError>,
                             placed: map<Path, Path>, destRoot: Path)
  {
    && RunCounts(cands, moved, skipped, failure, destRoot)
    && RunPlacement(files0, files, cands, failure, placed, destRoot)
    && RunFiles(files0, dirs0, files, dirs, cands, destRoot)
  }

  /**
   * A complete run counts every candidate once, and moves exactly the
   * `MoveCount` candidates `Decide` sends to a date folder; a run aborts only
   * at a candidate that was to be moved, so a run with nothing to move
   * completes and moves nothing.
   */
  ghost predicate RunCounts(cands: seq<Entry>, moved: nat, skipped: nat, failure: Option<MoveError>, destRoot: Path) {
    && (failure.None? ==> moved + skipped == |cands| && moved == MoveCount(cands, destRoot))
    && (failure.Some? ==> moved + skipped < |cands|)
    && (failure.Some? ==> exists i :: 0 <= i < |cands| && Decide(cands[i], destRoot).MoveTo?)
    && (MoveCount(cands, destRoot) == 0 ==> failure.None? && moved == 0)
  }

  /**
   * After a complete run, `placed` maps each moved original to its own new
   * place, in the folder of its date, no two sharing one, and the files are
   * exactly the unmoved originals plus those new places.
   */
  ghost predicate RunPlacement(files0: set<Path>, files: set<Path>, cands: seq<Entry>, failure: Option<MoveError>,
                               placed: map<Path, Path>, destRoot: Path)
  {
    && (failure.None? ==> forall p :: p in files ==>
          (p in files0 && p !in MovedPaths(cands, destRoot)) || InDateFolder(p, destRoot))
    && (failure.None? ==> placed.Keys == MovedPaths(cands, destRoot) && PlacedByDate(files, placed, destRoot))
    && (failure.None? ==> forall a, b :: a in placed && b in placed && a != b ==> placed[a] != placed[b])
    && (failure.None? ==> files == (files0 - placed.Keys) + placed.Values)
  }

  /**
   * In any case, every file is an original or lies in a date folder, no
   * original outside the moves has gone, the number of files is unchanged,
   * and the only new directories lie on the path of a date folder.
   */
  ghost predicate RunFiles(files0: set<Path>, dirs0: set<Path>, files: set<Path>, dirs: set<Path>,
                           cands: seq<Entry>, destRoot: Path)
  {
    && (forall p :: p in files ==> p in files0 || InDateFolder(p, destRoot))
    && (forall p :: p in files0 && p !in MovedPaths(cands, destRoot) ==> p in files)
    && |files| == |files0|
    && dirs0 <= dirs
    && (forall q :: q in dirs ==> q in dirs0 || OnDatePath(q, destRoot))
  }

  /** After the last candidate, the invariant gives the outcome of a complete run. */
  lemma ProgressComplete(files0: set<Path>, dirs0: set<Path>, files: set<Path>, dirs: set<Path>,
                         cands: seq<Entry>, i: nat, moved: nat, skipped: nat,
                         placed: map<Path, Path>, origin: map<Path, Path>, destRoot: Path)
    requires Progress(files0, dirs0, files, dirs, cands, i, moved, skipped, placed, origin, destRoot)
    requires i >= |cands|
    ensures RunOutcome(files0, dirs0, files, dirs, cands, moved, skipped, None, placed, destRoot)
  {
    assert cands[..|cands|] == cands;
    PlacementExact(files0, files, MovedPaths(cands, destRoot), placed, origin, destRoot);
  }

  /** A run aborted at candidate `i`, which was to be moved, has the outcome of a failed run. */
  lemma ProgressAborted(files0: set<Path>, dirs0: set<Path>, files: set<Path>, dirs: set<Path>,
                        cands: seq<Entry>, i: nat, moved: nat, skipped: nat,
                        placed: map<Path, Path>, origin: map<Path, Path>, error: MoveError, destRoot: Path)
    requires Progress(files0, dirs0, files, dirs, cands, i, moved, skipped, placed, origin, destRoot)
    requires i < |cands| && Decide(cands[i], destRoot).MoveTo?
    ensures RunOutcome(files0, dirs0, files, dirs, cands, moved, skipped, Some(error), placed, destRoot)
  {
    MovedPathsPrefix(cands, i, destRoot);
    NothingToMove(cands, destRoot);
  }

  /**
   * The invariant of the loop of `classify_photos` after the first `i`
   * candidates, from the files `files0` and directories `dirs0` it started
   * with: the counters, where the files are, the new place of every moved
   * file, and the directories made so far.
   */
  ghost predicate Progress(files0: set<Path>, dirs0: set<Path>, files: set<Path>, dirs: set<Path>,
                           cands: seq<Entry>, i: nat, moved: nat, skipped: nat,
                           placed: map<Path, Path>, origin: map<Path, Path>, destRoot: Path)
  {
    && i <= |cands|
    && moved + skipped == i
    && moved == MoveCount(cands[..i], destRoot)
    && Placement(files0, files, MovedPaths(cands[..i], destRoot), placed, origin, destRoot)
    && dirs0 <= dirs
    && (forall q :: q in dirs ==> q in dirs0 || OnDatePath(q, destRoot))
  }

  /**
   * The files after moving the originals `moved`: `placed` maps each of them
   * to its new place, and every file that is not an original is such a new
   * place.
   */
  ghost predicate Placement(files0: set<Path>, files: set<Path>, moved: set<Path>,
                            placed: map<Path, Path>, origin: map<Path, Path>, destRoot: Path)
  {
    && placed.Keys == moved
    && Tracks(files0, files, moved, destRoot)
    && PlacedByDate(files, placed, destRoot)
    && (forall src :: src in placed ==> src in files0 && !InDateFolder(src, destRoot))
    && Origins(files0, files, placed, origin)
    && |files| == |files0|
  }

  /**
   * `origin` maps every new place back to the original moved there, so no
   * two originals share a new place, and every file that is not an original
   * is such a new place.
   */
  ghost predicate Origins(files0: set<Path>, files: set<Path>, placed: map<Path, Path>, origin: map<Path, Path>) {
    && (forall src :: src in placed ==> placed[src] in origin && origin[placed[src]] == src)
    && (forall p :: p in files && p !in files0 ==> p in origin && origin[p] in placed && placed[origin[p]] == p)
  }

  /** Recording the move of `src` to the free path `dest` in both directions keeps `Origins`. */
  lemma OriginsMove(files0: set<Path>, files: set<Path>, placed: map<Path, Path>, origin: map<Path, Path>,
                    src: Path, dest: Path)
    requires Origins(files0, files, placed, origin)
    requires forall s :: s in placed ==> placed[s] in files
    requires src !in placed && dest !in files
    ensures Origins(files0, files - {src} + {dest}, placed[src := dest], origin[dest := src])
  {
    var placed', origin' := placed[src := dest], origin[dest := src];
    forall s | s in placed' ensures placed'[s] in origin' && origin'[placed'[s]] == s {
      if s != src {
        assert placed[s] in files;
      }
    }
    forall p | p in files - {src} + {dest} && p !in files0
      ensures p in origin' && origin'[p] in placed' && placed'[origin'[p]] == p
    {
      if p != dest {
        assert origin[p] in placed && origin[p] != src;
      }
    }
  }

  /** Moving an original out of the way into a date folder keeps `Tracks`, with one more move. */
  lemma TracksMove(files0: set<Path>, files: set<Path>, moved: set<Path>, src: Path, dest: Path, destRoot: Path)
    requires Tracks(files0, files, moved, destRoot)
    requires InDateFolder(dest, destRoot)
    ensures Tracks(files0, files - {src} + {dest}, moved + {src}, destRoot)
  {
  }

  /**
   * The files are exactly the unmoved originals and the new places of the
   * moved ones, and no two moved files share a new place.
   */
  lemma PlacementExact(files0: set<Path>, files: set<Path>, moved: set<Path>,
                       placed: map<Path, Path>, origin: map<Path, Path>, destRoot: Path)
    requires Placement(files0, files, moved, placed, origin, destRoot)
    ensures files == (files0 - placed.Keys) + placed.Values
    ensures forall a, b :: a in placed && b in placed && a != b ==> placed[a] != placed[b]
  {
    forall p | p in files ensures p in (files0 - placed.Keys) + placed.Values {
      if p !in files0 {
        assert placed[origin[p]] == p;
      }
    }
  }

  /** Moving one more original from outside the date folders into the folder of its date keeps `Placement`. */
  lemma PlacementMove(files0: set<Path>, files: set<Path>, moved: set<Path>,
                      placed: map<Path, Path>, origin: map<Path, Path>,
                      src: Path, dest: Path, destRoot: Path)
    requires Placement(files0, files, moved, placed, origin, destRoot)
    requires src in files && dest !in files && !InDateFolder(src, destRoot) && InDateFolder(dest, destRoot)
    requires ExtractDate(Name(src)).Some? && Parent(dest) == destRoot + [ExtractDate(Name(src)).value]
    requires KeepsName(src, dest)
    ensures Placement(files0, files - {src} + {dest}, moved + {src}, placed[src := dest], origin[dest := src], destRoot)
  {
    MoveKeepsCount(files, src, dest);
    assert src in files0 && src !in placed;
    PlacedMove(files, placed, src, dest, destRoot);
    OriginsMove(files0, files, placed, origin, src, dest);
    TracksMove(files0, files, moved, src, dest, destRoot);
    SourcesMove(files0, moved, placed, src, dest, destRoot);
  }

  /** Recording one more original from outside the date folders keeps the sources of the moves in order. */
  lemma SourcesMove(files0: set<Path>, moved: set<Path>, placed: map<Path, Path>, src: Path, dest: Path, destRoot: Path)
    requires placed.Keys == moved && forall s :: s in placed ==> s in files0 && !InDateFolder(s, destRoot)
    requires src in files0 && !InDateFolder(src, destRoot)
    ensures placed[src := dest].Keys == moved + {src}
    ensures forall s :: s in placed[src := dest] ==> s in files0 && !InDateFolder(s, destRoot)
  {
  }

  /**
   * One turn of the loop of `classify_photos`: classify candidate `i` and
   * advance the counters. A move fails only for a candidate `Decide` moves;
   * the counters then stay, and the run so far has the outcome of an
   * aborted run.
   */
  method ClassifyNext(fs: FileSystem, cands: seq<Entry>, i: nat, destRoot: Path,
                      moved: nat, skipped: nat, ghost placed: map<Path, Path>, ghost origin: map<Path, Path>,
                      ghost files0: set<Path>, ghost dirs0: set<Path>)
    returns (moved': nat, skipped': nat, failure: Option<MoveError>,
             ghost placed': map<Path, Path>, ghost origin': map<Path, Path>)
    requires fs.Valid() && i < |cands| && Keep(cands[i], Some(destRoot))
    requires Progress(files0, dirs0, fs.files, fs.dirs, cands, i, moved, skipped, placed, origin, destRoot)
    modifies fs
    ensures fs.Valid()
    ensures failure.None? ==>
      Progress(files0, dirs0, fs.files, fs.dirs, cands, i + 1, moved', skipped', placed', origin', destRoot)
    ensures failure.Some? ==>
      RunOutcome(files0, dirs0, fs.files, fs.dirs, cands, moved, skipped, failure, placed, destRoot)
    ensures failure.Some? ==> Decide(cands[i], destRoot).MoveTo?
  {
    var e := cands[i];
    ghost var files, dirs := fs.files, fs.dirs;
    var step := ClassifyOne(fs, e, destRoot);
    moved', skipped', failure, placed', origin' := moved, skipped, None, placed, origin;
    match step {
      case Skipped =>
        ProgressSkip(files0, dirs0, files, dirs, cands, i, moved, skipped, placed, origin, destRoot);
        skipped' := skipped + 1;
      case MovedTo(dest) =>
        ProgressMove(files0, dirs0, files, dirs, fs.dirs, cands, i, moved, skipped, placed, origin, dest, destRoot);
        placed', origin' := placed[e.path := dest], origin[dest := e.path];
        moved' := moved + 1;
      case Aborted(error) =>
        ProgressGrowDirs(files0, dirs0, files, dirs, fs.dirs, cands, i, moved, skipped, placed, origin, destRoot);
        ProgressAborted(files0, dirs0, fs.files, fs.dirs, cands, i, moved, skipped, placed, origin, error, destRoot);
        failure := Some(error);
    }
  }

  /** A skipped candidate keeps the invariant, with one more skip. */
  lemma ProgressSkip(files0: set<Path>, dirs0: set<Path>, files: set<Path>, dirs: set<Path>,
                     cands: seq<Entry>, i: nat, moved: nat, skipped: nat,
                     placed: map<Path, Path>, origin: map<Path, Path>, destRoot: Path)
    requires i < |cands| && !Decide(cands[i], destRoot).MoveTo?
    requires Progress(files0, dirs0, files, dirs, cands, i, moved, skipped, placed, origin, destRoot)
    ensures Progress(files0, dirs0, files, dirs, cands, i + 1, moved, skipped + 1, placed, origin, destRoot)
  {
    MoveStep(cands, i, destRoot);
  }

  /** Directories made on date-folder paths keep the invariant. */
  lemma ProgressGrowDirs(files0: set<Path>, dirs0: set<Path>, files: set<Path>, dirs: set<Path>, dirs': set<Path>,
                         cands: seq<Entry>, i: nat, moved: nat, skipped: nat,
                         placed: map<Path, Path>, origin: map<Path, Path>, destRoot: Path)
    requires Progress(files0, dirs0, files, dirs, cands, i, moved, skipped, placed, origin, destRoot)
    requires dirs <= dirs' && forall q :: q in dirs' ==> q in dirs || OnDatePath(q, destRoot)
    ensures Progress(files0, dirs0, files, dirs', cands, i, moved, skipped, placed, origin, destRoot)
  {
  }

  /**
   * Moving candidate `i` from where it was into the folder of its own date
   * keeps the invariant, with one more move recorded in `placed`.
   */
  lemma ProgressMove(files0: set<Path>, dirs0: set<Path>, files: set<Path>, dirs: set<Path>, dirs': set<Path>,
                     cands: seq<Entry>, i: nat, moved: nat, skipped: nat,
                     placed: map<Path, Path>, origin: map<Path, Path>, dest: Path, destRoot: Path)
    requires i < |cands| && Keep(cands[i], Some(destRoot))
    requires Decide(cands[i], destRoot) == MoveTo(Parent(dest))
    requires cands[i].path in files && dest !in files && InDateFolder(dest, destRoot)
    requires KeepsName(cands[i].path, dest)
    requires Progress(files0, dirs0, files, dirs, cands, i, moved, skipped, placed, origin, destRoot)
    requires dirs <= dirs' && forall q :: q in dirs' ==> q in dirs || OnDatePath(q, destRoot)
    ensures Progress(files0, dirs0, files - {cands[i].path} + {dest}, dirs', cands, i + 1, moved + 1, skipped,
                     placed[cands[i].path := dest], origin[dest := cands[i].path], destRoot)
  {
    var e := cands[i];
    MoveStep(cands, i, destRoot);
    MovedFromOutside(e, destRoot);
    MovedToOwnDate(e, destRoot, dest);
    PlacementMove(files0, files, MovedPaths(cands[..i], destRoot), placed, origin, e.path, dest, destRoot);
  }

  /** The moves of a prefix of the run are among the moves of the whole run. */
  lemma {:induction false} MovedPathsPrefix(cands: seq<Entry>, i: nat, destRoot: Path)
    requires i <= |cands|
    ensures MovedPaths(cands[..i], destRoot) <= MovedPaths(cands, destRoot)
  {
    if i < |cands| {
      var n := |cands| - 1;
      assert cands[..n][..i] == cands[..i];
      MovedPathsPrefix(cands[..n], i, destRoot);
      assert MovedPaths(cands[..n], destRoot) <= MovedPaths(cands, destRoot);
    } else {
      assert cands[..i] == cands;
    }
  }

  /** Whether a run over these candidates would move `e`. */
  predicate WouldMove(e: Entry, destRoot: Path) {
    Keep(e, Some(destRoot)) && Decide(e, destRoot).MoveTo?
  }

  /** A file already in a date folder is never moved again: it is excluded, or unresolvable and skipped. */
  lemma DateFolderFileStays(e: Entry, destRoot: Path)
    ensures InDateFolder(e.path, destRoot) ==> !WouldMove(e, destRoot)
  {
  }

  /** A candidate the classifier moves does not sit in a date folder. */
  lemma MovedFromOutside(e: Entry, destRoot: Path)
    requires Keep(e, Some(destRoot)) && Decide(e, destRoot).MoveTo?
    ensures !InDateFolder(e.path, destRoot)
  {
    DateFolderFileStays(e, destRoot);
  }

  /** A file sent to a folder goes to the folder of its own date. */
  lemma MovedToOwnDate(e: Entry, destRoot: Path, dest: Path)
    requires Decide(e, destRoot) == MoveTo(Parent(dest))
    ensures ExtractDate(Name(e.path)).Some?
    ensures Parent(dest) == destRoot + [ExtractDate(Name(e.path)).value]
  {
  }

  /** A file already in the folder of its own date is skipped and left in place. */
  lemma AlreadyPlacedIsSkipped(e: Entry, destRoot: Path, date: string)
    requires ExtractDate(Name(e.path)) == Some(date)
    requires e.resolves && Parent(e.path) == destRoot + [date]
    ensures Decide(e, destRoot) == AlreadyPlaced
  {
  }

  /**
   * The "already placed" skip never fires for a file the generator yields:
   * such a file resolves into the folder of its date, which lies strictly
   * inside `destRoot`, so the exclusion has already dropped it.
   */
  lemma KeptNeverAlreadyPlaced(e: Entry, destRoot: Path)
    requires Keep(e, Some(destRoot))
    ensures Decide(e, destRoot) != AlreadyPlaced
  {
    DecideCases(e, destRoot);
    ExcludedIffStrictlyInside(e, destRoot);
    if Decide(e, destRoot) == AlreadyPlaced {
      var dir := destRoot + [ExtractDate(Name(e.path)).value];
      assert dir[..|destRoot|] == destRoot;
      assert IsProperPrefix(destRoot, Parent(e.path));
    }
  }

  /**
   * `entries` is a complete walk of a tree whose regular files are `files`:
   * it reports each of them as a file, reports no other file, and the
   * resolution of each file comes out as `res` says.
   */
  ghost predicate WalkOf(entries: seq<Entry>, files: set<Path>, res: Path -> bool) {
    && (forall e :: e in entries && e.isFile ==> e.path in files && e.resolves == res(e.path))
    && (forall p :: p in files ==> Entry(p, true, res(p)) in entries)
  }

  /**
   * Idempotence of `classify_photos`: walk the tree `files0`, run, walk the
   * tree `files1` the run leaves behind, run again; the second run moves
   * nothing. The third premise is what a complete `ClassifyPhotos` run over
   * `first` ensures about its final files; resolving a path is taken to
   * give the same outcome in both walks.
   */
  lemma Idempotent(first: seq<Entry>, second: seq<Entry>, files0: set<Path>, files1: set<Path>,
                   destRoot: Path, res: Path -> bool)
    requires WalkOf(first, files0, res) && WalkOf(second, files1, res)
    requires forall p :: p in files1 ==>
      (p in files0 && p !in MovedPaths(CandidateFiles(first, Some(destRoot)), destRoot)) || InDateFolder(p, destRoot)
    ensures MoveCount(CandidateFiles(second, Some(destRoot)), destRoot) == 0
  {
    forall e | e in second && e.isFile && !InDateFolder(e.path, destRoot)
      ensures e in first && e.path !in MovedPaths(CandidateFiles(first, Some(destRoot)), destRoot)
    {
      assert e == Entry(e.path, true, res(e.path));
    }
    RerunMovesNothing(first, second, destRoot);
  }

  /**
   * Idempotence, stated on the walks: if the second walk reports only files
   * that lie in a date folder and files the first run left alone, unchanged,
   * then the second run moves nothing.
   */
  lemma {:induction false} RerunMovesNothing(first: seq<Entry>, second: seq<Entry>, destRoot: Path)
    requires forall e :: e in second && e.isFile ==>
      InDateFolder(e.path, destRoot) ||
      (e in first && e.path !in MovedPaths(CandidateFiles(first, Some(destRoot)), destRoot))
    ensures MoveCount(CandidateFiles(second, Some(destRoot)), destRoot) == 0
  {
    var c2 := CandidateFiles(second, Some(destRoot));
    forall i | 0 <= i < |c2| ensures !Decide(c2[i], destRoot).MoveTo? {
      assert c2[i] in second;
      RerunCandidateStays(first, c2[i], destRoot);
    }
    NothingToMove(c2, destRoot);
  }

  /** One candidate of the second run: in a date folder, or left alone by the first run. */
  lemma RerunCandidateStays(first: seq<Entry>, e: Entry, destRoot: Path)
    requires Keep(e, Some(destRoot))
    requires InDateFolder(e.path, destRoot) ||
      (e in first && e.path !in MovedPaths(CandidateFiles(first, Some(destRoot)), destRoot))
    ensures !Decide(e, destRoot).MoveTo?
  {
    if InDateFolder(e.path, destRoot) {
    } else if Decide(e, destRoot).MoveTo? {
      var c1 := CandidateFiles(first, Some(destRoot));
      assert e in c1;
      MovedPathRecorded(c1, e, destRoot);
    }
  }
}
