/**
 * The filesystem as `move_file` sees it, and `move_file` itself.
 *
 * A state is two sets of paths, the regular files and the directories. A
 * valid state is a tree: the root is a directory, nothing is both, and the
 * parent of every entry is a directory.
 */
module FileSystemModel {
  import opened Paths
  import opened FileNames

  /** Why `move_file` raised: `mkdir` met a regular file, or there was no regular file to move. */
  datatype MoveError = MkdirFailed | SourceNotFile

  datatype MoveOutcome = Moved(dest: Path) | Failed(error: MoveError)

  /** The n-th alternative destination `dir/<stem>_<n><suffix>` for `name`. */
  function Candidate(dir: Path, name: string, n: nat): Path {
    dir + [DupName(name, n)]
  }

  lemma CandidateInjective(dir: Path, name: string, a: nat, b: nat)
    requires Candidate(dir, name, a) == Candidate(dir, name, b)
    ensures a == b
  {
    assert Candidate(dir, name, a)[|dir|] == DupName(name, a);
    DupNameInjective(name, a, b);
  }

  /** If the first `m` alternatives are all taken, at least `m` paths are taken. */
  lemma {:induction false} TakenCandidatesBound(taken: set<Path>, dir: Path, name: string, m: nat)
    requires forall j :: 1 <= j <= m ==> Candidate(dir, name, j) in taken
    ensures m <= |taken|
  {
    if m > 0 {
      var last := Candidate(dir, name, m);
      var rest := taken - {last};
      forall j | 1 <= j <= m - 1 ensures Candidate(dir, name, j) in rest {
        if Candidate(dir, name, j) == last {
          CandidateInjective(dir, name, j, m);
        }
      }
      TakenCandidatesBound(rest, dir, name, m - 1);
    }
  }

  /** Pigeonhole: among the first `|taken| + 1` alternatives one is free, so the search terminates. */
  lemma FreeCandidateExists(taken: set<Path>, dir: Path, name: string)
    ensures exists n :: 1 <= n <= |taken| + 1 && Candidate(dir, name, n) !in taken
  {
    if forall n :: 1 <= n <= |taken| + 1 ==> Candidate(dir, name, n) in taken {
      TakenCandidatesBound(taken, dir, name, |taken| + 1);
    }
  }

  /**
   * The destination `move_file` settles on when `taken` are the existing
   * paths: `dir/name` if free, otherwise the first free alternative.
   */
  ghost predicate FirstFree(taken: set<Path>, dir: Path, name: string, dest: Path) {
    if dir + [name] !in taken then dest == dir + [name]
    else exists n :: 1 <= n && dest == Candidate(dir, name, n) && dest !in taken &&
                     forall k :: 1 <= k < n ==> Candidate(dir, name, k) in taken
  }

  /** The choice is deterministic: at most one destination satisfies it. */
  lemma FirstFreeUnique(taken: set<Path>, dir: Path, name: string, a: Path, b: Path)
    requires FirstFree(taken, dir, name, a) && FirstFree(taken, dir, name, b)
    ensures a == b
  {
  }

  /** Paths no longer than `dir` do not affect which entry of `dir` is free. */
  lemma FirstFreeIgnoresShorter(taken: set<Path>, extra: set<Path>, dir: Path, name: string, dest: Path)
    requires forall q :: q in extra ==> |q| <= |dir|
    requires FirstFree(taken + extra, dir, name, dest)
    ensures FirstFree(taken, dir, name, dest)
  {
  }

  /** A tree: the root is a directory, nothing is both a file and a directory, every parent is a directory. */
  ghost predicate Tree(files: set<Path>, dirs: set<Path>) {
    [] in dirs && files !! dirs &&
    forall p :: p in files + dirs && p != [] ==> Parent(p) in dirs
  }

  /** Making `d` and its ancestors directories keeps a tree a tree, unless one of them is a file. */
  lemma TreeMkdir(files: set<Path>, dirs: set<Path>, d: Path)
    requires Tree(files, dirs) && MkdirPaths(d) !! files
    ensures Tree(files, dirs + MkdirPaths(d))
  {
    MkdirPathsArePrefixes(d);
    forall q | q in MkdirPaths(d) && q != [] ensures Parent(q) in dirs + MkdirPaths(d) {
      assert Parent(q) == d[..|q| - 1];
    }
  }

  /** Renaming a file to a free path inside an existing directory keeps a tree a tree. */
  lemma TreeRename(files: set<Path>, dirs: set<Path>, src: Path, dest: Path)
    requires Tree(files, dirs) && src in files
    requires dest != [] && dest !in dirs && Parent(dest) in dirs
    ensures Tree(files - {src} + {dest}, dirs)
  {
  }

  class FileSystem {
    var files: set<Path>
    var dirs: set<Path>

    /** The state is a tree rooted at []. */
    ghost predicate Valid()
      reads this
    {
      Tree(files, dirs)
    }

    /** `Path.exists()`. */
    predicate Exists(p: Path)
      reads this
    {
      p in files || p in dirs
    }

    constructor (files0: set<Path>, dirs0: set<Path>)
      requires [] in dirs0 && files0 !! dirs0
      requires forall p :: p in files0 + dirs0 && p != [] ==> Parent(p) in dirs0
      ensures Valid() && files == files0 && dirs == dirs0
    {
      files, dirs := files0, dirs0;
    }

    /**
     * `d.mkdir(parents=True, exist_ok=True)`: fails when `d` or one of its
     * ancestors is a regular file, and otherwise makes `d` and all its
     * ancestors directories.
     */
    method MakeDirs(d: Path) returns (ok: bool)
      requires Valid()
      modifies this
      ensures Valid()
      ensures ok <==> MkdirPaths(d) !! old(files)
      ensures files == old(files)
      ensures dirs == if ok then old(dirs) + MkdirPaths(d) else old(dirs)
      ensures ok ==> d in dirs
    {
      MkdirPathsArePrefixes(d);
      ok := MkdirPaths(d) !! files;
      if ok {
        TreeMkdir(files, dirs, d);
        dirs := dirs + MkdirPaths(d);
      }
    }

    /**
     * The search of `move_file`: `dir/name` when it does not exist, otherwise
     * `dir/<stem>_<dup><suffix>` for the smallest `dup >= 1` that does not exist.
     */
    method FindDestination(dir: Path, name: string) returns (dest: Path, dup: nat)
      ensures !Exists(dest)
      ensures dup == 0 <==> !Exists(dir + [name])
      ensures dup == 0 ==> dest == dir + [name]
      ensures dup > 0 ==> dest == Candidate(dir, name, dup)
      ensures FirstFree(files + dirs, dir, name, dest)
    {
      dest, dup := dir + [name], 0;
      if Exists(dest) {
        FreeCandidateExists(files + dirs, dir, name);
        ghost var bound :| 1 <= bound <= |files + dirs| + 1 && Candidate(dir, name, bound) !in files + dirs;
        dup := 1;
        while Exists(Candidate(dir, name, dup))
          invariant 1 <= dup <= bound
          invariant forall k :: 1 <= k < dup ==> Exists(Candidate(dir, name, k))
          decreases bound - dup
        {
          dup := dup + 1;
        }
        dest := Candidate(dir, name, dup);
      }
    }

    /**
     * `shutil.move(src, dest)` to a free `dest` whose parent is a directory:
     * the regular file `src` now lives at `dest`; anything else is an error
     * and changes nothing.
     */
    method Rename(src: Path, dest: Path) returns (ok: bool)
      requires Valid() && dest != [] && !Exists(dest) && Parent(dest) in dirs
      modifies this
      ensures Valid()
      ensures ok <==> src in old(files)
      ensures ok ==> files == old(files) - {src} + {dest}
      ensures !ok ==> files == old(files)
      ensures dirs == old(dirs)
    {
      if src !in files {
        return false;
      }
      TreeRename(files, dirs, src, dest);
      files := files - {src} + {dest};
      ok := true;
    }

    /**
     * `move_file(src, dest_dir)`: create `dest_dir`, choose the first free
     * name, and rename `src` to it. Nothing is ever overwritten.
     */
    method MoveFile(src: Path, destDir: Path) returns (r: MoveOutcome)
      requires Valid() && src != []
      modifies this
      ensures Valid()
      ensures r == Failed(MkdirFailed) <==> !(MkdirPaths(destDir) !! old(files))
      ensures r == Failed(SourceNotFile) <==> MkdirPaths(destDir) !! old(files) && src !in old(files)
      ensures r.Failed? ==> files == old(files)
      ensures dirs == if r == Failed(MkdirFailed) then old(dirs) else old(dirs) + MkdirPaths(destDir)
      ensures r.Moved? ==>
        && FirstFree(old(files) + old(dirs), destDir, Name(src), r.dest)
        && r.dest !in old(files) + old(dirs)
        && Parent(r.dest) == destDir && |r.dest| == |destDir| + 1
        && files == old(files) - {src} + {r.dest}
    {
      var ok := MakeDirs(destDir);
      if !ok {
        return Failed(MkdirFailed);
      }
      var dest, dup := FindDestination(destDir, Name(src));
      MkdirPathsArePrefixes(destDir);
      FirstFreeIgnoresShorter(old(files) + old(dirs), MkdirPaths(destDir), destDir, Name(src), dest);
      var renamed := Rename(src, dest);
      if !renamed {
        return Failed(SourceNotFile);
      }
      r := Moved(dest);
    }
  }
}
