/**
 * `iter_candidate_files`: the regular files of an already enumerated walk,
 * minus those lying in a proper sub-directory of the exclusion directory.
 *
 * The walk itself (`root.rglob("*")`) is not modelled: its output is the
 * input sequence, in whatever order it came. `Path.resolve()` is the identity
 * on these normalised paths; `resolves` is false when resolving the entry
 * raised, in which case the file is yielded (fail open).
 */
module Discovery {
  import opened Optional
  import opened Paths

  /** One entry reported by the walk. */
  datatype Entry = Entry(path: Path, isFile: bool, resolves: bool)

  /** The test at photo_sorter.py:85: the file's parent is not `exclude` but `exclude` is among its ancestors. */
  predicate Excluded(e: Entry, exclude: Path) {
    e.resolves && Parent(e.path) != exclude && exclude in Parents(e.path)
  }

  /** Whether the generator yields `e`. */
  predicate Keep(e: Entry, exclude: Option<Path>) {
    e.isFile && !(exclude.Some? && Excluded(e, exclude.value))
  }

  /** The files the generator yields, in walk order, each as often as the walk reported it. */
  function CandidateFiles(entries: seq<Entry>, exclude: Option<Path>): (r: seq<Entry>)
    ensures |r| <= |entries|
    ensures forall e :: multiset(r)[e] == if Keep(e, exclude) then multiset(entries)[e] else 0
    ensures forall e :: e in r <==> e in entries && Keep(e, exclude)
  {
    if entries == [] then []
    else
      assert entries == [entries[0]] + entries[1..];
      (if Keep(entries[0], exclude) then [entries[0]] else []) + CandidateFiles(entries[1..], exclude)
  }

  /** The exclusion drops exactly the files whose resolved parent lies strictly inside `exclude`. */
  lemma ExcludedIffStrictlyInside(e: Entry, exclude: Path)
    ensures Excluded(e, exclude) <==> e.resolves && IsProperPrefix(exclude, Parent(e.path))
  {
    ParentsAreProperPrefixes(e.path, exclude);
    if |e.path| > 0 {
      var q := Parent(e.path);
      if IsProperPrefix(exclude, e.path) && q != exclude {
        assert q[..|exclude|] == e.path[..|exclude|] || |exclude| == |q|;
        if |exclude| == |q| {
          assert q == e.path[..|q|];
        }
      }
      if IsProperPrefix(exclude, q) {
        assert e.path[..|exclude|] == q[..|exclude|];
      }
    }
  }

  /** Without an exclusion directory every regular file is yielded, and nothing else. */
  lemma NoExclusionYieldsEveryFile(entries: seq<Entry>)
    ensures forall e :: e in CandidateFiles(entries, None) <==> e in entries && e.isFile
  {
  }

  /** A file directly inside the exclusion directory is yielded. */
  lemma DirectChildOfExclusionKept(entries: seq<Entry>, e: Entry, exclude: Path)
    requires e in entries && e.isFile && Parent(e.path) == exclude
    ensures e in CandidateFiles(entries, Some(exclude))
  {
  }

  /** A resolvable file below a sub-directory of the exclusion directory is not yielded. */
  lemma DeeperFileDropped(entries: seq<Entry>, e: Entry, exclude: Path)
    requires e.resolves && IsProperPrefix(exclude, Parent(e.path))
    ensures e !in CandidateFiles(entries, Some(exclude))
  {
    ExcludedIffStrictlyInside(e, exclude);
  }

  /** A file whose path cannot be resolved is yielded whatever the exclusion (fail open). */
  lemma UnresolvableFileKept(entries: seq<Entry>, e: Entry, exclude: Option<Path>)
    requires e in entries && e.isFile && !e.resolves
    ensures e in CandidateFiles(entries, exclude)
  {
  }
}
