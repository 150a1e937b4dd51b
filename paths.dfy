/** Absolute, already normalised paths as sequences of components; the root is []. */
module Paths {
  type Path = seq<string>

  /** `Path.parent`: the path without its last component (the root is its own parent). */
  function Parent(p: Path): (r: Path)
    ensures |p| > 0 ==> |r| == |p| - 1
  {
    if |p| == 0 then p else p[..|p| - 1]
  }

  /** `Path.name`: the last component, "" for the root. */
  function Name(p: Path): string {
    if |p| == 0 then "" else p[|p| - 1]
  }

  /** `Path.parents`: every proper ancestor, the root included. */
  function Parents(p: Path): set<Path> {
    set k | 0 <= k < |p| :: p[..k]
  }

  predicate IsProperPrefix(a: Path, p: Path) {
    |a| < |p| && p[..|a|] == a
  }

  /** Membership in `Path.parents` is exactly being a proper prefix. */
  lemma ParentsAreProperPrefixes(p: Path, a: Path)
    ensures a in Parents(p) <==> IsProperPrefix(a, p)
  {
  }

  /** The directories `mkdir(parents=True)` creates or finds for `d`: every non-root prefix of `d`, `d` included. */
  function MkdirPaths(d: Path): set<Path>
    decreases |d|
  {
    if d == [] then {} else MkdirPaths(Parent(d)) + {d}
  }

  /** The directories `mkdir(parents=True)` makes are exactly the non-root prefixes of the target, itself included. */
  lemma {:induction false} MkdirPathsArePrefixes(d: Path)
    ensures forall q :: q in MkdirPaths(d) <==> 1 <= |q| <= |d| && q == d[..|q|]
    decreases |d|
  {
    if d != [] {
      var p := Parent(d);
      assert p == d[..|d| - 1];
      MkdirPathsArePrefixes(p);
      forall q ensures q in MkdirPaths(d) <==> 1 <= |q| <= |d| && q == d[..|q|] {
        if |q| < |d| {
          assert d[..|q|] == p[..|q|];
        } else if |q| == |d| {
          assert d[..|q|] == d;
        }
      }
    }
  }
}
