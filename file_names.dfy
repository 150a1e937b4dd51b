/**
 * File-name arithmetic of `pathlib`: the final suffix, the stem, and the
 * `<stem>_<n><suffix>` names the mover tries when a name is taken.
 */
module FileNames {

  predicate IsDigit(c: char) {
    '0' <= c <= '9'
  }

  predicate AllDigits(s: string) {
    forall i :: 0 <= i < |s| ==> IsDigit(s[i])
  }

  /** `str.rfind('.')`: the index of the last dot, or -1 when there is none. */
  function LastDot(name: string): (r: int)
    ensures -1 <= r < |name|
  {
    if |name| == 0 then -1
    else if name[|name| - 1] == '.' then |name| - 1
    else LastDot(name[..|name| - 1])
  }

  /** `LastDot` finds a dot, and no dot follows it. */
  lemma {:induction false} LastDotIsLast(name: string)
    ensures LastDot(name) >= 0 ==> name[LastDot(name)] == '.'
    ensures forall j :: LastDot(name) < j < |name| ==> name[j] != '.'
  {
    if |name| > 0 && name[|name| - 1] != '.' {
      LastDotIsLast(name[..|name| - 1]);
    }
  }

  /** pathlib gives a name a suffix only when its last dot is neither the first nor the last character. */
  predicate HasSuffix(name: string) {
    var i := LastDot(name);
    0 < i < |name| - 1
  }

  /** `PurePath.suffix`. */
  function Suffix(name: string): string {
    var i := LastDot(name);
    if 0 < i < |name| - 1 then name[i..] else ""
  }

  /** `PurePath.stem`. */
  function Stem(name: string): (r: string)
    ensures |r| <= |name|
  {
    var i := LastDot(name);
    if 0 < i < |name| - 1 then name[..i] else name
  }

  /** A name is its stem followed by its suffix; a suffix is a dot and at least one non-dot. */
  lemma StemSuffixSplit(name: string)
    ensures Stem(name) + Suffix(name) == name
    ensures HasSuffix(name) ==> |Stem(name)| >= 1
    ensures HasSuffix(name) ==> var t := Suffix(name);
      |t| >= 2 && t[0] == '.' && forall j :: 0 < j < |t| ==> t[j] != '.'
    ensures !HasSuffix(name) ==> Suffix(name) == "" && Stem(name) == name
  {
    LastDotIsLast(name);
    var i := LastDot(name);
    if 0 < i < |name| - 1 {
      var t := Suffix(name);
      forall j | 0 < j < |t| ensures t[j] != '.' {
        assert t[j] == name[i + j];
      }
    }
  }

  function DigitChar(d: nat): (c: char)
    requires d < 10
    ensures IsDigit(c)
  {
    (48 + d) as char
  }

  /** Decimal rendering of a natural number, as `f"{n}"` gives it. */
  function NatToString(n: nat): (s: string)
    ensures |s| >= 1 && AllDigits(s)
    ensures n >= 10 ==> |s| >= 2
  {
    if n < 10 then [DigitChar(n)] else NatToString(n / 10) + [DigitChar(n % 10)]
  }

  /** Different numbers have different decimal renderings. */
  lemma {:induction false} NatToStringInjective(a: nat, b: nat)
    requires NatToString(a) == NatToString(b)
    ensures a == b
  {
    if a < 10 && b < 10 {
      assert NatToString(a)[0] as int == 48 + a;
      assert NatToString(b)[0] as int == 48 + b;
    } else if a >= 10 && b >= 10 {
      var sa, sb := NatToString(a / 10), NatToString(b / 10);
      assert sa + [DigitChar(a % 10)] == sb + [DigitChar(b % 10)];
      assert |sa| == |sb|;
      assert (sa + [DigitChar(a % 10)])[|sa|] == (sb + [DigitChar(b % 10)])[|sb|];
      assert DigitChar(a % 10) as int == 48 + a % 10;
      assert DigitChar(b % 10) as int == 48 + b % 10;
      assert sa == (sa + [DigitChar(a % 10)])[..|sa|];
      assert sb == (sb + [DigitChar(b % 10)])[..|sb|];
      NatToStringInjective(a / 10, b / 10);
    }
  }

  /**
   * `destination.with_stem(f"{destination.stem}_{n}")`: the n-th alternative
   * for `name`, always built from the ORIGINAL stem and suffix.
   */
  function DupName(name: string, n: nat): string {
    Stem(name) + "_" + NatToString(n) + Suffix(name)
  }

  /** Distinct counters give distinct alternative names. */
  lemma DupNameInjective(name: string, a: nat, b: nat)
    requires DupName(name, a) == DupName(name, b)
    ensures a == b
  {
    var p, q := Stem(name) + "_", Suffix(name);
    var sa, sb := NatToString(a), NatToString(b);
    assert p + sa + q == p + sb + q;
    assert |sa| == |sb|;
    assert sa == (p + sa + q)[|p|..|p| + |sa|];
    assert sb == (p + sb + q)[|p|..|p| + |sb|];
    NatToStringInjective(a, b);
  }

  /** A dot followed only by non-dots is the last dot. */
  lemma LastDotAt(s: string, p: int)
    requires 0 <= p < |s| && s[p] == '.'
    requires forall j :: p < j < |s| ==> s[j] != '.'
    ensures LastDot(s) == p
  {
  }

  /**
   * Suffixes never accumulate: an alternative name keeps the original suffix,
   * and its stem is the original stem followed by `_<n>`.
   */
  lemma DupNameKeepsSuffix(name: string, n: nat)
    requires HasSuffix(name)
    ensures Suffix(DupName(name, n)) == Suffix(name)
    ensures Stem(DupName(name, n)) == Stem(name) + "_" + NatToString(n)
  {
    StemSuffixSplit(name);
    var head, suf := Stem(name) + "_" + NatToString(n), Suffix(name);
    var d := DupName(name, n);
    assert d == head + suf;
    forall j | |head| < j < |d| ensures d[j] != '.' {
      assert d[j] == suf[j - |head|];
    }
    assert d[|head|] == suf[0];
    LastDotAt(d, |head|);
    assert d[|head|..] == suf;
    assert d[..|head|] == head;
  }

  /** A name without a suffix gets `_<n>` appended to the whole name. */
  lemma DupNameWithoutSuffix(name: string, n: nat)
    requires !HasSuffix(name)
    ensures DupName(name, n) == name + "_" + NatToString(n)
  {
    StemSuffixSplit(name);
  }

  /**
   * A name ending in a dot has no suffix, so its alternative keeps the dot
   * inside the stem and gains a suffix: `foo.` becomes `foo._1`, with
   * suffix `._1`.
   */
  lemma DupNameTrailingDot()
    ensures DupName("foo.", 1) == "foo._1"
    ensures Suffix(DupName("foo.", 1)) == "._1"
  {
    assert LastDot("foo.") == 3;
    DupNameWithoutSuffix("foo.", 1);
    assert NatToString(1) == "1";
    LastDotAt("foo._1", 3);
  }
}
