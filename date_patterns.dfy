/**
 * The three naming conventions of photo_sorter.py and `extract_date_from_name`.
 *
 * The timestamp and screenshot conventions are each given twice: as the
 * language the regular expression accepts (`...Pattern`, with the splits a
 * backtracking matcher may choose written as existentials) and as a
 * hand-written left-to-right scanner (`Scan...`, which takes the longest
 * digit run instead). The extractor uses those two scanners, and the lemmas
 * show that they accept exactly the patterns. The video-capture expression
 * has no repetition whose length a matcher must choose, so it is given once,
 * as `VideoCapturePattern`, which the extractor tests directly. So the
 * extractor returns the date of the first pattern that matches.
 *
 * Digits are ASCII `0`-`9` and IGNORECASE is ASCII case folding. `.` does not
 * match a newline and `$` matches at the end or before a final newline,
 * as in Python's `re`.
 */
module DatePatterns {
  import opened Optional
  import opened FileNames

  /** A Date Key: exactly eight digits `YYYYMMDD`. */
  predicate IsDateKey(s: string) {
    |s| == 8 && AllDigits(s)
  }

  /** ASCII lower-casing, the folding used for the IGNORECASE patterns. */
  function ToLower(c: char): char {
    if 'A' <= c <= 'Z' then (c as int + 32) as char else c
  }

  /** `s` spells the lower-case literal `lit` up to case. */
  predicate EqualsIgnoreCase(s: string, lit: string) {
    |s| == |lit| && forall i :: 0 <= i < |s| ==> ToLower(s[i]) == lit[i]
  }

  /** What `.*$` accepts: no newline, except possibly as the very last character. */
  predicate DotStarEnd(t: string) {
    forall i :: 0 <= i < |t| - 1 ==> t[i] != '\n'
  }

  /** What `.+$` accepts: like `.*$`, with at least one non-newline character. */
  predicate DotPlusEnd(t: string) {
    DotStarEnd(t) && t != "" && t != "\n"
  }

  // ---------------------------------------------------------------------
  // The patterns, as the regular expressions define them

  /** `\d{k}.*$` starting at index `start`. */
  ghost predicate TimeThenAny(s: string, start: nat, k: nat) {
    start + k <= |s| && AllDigits(s[start..start + k]) && DotStarEnd(s[start + k..])
  }

  /** `^(?P<date>\d{8})_\d{4,6}.*$` (the timestamp convention, `20241019_111535`). */
  ghost predicate TimestampPattern(s: string) {
    |s| >= 13 && AllDigits(s[..8]) && s[8] == '_' &&
    exists k :: 4 <= k <= 6 && TimeThenAny(s, 9, k)
  }

  /** `\d{k}_(?P<tail>.+)$` starting at index 20 of a screenshot name. */
  ghost predicate TimeThenTail(s: string, k: nat) {
    21 + k <= |s| && AllDigits(s[20..20 + k]) && s[20 + k] == '_' && DotPlusEnd(s[21 + k..])
  }

  /** `^screenshot_(?P<date>\d{8})_\d{4,6}_(?P<tail>.+)$`, IGNORECASE. */
  ghost predicate ScreenshotPattern(s: string) {
    |s| >= 26 && EqualsIgnoreCase(s[..11], "screenshot_") &&
    AllDigits(s[11..19]) && s[19] == '_' &&
    exists k :: 4 <= k <= 6 && TimeThenTail(s, k)
  }

  /**
   * `^videocapture_(?P<date>\d{8}).*$`, IGNORECASE. It has no repetition
   * with a choice of length, so the extractor checks it as written.
   */
  predicate VideoCapturePattern(s: string) {
    |s| >= 21 && EqualsIgnoreCase(s[..13], "videocapture_") &&
    AllDigits(s[13..21]) && DotStarEnd(s[21..])
  }

  // ---------------------------------------------------------------------
  // The scanners

  /** Length of the longest run of digits that starts at index `i`. */
  function DigitRun(s: string, i: nat): (n: nat)
    requires i <= |s|
    ensures i + n <= |s|
    decreases |s| - i
  {
    if i < |s| && IsDigit(s[i]) then 1 + DigitRun(s, i + 1) else 0
  }

  /** The run is all digits and cannot be extended. */
  lemma {:induction false} DigitRunMaximal(s: string, i: nat)
    requires i <= |s|
    ensures AllDigits(s[i..i + DigitRun(s, i)])
    ensures i + DigitRun(s, i) < |s| ==> !IsDigit(s[i + DigitRun(s, i)])
    decreases |s| - i
  {
    if i < |s| && IsDigit(s[i]) {
      DigitRunMaximal(s, i + 1);
      var n := DigitRun(s, i);
      assert s[i..i + n] == [s[i]] + s[i + 1..i + 1 + (n - 1)];
    }
  }

  predicate ScanTimestamp(s: string) {
    |s| >= 13 && AllDigits(s[..8]) && s[8] == '_' &&
    DigitRun(s, 9) >= 4 && DotStarEnd(s[13..])
  }

  predicate ScanScreenshot(s: string) {
    |s| >= 26 && EqualsIgnoreCase(s[..11], "screenshot_") &&
    AllDigits(s[11..19]) && s[19] == '_' &&
    var n := DigitRun(s, 20);
    4 <= n <= 6 && 21 + n <= |s| && s[20 + n] == '_' && DotPlusEnd(s[21 + n..])
  }

  /**
   * `extract_date_from_name`: match the stem against the timestamp, screenshot
   * and video-capture conventions in that order; the first match gives the
   * eight-digit date, taken from the start of the stem or right after the
   * literal prefix.
   */
  function ExtractDate(filename: string): (r: Option<string>)
    ensures r.Some? ==> IsDateKey(r.value)
    ensures r.Some? ==> |filename| >= 13
  {
    var s := Stem(filename);
    if ScanTimestamp(s) then Some(s[..8])
    else if ScanScreenshot(s) then Some(s[11..19])
    else if VideoCapturePattern(s) then Some(s[13..21])
    else None
  }

  // ---------------------------------------------------------------------
  // The scanners accept exactly the patterns

  /** A digit run is at least as long as any all-digit slice starting at `i`. */
  lemma {:induction false} DigitRunCovers(s: string, i: nat, k: nat)
    requires i + k <= |s| && AllDigits(s[i..i + k])
    ensures DigitRun(s, i) >= k
    decreases k
  {
    if k > 0 {
      assert s[i..i + k][0] == s[i];
      assert s[i + 1..i + k] == s[i..i + k][1..];
      DigitRunCovers(s, i + 1, k - 1);
    }
  }

  /** A digit slice followed by a non-digit is the whole run. */
  lemma DigitRunExact(s: string, i: nat, k: nat)
    requires i + k < |s| && AllDigits(s[i..i + k]) && !IsDigit(s[i + k])
    ensures DigitRun(s, i) == k
  {
    DigitRunCovers(s, i, k);
    DigitRunMaximal(s, i);
  }

  /** A digit run of length at least `k` makes the first `k` characters digits. */
  lemma DigitRunPrefix(s: string, i: nat, k: nat)
    requires i <= |s| && DigitRun(s, i) >= k
    ensures AllDigits(s[i..i + k])
  {
    DigitRunMaximal(s, i);
    var n := DigitRun(s, i);
    assert s[i..i + k] == s[i..i + n][..k];
  }

  /** Digits are not newlines, so a digit slice can be absorbed into a `.*$` tail. */
  lemma DotStarEndShift(s: string, a: nat, b: nat)
    requires a <= b <= |s| && AllDigits(s[a..b])
    ensures DotStarEnd(s[a..]) <==> DotStarEnd(s[b..])
  {
  }

  lemma ScanTimestampCorrect(s: string)
    ensures ScanTimestamp(s) <==> TimestampPattern(s)
  {
    if ScanTimestamp(s) {
      DigitRunPrefix(s, 9, 4);
      assert TimeThenAny(s, 9, 4);
    }
    if TimestampPattern(s) {
      var k :| 4 <= k <= 6 && TimeThenAny(s, 9, k);
      DigitRunCovers(s, 9, k);
      DigitRunPrefix(s, 9, k);
      assert s[13..9 + k] == s[9..9 + k][4..];
      DotStarEndShift(s, 13, 9 + k);
    }
  }

  lemma ScanScreenshotCorrect(s: string)
    ensures ScanScreenshot(s) <==> ScreenshotPattern(s)
  {
    if ScanScreenshot(s) {
      DigitRunPrefix(s, 20, DigitRun(s, 20));
      assert TimeThenTail(s, DigitRun(s, 20));
    }
    if ScreenshotPattern(s) {
      var k :| 4 <= k <= 6 && TimeThenTail(s, k);
      DigitRunExact(s, 20, k);
    }
  }

  /**
   * First match wins: the extractor returns the date of the first pattern,
   * in the order timestamp, screenshot, video capture, that the stem
   * matches, and nothing when none does.
   */
  lemma ExtractDateFirstMatch(filename: string)
    ensures var s := Stem(filename);
      ExtractDate(filename) ==
        if TimestampPattern(s) then Some(s[..8])
        else if ScreenshotPattern(s) then Some(s[11..19])
        else if VideoCapturePattern(s) then Some(s[13..21])
        else None
  {
    var s := Stem(filename);
    ScanTimestampCorrect(s);
    ScanScreenshotCorrect(s);
  }

  /** The conventions are anchored at the start: the first character already rules them out. */
  lemma FirstCharacterRulesOut(s: string)
    requires |s| > 0
    ensures !IsDigit(s[0]) ==> !ScanTimestamp(s)
    ensures ToLower(s[0]) != 's' ==> !ScanScreenshot(s)
    ensures ToLower(s[0]) != 'v' ==> !VideoCapturePattern(s)
  {
  }

  // ---------------------------------------------------------------------
  // The examples the naming conventions are documented with

  lemma ExampleTimestamp()
    ensures ExtractDate("20241019_111535.jpg") == Some("20241019")
  {
    var f := "20241019_111535.jpg";
    LastDotAt(f, 15);
    var s := Stem(f);
    assert s == "20241019_111535";
    assert AllDigits(s[..8]);
    assert AllDigits(s[9..13]);
    DigitRunCovers(s, 9, 4);
    assert DotStarEnd(s[13..]);
    assert ScanTimestamp(s);
    assert s[..8] == "20241019";
  }

  lemma ExampleScreenshot()
    ensures ExtractDate("Screenshot_20250831_203240_LINE.png") == Some("20250831")
  {
    var f := "Screenshot_20250831_203240_LINE.png";
    LastDotAt(f, 31);
    ScreenshotExampleScans();
    assert Stem(f) == "Screenshot_20250831_203240_LINE";
  }

  lemma ScreenshotExampleScans()
    ensures var s := "Screenshot_20250831_203240_LINE";
      !ScanTimestamp(s) && ScanScreenshot(s) && s[11..19] == "20250831"
  {
    var s := "Screenshot_20250831_203240_LINE";
    FirstCharacterRulesOut(s);
    ScreenshotExampleFixedParts();
    assert DigitRun(s, 20) == 6 by {
      assert s[20..26] == "203240";
      DigitRunExact(s, 20, 6);
    }
  }

  lemma ScreenshotExampleFixedParts()
    ensures var s := "Screenshot_20250831_203240_LINE";
      EqualsIgnoreCase(s[..11], "screenshot_") && AllDigits(s[11..19]) && s[19] == '_' &&
      s[26] == '_' && DotPlusEnd(s[27..])
  {
  }

  lemma ExampleVideoCapture()
    ensures ExtractDate("VideoCapture_20251028_foo.mp4") == Some("20251028")
  {
    var f := "VideoCapture_20251028_foo.mp4";
    LastDotAt(f, 25);
    VideoCaptureExampleScans();
    assert Stem(f) == "VideoCapture_20251028_foo";
  }

  lemma VideoCaptureExampleScans()
    ensures var s := "VideoCapture_20251028_foo";
      !ScanTimestamp(s) && !ScanScreenshot(s) && VideoCapturePattern(s) && s[13..21] == "20251028"
  {
  }

  /** A screenshot name needs a non-empty tail after the time. */
  lemma ExampleScreenshotWithoutTail()
    ensures ExtractDate("Screenshot_20250831_203240.png") == None
  {
    var f := "Screenshot_20250831_203240.png";
    LastDotAt(f, 26);
    ScreenshotWithoutTailScans();
    assert Stem(f) == "Screenshot_20250831_203240";
  }

  lemma ScreenshotWithoutTailScans()
    ensures var s := "Screenshot_20250831_203240";
      !ScanTimestamp(s) && !ScanScreenshot(s) && !VideoCapturePattern(s)
  {
    var s := "Screenshot_20250831_203240";
    FirstCharacterRulesOut(s);
    assert DigitRun(s, 20) >= 6 by {
      assert s[20..26] == "203240";
      DigitRunCovers(s, 20, 6);
    }
  }

  lemma ExampleNoConvention()
    ensures ExtractDate("random_photo.jpg") == None
  {
  }
}
