/**
 * Segment file names.  The transcoder is given the pattern `video-%05d.ts`
 * and `-start_number 1`, so segment i (from 1) is `video-` followed by i
 * padded with zeros to five digits and `.ts`.  This module relates those
 * names to the tests and renames the reconciliation stages apply to them:
 * `endsWith("7.ts")`, `replace(/7.ts/, "7_unenc.ts")` and
 * `replace(/.enc$/, "")`.
 */
module Segments {
  import opened Text
  import opened Regex

  /** The five-digit (or longer) counter in the name of segment i. */
  function Counter(i: nat): (z: string)
    ensures AllDigits(z) && 5 <= |z|
    ensures z[|z| - 1] == DigitChar(i % 10)
  {
    var d := Decimal(i);
    var z := ZeroPad(d, 5);
    assert z[|z| - 1] == z[|z| - |d|..][|d| - 1];
    z
  }

  /** The file name of segment i, from the pattern `video-%05d.ts`. */
  function SegmentName(i: nat): string {
    "video-" + Counter(i) + ".ts"
  }

  /** A segment name up to its last digit. */
  function Stem(i: nat): string {
    "video-" + Counter(i)[..|Counter(i)| - 1]
  }

  /** The name a plain segment i is moved aside to: `…7.ts` becomes `…7_unenc.ts`. */
  function UnencSegmentName(i: nat): string {
    Stem(i) + "7_unenc.ts"
  }

  /** A segment name is its stem, the last digit of its number, and `.ts`; the stem holds no `t`. */
  lemma SegmentNameSplit(i: nat)
    ensures SegmentName(i) == Stem(i) + [DigitChar(i % 10)] + ".ts"
    ensures 't' !in Stem(i)
  {
    var z := Counter(i);
    assert z == z[..|z| - 1] + [z[|z| - 1]];
    var p := z[..|z| - 1];
    forall k | 0 <= k < |p| ensures p[k] != 't' {
      assert p[k] == z[k];
      assert IsDigit(z[k]);
    }
    assert 't' !in "video-";
  }

  lemma DigitCharIs7(d: nat)
    requires d < 10
    ensures DigitChar(d) == '7' <==> d == 7
  {
  }

  /** A name `p` + one character + `.ts` ends in `7.ts` exactly when that character is a 7. */
  lemma EndsWith7Char(p: string, c: char)
    ensures EndsWith(p + [c] + ".ts", "7.ts") <==> c == '7'
  {
    var s := p + [c] + ".ts";
    assert s[|s| - 4..] == [c] + ".ts";
    if c != '7' {
      assert s[|s| - 4..][0] != "7.ts"[0];
    }
  }

  /** A segment name read back: the counter between `video-` and `.ts` is the segment number. */
  lemma SegmentNameInjective(i: nat, j: nat)
    requires SegmentName(i) == SegmentName(j)
    ensures i == j
  {
    var s := SegmentName(i);
    assert s[6..|s| - 3] == Counter(i);
    assert s[6..|s| - 3] == Counter(j);
    PaddedDecimalValue(i, 5);
    PaddedDecimalValue(j, 5);
  }

  /** Different segments have different names. */
  lemma SegmentNamesDiffer(i: nat, j: nat)
    requires i != j
    ensures SegmentName(i) != SegmentName(j)
  {
    if SegmentName(i) == SegmentName(j) {
      SegmentNameInjective(i, j);
    }
  }

  /**
   * `endsWith("7.ts")` on a segment name holds exactly for the segments
   * numbered 7, 17, 27, …: those whose number ends in the digit 7.
   */
  lemma SegmentEndsWith7(i: nat)
    ensures EndsWith(SegmentName(i), "7.ts") <==> i % 10 == 7
  {
    SegmentNameSplit(i);
    EndsWith7Char(Stem(i), DigitChar(i % 10));
    DigitCharIs7(i % 10);
  }

  /** Every segment name is a `.ts` name and not an `.enc` one, whatever its number. */
  lemma SegmentEndsWithTs(i: nat)
    ensures EndsWith(SegmentName(i), ".ts")
    ensures !EndsWith(SegmentName(i), ".enc")
  {
    var s := SegmentName(i);
    assert s[|s| - 3..] == ".ts";
    assert s[|s| - 1] == 's';
  }

  /**
   * `replace(/7.ts/, "7_unenc.ts")` on `p` + `7.ts` where `p` holds no `t`:
   * the wildcard pattern needs a `t` two places after its start, so its
   * leftmost match is the final `7.ts`.
   */
  lemma ReplaceFirstAtEnd(p: string)
    requires 't' !in p
    ensures ReplaceFirst(p + "7.ts", "7.ts", "7_unenc.ts") == p + "7_unenc.ts"
  {
    var s := p + "7.ts";
    var m := |p|;
    assert s[m..m + 4] == "7.ts";
    LiteralOccurrenceMatches(s, m, "7.ts");
    forall j | 0 <= j < m ensures !MatchesAt(s, j, "7.ts") {
      if j + 2 < m {
        assert s[j + 2] == p[j + 2];
      }
      assert s[j + 2] != 't';
      assert !CharMatches("7.ts"[2], s[j + 2]);
    }
    assert s[..m] == p;
    assert s[m + 4..] == [];
  }

  /**
   * Stage 2's `tsFile.replace(/7.ts/, "7_unenc.ts")` on the name of segment
   * i ending in 7 gives `UnencSegmentName(i)`: the name with its final
   * `7.ts` swapped for `7_unenc.ts`, exactly as the literal reading would
   * have it.
   */
  lemma UnencRenameOfSegment(i: nat)
    requires i % 10 == 7
    ensures EndsWith(SegmentName(i), "7.ts")
    ensures ReplaceFirst(SegmentName(i), "7.ts", "7_unenc.ts") == UnencSegmentName(i)
    ensures UnencSegmentName(i) == SwapSuffix(SegmentName(i), "7.ts", "7_unenc.ts")
  {
    SegmentNameSplit(i);
    DigitCharIs7(i % 10);
    var s := SegmentName(i);
    assert s == Stem(i) + "7.ts";
    EndsWith7Char(Stem(i), '7');
    ReplaceFirstAtEnd(Stem(i));
    assert s[..|s| - 4] == Stem(i);
  }

  /** A name `p` + `7_unenc.ts` ends in `.ts`, but neither in `7.ts` nor in `.enc`. */
  lemma UnencSuffixEnds(p: string)
    ensures !EndsWith(p + "7_unenc.ts", "7.ts")
    ensures !EndsWith(p + "7_unenc.ts", ".enc")
    ensures EndsWith(p + "7_unenc.ts", ".ts")
  {
    var u := p + "7_unenc.ts";
    assert u[|u| - 4..] == "c.ts";
    assert u[|u| - 4..][0] != "7.ts"[0];
    assert u[|u| - 1] == 's';
  }

  /** The moved-aside name ends in `.ts`, but neither in `7.ts` nor in `.enc`. */
  lemma UnencSegmentNameEnds(i: nat)
    ensures !EndsWith(UnencSegmentName(i), "7.ts")
    ensures !EndsWith(UnencSegmentName(i), ".enc")
    ensures EndsWith(UnencSegmentName(i), ".ts")
  {
    UnencSuffixEnds(Stem(i));
  }

  /** `p` + `7_unenc.ts` is never `q` + a digit + `.ts`. */
  lemma UnencSuffixIsNoDigitName(p: string, q: string, c: char)
    requires IsDigit(c)
    ensures p + "7_unenc.ts" != q + [c] + ".ts"
  {
    var u, s := p + "7_unenc.ts", q + [c] + ".ts";
    assert u[|u| - 4] == 'c';
    assert s[|s| - 4] == c;
  }

  /** No moved-aside name is the name of a segment. */
  lemma UnencSegmentNameIsNoSegment(i: nat, j: nat)
    ensures UnencSegmentName(i) != SegmentName(j)
  {
    SegmentNameSplit(j);
    UnencSuffixIsNoDigitName(Stem(i), Stem(j), DigitChar(j % 10));
  }

  /** Two segments ending in 7 are moved aside to different names. */
  lemma UnencSegmentNameInjective(i: nat, j: nat)
    requires i % 10 == 7 && j % 10 == 7
    requires UnencSegmentName(i) == UnencSegmentName(j)
    ensures i == j
  {
    UnencRenameOfSegment(i);
    UnencRenameOfSegment(j);
    SwapSuffixInjective(SegmentName(i), SegmentName(j), "7.ts", "7_unenc.ts");
    SegmentNameInjective(i, j);
  }

  /**
   * Stage 2's `tsFile.replace(/.enc$/, "")` on a name ending in `.enc`
   * drops exactly those four characters.
   */
  lemma StripEnc(f: string)
    requires EndsWith(f, ".enc")
    ensures ReplaceAtEnd(f, ".enc", "") == f[..|f| - 4]
  {
    LiteralOccurrenceMatches(f, |f| - 4, ".enc");
  }
}
