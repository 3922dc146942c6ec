/**
 * The small fragment of JavaScript regular expressions that the converter
 * uses with `String.prototype.replace`: patterns made of literal characters
 * and the unescaped wildcard `.`, which matches any character except a line
 * terminator.  `/video.m3u8\n/g`, `/7.ts\n/g`, `/7.ts/` and `/.enc$/` are all
 * of this kind; in each of them the `.` is unescaped, so it is a wildcard and
 * not a literal dot.
 */
module Regex {
  import opened Text

  predicate LineTerminator(c: char) {
    c == '\n' || c == '\r' || c == '\U{2028}' || c == '\U{2029}'
  }

  /** One pattern character against one subject character. */
  predicate CharMatches(p: char, c: char) {
    if p == '.' then !LineTerminator(c) else p == c
  }

  /** The pattern matches the subject starting at index `i`. */
  predicate MatchesAt(s: string, i: nat, pat: string) {
    i + |pat| <= |s| && forall k :: 0 <= k < |pat| ==> CharMatches(pat[k], s[i + k])
  }

  predicate NoMatchFrom(s: string, from: nat, pat: string) {
    forall i :: from <= i <= |s| ==> !MatchesAt(s, i, pat)
  }

  lemma MatchesAtTail(s: string, i: nat, pat: string)
    requires 0 < |s|
    ensures MatchesAt(s[1..], i, pat) <==> MatchesAt(s, i + 1, pat)
  {
    var t := s[1..];
    if MatchesAt(s, i + 1, pat) {
      forall k | 0 <= k < |pat| ensures CharMatches(pat[k], t[i + k]) {
        assert t[i + k] == s[i + 1 + k];
      }
    }
  }

  /**
   * `s.replace(/pat/g, rep)`: scan left to right; at a match emit `rep` and
   * continue after the matched text, otherwise copy one character.
   */
  function ReplaceAll(s: string, pat: string, rep: string): string
    requires |pat| > 0
    decreases |s|
  {
    if s == [] then []
    else if MatchesAt(s, 0, pat) then rep + ReplaceAll(s[|pat|..], pat, rep)
    else [s[0]] + ReplaceAll(s[1..], pat, rep)
  }

  /** A global replace leaves a subject without a match unchanged. */
  lemma {:induction false} ReplaceAllNoMatch(s: string, pat: string, rep: string)
    requires |pat| > 0 && NoMatchFrom(s, 0, pat)
    ensures ReplaceAll(s, pat, rep) == s
    decreases |s|
  {
    if s != [] {
      assert !MatchesAt(s, 0, pat);
      NoMatchTail(s, pat);
      ReplaceAllNoMatch(s[1..], pat, rep);
    }
  }

  lemma NoMatchTail(s: string, pat: string)
    requires 0 < |s|
    ensures NoMatchFrom(s, 0, pat) ==> NoMatchFrom(s[1..], 0, pat)
  {
    forall i | 0 <= i <= |s[1..]| {
      MatchesAtTail(s, i, pat);
    }
  }

  /**
   * A string matches a pattern at a place where the pattern's own text
   * occurs: a literal character matches itself, and the wildcard `.` matches
   * the `.` that the literal reading expects there.
   */
  lemma LiteralOccurrenceMatches(s: string, j: nat, pat: string)
    requires j + |pat| <= |s| && s[j..j + |pat|] == pat
    ensures MatchesAt(s, j, pat)
  {
    forall k | 0 <= k < |pat| ensures CharMatches(pat[k], s[j + k]) {
      assert s[j + k] == s[j..j + |pat|][k];
    }
  }

  /** The leftmost index at or after `from` where the pattern matches. */
  function FirstMatch(s: string, pat: string, from: nat): (r: Option<nat>)
    ensures r.Some? ==> from <= r.value && MatchesAt(s, r.value, pat)
    ensures r.Some? ==> forall i :: from <= i < r.value ==> !MatchesAt(s, i, pat)
    ensures r.None? ==> NoMatchFrom(s, from, pat)
    decreases |s| - from
  {
    if from + |pat| > |s| then None
    else if MatchesAt(s, from, pat) then Some(from)
    else FirstMatch(s, pat, from + 1)
  }

  /** `s.replace(/pat/, rep)`: only the leftmost match is replaced. */
  function ReplaceFirst(s: string, pat: string, rep: string): (r: string)
    ensures NoMatchFrom(s, 0, pat) ==> r == s
    ensures forall j: nat :: MatchesAt(s, j, pat) && (forall i :: 0 <= i < j ==> !MatchesAt(s, i, pat))
                        ==> r == s[..j] + rep + s[j + |pat|..]
  {
    match FirstMatch(s, pat, 0)
    case None => s
    case Some(j) => s[..j] + rep + s[j + |pat|..]
  }

  /**
   * `s.replace(/pat$/, rep)` for a pattern of fixed length: the only match
   * that can end at the end of the subject starts `|pat|` characters before it.
   */
  function ReplaceAtEnd(s: string, pat: string, rep: string): string {
    if |pat| <= |s| && MatchesAt(s, |s| - |pat|, pat) then s[..|s| - |pat|] + rep else s
  }

  // ---------------------------------------------------------------------
  // Replacing in newline-terminated text

  /** The text of `lines`, each followed by a newline. */
  function JoinLines(lines: seq<string>): string {
    if lines == [] then "" else lines[0] + "\n" + JoinLines(lines[1..])
  }

  predicate OneLine(l: string) {
    '\n' !in l
  }

  /** A pattern whose only newline is its last character, such as `video.m3u8\n`. */
  predicate LineEndPattern(pat: string) {
    |pat| > 0 && pat[|pat| - 1] == '\n' && '\n' !in pat[..|pat| - 1]
  }

  /** The pattern matches the line `l` at its end, newline included. */
  predicate MatchesLineEnd(l: string, pat: string) {
    |pat| <= |l| + 1 && MatchesAt(l + "\n", |l| + 1 - |pat|, pat)
  }

  /** What a global replace does to one newline-terminated line. */
  function ReplaceInLine(l: string, pat: string, rep: string): (r: string)
    ensures !MatchesLineEnd(l, pat) ==> r == l + "\n"
  {
    if MatchesLineEnd(l, pat) then (l + "\n")[..|l| + 1 - |pat|] + rep else l + "\n"
  }

  function ReplaceInLines(lines: seq<string>, pat: string, rep: string): string {
    if lines == [] then "" else ReplaceInLine(lines[0], pat, rep) + ReplaceInLines(lines[1..], pat, rep)
  }

  /** Inside a terminated line, a line-end pattern can only match where it ends at the newline. */
  lemma MatchOnlyAtLineEnd(L: string, j: nat, s: string, pat: string)
    requires LineEndPattern(pat)
    requires 0 < |L| && L[|L| - 1] == '\n' && OneLine(L[..|L| - 1])
    requires j < |L|
    requires MatchesAt(L[j..] + s, 0, pat)
    ensures j == |L| - |pat|
  {
    var t := L[j..] + s;
    var p := |pat|;
    assert CharMatches(pat[p - 1], t[p - 1]);
    assert t[p - 1] == '\n';
    forall k | 0 <= k < p - 1 ensures t[k] != '\n' {
      assert pat[k] in pat[..p - 1];
      assert CharMatches(pat[k], t[k]);
    }
    forall k | 0 <= k < |L| - 1 - j ensures t[k] != '\n' {
      assert t[k] == L[..|L| - 1][j + k];
    }
    assert t[|L| - 1 - j] == '\n';
  }

  /** The part of a terminated line `L` from index `j` on, after a global replace. */
  function LineTail(L: string, j: nat, pat: string, rep: string): string
    requires j <= |L|
  {
    if |pat| <= |L| && j <= |L| - |pat| && MatchesAt(L, |L| - |pat|, pat)
    then L[j..|L| - |pat|] + rep
    else L[j..]
  }

  /** A match of the pattern at the end of `L` is a match at the start of `L[j..] + s` when `j` is there. */
  lemma LineEndMatchShifts(L: string, j: nat, s: string, pat: string)
    requires j <= |L|
    ensures j == |L| - |pat| && MatchesAt(L, j, pat) ==> MatchesAt(L[j..] + s, 0, pat)
  {
    if j == |L| - |pat| && MatchesAt(L, j, pat) {
      forall k | 0 <= k < |pat| ensures (L[j..] + s)[k] == L[j + k] { }
    }
  }

  lemma ScanLineAtMatch(L: string, j: nat, s: string, pat: string, rep: string)
    requires LineEndPattern(pat)
    requires 0 < |L| && L[|L| - 1] == '\n' && OneLine(L[..|L| - 1])
    requires j < |L|
    requires MatchesAt(L[j..] + s, 0, pat)
    ensures ReplaceAll(L[j..] + s, pat, rep) == LineTail(L, j, pat, rep) + ReplaceAll(s, pat, rep)
  {
    var t := L[j..] + s;
    MatchOnlyAtLineEnd(L, j, s, pat);
    assert t[|pat|..] == s;
    forall k | 0 <= k < |pat| ensures L[|L| - |pat| + k] == t[k] { }
    assert MatchesAt(L, |L| - |pat|, pat);
    assert LineTail(L, j, pat, rep) == rep;
  }

  lemma {:induction false} ScanLine(L: string, j: nat, s: string, pat: string, rep: string)
    requires LineEndPattern(pat)
    requires 0 < |L| && L[|L| - 1] == '\n' && OneLine(L[..|L| - 1])
    requires j <= |L|
    ensures ReplaceAll(L[j..] + s, pat, rep) == LineTail(L, j, pat, rep) + ReplaceAll(s, pat, rep)
    decreases |L| - j
  {
    if j == |L| {
      assert L[j..] + s == s;
    } else if MatchesAt(L[j..] + s, 0, pat) {
      ScanLineAtMatch(L, j, s, pat, rep);
    } else {
      ScanLine(L, j + 1, s, pat, rep);
      ScanLineSkip(L, j, s, pat, rep);
    }
  }

  /** Where the pattern does not match, the scan copies one character of the line. */
  lemma ScanLineSkip(L: string, j: nat, s: string, pat: string, rep: string)
    requires |pat| > 0
    requires j < |L|
    requires !MatchesAt(L[j..] + s, 0, pat)
    requires ReplaceAll(L[j + 1..] + s, pat, rep) == LineTail(L, j + 1, pat, rep) + ReplaceAll(s, pat, rep)
    ensures ReplaceAll(L[j..] + s, pat, rep) == LineTail(L, j, pat, rep) + ReplaceAll(s, pat, rep)
  {
    var t := L[j..] + s;
    assert t[1..] == L[j + 1..] + s && t[0] == L[j];
    ReplaceAllSkip(t, pat, rep);
    LineEndMatchShifts(L, j, s, pat);
    LineTailStep(L, j, pat, rep);
    calc {
      ReplaceAll(t, pat, rep);
      [L[j]] + ReplaceAll(L[j + 1..] + s, pat, rep);
      [L[j]] + (LineTail(L, j + 1, pat, rep) + ReplaceAll(s, pat, rep));
      ([L[j]] + LineTail(L, j + 1, pat, rep)) + ReplaceAll(s, pat, rep);
    }
  }

  /** Where the pattern does not match at the start, a global replace keeps the first character. */
  lemma ReplaceAllSkip(t: string, pat: string, rep: string)
    requires |pat| > 0 && 0 < |t| && !MatchesAt(t, 0, pat)
    ensures ReplaceAll(t, pat, rep) == [t[0]] + ReplaceAll(t[1..], pat, rep)
  {
  }

  lemma LineTailStep(L: string, j: nat, pat: string, rep: string)
    requires j < |L|
    requires !(j == |L| - |pat| && MatchesAt(L, j, pat))
    ensures LineTail(L, j, pat, rep) == [L[j]] + LineTail(L, j + 1, pat, rep)
  {
    var m := |L| - |pat|;
    if |pat| <= |L| && j + 1 <= m && MatchesAt(L, m, pat) {
      calc {
        LineTail(L, j, pat, rep);
        L[j..m] + rep;
        { assert L[j..m] == [L[j]] + L[j + 1..m]; }
        [L[j]] + L[j + 1..m] + rep;
        [L[j]] + LineTail(L, j + 1, pat, rep);
      }
    } else {
      assert j + 1 > m || !(|pat| <= |L| && MatchesAt(L, m, pat));
      assert LineTail(L, j, pat, rep) == L[j..];
      assert LineTail(L, j + 1, pat, rep) == L[j + 1..];
      assert L[j..] == [L[j]] + L[j + 1..];
    }
  }

  /** Scanned from its start, a terminated line is replaced as `ReplaceInLine` says. */
  lemma LineTailWhole(l: string, pat: string, rep: string)
    ensures LineTail(l + "\n", 0, pat, rep) == ReplaceInLine(l, pat, rep)
  {
    var L := l + "\n";
    assert L[0..] == L;
    if |pat| <= |L| {
      assert L[0..|L| - |pat|] == L[..|L| - |pat|];
    }
  }

  /** A global replace with a line-end pattern works line by line. */
  lemma {:induction false} ReplaceAllByLines(lines: seq<string>, pat: string, rep: string)
    requires LineEndPattern(pat)
    requires forall i :: 0 <= i < |lines| ==> OneLine(lines[i])
    ensures ReplaceAll(JoinLines(lines), pat, rep) == ReplaceInLines(lines, pat, rep)
  {
    if lines != [] {
      var L := lines[0] + "\n";
      assert L[..|L| - 1] == lines[0];
      assert JoinLines(lines) == L[0..] + JoinLines(lines[1..]);
      ScanLine(L, 0, JoinLines(lines[1..]), pat, rep);
      ReplaceAllByLines(lines[1..], pat, rep);
      LineTailWhole(lines[0], pat, rep);
    }
  }

  /** A line ending with the pattern's own text is rewritten by swapping that text for the replacement. */
  lemma ReplaceInLineLiteral(prefix: string, body: string, pat: string, rep: string)
    requires body + "\n" == pat
    ensures ReplaceInLine(prefix + body, pat, rep) == prefix + rep
  {
    var l := prefix + body;
    var t := l + "\n";
    assert t == prefix + pat;
    assert t[|prefix|..|prefix| + |pat|] == pat;
    LiteralOccurrenceMatches(t, |prefix|, pat);
    assert t[..|l| + 1 - |pat|] == prefix;
  }

  /**
   * A line whose last character differs from the literal character the
   * pattern has just before its newline is left as it is.
   */
  lemma NoLineEndMatchByLastChar(l: string, pat: string)
    requires 2 <= |pat| && pat[|pat| - 2] != '.'
    requires 0 < |l| && l[|l| - 1] != pat[|pat| - 2]
    ensures !MatchesLineEnd(l, pat)
  {
    if |pat| <= |l| + 1 {
      var t := l + "\n";
      var k := |pat| - 2;
      assert t[|l| + 1 - |pat| + k] == l[|l| - 1];
      assert !CharMatches(pat[k], t[|l| + 1 - |pat| + k]);
    }
  }

  lemma {:induction false} ReplaceInLinesAppend(a: seq<string>, b: seq<string>, pat: string, rep: string)
    ensures ReplaceInLines(a + b, pat, rep) == ReplaceInLines(a, pat, rep) + ReplaceInLines(b, pat, rep)
  {
    if a == [] {
      assert a + b == b;
    } else {
      assert (a + b)[0] == a[0];
      assert (a + b)[1..] == a[1..] + b;
      ReplaceInLinesAppend(a[1..], b, pat, rep);
    }
  }

  /** Line by line: when each line is rewritten to the matching line of `out`, the text becomes `out`'s text. */
  lemma {:induction false} ReplaceInLinesByLine(lines: seq<string>, out: seq<string>, pat: string, rep: string)
    requires |out| == |lines|
    requires forall k :: 0 <= k < |lines| ==> ReplaceInLine(lines[k], pat, rep) == out[k] + "\n"
    ensures ReplaceInLines(lines, pat, rep) == JoinLines(out)
  {
    if lines != [] {
      ReplaceInLinesByLine(lines[1..], out[1..], pat, rep);
    }
  }
}
