/**
 * The two textual rewrites of stage 2 that derive the unencrypted playlists:
 * `main.replace(/video.m3u8\n/g, "video_unenc.m3u8\n")` on the master
 * playlist and `sub.replace(/7.ts\n/g, "7_unenc.ts\n")` on a media playlist.
 * Both patterns hold an unescaped `.`, a wildcard; the lemmas show that on
 * the texts the converter and the transcoder produce, the rewrite is the
 * one the literal reading describes.
 */
module Playlists {
  import opened Text
  import opened Regex
  import opened Ladder
  import opened Segments

  const MasterPattern := "video.m3u8\n"
  const MasterReplacement := "video_unenc.m3u8\n"
  const MediaPattern := "7.ts\n"
  const MediaReplacement := "7_unenc.ts\n"

  // ---------------------------------------------------------------------
  // Master playlist

  /** A rung's unencrypted media playlist, relative to the master playlist. */
  function UnencMediaPath(r: Rung): string {
    DirName(r) + "/video_unenc.m3u8"
  }

  function UnencRungLines(rs: seq<Rung>): seq<seq<string>> {
    seq(|rs|, i requires 0 <= i < |rs| => [StreamInf(rs[i]), UnencMediaPath(rs[i])])
  }

  /**
   * An unencrypted master playlist defined line by line: the same header
   * and stream-info lines as the master, each rung pointing at its
   * `video_unenc.m3u8`.
   */
  function UnencMasterText(rs: seq<Rung>): string {
    JoinLines(MasterHeader + Flatten(UnencRungLines(rs)))
  }

  predicate AllOneLine(ls: seq<string>) {
    forall k :: 0 <= k < |ls| ==> OneLine(ls[k])
  }

  lemma AllOneLineAppend(a: seq<string>, b: seq<string>)
    requires AllOneLine(a) && AllOneLine(b)
    ensures AllOneLine(a + b)
  {
    forall k | 0 <= k < |a + b| ensures OneLine((a + b)[k]) {
      if k < |a| {
        assert (a + b)[k] == a[k];
      } else {
        assert (a + b)[k] == b[k - |a|];
      }
    }
  }

  lemma RungLinesOneLine(r: Rung)
    ensures AllOneLine([StreamInf(r), MediaPath(r)])
  {
    StreamInfShape(r);
    DirNameShape(r);
    assert OneLine(MediaPath(r));
  }

  /** A stream-info line has no newline, and its last character, the last of the resolution, is not an `8`. */
  lemma StreamInfShape(r: Rung)
    ensures OneLine(StreamInf(r))
    ensures StreamInf(r)[|StreamInf(r)| - 1] != '8'
  {
    var res := Resolution(r);
    ResolutionShape(r);
    BandwidthShape(r);
    var s := StreamInf(r);
    assert s == "#EXT-X-STREAM-INF:BANDWIDTH=" + Bandwidth(r) + ",RESOLUTION=" + res;
    assert s[|s| - 1] == res[|res| - 1];
  }

  lemma ResolutionShape(r: Rung)
    ensures OneLine(Resolution(r)) && 0 < |Resolution(r)|
    ensures Resolution(r)[|Resolution(r)| - 1] != '8'
  {
    match r
    case XXLD =>
    case XLD =>
    case LD =>
    case SD =>
    case HD =>
    case FHD =>
  }

  lemma BandwidthShape(r: Rung)
    ensures OneLine(Bandwidth(r))
  {
    match r
    case XXLD =>
    case XLD =>
    case LD =>
    case SD =>
    case HD =>
    case FHD =>
  }

  lemma DirNameShape(r: Rung)
    ensures OneLine(DirName(r))
  {
    match r
    case XXLD =>
    case XLD =>
    case LD =>
    case SD =>
    case HD =>
    case FHD =>
  }

  /** Each line of `ls` is rewritten to the matching line of `out`. */
  predicate RewritesTo(ls: seq<string>, out: seq<string>, pat: string, rep: string) {
    |ls| == |out| && forall k :: 0 <= k < |ls| ==> ReplaceInLine(ls[k], pat, rep) == out[k] + "\n"
  }

  lemma {:induction false} FlattenOneLine(ps: seq<seq<string>>)
    requires forall i :: 0 <= i < |ps| ==> AllOneLine(ps[i])
    ensures AllOneLine(Flatten(ps))
  {
    if ps != [] {
      FlattenOneLine(ps[..|ps| - 1]);
      AllOneLineAppend(Flatten(ps[..|ps| - 1]), ps[|ps| - 1]);
    }
  }

  /** Groups of lines rewritten group by group give the text of the rewritten groups. */
  lemma {:induction false} FlattenRewrite(ps: seq<seq<string>>, out: seq<seq<string>>, pat: string, rep: string)
    requires |ps| == |out|
    requires forall i :: 0 <= i < |ps| ==> RewritesTo(ps[i], out[i], pat, rep)
    ensures ReplaceInLines(Flatten(ps), pat, rep) == JoinLines(Flatten(out))
  {
    if ps != [] {
      var n := |ps| - 1;
      FlattenRewrite(ps[..n], out[..n], pat, rep);
      ReplaceInLinesAppend(Flatten(ps[..n]), ps[n], pat, rep);
      ReplaceInLinesByLine(ps[n], out[n], pat, rep);
      JoinLinesAppend(Flatten(out[..n]), out[n]);
    }
  }

  /** A stream-info line is left as it is by the master rewrite. */
  lemma StreamInfUnchanged(r: Rung)
    ensures ReplaceInLine(StreamInf(r), MasterPattern, MasterReplacement) == StreamInf(r) + "\n"
  {
    StreamInfShape(r);
    NoLineEndMatchByLastChar(StreamInf(r), MasterPattern);
  }

  /** A line `d/video.m3u8` becomes `d/video_unenc.m3u8`, whatever the directory `d`. */
  lemma MediaPathLineRewritten(d: string)
    ensures ReplaceInLine(d + "/video.m3u8", MasterPattern, MasterReplacement) == d + "/video_unenc.m3u8" + "\n"
  {
    var body := "video.m3u8";
    assert body + "\n" == MasterPattern;
    ReplaceInLineLiteral(d + "/", body, MasterPattern, MasterReplacement);
    assert d + "/" + body == d + "/video.m3u8";
    assert d + "/" + MasterReplacement == d + "/video_unenc.m3u8" + "\n";
  }

  /** A media path line is turned into the rung's unencrypted media path. */
  lemma MediaPathRewritten(r: Rung)
    ensures ReplaceInLine(MediaPath(r), MasterPattern, MasterReplacement) == UnencMediaPath(r) + "\n"
  {
    MediaPathLineRewritten(DirName(r));
  }

  lemma RungLinesRewrite(r: Rung)
    ensures RewritesTo([StreamInf(r), MediaPath(r)], [StreamInf(r), UnencMediaPath(r)], MasterPattern, MasterReplacement)
  {
    StreamInfUnchanged(r);
    MediaPathRewritten(r);
  }

  lemma MasterHeaderFacts()
    ensures AllOneLine(MasterHeader)
    ensures RewritesTo(MasterHeader, MasterHeader, MasterPattern, MasterReplacement)
  {
    var h := MasterHeader;
    NoLineEndMatchByLastChar(h[0], MasterPattern);
    NoLineEndMatchByLastChar(h[1], MasterPattern);
  }

  /**
   * Stage 2's unencrypted master: the global rewrite of the master playlist
   * replaces exactly each rung's `…/video.m3u8` line by `…/video_unenc.m3u8`
   * and leaves the header and stream-info lines alone; the wildcard in the
   * pattern matches nothing the literal pattern would not.
   */
  lemma UnencMaster(rs: seq<Rung>)
    ensures ReplaceAll(MasterText(rs), MasterPattern, MasterReplacement) == UnencMasterText(rs)
  {
    var ps, out := RungLines(rs), UnencRungLines(rs);
    forall i | 0 <= i < |ps| ensures AllOneLine(ps[i]) && RewritesTo(ps[i], out[i], MasterPattern, MasterReplacement) {
      RungLinesOneLine(rs[i]);
      RungLinesRewrite(rs[i]);
    }
    MasterHeaderFacts();
    FlattenOneLine(ps);
    AllOneLineAppend(MasterHeader, Flatten(ps));
    ReplaceAllByLines(MasterLines(rs), MasterPattern, MasterReplacement);
    ReplaceInLinesAppend(MasterHeader, Flatten(ps), MasterPattern, MasterReplacement);
    ReplaceInLinesByLine(MasterHeader, MasterHeader, MasterPattern, MasterReplacement);
    FlattenRewrite(ps, out, MasterPattern, MasterReplacement);
    JoinLinesAppend(MasterHeader, Flatten(out));
  }

  // ---------------------------------------------------------------------
  // Media playlists

  /**
   * A line of a media playlist as the transcoder writes it: the name of a
   * segment, or a tag or other line that does not end in `ts`.
   */
  ghost predicate MediaLine(l: string) {
    OneLine(l) && ((exists i: nat :: l == SegmentName(i)) || !EndsWith(l, "ts"))
  }

  /** The literal reading of the media rewrite on one line. */
  function UnencLine(l: string): (u: string)
    ensures EndsWith(l, "7.ts") ==> EndsWith(u, "7_unenc.ts") && u[..|u| - 10] == l[..|l| - 4]
    ensures !EndsWith(l, "7.ts") ==> u == l
  {
    if EndsWith(l, "7.ts") then SwapSuffix(l, "7.ts", "7_unenc.ts") else l
  }

  /** Where the media pattern matches at the end of a line, the line ends in `ts`. */
  lemma MediaMatchEndsTs(l: string)
    ensures MatchesLineEnd(l, MediaPattern) ==> EndsWith(l, "ts")
  {
    if MatchesLineEnd(l, MediaPattern) {
      var t := l + "\n";
      assert CharMatches(MediaPattern[2], t[|l| - 2]);
      assert CharMatches(MediaPattern[3], t[|l| - 1]);
      assert l[|l| - 2..] == [t[|l| - 2], t[|l| - 1]];
    }
  }

  /** Where the media pattern matches at the end of `p` + `c` + `.ts`, the character `c` is a 7. */
  lemma MediaMatchDigit(p: string, c: char)
    ensures MatchesLineEnd(p + [c] + ".ts", MediaPattern) ==> c == '7'
  {
    var l := p + [c] + ".ts";
    if MatchesLineEnd(l, MediaPattern) {
      var t := l + "\n";
      assert CharMatches(MediaPattern[0], t[|l| - 4]);
      assert t[|l| - 4] == c;
    }
  }

  /** A line `p` + digit + `.ts` under the media rewrite: renamed when the digit is a 7, kept otherwise. */
  lemma DigitLineRewrite(p: string, c: char)
    ensures ReplaceInLine(p + [c] + ".ts", MediaPattern, MediaReplacement)
            == (if c == '7' then p + "7_unenc.ts" else p + [c] + ".ts") + "\n"
  {
    MediaMatchDigit(p, c);
    if c == '7' {
      assert p + [c] + ".ts" == p + "7.ts";
      ReplaceInLineLiteral(p, "7.ts", MediaPattern, MediaReplacement);
      assert p + MediaReplacement == p + "7_unenc.ts" + "\n";
    }
  }

  /** A segment line is rewritten as the literal reading says. */
  lemma SegmentLineRewrite(i: nat)
    ensures ReplaceInLine(SegmentName(i), MediaPattern, MediaReplacement) == UnencLine(SegmentName(i)) + "\n"
  {
    SegmentNameSplit(i);
    EndsWith7Char(Stem(i), DigitChar(i % 10));
    DigitLineRewrite(Stem(i), DigitChar(i % 10));
  }

  /** A line not ending in `ts` is kept by the media rewrite and by its literal reading. */
  lemma OtherLineRewrite(l: string)
    requires !EndsWith(l, "ts")
    ensures ReplaceInLine(l, MediaPattern, MediaReplacement) == UnencLine(l) + "\n"
  {
    MediaMatchEndsTs(l);
    if |l| >= 4 {
      assert l[|l| - 2..] == l[|l| - 4..][2..];
    }
  }

  /** The wildcard rewrite of one media playlist line agrees with the literal reading. */
  lemma MediaLineRewrite(l: string)
    requires MediaLine(l)
    ensures ReplaceInLine(l, MediaPattern, MediaReplacement) == UnencLine(l) + "\n"
  {
    if i: nat :| l == SegmentName(i) {
      SegmentLineRewrite(i);
    } else {
      OtherLineRewrite(l);
    }
  }

  /**
   * Stage 2's unencrypted media playlist: on a playlist made of segment
   * names and lines not ending in `ts`, `replace(/7.ts\n/g, "7_unenc.ts\n")`
   * renames exactly the segments whose name ends in `7.ts`, each to its
   * `…7_unenc.ts` name, and keeps every other line.
   */
  lemma UnencMedia(lines: seq<string>)
    requires forall k :: 0 <= k < |lines| ==> MediaLine(lines[k])
    ensures ReplaceAll(JoinLines(lines), MediaPattern, MediaReplacement)
            == JoinLines(seq(|lines|, k requires 0 <= k < |lines| => UnencLine(lines[k])))
  {
    var out := seq(|lines|, k requires 0 <= k < |lines| => UnencLine(lines[k]));
    forall k | 0 <= k < |lines| ensures ReplaceInLine(lines[k], MediaPattern, MediaReplacement) == out[k] + "\n" {
      MediaLineRewrite(lines[k]);
    }
    ReplaceAllByLines(lines, MediaPattern, MediaReplacement);
    ReplaceInLinesByLine(lines, out, MediaPattern, MediaReplacement);
  }

  /** On a segment line the literal reading is the move-aside name of stage 2. */
  lemma UnencLineOfSegment(i: nat)
    ensures UnencLine(SegmentName(i)) == if i % 10 == 7 then UnencSegmentName(i) else SegmentName(i)
  {
    SegmentEndsWith7(i);
    if i % 10 == 7 {
      UnencRenameOfSegment(i);
    }
  }
}
