/**
 * The rendition ladder and the planning part of one conversion pass: which
 * rungs a quality class gets, the even output width of each rung, the text
 * of the top-level HLS master playlist (section 4.3.4.2 of RFC 8216,
 * EXT-X-STREAM-INF) and the argument list handed to the transcoder.
 */
module Ladder {
  import opened Text
  import opened Regex
  import opened Classify

  datatype Rung = XXLD | XLD | LD | SD | HD | FHD

  /** The rung table, lowest resolution first. */
  const AllRungs: seq<Rung> := [XXLD, XLD, LD, SD, HD, FHD]

  /** The rung's position in the table. */
  function Index(r: Rung): (k: nat)
    ensures k < |AllRungs| && AllRungs[k] == r
  {
    match r
    case XXLD => 0
    case XLD => 1
    case LD => 2
    case SD => 3
    case HD => 4
    case FHD => 5
  }

  /** A rung is produced when the quality class is at most this number. */
  function MaxClass(r: Rung): int {
    match r
    case XXLD => 2
    case XLD => 2
    case LD => 2
    case SD => 1
    case HD => 0
    case FHD => -1
  }

  /** The rung's output directory under the working directory. */
  function DirName(r: Rung): string {
    match r
    case XXLD => "videoHlsXXld"
    case XLD => "videoHlsXld"
    case LD => "videoHlsLd"
    case SD => "videoHlsSd"
    case HD => "videoHlsHd"
    case FHD => "videoHlsFhd"
  }

  function Height(r: Rung): nat {
    match r
    case XXLD => 144
    case XLD => 240
    case LD => 360
    case SD => 480
    case HD => 720
    case FHD => 1080
  }

  /** Video bitrate, also used as maximum rate and buffer size. */
  function Bitrate(r: Rung): string {
    match r
    case XXLD => "50k"
    case XLD => "100k"
    case LD => "200k"
    case SD => "700k"
    case HD => "1300k"
    case FHD => "2300k"
  }

  /** The BANDWIDTH attribute announced in the master playlist, in bits per second. */
  function Bandwidth(r: Rung): string {
    match r
    case XXLD => "250000"
    case XLD => "350000"
    case LD => "550000"
    case SD => "950000"
    case HD => "1650000"
    case FHD => "3250000"
  }

  /** The RESOLUTION attribute announced in the master playlist (fixed, whatever the source's ratio). */
  function Resolution(r: Rung): string {
    match r
    case XXLD => "256x144"
    case XLD => "426x240"
    case LD => "640x360"
    case SD => "854x480"
    case HD => "1280x720"
    case FHD => "1920x1080"
  }

  // ---------------------------------------------------------------------
  // Rung selection

  /**
   * The rungs produced for a quality class, in table order: XXLD, XLD and LD
   * for every class up to 2, then SD from class 1, HD from class 0 and FHD
   * at class -1.
   */
  function Included(iClass: int): seq<Rung> {
    (if iClass <= 2 then [XXLD, XLD, LD] else [])
    + (if iClass <= 1 then [SD] else [])
    + (if iClass <= 0 then [HD] else [])
    + (if iClass <= -1 then [FHD] else [])
  }

  /** How many rungs a class gets. */
  function RungCount(iClass: int): nat {
    if iClass <= -1 then 6 else if iClass <= 2 then 5 - iClass else 0
  }

  /**
   * The included rungs are a prefix of the table: class c gets the first
   * 5 - c rungs.
   */
  lemma IncludedIsPrefix(iClass: int)
    ensures Included(iClass) == AllRungs[..RungCount(iClass)]
    ensures -1 <= iClass <= 2 ==> |Included(iClass)| == 5 - iClass
  {
    if iClass <= -1 {
      assert AllRungs[..6] == [XXLD, XLD, LD] + [SD] + [HD] + [FHD];
    } else if iClass <= 0 {
      assert AllRungs[..5] == [XXLD, XLD, LD] + [SD] + [HD];
    } else if iClass <= 1 {
      assert AllRungs[..4] == [XXLD, XLD, LD] + [SD];
    } else if iClass <= 2 {
      assert AllRungs[..3] == [XXLD, XLD, LD];
    }
  }

  /** A rung is included exactly when the class does not exceed the rung's threshold. */
  lemma IncludedMembership(iClass: int, r: Rung)
    ensures r in Included(iClass) <==> iClass <= MaxClass(r)
  {
    IncludedIsPrefix(iClass);
    var c := iClass;
    if c <= -1 {
      assert AllRungs[..6] == [XXLD, XLD, LD, SD, HD, FHD];
    } else if c <= 0 {
      assert AllRungs[..5] == [XXLD, XLD, LD, SD, HD];
    } else if c <= 1 {
      assert AllRungs[..4] == [XXLD, XLD, LD, SD];
    } else if c <= 2 {
      assert AllRungs[..3] == [XXLD, XLD, LD];
    }
  }

  /**
   * Classifier and planner together: a source of height h gets XXLD, XLD and
   * LD always, SD when h >= 360, HD when h > 480 and FHD when h > 720.
   */
  lemma RungsForHeight(h: int, r: Rung)
    ensures r in Included(QualityClass(h)) <==>
              match r
              case SD => h >= 360
              case HD => h > 480
              case FHD => h > 720
              case _ => true
  {
    IncludedMembership(QualityClass(h), r);
  }

  /** Along the included rungs, the output height strictly grows. */
  lemma IncludedAscending(iClass: int, i: nat, j: nat)
    requires i < j < |Included(iClass)|
    ensures Height(Included(iClass)[i]) < Height(Included(iClass)[j])
  {
    IncludedIsPrefix(iClass);
    assert Included(iClass)[i] == AllRungs[i] && Included(iClass)[j] == AllRungs[j];
  }

  // ---------------------------------------------------------------------
  // Output width

  /**
   * `Math.round(height * ratio / 2) * 2` with the ratio taken exactly and
   * `Math.round(x)` read as floor(x + 1/2).  None when the ratio is not a
   * finite number (a source of height 0).  The result is the even number
   * nearest to height * ratio, a tie going up.
   */
  function EvenWidth(height: nat, ratio: Ratio): (w: Option<nat>)
    ensures w.None? <==> ratio.den == 0
    ensures w.Some? ==> w.value % 2 == 0
    ensures w.Some? ==> w.value * ratio.den <= height * ratio.num + ratio.den
    ensures w.Some? ==> height * ratio.num < w.value * ratio.den + ratio.den
  {
    if ratio.den == 0 then None
    else
      var a, b := height * ratio.num + ratio.den, 2 * ratio.den;
      var q := a / b;
      assert b * q <= a < b * q + b;
      assert 2 * q * ratio.den == b * q;
      Some(2 * q)
  }

  /** The width as it appears in `scale=W:H`: decimal, or JavaScript's `NaN` / `Infinity`. */
  function WidthText(height: nat, ratio: Ratio): string {
    match EvenWidth(height, ratio)
    case Some(w) => Decimal(w)
    case None => if ratio.num == 0 then "NaN" else "Infinity"
  }

  // ---------------------------------------------------------------------
  // Master playlist

  const MasterHeader: seq<string> := ["#EXTM3U", "#EXT-X-VERSION:3"]

  function StreamInf(r: Rung): string {
    "#EXT-X-STREAM-INF:BANDWIDTH=" + Bandwidth(r) + ",RESOLUTION=" + Resolution(r)
  }

  /** The rung's media playlist, relative to the master playlist. */
  function MediaPath(r: Rung): string {
    DirName(r) + "/video.m3u8"
  }

  /** The two lines each rung of `rs` contributes to the master playlist. */
  function RungLines(rs: seq<Rung>): seq<seq<string>> {
    seq(|rs|, i requires 0 <= i < |rs| => [StreamInf(rs[i]), MediaPath(rs[i])])
  }

  function Flatten(xss: seq<seq<string>>): seq<string> {
    if xss == [] then [] else Flatten(xss[..|xss| - 1]) + xss[|xss| - 1]
  }

  function MasterLines(rs: seq<Rung>): seq<string> {
    MasterHeader + Flatten(RungLines(rs))
  }

  /** The master playlist text for the given rungs. */
  function MasterText(rs: seq<Rung>): string {
    JoinLines(MasterLines(rs))
  }

  // ---------------------------------------------------------------------
  // Transcoder arguments

  function BaseOptions(srcPath: string): seq<string> {
    ["-hide_banner", "-y", "-i", srcPath, "-threads", "2"]
  }

  const KeyInfoFlag := "-hls_key_info_file"

  /** The encoder and segmenter options common to every rung's block. */
  const EncoderOptions: seq<string> :=
    ["-c:a", "aac", "-ar", "44100", "-hwaccel", "cuda", "-hwaccel_output_format", "cuda",
     "-c:v", "h264_nvenc", "-profile:v", "high", "-r", "25", "-crf", "20", "-sc_threshold", "0",
     "-g", "48", "-keyint_min", "48", "-hls_time", "6", "-hls_playlist_type", "vod",
     "-b:a", "128k", "-start_number", "1", "-ss", "0"]

  /**
   * The options repeated in front of every rung's block: the common
   * options, the duration limit, and in the encrypted pass the key-info
   * file.
   */
  function SharedOptions(duration: string, doEnc: bool, keyInfoPath: string): seq<string> {
    EncoderOptions + ["-t", duration] + (if doEnc then [KeyInfoFlag, keyInfoPath] else [])
  }

  /** The rung's own options: scale, rates, segment file pattern and media playlist path. */
  function RungOptions(r: Rung, ratio: Ratio, tmpPath: string): seq<string> {
    ["-vf", "scale=" + WidthText(Height(r), ratio) + ":" + Decimal(Height(r)),
     "-b:v", Bitrate(r), "-maxrate", Bitrate(r), "-bufsize", Bitrate(r),
     "-hls_segment_filename", tmpPath + "/" + DirName(r) + "/video-%05d.ts",
     tmpPath + "/" + DirName(r) + "/video.m3u8"]
  }

  /** `base`, then `shared` in front of each of `parts`, part after part. */
  function Interleave(base: seq<string>, shared: seq<string>, parts: seq<seq<string>>): seq<string> {
    if parts == [] then base
    else Interleave(base, shared, parts[..|parts| - 1]) + shared + parts[|parts| - 1]
  }

  /** The own options of each rung of `rs`, in order. */
  function RungParts(rs: seq<Rung>, ratio: Ratio, tmpPath: string): seq<seq<string>> {
    seq(|rs|, i requires 0 <= i < |rs| => RungOptions(rs[i], ratio, tmpPath))
  }

  /**
   * The whole transcoder argument list of one pass: the base options, then
   * for each included rung the shared options and the rung's own options.
   */
  function Arguments(iClass: int, ratio: Ratio, srcPath: string, sharedOptions: seq<string>, tmpPath: string): seq<string> {
    Interleave(BaseOptions(srcPath), sharedOptions, RungParts(Included(iClass), ratio, tmpPath))
  }

  lemma {:induction false} JoinLinesAppend(a: seq<string>, b: seq<string>)
    ensures JoinLines(a + b) == JoinLines(a) + JoinLines(b)
  {
    if a == [] {
      assert a + b == b;
    } else {
      assert (a + b)[0] == a[0];
      assert (a + b)[1..] == a[1..] + b;
      JoinLinesAppend(a[1..], b);
    }
  }

  /** One more rung appends its stream-info line and its media playlist line to the master text. */
  lemma MasterTextSnoc(rs: seq<Rung>, r: Rung)
    ensures MasterText(rs + [r]) == MasterText(rs) + StreamInf(r) + "\n" + MediaPath(r) + "\n"
  {
    var ls := RungLines(rs);
    assert RungLines(rs + [r]) == ls + [[StreamInf(r), MediaPath(r)]];
    assert (ls + [[StreamInf(r), MediaPath(r)]])[..|ls|] == ls;
    assert MasterLines(rs + [r]) == MasterLines(rs) + [StreamInf(r), MediaPath(r)];
    JoinLinesPair(MasterLines(rs), StreamInf(r), MediaPath(r));
  }

  lemma JoinLinesPair(ls: seq<string>, a: string, b: string)
    ensures JoinLines(ls + [a, b]) == JoinLines(ls) + a + "\n" + b + "\n"
  {
    JoinLinesAppend(ls, [a, b]);
    assert [a, b][1..] == [b];
    assert JoinLines([b]) == b + "\n";
  }

  // ---------------------------------------------------------------------
  // Planning, block by block

  /** The arguments and the master playlist text built so far. */
  datatype Plan = Plan(options: seq<string>, master: string)

  /**
   * The plan once the first `k` rungs of the table have had their block: the
   * base options and the two header lines, then one block per rung.
   */
  function PlanUpTo(base: seq<string>, shared: seq<string>, ratio: Ratio, tmpPath: string, k: nat): (p: Plan)
    requires k <= |AllRungs|
    decreases k, 0
  {
    if k == 0 then Plan(base, "#EXTM3U\n#EXT-X-VERSION:3\n") else WithRung(base, shared, ratio, tmpPath, k - 1)
  }

  /**
   * The plan of the first `k` rungs followed by the block of rung `k`: the
   * shared options and the rung's own options, and the rung's two master lines.
   */
  function WithRung(base: seq<string>, shared: seq<string>, ratio: Ratio, tmpPath: string, k: nat): (p: Plan)
    requires k < |AllRungs|
    decreases k, 1
  {
    var p := PlanUpTo(base, shared, ratio, tmpPath, k);
    var r := AllRungs[k];
    Plan(p.options + shared + RungOptions(r, ratio, tmpPath), p.master + StreamInf(r) + "\n" + MediaPath(r) + "\n")
  }

  /**
   * Built block by block, the plan of the first `k` rungs is the interleaved
   * argument list and the master playlist of those rungs.
   */
  lemma {:induction false} PlanUpToMeaning(base: seq<string>, shared: seq<string>, ratio: Ratio, tmpPath: string, k: nat)
    requires k <= |AllRungs|
    ensures PlanUpTo(base, shared, ratio, tmpPath, k).options == Interleave(base, shared, RungParts(AllRungs[..k], ratio, tmpPath))
    ensures PlanUpTo(base, shared, ratio, tmpPath, k).master == MasterText(AllRungs[..k])
  {
    if k == 0 {
      MasterHeaderText();
    } else {
      PlanUpToMeaning(base, shared, ratio, tmpPath, k - 1);
      PlanStep(base, shared, k - 1, ratio, tmpPath);
    }
  }

  /**
   * One pass's plan, from the quality class, ratio and duration: the
   * transcoder arguments and the master playlist text, built block by block
   * in table order.
   */
  method PlanConversion(iClass: int, ratio: Ratio, srcPath: string, sharedOptions: seq<string>, tmpPath: string)
    returns (ffmpegOptions: seq<string>, mainM3u8: string)
    ensures ffmpegOptions == Arguments(iClass, ratio, srcPath, sharedOptions, tmpPath)
    ensures mainM3u8 == MasterText(Included(iClass))
  {
    ffmpegOptions := BaseOptions(srcPath);
    mainM3u8 := "#EXTM3U\n#EXT-X-VERSION:3\n";
    ghost var base := BaseOptions(srcPath);
    ghost var k: nat := 0;
    if iClass <= 2 {
      ffmpegOptions, mainM3u8 := AddRung(ffmpegOptions, mainM3u8, base, sharedOptions, k, XXLD, ratio, tmpPath);
      k := k + 1;
      ffmpegOptions, mainM3u8 := AddRung(ffmpegOptions, mainM3u8, base, sharedOptions, k, XLD, ratio, tmpPath);
      k := k + 1;
      ffmpegOptions, mainM3u8 := AddRung(ffmpegOptions, mainM3u8, base, sharedOptions, k, LD, ratio, tmpPath);
      k := k + 1;
    }
    if iClass <= 1 {
      ffmpegOptions, mainM3u8 := AddRung(ffmpegOptions, mainM3u8, base, sharedOptions, k, SD, ratio, tmpPath);
      k := k + 1;
    }
    if iClass <= 0 {
      ffmpegOptions, mainM3u8 := AddRung(ffmpegOptions, mainM3u8, base, sharedOptions, k, HD, ratio, tmpPath);
      k := k + 1;
    }
    if iClass <= -1 {
      ffmpegOptions, mainM3u8 := AddRung(ffmpegOptions, mainM3u8, base, sharedOptions, k, FHD, ratio, tmpPath);
      k := k + 1;
    }
    PlanComplete(ffmpegOptions, mainM3u8, k, iClass, ratio, srcPath, sharedOptions, tmpPath);
  }

  /** A plan that covers the first `RungCount(iClass)` rungs is the pass's whole plan. */
  lemma PlanComplete(ffmpegOptions: seq<string>, mainM3u8: string, k: nat, iClass: int, ratio: Ratio,
                     srcPath: string, sharedOptions: seq<string>, tmpPath: string)
    requires k == RungCount(iClass)
    requires Planned(ffmpegOptions, mainM3u8, BaseOptions(srcPath), sharedOptions, k, ratio, tmpPath)
    ensures ffmpegOptions == Arguments(iClass, ratio, srcPath, sharedOptions, tmpPath)
    ensures mainM3u8 == MasterText(Included(iClass))
  {
    IncludedIsPrefix(iClass);
    PlanUpToMeaning(BaseOptions(srcPath), sharedOptions, ratio, tmpPath, k);
  }

  /** The master playlist of no rungs is the two header lines. */
  lemma MasterHeaderText()
    ensures MasterText([]) == "#EXTM3U\n#EXT-X-VERSION:3\n"
  {
    assert MasterLines([]) == ["#EXTM3U", "#EXT-X-VERSION:3"];
    assert JoinLines(["#EXT-X-VERSION:3"]) == "#EXT-X-VERSION:3\n";
  }

  /** The plan built so far is the plan of the first `k` rungs of the table. */
  ghost predicate Planned(ffmpegOptions: seq<string>, mainM3u8: string, base: seq<string>, shared: seq<string>,
                          k: nat, ratio: Ratio, tmpPath: string)
  {
    k <= |AllRungs| && Plan(ffmpegOptions, mainM3u8) == PlanUpTo(base, shared, ratio, tmpPath, k)
  }

  /**
   * One rung's block of the converter: the shared options and the rung's
   * own options appended to the arguments, and the rung's two lines to the
   * master playlist.
   */
  method AddRung(ffmpegOptions: seq<string>, mainM3u8: string, ghost base: seq<string>, sharedOptions: seq<string>,
                 ghost k: nat, r: Rung, ratio: Ratio, tmpPath: string)
    returns (options': seq<string>, m3u8': string)
    requires k < |AllRungs| && AllRungs[k] == r
    requires Planned(ffmpegOptions, mainM3u8, base, sharedOptions, k, ratio, tmpPath)
    ensures Planned(options', m3u8', base, sharedOptions, k + 1, ratio, tmpPath)
  {
    var dstPath := tmpPath + "/" + DirName(r);
    var height := Height(r);
    var width := WidthText(height, ratio);
    options' := ffmpegOptions + sharedOptions
      + ["-vf", "scale=" + width + ":" + Decimal(height), "-b:v", Bitrate(r), "-maxrate", Bitrate(r),
         "-bufsize", Bitrate(r), "-hls_segment_filename", dstPath + "/video-%05d.ts", dstPath + "/video.m3u8"];
    var streamInf := "#EXT-X-STREAM-INF:BANDWIDTH=" + Bandwidth(r) + ",RESOLUTION=" + Resolution(r);
    var mediaPath := DirName(r) + "/video.m3u8";
    m3u8' := mainM3u8 + streamInf + "\n" + mediaPath + "\n";
  }

  /** What planning the next rung of the table does to the plan's specification. */
  lemma PlanStep(base: seq<string>, shared: seq<string>, k: nat, ratio: Ratio, tmpPath: string)
    requires k < |AllRungs|
    ensures Interleave(base, shared, RungParts(AllRungs[..k + 1], ratio, tmpPath))
            == Interleave(base, shared, RungParts(AllRungs[..k], ratio, tmpPath)) + shared + RungOptions(AllRungs[k], ratio, tmpPath)
    ensures MasterText(AllRungs[..k + 1]) == MasterText(AllRungs[..k]) + StreamInf(AllRungs[k]) + "\n" + MediaPath(AllRungs[k]) + "\n"
  {
    var done, r := AllRungs[..k], AllRungs[k];
    assert AllRungs[..k + 1] == done + [r];
    var parts := RungParts(done, ratio, tmpPath);
    assert RungParts(done + [r], ratio, tmpPath) == parts + [RungOptions(r, ratio, tmpPath)];
    assert (parts + [RungOptions(r, ratio, tmpPath)])[..k] == parts;
    MasterTextSnoc(done, r);
  }

  // ---------------------------------------------------------------------
  // The key-info option

  lemma MulSucc(n: nat, c: nat)
    ensures n * c + c == (n + 1) * c
  {
  }

  /** `base`, then `shared` and a part per part: `x` occurs as often as in `base` plus once per part for each occurrence in `shared`, when no part holds it. */
  lemma {:induction false} InterleaveCount(base: seq<string>, shared: seq<string>, parts: seq<seq<string>>, x: string)
    requires forall i :: 0 <= i < |parts| ==> x !in parts[i]
    ensures multiset(Interleave(base, shared, parts))[x] == multiset(base)[x] + |parts| * multiset(shared)[x]
  {
    if parts != [] {
      var n := |parts| - 1;
      var front := Interleave(base, shared, parts[..n]);
      InterleaveCount(base, shared, parts[..n], x);
      assert Interleave(base, shared, parts) == front + shared + parts[n];
      assert x !in parts[n];
      var c := multiset(shared)[x];
      assert multiset(front + shared + parts[n])[x] == multiset(front)[x] + c by {
        assert multiset(front + shared + parts[n]) == multiset(front) + multiset(shared) + multiset(parts[n]);
      }
      MulSucc(n, c);
    }
  }

  /** No string of a rung's own options is the key-info flag. */
  lemma KeyInfoNotInRung(r: Rung, ratio: Ratio, tmpPath: string)
    ensures KeyInfoFlag !in RungOptions(r, ratio, tmpPath)
  {
    var dst := tmpPath + "/" + DirName(r);
    var segs, playlist := dst + "/video-%05d.ts", dst + "/video.m3u8";
    assert segs[|segs| - 1] == 's' && playlist[|playlist| - 1] == '8';
    var scale := "scale=" + WidthText(Height(r), ratio) + ":" + Decimal(Height(r));
    assert scale[0] == 's';
    assert |Bitrate(r)| <= 5;
  }

  lemma KeyInfoNotInParts(rs: seq<Rung>, ratio: Ratio, tmpPath: string)
    ensures forall i :: 0 <= i < |rs| ==> KeyInfoFlag !in RungParts(rs, ratio, tmpPath)[i]
  {
    forall i | 0 <= i < |rs| ensures KeyInfoFlag !in RungParts(rs, ratio, tmpPath)[i] {
      KeyInfoNotInRung(rs[i], ratio, tmpPath);
    }
  }

  /** The shared options with an arbitrary common part `common`: `x` occurs once when it is the added flag and nowhere else. */
  lemma SharedCount(common: seq<string>, duration: string, doEnc: bool, keyInfoPath: string, x: string)
    requires x !in common && x != "-t" && x != duration && x != keyInfoPath
    ensures multiset(common + ["-t", duration] + (if doEnc then [x, keyInfoPath] else []))[x]
            == if doEnc then 1 else 0
  {
  }

  lemma KeyInfoNotCommon()
    ensures KeyInfoFlag !in EncoderOptions && KeyInfoFlag != "-t"
  {
  }

  lemma KeyInfoNotBase(srcPath: string)
    requires srcPath != KeyInfoFlag
    ensures multiset(BaseOptions(srcPath))[KeyInfoFlag] == 0
  {
  }

  /**
   * `-hls_key_info_file` appears once in every rung's block of the argument
   * list when the pass encrypts, and nowhere when it does not (the source
   * path, duration and key-info path being other strings).
   */
  lemma KeyInfoInEveryBlock(iClass: int, ratio: Ratio, srcPath: string, duration: string, doEnc: bool,
                            keyInfoPath: string, tmpPath: string)
    requires srcPath != KeyInfoFlag && duration != KeyInfoFlag && keyInfoPath != KeyInfoFlag
    ensures multiset(Arguments(iClass, ratio, srcPath, SharedOptions(duration, doEnc, keyInfoPath), tmpPath))[KeyInfoFlag]
            == if doEnc then |Included(iClass)| else 0
  {
    var rs := Included(iClass);
    KeyInfoNotInParts(rs, ratio, tmpPath);
    KeyInfoNotCommon();
    SharedCount(EncoderOptions, duration, doEnc, keyInfoPath, KeyInfoFlag);
    KeyInfoNotBase(srcPath);
    InterleaveCount(BaseOptions(srcPath), SharedOptions(duration, doEnc, keyInfoPath), RungParts(rs, ratio, tmpPath), KeyInfoFlag);
  }
}
