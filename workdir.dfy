/**
 * The working directory `_<name>` next to the destination, as the converter
 * changes it: the two transcoding passes write their playlists and segments
 * into it, stage 1 (`asyncRenameEnc`) sets the encrypted pass aside, and
 * stage 2 (`asyncRenameUnenc`) merges the plain pass in and publishes the
 * directory.  Every file-system call that can throw becomes a check; a
 * failing call ends the stage with `ok == false`.
 */
module WorkingDir {
  import opened Text
  import opened Regex
  import opened Ladder
  import opened Segments
  import opened Playlists
  import opened Directory

  /** The master playlist `<name>.m3u8`. */
  function MasterName(videoName: string): string { videoName + ".m3u8" }
  /** The encrypted pass's master playlist, set aside by stage 1. */
  function SealedMasterName(videoName: string): string { videoName + ".m3u8.enc" }
  /** The rewritten master playlist `<name>_unenc.m3u8` of stage 2. */
  function UnencMasterName(videoName: string): string { videoName + "_unenc.m3u8" }

  /** The three master playlist names of a video are different. */
  lemma MasterNamesDiffer(videoName: string)
    ensures MasterName(videoName) != SealedMasterName(videoName)
    ensures MasterName(videoName) != UnencMasterName(videoName)
    ensures SealedMasterName(videoName) != UnencMasterName(videoName)
  {
  }

  /** The rendition directory whose media playlist stage 2 rewrites for every rendition. */
  const LdDir := "videoHlsLd"

  /** The prefix by which stage 2 recognises rendition directories. */
  const RenditionPrefix := "videoHls"

  /** `renameSync(from, to)` within one directory: the file moves, replacing whatever `to` held. */
  function Rename(M: Dir, from: string, to: string): (r: Dir)
    requires from in M
    ensures to in r && r[to] == M[from]
    ensures from != to ==> from !in r
    ensures forall f :: f != from && f != to ==> (f in r <==> f in M) && (f in r ==> r[f] == M[f])
  {
    (M - {from})[to := M[from]]
  }

  /** A sub-directory's contents, or an empty one when `mkdirSync` has to create it. */
  function Existing(dirs: map<string, Dir>, d: string): Dir {
    if d in dirs then dirs[d] else map[]
  }

  /** The rendition directories of a quality class. */
  function RungDirs(iClass: int): set<string> {
    set r | r in Included(iClass) :: DirName(r)
  }

  /**
   * `M` once segments 1 to n of a pass have been written in order under the
   * names `name` gives them; each replaces a file of the same name and every
   * other file is left alone.
   */
  function Numbered(M: Dir, pass: Pass, name: nat -> string, n: nat): Dir {
    if n == 0 then M else Numbered(M, pass, name, n - 1)[name(n) := Segment(pass, n)]
  }

  /**
   * `M` once the transcoder has written segments 1 to n of a pass, named by
   * the pattern `video-%05d.ts` from `-start_number 1`.
   */
  function WithSegments(M: Dir, pass: Pass, n: nat): Dir {
    Numbered(M, pass, SegmentName, n)
  }

  /** Writing segments replaces files but never removes one. */
  lemma {:induction false} NumberedKeeps(M: Dir, pass: Pass, name: nat -> string, n: nat)
    ensures M.Keys <= Numbered(M, pass, name, n).Keys
  {
    if n > 0 {
      NumberedKeeps(M, pass, name, n - 1);
    }
  }

  /** With distinct names, segment i is under its name once segments 1 to n are written. */
  lemma {:induction false} NumberedHas(M: Dir, pass: Pass, name: nat -> string, n: nat, i: nat)
    requires 1 <= i <= n
    requires forall j :: i < j <= n ==> name(i) != name(j)
    ensures name(i) in Numbered(M, pass, name, n)
    ensures Numbered(M, pass, name, n)[name(i)] == Segment(pass, i)
  {
    if i < n {
      NumberedHas(M, pass, name, n - 1, i);
    }
  }

  /** Every file after the segments are written is either as it was or one of the segments. */
  lemma {:induction false} NumberedOnly(M: Dir, pass: Pass, name: nat -> string, n: nat)
    ensures forall f :: f in Numbered(M, pass, name, n) ==>
              (f in M && Numbered(M, pass, name, n)[f] == M[f])
              || (var t := Numbered(M, pass, name, n)[f];
                  t.Segment? && t.pass == pass && 1 <= t.index <= n && f == name(t.index))
  {
    if n > 0 {
      NumberedOnly(M, pass, name, n - 1);
    }
  }

  /** The transcoder's segments replace files but never remove one. */
  lemma WithSegmentsKeeps(M: Dir, pass: Pass, n: nat)
    ensures M.Keys <= WithSegments(M, pass, n).Keys
  {
    NumberedKeeps(M, pass, SegmentName, n);
  }

  /** After the transcoder's segments, segment i of the pass is under its name for every i from 1 to n. */
  lemma WithSegmentsHas(M: Dir, pass: Pass, n: nat, i: nat)
    requires 1 <= i <= n
    ensures SegmentName(i) in WithSegments(M, pass, n)
    ensures WithSegments(M, pass, n)[SegmentName(i)] == Segment(pass, i)
  {
    forall j | i < j <= n ensures SegmentName(i) != SegmentName(j) {
      SegmentNamesDiffer(i, j);
    }
    NumberedHas(M, pass, SegmentName, n, i);
  }

  /** Every file after the transcoder's segments is either as it was or one of those segments. */
  lemma WithSegmentsOnly(M: Dir, pass: Pass, n: nat)
    ensures forall f :: f in WithSegments(M, pass, n) ==>
              (f in M && WithSegments(M, pass, n)[f] == M[f])
              || (var t := WithSegments(M, pass, n)[f];
                  t.Segment? && t.pass == pass && 1 <= t.index <= n && f == SegmentName(t.index))
  {
    NumberedOnly(M, pass, SegmentName, n);
  }

  /** A rendition directory after a transcoding pass: its segments and its media playlist. */
  function Transcoded(M: Dir, pass: Pass, n: nat, text: string): Dir {
    WithSegments(M, pass, n)[MediaName := Playlist(pass, text)]
  }

  /**
   * Stage 1's `subPaths`: the directory names it pushes for the class, in
   * the order it pushes them.
   */
  function StageOneDirs(iClass: int): (ds: seq<string>) {
    (if iClass <= 2 then ["videoHlsXXld", "videoHlsXld", "videoHlsLd"] else [])
    + (if iClass <= 1 then ["videoHlsSd"] else [])
    + (if iClass <= 0 then ["videoHlsHd"] else [])
    + (if iClass <= -1 then ["videoHlsFhd"] else [])
  }

  /** Stage 1 walks exactly the directories the planner created, in the same order. */
  lemma StageOneDirsMatch(iClass: int)
    ensures |StageOneDirs(iClass)| == |Included(iClass)|
    ensures forall k :: 0 <= k < |Included(iClass)| ==> StageOneDirs(iClass)[k] == DirName(Included(iClass)[k])
  {
  }

  lemma DirNameInjective(a: Rung, b: Rung)
    requires DirName(a) == DirName(b)
    ensures a == b
  {
    DirNameShape(a);
    DirNameShape(b);
  }

  /** Different rungs of a class have different directories. */
  lemma RungDirsDistinct(iClass: int)
    ensures forall j, k :: 0 <= j < k < |Included(iClass)| ==> DirName(Included(iClass)[j]) != DirName(Included(iClass)[k])
  {
    forall j, k | 0 <= j < k < |Included(iClass)|
      ensures DirName(Included(iClass)[j]) != DirName(Included(iClass)[k])
    {
      IncludedAscending(iClass, j, k);
      if DirName(Included(iClass)[j]) == DirName(Included(iClass)[k]) {
        DirNameInjective(Included(iClass)[j], Included(iClass)[k]);
      }
    }
  }

  /** Stage 1 walks exactly the rendition directories of the class, each once. */
  lemma StageOneDirsAre(iClass: int)
    ensures forall d :: d in StageOneDirs(iClass) <==> d in RungDirs(iClass)
    ensures forall i, j :: 0 <= i < j < |StageOneDirs(iClass)| ==> StageOneDirs(iClass)[i] != StageOneDirs(iClass)[j]
  {
    StageOneDirsMatch(iClass);
    RungDirsDistinct(iClass);
    var rs := Included(iClass);
    forall d | d in RungDirs(iClass) ensures d in StageOneDirs(iClass) {
      var r :| r in rs && d == DirName(r);
      var k :| 0 <= k < |rs| && rs[k] == r;
      assert StageOneDirs(iClass)[k] == d;
    }
  }

  /**
   * `readdirSync`: the names of a directory, each once, in an order chosen
   * by the file system.
   */
  method Listing(s: set<string>) returns (names: seq<string>)
    ensures |names| == |s|
    ensures forall k :: 0 <= k < |names| ==> names[k] in s
    ensures forall f :: f in s ==> f in names
    ensures forall j, k :: 0 <= j < k < |names| ==> names[j] != names[k]
  {
    names := [];
    var rest := s;
    while rest != {}
      invariant forall f :: f in s <==> f in rest || f in names
      invariant forall k :: 0 <= k < |names| ==> names[k] !in rest
      invariant forall j, k :: 0 <= j < k < |names| ==> names[j] != names[k]
      invariant |names| + |rest| == |s|
      decreases |rest|
    {
      var f :| f in rest;
      names := names + [f];
      rest := rest - {f};
    }
  }

  /** Walking a listing of distinct names one name further. */
  lemma NextListed(ds: seq<string>, k: nat)
    requires k < |ds|
    requires forall i, j :: 0 <= i < j < |ds| ==> ds[i] != ds[j]
    ensures ds[..k + 1] == ds[..k] + [ds[k]]
    ensures ds[k] !in ds[..k]
  {
  }

  /** The names stage 2 takes for rendition directories. */
  predicate Rendition(d: string) {
    StartsWith(d, RenditionPrefix)
  }

  /**
   * Stage 2's rewrite of the LD media playlist, which it writes into every
   * rendition directory as `video_unenc.m3u8`.
   */
  function PlainMedia(dirs: map<string, Dir>): Tag
    requires LdDir in dirs && MediaName in dirs[LdDir]
  {
    var media := dirs[LdDir][MediaName];
    Playlist(media.pass, ReplaceAll(Content(media), MediaPattern, MediaReplacement))
  }

  /**
   * A rendition directory once stage 2 has given the encrypted media
   * playlist its name back and written the plain one.
   */
  function Unsealed(D: Dir, plain: Tag): Dir
    requires SealedMediaName in D
  {
    Rename(D, SealedMediaName, MediaName)[UnencMediaName := plain]
  }

  /**
   * What stage 2 needs to get through: the two master playlists, the LD
   * media playlist, no directory where it writes the plain master, no file
   * whose name it takes for a rendition directory, and the encrypted media
   * playlist in every rendition directory.
   */
  ghost predicate StageTwoReady(files: Dir, dirs: map<string, Dir>, videoName: string) {
    && MasterName(videoName) in files && SealedMasterName(videoName) in files
    && UnencMasterName(videoName) !in dirs
    && LdDir in dirs && MediaName in dirs[LdDir]
    && RenditionsReady(files, dirs)
  }

  /**
   * No file takes a name stage 2 takes for a rendition directory, and every
   * rendition directory holds the encrypted media playlist.
   */
  ghost predicate RenditionsReady(files: Dir, dirs: map<string, Dir>) {
    && (forall f :: f in files ==> !Rendition(f))
    && (forall d :: d in dirs && Rendition(d) ==> SealedMediaName in dirs[d])
  }

  /** Stage 2's loop moving plain segments aside is order-free in every rendition directory. */
  ghost predicate RenditionsFree(dirs: map<string, Dir>, plain: Tag) {
    forall d :: d in dirs && Rendition(d) && SealedMediaName in dirs[d] ==>
      OrderFree(Unsealed(dirs[d], plain), MoveAsidePlain)
  }

  /**
   * The top-level files after stage 2: the plain master playlist, rewritten
   * from the plain pass's master, and the encrypted master back under its
   * own name.
   */
  function StageTwoFiles(files: Dir, videoName: string): Dir
    requires MasterName(videoName) in files && SealedMasterName(videoName) in files
  {
    var master := files[MasterName(videoName)];
    var plain := Playlist(master.pass, ReplaceAll(Content(master), MasterPattern, MasterReplacement));
    Rename(files[UnencMasterName(videoName) := plain], SealedMasterName(videoName), MasterName(videoName))
  }

  /** Every listed name stage 2 takes for a rendition directory is one, holding the encrypted media playlist. */
  ghost predicate ListedReady(dirs: map<string, Dir>, ds: seq<string>) {
    forall d :: d in ds && Rendition(d) ==> d in dirs && SealedMediaName in dirs[d]
  }

  /** Stage 2's loop moving plain segments aside is order-free in every listed rendition directory. */
  ghost predicate ListedFree(dirs: map<string, Dir>, ds: seq<string>, plain: Tag) {
    forall d :: d in ds && Rendition(d) && d in dirs && SealedMediaName in dirs[d] ==>
      OrderFree(Unsealed(dirs[d], plain), MoveAsidePlain)
  }

  /**
   * For a listing of the working directory, the listed renditions are ready
   * exactly when no file takes a rendition name and every rendition
   * directory holds the encrypted media playlist.
   */
  lemma ListedRenditions(files: Dir, dirs: map<string, Dir>, ds: seq<string>, plain: Tag)
    requires files.Keys !! dirs.Keys
    requires forall k :: 0 <= k < |ds| ==> ds[k] in files.Keys + dirs.Keys
    requires forall f :: f in files.Keys + dirs.Keys ==> f in ds
    ensures ListedReady(dirs, ds) <==> RenditionsReady(files, dirs)
    ensures RenditionsFree(dirs, plain) ==> ListedFree(dirs, ds, plain)
    ensures forall d :: d in dirs ==> d in ds
  {
    if ListedReady(dirs, ds) {
      forall f | f in files ensures !Rendition(f) {
        assert f in ds;
      }
    }
  }
  /** Every rendition directory name starts with `videoHls` and ends in `d`. */
  lemma DirNameFacts(r: Rung)
    ensures StartsWith(DirName(r), RenditionPrefix)
    ensures |DirName(r)| > 0 && DirName(r)[|DirName(r)| - 1] == 'd'
  {
    match r
    case XXLD =>
    case XLD =>
    case LD =>
    case SD =>
    case HD =>
    case FHD =>
  }

  /** The master playlist's name is never a rendition directory's. */
  lemma MasterNotRungDir(videoName: string, iClass: int)
    ensures MasterName(videoName) !in RungDirs(iClass)
  {
    var m := MasterName(videoName);
    assert m[|m| - 1] == '8';
    forall r | r in Included(iClass) ensures DirName(r) != m {
      DirNameFacts(r);
    }
  }

  /** The directory names of the rungs of `rs`. */
  function DirNames(rs: seq<Rung>): set<string>
    decreases |rs|
  {
    if |rs| == 0 then {} else DirNames(rs[..|rs| - 1]) + {DirName(rs[|rs| - 1])}
  }

  /** The directory names of a class's rungs are its rendition directories. */
  lemma {:induction false} DirNamesOf(rs: seq<Rung>)
    ensures DirNames(rs) == set r | r in rs :: DirName(r)
    decreases |rs|
  {
    if |rs| > 0 {
      DirNamesOf(rs[..|rs| - 1]);
      assert rs == rs[..|rs| - 1] + [rs[|rs| - 1]];
    }
  }

  /**
   * The sub-directories once `!fs.existsSync(d) && fs.mkdirSync(d)` has run
   * for the directory of every rung of `rs`: a missing one is created
   * empty, a name already taken is left as it is.
   */
  function MadeDirs(files: Dir, dirs: map<string, Dir>, rs: seq<Rung>): map<string, Dir>
    decreases |rs|
  {
    if |rs| == 0 then dirs
    else
      var prev := MadeDirs(files, dirs, rs[..|rs| - 1]);
      var d := DirName(rs[|rs| - 1]);
      if d in files || d in prev then prev else prev[d := map[]]
  }

  /**
   * Creating the rung directories adds exactly the rung directory names no
   * file holds, each empty, and leaves every existing directory as it was.
   */
  lemma {:induction false} MadeDirsFacts(files: Dir, dirs: map<string, Dir>, rs: seq<Rung>)
    ensures MadeDirs(files, dirs, rs).Keys == dirs.Keys + (DirNames(rs) - files.Keys)
    ensures forall d :: d in dirs ==> MadeDirs(files, dirs, rs)[d] == dirs[d]
    ensures forall d :: d in MadeDirs(files, dirs, rs) && d !in dirs ==> MadeDirs(files, dirs, rs)[d] == map[]
    decreases |rs|
  {
    if |rs| > 0 {
      var init := rs[..|rs| - 1];
      MadeDirsFacts(files, dirs, init);
    }
  }

  /**
   * The rung directories of a class once created: the master's name is a
   * directory exactly when it was one before, no name is both a file and a
   * directory, and when no file holds a rung directory's name every rung
   * directory is there, holding what it held or nothing.
   */
  lemma MadeRungDirs(files: Dir, dirs: map<string, Dir>, iClass: int, videoName: string)
    requires files.Keys !! dirs.Keys
    ensures dirs.Keys <= MadeDirs(files, dirs, Included(iClass)).Keys
    ensures MasterName(videoName) in MadeDirs(files, dirs, Included(iClass)) <==> MasterName(videoName) in dirs
    ensures files.Keys !! MadeDirs(files, dirs, Included(iClass)).Keys
    ensures forall d :: d in dirs ==> MadeDirs(files, dirs, Included(iClass))[d] == dirs[d]
    ensures (forall r :: r in Included(iClass) ==> DirName(r) !in files) ==>
              && MadeDirs(files, dirs, Included(iClass)).Keys == dirs.Keys + RungDirs(iClass)
              && forall r :: r in Included(iClass) ==>
                   Existing(MadeDirs(files, dirs, Included(iClass)), DirName(r)) == Existing(dirs, DirName(r))
  {
    MadeDirsFacts(files, dirs, Included(iClass));
    DirNamesOf(Included(iClass));
    MasterNotRungDir(videoName, iClass);
  }

  /**
   * The rendition directories once the first k rungs of `rs` have been
   * written, `write` giving a rung directory's new contents from its old.
   */
  ghost function WrittenUpTo(dirs0: map<string, Dir>, rs: seq<Rung>, name: Rung -> string, write: (Dir, Rung) -> Dir, k: nat)
    : map<string, Dir>
    requires k <= |rs|
  {
    if k == 0 then dirs0
    else
      var prev := WrittenUpTo(dirs0, rs, name, write, k - 1);
      var d := name(rs[k - 1]);
      prev[d := write(Existing(prev, d), rs[k - 1])]
  }

  /** The names of the first k rungs' directories. */
  ghost function FirstDirs(rs: seq<Rung>, name: Rung -> string, k: nat): set<string>
    requires k <= |rs|
  {
    set j | 0 <= j < k :: name(rs[j])
  }

  /**
   * Writing the rungs one after the other: each rung directory holds what
   * `write` makes of what it held before, and every other directory is
   * untouched, as long as `name` gives the rungs different directories.
   */
  lemma FirstDirsNext(rs: seq<Rung>, name: Rung -> string, k: nat)
    requires k < |rs|
    requires forall i, j :: 0 <= i < j < |rs| ==> name(rs[i]) != name(rs[j])
    ensures FirstDirs(rs, name, k + 1) == FirstDirs(rs, name, k) + {name(rs[k])}
    ensures name(rs[k]) !in FirstDirs(rs, name, k)
  {
  }

  /** The directories after k rungs: the old ones and the first k rung directories. */
  lemma {:induction false} WrittenUpToKeys(dirs0: map<string, Dir>, rs: seq<Rung>, name: Rung -> string, write: (Dir, Rung) -> Dir, k: nat)
    requires k <= |rs|
    ensures WrittenUpTo(dirs0, rs, name, write, k).Keys == dirs0.Keys + FirstDirs(rs, name, k)
  {
    if k > 0 {
      WrittenUpToKeys(dirs0, rs, name, write, k - 1);
      assert FirstDirs(rs, name, k) == FirstDirs(rs, name, k - 1) + {name(rs[k - 1])};
    }
  }

  /** A directory no rung among the first k names is untouched. */
  lemma {:induction false} WrittenUpToOthers(dirs0: map<string, Dir>, rs: seq<Rung>, name: Rung -> string, write: (Dir, Rung) -> Dir, k: nat, d: string)
    requires k <= |rs| && d in dirs0 && d !in FirstDirs(rs, name, k)
    ensures d in WrittenUpTo(dirs0, rs, name, write, k) && WrittenUpTo(dirs0, rs, name, write, k)[d] == dirs0[d]
  {
    if k > 0 {
      assert d != name(rs[k - 1]);
      assert d !in FirstDirs(rs, name, k - 1);
      WrittenUpToOthers(dirs0, rs, name, write, k - 1, d);
    }
  }

  /** Rung j's directory, once the first k rungs are written, holds what `write` made of its old contents. */
  lemma {:induction false} WrittenUpToRung(dirs0: map<string, Dir>, rs: seq<Rung>, name: Rung -> string, write: (Dir, Rung) -> Dir, k: nat, j: nat)
    requires j < k <= |rs|
    requires forall i, j :: 0 <= i < j < |rs| ==> name(rs[i]) != name(rs[j])
    ensures name(rs[j]) in WrittenUpTo(dirs0, rs, name, write, k)
    ensures WrittenUpTo(dirs0, rs, name, write, k)[name(rs[j])] == write(Existing(dirs0, name(rs[j])), rs[j])
  {
    var d := name(rs[j]);
    var prev := WrittenUpTo(dirs0, rs, name, write, k - 1);
    assert WrittenUpTo(dirs0, rs, name, write, k) == prev[name(rs[k - 1]) := write(Existing(prev, name(rs[k - 1])), rs[k - 1])];
    if j < k - 1 {
      WrittenUpToRung(dirs0, rs, name, write, k - 1, j);
      assert d != name(rs[k - 1]);
    } else {
      ExistingBeforeRung(dirs0, rs, name, write, j);
    }
  }

  /** Before rung j is written, its directory holds what it held at the start. */
  lemma ExistingBeforeRung(dirs0: map<string, Dir>, rs: seq<Rung>, name: Rung -> string, write: (Dir, Rung) -> Dir, j: nat)
    requires j < |rs|
    requires forall i, j :: 0 <= i < j < |rs| ==> name(rs[i]) != name(rs[j])
    ensures Existing(WrittenUpTo(dirs0, rs, name, write, j), name(rs[j])) == Existing(dirs0, name(rs[j]))
  {
    var d := name(rs[j]);
    FirstDirsNext(rs, name, j);
    if d in dirs0 {
      WrittenUpToOthers(dirs0, rs, name, write, j, d);
    } else {
      WrittenUpToKeys(dirs0, rs, name, write, j);
    }
  }

  /** The transcoder's writes, by rung rather than by position. */
  lemma WrittenRungs(dirs0: map<string, Dir>, iClass: int, write: (Dir, Rung) -> Dir)
    ensures WrittenUpTo(dirs0, Included(iClass), DirName, write, |Included(iClass)|).Keys == dirs0.Keys + RungDirs(iClass)
    ensures forall r :: r in Included(iClass) ==>
              WrittenUpTo(dirs0, Included(iClass), DirName, write, |Included(iClass)|)[DirName(r)]
              == write(Existing(dirs0, DirName(r)), r)
    ensures forall d :: d in dirs0 && d !in RungDirs(iClass) ==>
              WrittenUpTo(dirs0, Included(iClass), DirName, write, |Included(iClass)|)[d] == dirs0[d]
  {
    var rs := Included(iClass);
    RungDirsDistinct(iClass);
    WrittenUpToKeys(dirs0, rs, DirName, write, |rs|);
    assert FirstDirs(rs, DirName, |rs|) == RungDirs(iClass);
    forall r | r in Included(iClass)
      ensures WrittenUpTo(dirs0, rs, DirName, write, |rs|)[DirName(r)] == write(Existing(dirs0, DirName(r)), r)
    {
      var j :| 0 <= j < |rs| && rs[j] == r;
      WrittenUpToRung(dirs0, rs, DirName, write, |rs|, j);
    }
    forall d | d in dirs0 && d !in RungDirs(iClass)
      ensures WrittenUpTo(dirs0, rs, DirName, write, |rs|)[d] == dirs0[d]
    {
      WrittenUpToOthers(dirs0, rs, DirName, write, |rs|, d);
    }
  }

  /**
   * The iterations of a rename loop over the listing `names` of a directory
   * holding `M`, up to the first that throws.
   */
  method RunNames(M: Dir, rule: Rule, names: seq<string>) returns (ok: bool, M': Dir)
    ensures ok <==> Run(M, rule, names, |names|).Some?
    ensures ok ==> M' == Run(M, rule, names, |names|).value
  {
    M' := M;
    var k := 0;
    while k < |names|
      invariant 0 <= k <= |names|
      invariant Run(M, rule, names, k) == Some(M')
    {
      var next := Step(M', rule, names[k]);
      RunNext(M, rule, names, k, M');
      if next.None? {
        RunFailed(M, rule, names, k + 1, |names|);
        return false, M';
      }
      M' := next.value;
      k := k + 1;
    }
    ok := true;
  }

  /**
   * Stage 2's first walk after the listed names `done`: every rendition
   * directory among them held the encrypted media playlist and, where its
   * loop is order-free, has been unsealed with its plain sevens moved
   * aside; every other directory is as it was.
   */
  ghost predicate UnsealedOver(D0: map<string, Dir>, D: map<string, Dir>, done: seq<string>, plain: Tag) {
    && D.Keys == D0.Keys
    && (forall d :: d in D0 && !(d in done && Rendition(d)) ==> D[d] == D0[d])
    && ListedReady(D0, done)
    && (forall d ::
          (d in done && Rendition(d) && d in D0 && SealedMediaName in D0[d]
           && OrderFree(Unsealed(D0[d], plain), MoveAsidePlain)) ==>
          D[d] == Final(Unsealed(D0[d], plain), MoveAsidePlain))
  }

  /** The first walk taken one listed name further, from `D1` to `D2`. */
  lemma UnsealedNext(D0: map<string, Dir>, D1: map<string, Dir>, D2: map<string, Dir>, ds: seq<string>, k: nat, plain: Tag)
    requires k < |ds|
    requires forall i, j :: 0 <= i < j < |ds| ==> ds[i] != ds[j]
    requires UnsealedOver(D0, D1, ds[..k], plain)
    requires Rendition(ds[k]) || D2 == D1
    requires D2.Keys == D1.Keys
    requires forall e :: e in D1 && e != ds[k] ==> D2[e] == D1[e]
    requires Rendition(ds[k]) ==> ds[k] in D1 && SealedMediaName in D1[ds[k]]
    requires Rendition(ds[k]) && ds[k] in D1 && SealedMediaName in D1[ds[k]]
             && OrderFree(Unsealed(D1[ds[k]], plain), MoveAsidePlain) ==>
             D2[ds[k]] == Final(Unsealed(D1[ds[k]], plain), MoveAsidePlain)
    ensures UnsealedOver(D0, D2, ds[..k + 1], plain)
  {
    NextListed(ds, k);
  }

  /** The first walk stops at a listed rendition that is missing, not sealed or not order-free. */
  lemma UnsealFailed(D0: map<string, Dir>, D1: map<string, Dir>, D2: map<string, Dir>, ds: seq<string>, k: nat, plain: Tag)
    requires k < |ds|
    requires forall i, j :: 0 <= i < j < |ds| ==> ds[i] != ds[j]
    requires UnsealedOver(D0, D1, ds[..k], plain)
    requires Rendition(ds[k])
    requires D2.Keys == D1.Keys
    requires forall e :: e in D1 && e != ds[k] ==> D2[e] == D1[e]
    requires !(ds[k] in D1 && SealedMediaName in D1[ds[k]] && OrderFree(Unsealed(D1[ds[k]], plain), MoveAsidePlain))
    ensures D2.Keys == D0.Keys
    ensures forall d :: d in D0 && !(d in ds && Rendition(d)) ==> D2[d] == D0[d]
    ensures !(ListedReady(D0, ds) && ListedFree(D0, ds, plain))
  {
    NextListed(ds, k);
    assert ds[k] in ds;
  }

  class WorkDir {
    /** The files directly in the working directory. */
    var files: Dir
    /** Its rendition directories. */
    var dirs: map<string, Dir>
    /** Whether the working directory has been renamed to the destination. */
    var published: bool

    /** A name is a file or a directory, not both. */
    ghost predicate Valid()
      reads this
    {
      files.Keys !! dirs.Keys
    }

    /** `mkdirSync(tmpPath)` on a fresh destination. */
    constructor ()
      ensures files == map[] && dirs == map[] && !published
      ensures Valid()
    {
      files := map[];
      dirs := map[];
      published := false;
    }

    /**
     * One transcoding pass of `asyncConvert`.  Every missing rung directory
     * is created empty (a name already taken, by a file or a directory, is
     * left alone), then the master playlist is written, which throws when a
     * directory holds its name.  When a file holds a rung directory's name
     * the transcoder cannot write there and the pass fails with the master
     * written; otherwise the transcoder writes segments 1 to n and the
     * media playlist of every rung.
     */
    method Transcode(videoName: string, iClass: int, pass: Pass, n: nat, media: Rung -> string) returns (ok: bool)
      requires Valid()
      modifies this
      ensures Valid() && published == old(published)
      ensures ok <==> MasterName(videoName) !in old(dirs) && forall r :: r in Included(iClass) ==> DirName(r) !in old(files)
      ensures !ok ==> dirs == MadeDirs(old(files), old(dirs), Included(iClass))
      ensures !ok ==> files == if MasterName(videoName) in old(dirs) then old(files)
                               else old(files)[MasterName(videoName) := Playlist(pass, MasterText(Included(iClass)))]
      ensures ok ==> files == old(files)[MasterName(videoName) := Playlist(pass, MasterText(Included(iClass)))]
      ensures ok ==> dirs.Keys == old(dirs).Keys + RungDirs(iClass)
      ensures ok ==> forall r :: r in Included(iClass) ==>
                       dirs[DirName(r)] == Transcoded(Existing(old(dirs), DirName(r)), pass, n, media(r))
      ensures ok ==> forall d :: d in old(dirs) && d !in RungDirs(iClass) ==> dirs[d] == old(dirs)[d]
    {
      var rs := Included(iClass);
      var clash := exists k | 0 <= k < |rs| :: DirName(rs[k]) in files;
      assert clash <==> exists r :: r in Included(iClass) && DirName(r) in files;
      MadeRungDirs(files, dirs, iClass, videoName);
      MakeRungDirs(rs);
      if MasterName(videoName) in dirs {
        return false;
      }
      files := files[MasterName(videoName) := Playlist(pass, MasterText(rs))];
      if clash {
        return false;
      }
      ok := true;
      var write := (M: Dir, r: Rung) => Transcoded(M, pass, n, media(r));
      WrittenRungs(dirs, iClass, write);
      WriteRungs(rs, write);
    }

    /** `!fs.existsSync(d) && fs.mkdirSync(d)` for the directory of every rung of `rs`, in order. */
    method MakeRungDirs(rs: seq<Rung>)
      modifies this
      ensures files == old(files) && published == old(published)
      ensures dirs == MadeDirs(files, old(dirs), rs)
    {
      var k := 0;
      while k < |rs|
        invariant 0 <= k <= |rs|
        invariant files == old(files) && published == old(published)
        invariant dirs == MadeDirs(files, old(dirs), rs[..k])
      {
        var d := DirName(rs[k]);
        assert rs[..k + 1][..k] == rs[..k];
        if d !in files && d !in dirs {
          dirs := dirs[d := map[]];
        }
        k := k + 1;
      }
      assert rs[..|rs|] == rs;
    }

    /** The transcoder's output, rung directory after rung directory, each created when missing. */
    method WriteRungs(rs: seq<Rung>, write: (Dir, Rung) -> Dir)
      modifies this
      ensures files == old(files) && published == old(published)
      ensures dirs == WrittenUpTo(old(dirs), rs, DirName, write, |rs|)
    {
      var k := 0;
      while k < |rs|
        invariant 0 <= k <= |rs|
        invariant files == old(files) && published == old(published)
        invariant dirs == WrittenUpTo(old(dirs), rs, DirName, write, k)
      {
        var d := DirName(rs[k]);
        dirs := dirs[d := write(Existing(dirs, d), rs[k])];
        k := k + 1;
      }
    }

    /**
     * One rename loop: the directory `d` is listed, then every listed file
     * is kept, deleted or renamed as `rule` says, up to the first call that
     * throws.  When the loop is order-free, it never fails and leaves the
     * closed form `Final`, whatever the order of the listing.
     */
    method ProcessListing(d: string, rule: Rule) returns (ok: bool)
      requires d in dirs
      modifies this
      ensures files == old(files) && published == old(published) && dirs.Keys == old(dirs).Keys
      ensures forall e :: e in old(dirs) && e != d ==> dirs[e] == old(dirs)[e]
      ensures OrderFree(old(dirs)[d], rule) ==> ok && dirs[d] == Final(old(dirs)[d], rule)
    {
      var names := Listing(dirs[d].Keys);
      var contents;
      ok, contents := RunNames(dirs[d], rule, names);
      dirs := dirs[d := contents];
      if OrderFree(old(dirs)[d], rule) {
        RunFinal(old(dirs)[d], rule, names);
      }
    }

    // -------------------------------------------------------------------
    // Stage 1: asyncRenameEnc

    /**
     * Stage 1: the master playlist and every rendition's media playlist get
     * `.enc` appended, and in every rendition directory the segments whose
     * name ends in `7.ts` get `.enc` appended while all other segments are
     * deleted.  It fails exactly when a file it renames is missing or a
     * directory it walks is not there.
     */
    method RenameEnc(videoName: string, iClass: int) returns (ok: bool)
      requires Valid()
      modifies this
      ensures Valid() && published == old(published) && dirs.Keys == old(dirs).Keys
      ensures ok <==> MasterName(videoName) in old(files) && SealedMasterName(videoName) !in old(dirs)
                      && forall d :: d in RungDirs(iClass) ==> d in old(dirs) && MediaName in old(dirs)[d]
      ensures ok ==> files == Rename(old(files), MasterName(videoName), SealedMasterName(videoName))
      ensures ok ==> forall d :: d in RungDirs(iClass) ==>
                       dirs[d] == Final(Rename(old(dirs)[d], MediaName, SealedMediaName), SealSevens)
      ensures forall d :: d in old(dirs) && d !in RungDirs(iClass) ==> dirs[d] == old(dirs)[d]
    {
      if MasterName(videoName) !in files || SealedMasterName(videoName) in dirs {
        return false;
      }
      files := Rename(files, MasterName(videoName), SealedMasterName(videoName));
      var subPaths := StageOneDirs(iClass);
      StageOneDirsAre(iClass);
      ok := SealRenditions(subPaths);
    }

    /** Stage 1's walk over `subPaths`, up to the first directory that is not ready. */
    method SealRenditions(ds: seq<string>) returns (ok: bool)
      requires forall i, j :: 0 <= i < j < |ds| ==> ds[i] != ds[j]
      modifies this
      ensures files == old(files) && published == old(published) && dirs.Keys == old(dirs).Keys
      ensures ok <==> forall d :: d in ds ==> d in old(dirs) && MediaName in old(dirs)[d]
      ensures ok ==> forall d :: d in ds ==>
                       dirs[d] == Final(Rename(old(dirs)[d], MediaName, SealedMediaName), SealSevens)
      ensures forall d :: d in old(dirs) && d !in ds ==> dirs[d] == old(dirs)[d]
    {
      var k := 0;
      while k < |ds|
        invariant 0 <= k <= |ds|
        invariant files == old(files) && published == old(published) && dirs.Keys == old(dirs).Keys
        invariant forall d :: d in ds[..k] ==>
                    d in old(dirs) && MediaName in old(dirs)[d]
                    && dirs[d] == Final(Rename(old(dirs)[d], MediaName, SealedMediaName), SealSevens)
        invariant forall d :: d in old(dirs) && d !in ds[..k] ==> dirs[d] == old(dirs)[d]
      {
        var d := ds[k];
        NextListed(ds, k);
        if d !in dirs || MediaName !in dirs[d] {
          return false;
        }
        SealRendition(d);
        k := k + 1;
      }
      assert ds[..k] == ds;
      ok := true;
    }

    /** Stage 1 in one rendition directory: the media playlist is set aside, then the segments. */
    method SealRendition(d: string)
      requires d in dirs && MediaName in dirs[d]
      modifies this
      ensures files == old(files) && published == old(published) && dirs.Keys == old(dirs).Keys
      ensures forall e :: e in old(dirs) && e != d ==> dirs[e] == old(dirs)[e]
      ensures dirs[d] == Final(Rename(old(dirs)[d], MediaName, SealedMediaName), SealSevens)
    {
      dirs := dirs[d := Rename(dirs[d], MediaName, SealedMediaName)];
      SealSevensOrderFree(dirs[d]);
      var ok := ProcessListing(d, SealSevens);
    }

    // -------------------------------------------------------------------
    // Stage 2: asyncRenameUnenc

    /**
     * Stage 2: the plain master playlist is written beside the encrypted
     * one, which gets its name back; in every rendition directory the
     * encrypted media playlist gets its name back, the rewritten LD media
     * playlist is written as `video_unenc.m3u8`, the plain `…7.ts` segments
     * are moved aside and the encrypted ones get their names back.  Then
     * the working directory is published.
     */
    method RenameUnenc(videoName: string) returns (ok: bool)
      requires Valid()
      modifies this
      ensures Valid() && dirs.Keys == old(dirs).Keys
      ensures published == (old(published) || ok)
      ensures ok ==> StageTwoReady(old(files), old(dirs), videoName)
      ensures StageTwoReady(old(files), old(dirs), videoName) && RenditionsFree(old(dirs), PlainMedia(old(dirs))) ==> ok
      ensures ok ==> files == StageTwoFiles(old(files), videoName)
      ensures ok ==> forall d ::
                       (d in old(dirs) && Rendition(d)
                        && OrderFree(Unsealed(old(dirs)[d], PlainMedia(old(dirs))), MoveAsidePlain)) ==>
                       dirs[d] == Final(Final(Unsealed(old(dirs)[d], PlainMedia(old(dirs))), MoveAsidePlain), RestoreSevens)
      ensures forall d :: d in old(dirs) && !Rendition(d) ==> dirs[d] == old(dirs)[d]
    {
      var subPaths := Listing(files.Keys + dirs.Keys);
      if MasterName(videoName) !in files || LdDir !in dirs || MediaName !in dirs[LdDir] {
        return false;
      }
      var plain := PlainMedia(dirs);
      ok := RestoreMasters(videoName);
      if !ok {
        return;
      }
      ok := RestoreListed(subPaths, plain, old(files));
    }

    /**
     * Stage 2's walks over `subPaths`, a listing of the working directory
     * when it held `files0`, then the publication.
     */
    method RestoreListed(ds: seq<string>, plain: Tag, ghost files0: Dir) returns (ok: bool)
      requires Valid() && files0.Keys !! dirs.Keys
      requires forall k :: 0 <= k < |ds| ==> ds[k] in files0.Keys + dirs.Keys
      requires forall f :: f in files0.Keys + dirs.Keys ==> f in ds
      requires forall i, j :: 0 <= i < j < |ds| ==> ds[i] != ds[j]
      modifies this
      ensures Valid() && files == old(files) && dirs.Keys == old(dirs).Keys
      ensures published == (old(published) || ok)
      ensures ok ==> RenditionsReady(files0, old(dirs))
      ensures RenditionsReady(files0, old(dirs)) && RenditionsFree(old(dirs), plain) ==> ok
      ensures ok ==> forall d ::
                       (d in old(dirs) && Rendition(d) && SealedMediaName in old(dirs)[d]
                        && OrderFree(Unsealed(old(dirs)[d], plain), MoveAsidePlain)) ==>
                       dirs[d] == Final(Final(Unsealed(old(dirs)[d], plain), MoveAsidePlain), RestoreSevens)
      ensures forall d :: d in old(dirs) && !Rendition(d) ==> dirs[d] == old(dirs)[d]
    {
      ListedRenditions(files0, dirs, ds, plain);
      ok := RestoreAll(ds, plain);
      if ok {
        published := true;
      }
    }

    /**
     * Stage 2 at the top level: the plain master playlist is written, then
     * the encrypted master gets its name back, replacing the plain pass's.
     */
    method RestoreMasters(videoName: string) returns (ok: bool)
      requires Valid()
      modifies this
      ensures Valid() && dirs == old(dirs) && published == old(published)
      ensures ok <==> MasterName(videoName) in old(files) && SealedMasterName(videoName) in old(files)
                      && UnencMasterName(videoName) !in old(dirs)
      ensures ok ==> files == StageTwoFiles(old(files), videoName)
    {
      if MasterName(videoName) !in files || UnencMasterName(videoName) in dirs {
        return false;
      }
      var master := files[MasterName(videoName)];
      MasterNamesDiffer(videoName);
      files := files[UnencMasterName(videoName) := Playlist(master.pass, ReplaceAll(Content(master), MasterPattern, MasterReplacement))];
      if SealedMasterName(videoName) !in files {
        return false;
      }
      files := Rename(files, SealedMasterName(videoName), MasterName(videoName));
      ok := true;
    }

    /** Stage 2's two walks over `subPaths`, the second once the first has gone through. */
    method RestoreAll(ds: seq<string>, plain: Tag) returns (ok: bool)
      requires Valid()
      requires forall i, j :: 0 <= i < j < |ds| ==> ds[i] != ds[j]
      modifies this
      ensures Valid()
      ensures files == old(files) && published == old(published) && dirs.Keys == old(dirs).Keys
      ensures forall d :: d in old(dirs) && !Rendition(d) ==> dirs[d] == old(dirs)[d]
      ensures ok ==> ListedReady(old(dirs), ds)
      ensures ListedReady(old(dirs), ds) && ListedFree(old(dirs), ds, plain) ==> ok
      ensures ok ==> forall d ::
                       (d in ds && Rendition(d) && d in old(dirs) && SealedMediaName in old(dirs)[d]
                        && OrderFree(Unsealed(old(dirs)[d], plain), MoveAsidePlain)) ==>
                       dirs[d] == Final(Final(Unsealed(old(dirs)[d], plain), MoveAsidePlain), RestoreSevens)
    {
      ok := RestoreRenditions(ds, plain);
      if !ok {
        return;
      }
      ok := RestoreSegments(ds);
    }

    /**
     * Stage 2's first walk over `subPaths`: every rendition directory is
     * unsealed and its plain `…7.ts` segments are moved aside.
     */
    method RestoreRenditions(ds: seq<string>, plain: Tag) returns (ok: bool)
      requires forall i, j :: 0 <= i < j < |ds| ==> ds[i] != ds[j]
      modifies this
      ensures files == old(files) && published == old(published) && dirs.Keys == old(dirs).Keys
      ensures forall d :: d in old(dirs) && !(d in ds && Rendition(d)) ==> dirs[d] == old(dirs)[d]
      ensures ok ==> ListedReady(old(dirs), ds)
      ensures ListedReady(old(dirs), ds) && ListedFree(old(dirs), ds, plain) ==> ok
      ensures ok ==> forall d ::
                       (d in ds && Rendition(d) && d in old(dirs) && SealedMediaName in old(dirs)[d]
                        && OrderFree(Unsealed(old(dirs)[d], plain), MoveAsidePlain)) ==>
                       dirs[d] == Final(Unsealed(old(dirs)[d], plain), MoveAsidePlain)
    {
      var k := 0;
      while k < |ds|
        invariant 0 <= k <= |ds|
        invariant files == old(files) && published == old(published)
        invariant UnsealedOver(old(dirs), dirs, ds[..k], plain)
      {
        var d := ds[k];
        ghost var dirs1 := dirs;
        if Rendition(d) {
          ok := RestoreRendition(d, plain);
          if !ok {
            UnsealFailed(old(dirs), dirs1, dirs, ds, k, plain);
            return;
          }
        }
        UnsealedNext(old(dirs), dirs1, dirs, ds, k, plain);
        k := k + 1;
      }
      assert ds[..k] == ds;
      ok := true;
    }

    /** Stage 2 in one rendition directory, before the encrypted segments are restored. */
    method RestoreRendition(d: string, plain: Tag) returns (ok: bool)
      modifies this
      ensures files == old(files) && published == old(published) && dirs.Keys == old(dirs).Keys
      ensures forall e :: e in old(dirs) && e != d ==> dirs[e] == old(dirs)[e]
      ensures ok ==> d in old(dirs) && SealedMediaName in old(dirs)[d]
      ensures d in old(dirs) && SealedMediaName in old(dirs)[d] && OrderFree(Unsealed(old(dirs)[d], plain), MoveAsidePlain) ==>
                ok && dirs[d] == Final(Unsealed(old(dirs)[d], plain), MoveAsidePlain)
    {
      if d !in dirs || SealedMediaName !in dirs[d] {
        return false;
      }
      dirs := dirs[d := Rename(dirs[d], SealedMediaName, MediaName)];
      dirs := dirs[d := dirs[d][UnencMediaName := plain]];
      ok := ProcessListing(d, MoveAsidePlain);
    }

    /** Stage 2's second walk over `subPaths`: the encrypted `…7.ts` segments get their names back. */
    method RestoreSegments(ds: seq<string>) returns (ok: bool)
      requires forall i, j :: 0 <= i < j < |ds| ==> ds[i] != ds[j]
      modifies this
      ensures files == old(files) && published == old(published) && dirs.Keys == old(dirs).Keys
      ensures forall d :: d in old(dirs) && !(d in ds && Rendition(d)) ==> dirs[d] == old(dirs)[d]
      ensures ok <==> forall d :: d in ds && Rendition(d) ==> d in old(dirs)
      ensures ok ==> forall d :: d in ds && Rendition(d) ==> dirs[d] == Final(old(dirs)[d], RestoreSevens)
    {
      var k := 0;
      while k < |ds|
        invariant 0 <= k <= |ds|
        invariant files == old(files) && published == old(published) && dirs.Keys == old(dirs).Keys
        invariant forall d :: d in old(dirs) && !(d in ds[..k] && Rendition(d)) ==> dirs[d] == old(dirs)[d]
        invariant forall d :: d in ds[..k] && Rendition(d) ==> d in old(dirs) && dirs[d] == Final(old(dirs)[d], RestoreSevens)
      {
        var d := ds[k];
        NextListed(ds, k);
        if Rendition(d) {
          if d !in dirs {
            return false;
          }
          RestoreSevensOrderFree(dirs[d]);
          ok := ProcessListing(d, RestoreSevens);
        }
        k := k + 1;
      }
      assert ds[..k] == ds;
      ok := true;
    }
  }
}
