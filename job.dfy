/**
 * One run of the converter on a rendition directory and on the whole
 * working directory: what every rendition directory holds after stage 1,
 * after the plain pass and after stage 2, and the promise chain from the
 * classification to the exit status.
 *
 * The end state is the point of the tool: every segment whose number ends
 * in 7 is the encrypted pass's, under its ordinary name, and every other
 * segment is the plain pass's; the plain `…7.ts` segments are kept aside
 * under `…7_unenc.ts` for the unencrypted playlists.
 */
module Job {
  import opened Text
  import opened Regex
  import opened Classify
  import opened Ladder
  import opened Segments
  import opened Playlists
  import opened Directory
  import opened WorkingDir

  /** The name stage 1 gives an encrypted segment it keeps. */
  function SealedName(i: nat): string { SegmentName(i) + ".enc" }

  /** Where stage 2 leaves plain segment i: moved aside when its number ends in 7. */
  function PlainName(i: nat): string { if i % 10 == 7 then UnencSegmentName(i) else SegmentName(i) }

  // ---------------------------------------------------------------------
  // What the three loops do with each name that occurs

  /** `g + ".enc"` ends in `7.ts.enc` exactly when `g` ends in `7.ts`. */
  lemma AppendEncSeven(g: string)
    ensures EndsWith(g + ".enc", "7.ts.enc") <==> EndsWith(g, "7.ts")
  {
    var e := g + ".enc";
    if |g| >= 4 {
      assert e[|e| - 8..] == g[|g| - 4..] + ".enc";
      assert "7.ts.enc" == "7.ts" + ".enc";
      if EndsWith(e, "7.ts.enc") {
        AppendEncInjective(g[|g| - 4..], "7.ts");
      }
    }
  }

  /** Stripping `.enc` off `g + ".enc"` gives `g` back. */
  lemma AppendEncStrip(g: string)
    ensures ReplaceAtEnd(g + ".enc", ".enc", "") == g
  {
    var e := g + ".enc";
    AppendEncEnds(g);
    StripEnc(e);
    assert e[..|e| - 4] == g;
  }

  /** What the three loops do with a name that ends in `.ts` but not in `.enc`. */
  lemma TsActs(f: string)
    requires EndsWith(f, ".ts") && !EndsWith(f, ".enc")
    ensures Act(SealSevens, f) == if EndsWith(f, "7.ts") then MoveTo(f + ".enc") else Remove
    ensures Act(MoveAsidePlain, f) == if EndsWith(f, "7.ts") then MoveTo(ReplaceFirst(f, "7.ts", "7_unenc.ts")) else Keep
    ensures Act(RestoreSevens, f) == Keep
  {
    NotEndsWithTail(f, "7.ts", ".enc");
    assert "7.ts" + ".enc" == "7.ts.enc";
  }

  /** Segment i is set aside by stage 1 when its number ends in 7 and deleted otherwise; stage 2 moves only the sevens. */
  lemma SegmentActs(i: nat)
    ensures Act(SealSevens, SegmentName(i)) == if i % 10 == 7 then MoveTo(SealedName(i)) else Remove
    ensures Act(MoveAsidePlain, SegmentName(i)) == if i % 10 == 7 then MoveTo(UnencSegmentName(i)) else Keep
    ensures Act(RestoreSevens, SegmentName(i)) == Keep
  {
    SegmentEndsWith7(i);
    SegmentEndsWithTs(i);
    TsActs(SegmentName(i));
    if i % 10 == 7 {
      UnencRenameOfSegment(i);
    }
  }

  /** A set-aside segment stays put while plain segments move, and gets its name back afterwards. */
  lemma SealedActs(i: nat)
    ensures Act(MoveAsidePlain, SealedName(i)) == Keep
    ensures Act(RestoreSevens, SealedName(i)) == if i % 10 == 7 then MoveTo(SegmentName(i)) else Keep
  {
    AppendEncEnds(SegmentName(i));
    AppendEncSeven(SegmentName(i));
    AppendEncStrip(SegmentName(i));
    SegmentEndsWith7(i);
    NotEndsWithTail(SealedName(i), "7", ".ts");
  }

  /** Stage 2 leaves alone a name that ends neither in `7.ts` nor in `.enc`. */
  lemma StageTwoKeeps(f: string)
    requires !EndsWith(f, "7.ts") && !EndsWith(f, ".enc")
    ensures Act(MoveAsidePlain, f) == Keep
    ensures Act(RestoreSevens, f) == Keep
  {
    NotEndsWithTail(f, "7.ts", ".enc");
    assert "7.ts" + ".enc" == "7.ts.enc";
  }

  /** A moved-aside plain segment is left alone by both loops of stage 2. */
  lemma UnencActs(i: nat)
    ensures Act(MoveAsidePlain, UnencSegmentName(i)) == Keep
    ensures Act(RestoreSevens, UnencSegmentName(i)) == Keep
  {
    UnencSegmentNameEnds(i);
    StageTwoKeeps(UnencSegmentName(i));
  }

  /** Every loop keeps the media playlists. */
  lemma PlaylistActs(rule: Rule)
    ensures Act(rule, MediaName) == Keep
    ensures Act(rule, SealedMediaName) == Keep
    ensures Act(rule, UnencMediaName) == Keep
  {
    assert MediaName[|MediaName| - 1] == '8' && UnencMediaName[|UnencMediaName| - 1] == '8';
    assert SealedMediaName[|SealedMediaName| - 1] == 'c';
    assert SealedMediaName[|SealedMediaName| - 8..] == "m3u8.enc";
  }

  /** The names of segments in their three guises never coincide, and each guise is one-to-one. */
  lemma NamesDiffer(i: nat, j: nat)
    ensures SealedName(i) != SegmentName(j)
    ensures SealedName(i) != UnencSegmentName(j)
    ensures UnencSegmentName(i) != SegmentName(j)
    ensures SealedName(i) == SealedName(j) ==> i == j
    ensures SegmentName(i) == SegmentName(j) ==> i == j
  {
    AppendEncEnds(SegmentName(i));
    SegmentEndsWithTs(j);
    UnencSegmentNameEnds(j);
    UnencSegmentNameIsNoSegment(i, j);
    if SealedName(i) == SealedName(j) {
      AppendEncInjective(SegmentName(i), SegmentName(j));
    }
    if SegmentName(i) == SegmentName(j) {
      SegmentNameInjective(i, j);
    }
  }

  /** No segment name in any guise is the name of a media playlist. */
  lemma PlaylistNamesDiffer(i: nat)
    ensures SegmentName(i) != MediaName && SegmentName(i) != SealedMediaName && SegmentName(i) != UnencMediaName
    ensures SealedName(i) != MediaName && SealedName(i) != SealedMediaName && SealedName(i) != UnencMediaName
    ensures UnencSegmentName(i) != MediaName && UnencSegmentName(i) != SealedMediaName
    ensures UnencSegmentName(i) != UnencMediaName
  {
    SegmentEndsWithTs(i);
    UnencSegmentNameEnds(i);
    AppendEncEnds(SegmentName(i));
    PlaylistActs(SealSevens);
    assert SegmentName(i)[|SegmentName(i)| - 1] == 's';
    assert UnencSegmentName(i)[|UnencSegmentName(i)| - 1] == 's';
    assert SealedName(i)[|SealedName(i)| - 1] == 'c';
  }

  /** No segment name in any guise is the name of a media playlist, for any number. */
  lemma PlaylistNamesNotSegments()
    ensures forall i: nat :: SegmentName(i) != MediaName && SegmentName(i) != SealedMediaName && SegmentName(i) != UnencMediaName
    ensures forall i: nat :: SealedName(i) != MediaName && SealedName(i) != SealedMediaName && SealedName(i) != UnencMediaName
    ensures forall i: nat :: UnencSegmentName(i) != MediaName && UnencSegmentName(i) != SealedMediaName
                             && UnencSegmentName(i) != UnencMediaName
  {
    forall i: nat ensures SegmentName(i) != MediaName && SegmentName(i) != SealedMediaName && SegmentName(i) != UnencMediaName {
      PlaylistNamesDiffer(i);
    }
    forall i: nat ensures SealedName(i) != MediaName && SealedName(i) != SealedMediaName && SealedName(i) != UnencMediaName {
      PlaylistNamesDiffer(i);
    }
    forall i: nat ensures UnencSegmentName(i) != MediaName && UnencSegmentName(i) != SealedMediaName
                          && UnencSegmentName(i) != UnencMediaName {
      PlaylistNamesDiffer(i);
    }
  }

  /** A set-aside name is never the name of a segment or of a moved-aside segment. */
  lemma SealedNameIsNoOther(i: nat)
    ensures forall j: nat :: SealedName(i) != SegmentName(j) && SealedName(i) != UnencSegmentName(j)
  {
    forall j: nat ensures SealedName(i) != SegmentName(j) && SealedName(i) != UnencSegmentName(j) {
      NamesDiffer(i, j);
    }
  }

  /** A segment name is never the name of a moved-aside segment. */
  lemma SegmentNameIsNoUnenc(i: nat)
    ensures forall j: nat :: SegmentName(i) != UnencSegmentName(j)
  {
    forall j: nat ensures SegmentName(i) != UnencSegmentName(j) {
      NamesDiffer(j, i);
    }
  }

  // ---------------------------------------------------------------------
  // The shape of a rendition directory along the way

  /** `D` holds `t` under the name `f`. */
  predicate Holds(D: Dir, f: string, t: Tag) {
    f in D && D[f] == t
  }

  /** `t`, under the name `f`, is encrypted segment i ≤ n with i ending in 7, named `name(i)`. */
  predicate EncSeven(f: string, t: Tag, n: nat, name: nat -> string) {
    t.Segment? && t.pass == Encrypted && 1 <= t.index <= n && t.index % 10 == 7 && f == name(t.index)
  }

  /** `t`, under the name `f`, is plain segment i ≤ n, named `name(i)`. */
  predicate PlainSeg(f: string, t: Tag, n: nat, name: nat -> string) {
    t.Segment? && t.pass == Plain && 1 <= t.index <= n && f == name(t.index)
  }

  /** Every file of `D` is segment i ≤ n of `pass`, under its name. */
  ghost predicate OnlySegments(D: Dir, pass: Pass, n: nat) {
    forall f :: f in D ==> D[f].Segment? && D[f].pass == pass && 1 <= D[f].index <= n && f == SegmentName(D[f].index)
  }

  /**
   * A rendition directory after stage 1: the encrypted media playlist set
   * aside, the encrypted segments ending in 7 set aside, nothing else.
   */
  ghost predicate SealedShape(D: Dir, nA: nat, tA: string) {
    && Holds(D, SealedMediaName, Playlist(Encrypted, tA))
    && (forall i :: 1 <= i <= nA && i % 10 == 7 ==> Holds(D, SealedName(i), Segment(Encrypted, i)))
    && (forall f :: f in D ==> f == SealedMediaName || EncSeven(f, D[f], nA, SealedName))
  }

  /**
   * A rendition directory after the plain pass, once stage 2 has restored
   * the encrypted media playlist and written the plain one.
   */
  ghost predicate MidShape(D: Dir, nA: nat, tA: string, nB: nat, plain: Tag) {
    && Holds(D, MediaName, Playlist(Encrypted, tA))
    && Holds(D, UnencMediaName, plain)
    && (forall i :: 1 <= i <= nA && i % 10 == 7 ==> Holds(D, SealedName(i), Segment(Encrypted, i)))
    && (forall i :: 1 <= i <= nB ==> Holds(D, SegmentName(i), Segment(Plain, i)))
    && (forall f :: f in D ==>
          f == MediaName || f == UnencMediaName || EncSeven(f, D[f], nA, SealedName) || PlainSeg(f, D[f], nB, SegmentName))
  }

  /** A rendition directory once stage 2 has moved the plain `…7.ts` segments aside. */
  ghost predicate AsideShape(D: Dir, nA: nat, tA: string, nB: nat, plain: Tag) {
    && Holds(D, MediaName, Playlist(Encrypted, tA))
    && Holds(D, UnencMediaName, plain)
    && (forall i :: 1 <= i <= nA && i % 10 == 7 ==> Holds(D, SealedName(i), Segment(Encrypted, i)))
    && (forall i :: 1 <= i <= nB ==> Holds(D, PlainName(i), Segment(Plain, i)))
    && (forall f :: f in D ==>
          f == MediaName || f == UnencMediaName || EncSeven(f, D[f], nA, SealedName) || PlainSeg(f, D[f], nB, PlainName))
  }

  /**
   * A rendition directory at the end: the encrypted media playlist, the
   * plain one, the encrypted segments ending in 7 under their names, and
   * the plain segments, those ending in 7 moved aside.
   */
  ghost predicate FinalShape(D: Dir, nA: nat, tA: string, nB: nat, plain: Tag) {
    && Holds(D, MediaName, Playlist(Encrypted, tA))
    && Holds(D, UnencMediaName, plain)
    && (forall i :: 1 <= i <= nA && i % 10 == 7 ==> Holds(D, SegmentName(i), Segment(Encrypted, i)))
    && (forall i :: 1 <= i <= nB ==> Holds(D, PlainName(i), Segment(Plain, i)))
    && (forall f :: f in D ==>
          f == MediaName || f == UnencMediaName || EncSeven(f, D[f], nA, SegmentName) || PlainSeg(f, D[f], nB, PlainName))
  }

  // ---------------------------------------------------------------------
  // Stage 1 in a rendition directory

  /** A fresh rendition directory after a pass holds that pass's segments 1 to n and its media playlist. */
  lemma FreshTranscoded(pass: Pass, n: nat, text: string)
    ensures OnlySegments(WithSegments(map[], pass, n), pass, n)
    ensures Transcoded(map[], pass, n, text) == WithSegments(map[], pass, n)[MediaName := Playlist(pass, text)]
    ensures MediaName !in WithSegments(map[], pass, n)
  {
    WithSegmentsOnly(map[], pass, n);
    var D := WithSegments(map[], pass, n);
    if MediaName in D {
      PlaylistNamesDiffer(D[MediaName].index);
    }
  }

  /**
   * A rendition directory the encrypted pass has just created, once its
   * media playlist is set aside: segments 1 to n and the playlist.
   */
  ghost predicate SealedPlaylistOnly(R: Dir, nA: nat, tA: string) {
    && Holds(R, SealedMediaName, Playlist(Encrypted, tA))
    && (forall i :: 1 <= i <= nA ==> Holds(R, SegmentName(i), Segment(Encrypted, i)))
    && (forall f :: f in R && f != SealedMediaName ==>
          R[f].Segment? && R[f].pass == Encrypted && 1 <= R[f].index <= nA && f == SegmentName(R[f].index))
  }

  /** Nothing stage 1 moves lands on the set-aside media playlist. */
  lemma SealTargets(R: Dir, nA: nat, tA: string)
    requires SealedPlaylistOnly(R, nA, tA)
    ensures forall g :: g in R && Act(SealSevens, g).MoveTo? ==> Act(SealSevens, g).target != SealedMediaName
  {
    PlaylistActs(SealSevens);
    forall g | g in R && Act(SealSevens, g).MoveTo?
      ensures Act(SealSevens, g).target != SealedMediaName
    {
      SegmentActs(R[g].index);
      PlaylistNamesDiffer(R[g].index);
    }
  }

  /** After stage 1's loop the set-aside playlist and the encrypted sevens are there. */
  lemma SealFinalHas(R: Dir, nA: nat, tA: string)
    requires SealedPlaylistOnly(R, nA, tA)
    ensures Holds(Final(R, SealSevens), SealedMediaName, Playlist(Encrypted, tA))
    ensures forall i :: 1 <= i <= nA && i % 10 == 7 ==> Holds(Final(R, SealSevens), SealedName(i), Segment(Encrypted, i))
  {
    SealSevensOrderFree(R);
    PlaylistActs(SealSevens);
    SealTargets(R, nA, tA);
    FinalKept(R, SealSevens, SealedMediaName);
    forall i | 1 <= i <= nA && i % 10 == 7
      ensures Holds(Final(R, SealSevens), SealedName(i), Segment(Encrypted, i))
    {
      SegmentActs(i);
      FinalMoved(R, SealSevens, SegmentName(i));
    }
  }

  /** After stage 1's loop nothing but the set-aside playlist and the encrypted sevens is there. */
  lemma SealFinalOnly(R: Dir, nA: nat, tA: string)
    requires SealedPlaylistOnly(R, nA, tA)
    ensures forall f :: f in Final(R, SealSevens) ==> f == SealedMediaName || EncSeven(f, Final(R, SealSevens)[f], nA, SealedName)
  {
    PlaylistActs(SealSevens);
    var F := Final(R, SealSevens);
    forall f | f in F
      ensures f == SealedMediaName || EncSeven(f, F[f], nA, SealedName)
    {
      FinalFrom(R, SealSevens, f);
      if f in Targets(R, R.Keys, SealSevens) {
        var g := Source(R, R.Keys, SealSevens, f);
        SegmentActs(R[g].index);
      } else if f != SealedMediaName {
        SegmentActs(R[f].index);
      }
    }
  }

  /**
   * Stage 1 in a rendition directory the encrypted pass has just created:
   * the media playlist is set aside, the encrypted segments ending in 7 are
   * set aside, and every other segment is gone.
   */
  lemma StageOneRendition(nA: nat, tA: string)
    ensures MediaName in Transcoded(map[], Encrypted, nA, tA)
    ensures SealedShape(Final(Rename(Transcoded(map[], Encrypted, nA, tA), MediaName, SealedMediaName), SealSevens), nA, tA)
  {
    FreshTranscoded(Encrypted, nA, tA);
    var R := Rename(Transcoded(map[], Encrypted, nA, tA), MediaName, SealedMediaName);
    FreshRenamed(nA, tA);
    SealFinalHas(R, nA, tA);
    SealFinalOnly(R, nA, tA);
  }

  /** The encrypted pass's fresh rendition directory with its media playlist set aside. */
  lemma FreshRenamed(nA: nat, tA: string)
    requires MediaName in Transcoded(map[], Encrypted, nA, tA)
    ensures SealedPlaylistOnly(Rename(Transcoded(map[], Encrypted, nA, tA), MediaName, SealedMediaName), nA, tA)
  {
    var D0 := WithSegments(map[], Encrypted, nA);
    FreshTranscoded(Encrypted, nA, tA);
    var R := Rename(Transcoded(map[], Encrypted, nA, tA), MediaName, SealedMediaName);
    forall i | 1 <= i <= nA ensures Holds(R, SegmentName(i), Segment(Encrypted, i)) {
      WithSegmentsHas(map[], Encrypted, nA, i);
      PlaylistNamesDiffer(i);
    }
    forall f | f in R && f != SealedMediaName
      ensures R[f].Segment? && R[f].pass == Encrypted && 1 <= R[f].index <= nA && f == SegmentName(R[f].index)
    {
      assert f in D0 && R[f] == D0[f];
    }
  }

  // ---------------------------------------------------------------------
  // Stage 2 in a rendition directory

  /** A rendition directory after stage 1 and the plain pass's segments. */
  ghost predicate PassedShape(W: Dir, nA: nat, tA: string, nB: nat) {
    && Holds(W, SealedMediaName, Playlist(Encrypted, tA))
    && (forall i :: 1 <= i <= nA && i % 10 == 7 ==> Holds(W, SealedName(i), Segment(Encrypted, i)))
    && (forall i :: 1 <= i <= nB ==> Holds(W, SegmentName(i), Segment(Plain, i)))
    && (forall f :: f in W ==> f == SealedMediaName || EncSeven(f, W[f], nA, SealedName) || PlainSeg(f, W[f], nB, SegmentName))
  }

  /** The plain pass writes its segments beside the set-aside ones, overwriting none of them. */
  lemma PlainPassShape(D1: Dir, nA: nat, tA: string, nB: nat)
    requires SealedShape(D1, nA, tA)
    ensures PassedShape(WithSegments(D1, Plain, nB), nA, tA, nB)
  {
    var W := WithSegments(D1, Plain, nB);
    WithSegmentsKeeps(D1, Plain, nB);
    WithSegmentsOnly(D1, Plain, nB);
    PlaylistNamesNotSegments();
    forall i | 1 <= i <= nA && i % 10 == 7 ensures Holds(W, SealedName(i), Segment(Encrypted, i)) {
      SealedNameIsNoOther(i);
    }
    forall i | 1 <= i <= nB ensures Holds(W, SegmentName(i), Segment(Plain, i)) {
      WithSegmentsHas(D1, Plain, nB, i);
    }
  }

  /** Stage 2 restores the encrypted media playlist over the plain pass's and writes the plain one. */
  lemma UnsealedMid(W: Dir, nA: nat, tA: string, nB: nat, tB: string, plain: Tag)
    requires PassedShape(W, nA, tA, nB)
    ensures SealedMediaName in W[MediaName := Playlist(Plain, tB)]
    ensures MidShape(Unsealed(W[MediaName := Playlist(Plain, tB)], plain), nA, tA, nB, plain)
  {
    var W' := W[MediaName := Playlist(Plain, tB)];
    var R := Rename(W', SealedMediaName, MediaName);
    var U := R[UnencMediaName := plain];
    assert U == Unsealed(W', plain);
    forall i | 1 <= i <= nA && i % 10 == 7 ensures Holds(U, SealedName(i), Segment(Encrypted, i)) {
      PlaylistNamesDiffer(i);
    }
    forall i | 1 <= i <= nB ensures Holds(U, SegmentName(i), Segment(Plain, i)) {
      PlaylistNamesDiffer(i);
    }
    forall f | f in U
      ensures f == MediaName || f == UnencMediaName || EncSeven(f, U[f], nA, SealedName) || PlainSeg(f, U[f], nB, SegmentName)
    {
      if f != MediaName && f != UnencMediaName {
        assert f != SealedMediaName;
        assert f in W && U[f] == W[f];
      }
    }
  }

  /** What stage 2's first loop does with each file of a directory in the middle shape. */
  lemma MidAct(U: Dir, nA: nat, tA: string, nB: nat, plain: Tag, g: string)
    requires MidShape(U, nA, tA, nB, plain) && g in U
    ensures Act(MoveAsidePlain, g).MoveTo? ==>
              PlainSeg(g, U[g], nB, SegmentName) && U[g].index % 10 == 7
              && Act(MoveAsidePlain, g).target == UnencSegmentName(U[g].index)
  {
    PlaylistActs(MoveAsidePlain);
    if g != MediaName && g != UnencMediaName {
      SealedActs(U[g].index);
      SegmentActs(U[g].index);
    }
  }

  /** No moved-aside name is taken in the middle shape. */
  lemma MidNoUnenc(U: Dir, nA: nat, tA: string, nB: nat, plain: Tag, k: nat)
    requires MidShape(U, nA, tA, nB, plain)
    ensures UnencSegmentName(k) !in U
  {
    PlaylistNamesNotSegments();
    if UnencSegmentName(k) in U {
      var t := U[UnencSegmentName(k)];
      NamesDiffer(t.index, k);
      NamesDiffer(k, t.index);
    }
  }

  /** Stage 2's first loop is order-free in every rendition directory of the middle shape. */
  lemma MidOrderFree(U: Dir, nA: nat, tA: string, nB: nat, plain: Tag)
    requires MidShape(U, nA, tA, nB, plain)
    ensures OrderFree(U, MoveAsidePlain)
  {
    forall g, h | g in U && h in U && Act(MoveAsidePlain, g).MoveTo? && Act(MoveAsidePlain, g) == Act(MoveAsidePlain, h)
      ensures g == h
    {
      MidAct(U, nA, tA, nB, plain, g);
      MidAct(U, nA, tA, nB, plain, h);
      UnencSegmentNameInjective(U[g].index, U[h].index);
    }
    forall g, h | g in U && Act(MoveAsidePlain, g) == MoveTo(h)
      ensures h !in U
    {
      MidAct(U, nA, tA, nB, plain, g);
      MidNoUnenc(U, nA, tA, nB, plain, U[g].index);
    }
  }

  /** A file stage 2's first loop keeps, and whose name is no moved-aside name, is there afterwards unchanged. */
  lemma AsideKept(U: Dir, nA: nat, tA: string, nB: nat, plain: Tag, f: string)
    requires MidShape(U, nA, tA, nB, plain) && f in U && Act(MoveAsidePlain, f).Keep?
    requires forall k: nat :: f != UnencSegmentName(k)
    ensures Holds(Final(U, MoveAsidePlain), f, U[f])
  {
    forall g | g in U && Act(MoveAsidePlain, g).MoveTo? ensures Act(MoveAsidePlain, g).target != f {
      MidAct(U, nA, tA, nB, plain, g);
    }
    FinalKept(U, MoveAsidePlain, f);
  }

  /** After stage 2's first loop the playlists, the set-aside sevens and every plain segment are in place. */
  lemma MidAsideHas(U: Dir, nA: nat, tA: string, nB: nat, plain: Tag)
    requires MidShape(U, nA, tA, nB, plain)
    ensures Holds(Final(U, MoveAsidePlain), MediaName, Playlist(Encrypted, tA))
    ensures Holds(Final(U, MoveAsidePlain), UnencMediaName, plain)
    ensures forall i :: 1 <= i <= nA && i % 10 == 7 ==> Holds(Final(U, MoveAsidePlain), SealedName(i), Segment(Encrypted, i))
    ensures forall i :: 1 <= i <= nB ==> Holds(Final(U, MoveAsidePlain), PlainName(i), Segment(Plain, i))
  {
    PlaylistNamesNotSegments();
    PlaylistActs(MoveAsidePlain);
    MidOrderFree(U, nA, tA, nB, plain);
    AsideKept(U, nA, tA, nB, plain, MediaName);
    AsideKept(U, nA, tA, nB, plain, UnencMediaName);
    forall i | 1 <= i <= nA && i % 10 == 7 ensures Holds(Final(U, MoveAsidePlain), SealedName(i), Segment(Encrypted, i)) {
      SealedActs(i);
      SealedNameIsNoOther(i);
      AsideKept(U, nA, tA, nB, plain, SealedName(i));
    }
    forall i | 1 <= i <= nB ensures Holds(Final(U, MoveAsidePlain), PlainName(i), Segment(Plain, i)) {
      SegmentActs(i);
      if i % 10 == 7 {
        FinalMoved(U, MoveAsidePlain, SegmentName(i));
      } else {
        SegmentNameIsNoUnenc(i);
        AsideKept(U, nA, tA, nB, plain, SegmentName(i));
      }
    }
  }

  /** After stage 2's first loop nothing else is there. */
  lemma MidAsideOnly(U: Dir, nA: nat, tA: string, nB: nat, plain: Tag)
    requires MidShape(U, nA, tA, nB, plain)
    ensures forall f :: f in Final(U, MoveAsidePlain) ==>
              f == MediaName || f == UnencMediaName || EncSeven(f, Final(U, MoveAsidePlain)[f], nA, SealedName)
              || PlainSeg(f, Final(U, MoveAsidePlain)[f], nB, PlainName)
  {
    var V := Final(U, MoveAsidePlain);
    forall f | f in V
      ensures f == MediaName || f == UnencMediaName || EncSeven(f, V[f], nA, SealedName) || PlainSeg(f, V[f], nB, PlainName)
    {
      FinalFrom(U, MoveAsidePlain, f);
      if f in Targets(U, U.Keys, MoveAsidePlain) {
        var g := Source(U, U.Keys, MoveAsidePlain, f);
        MidAct(U, nA, tA, nB, plain, g);
      } else if f != MediaName && f != UnencMediaName && U[f].Segment? && U[f].pass == Plain {
        SegmentActs(U[f].index);
      }
    }
  }

  /** What stage 2's second loop does with each file once the plain sevens are aside. */
  lemma AsideAct(V: Dir, nA: nat, tA: string, nB: nat, plain: Tag, g: string)
    requires AsideShape(V, nA, tA, nB, plain) && g in V
    ensures Act(RestoreSevens, g).MoveTo? ==>
              EncSeven(g, V[g], nA, SealedName) && Act(RestoreSevens, g).target == SegmentName(V[g].index)
  {
    PlaylistActs(RestoreSevens);
    if g != MediaName && g != UnencMediaName {
      SealedActs(V[g].index);
      SegmentActs(V[g].index);
      UnencActs(V[g].index);
    }
  }

  /** A file stage 2's second loop keeps, and whose name is no restored name, is there afterwards unchanged. */
  lemma RestoreKept(V: Dir, nA: nat, tA: string, nB: nat, plain: Tag, f: string)
    requires AsideShape(V, nA, tA, nB, plain) && f in V && Act(RestoreSevens, f).Keep?
    requires forall k: nat :: k % 10 == 7 ==> f != SegmentName(k)
    ensures Holds(Final(V, RestoreSevens), f, V[f])
  {
    forall g | g in V && Act(RestoreSevens, g).MoveTo? ensures Act(RestoreSevens, g).target != f {
      AsideAct(V, nA, tA, nB, plain, g);
    }
    FinalKept(V, RestoreSevens, f);
  }

  /** After stage 2's second loop the playlists and every segment of both passes are in place. */
  lemma AsideFinalHas(V: Dir, nA: nat, tA: string, nB: nat, plain: Tag)
    requires AsideShape(V, nA, tA, nB, plain)
    ensures Holds(Final(V, RestoreSevens), MediaName, Playlist(Encrypted, tA))
    ensures Holds(Final(V, RestoreSevens), UnencMediaName, plain)
    ensures forall i :: 1 <= i <= nA && i % 10 == 7 ==> Holds(Final(V, RestoreSevens), SegmentName(i), Segment(Encrypted, i))
    ensures forall i :: 1 <= i <= nB ==> Holds(Final(V, RestoreSevens), PlainName(i), Segment(Plain, i))
  {
    PlaylistNamesNotSegments();
    PlaylistActs(RestoreSevens);
    RestoreSevensOrderFree(V);
    RestoreKept(V, nA, tA, nB, plain, MediaName);
    RestoreKept(V, nA, tA, nB, plain, UnencMediaName);
    forall i | 1 <= i <= nA && i % 10 == 7 ensures Holds(Final(V, RestoreSevens), SegmentName(i), Segment(Encrypted, i)) {
      SealedActs(i);
      FinalMoved(V, RestoreSevens, SealedName(i));
    }
    forall i | 1 <= i <= nB ensures Holds(Final(V, RestoreSevens), PlainName(i), Segment(Plain, i)) {
      forall k: nat | k % 10 == 7 ensures PlainName(i) != SegmentName(k) {
        NamesDiffer(i, k);
      }
      SegmentActs(i);
      UnencActs(i);
      RestoreKept(V, nA, tA, nB, plain, PlainName(i));
    }
  }

  /** After stage 2's second loop nothing else is there. */
  lemma AsideFinalOnly(V: Dir, nA: nat, tA: string, nB: nat, plain: Tag)
    requires AsideShape(V, nA, tA, nB, plain)
    ensures forall f :: f in Final(V, RestoreSevens) ==>
              f == MediaName || f == UnencMediaName || EncSeven(f, Final(V, RestoreSevens)[f], nA, SegmentName)
              || PlainSeg(f, Final(V, RestoreSevens)[f], nB, PlainName)
  {
    var E := Final(V, RestoreSevens);
    forall f | f in E
      ensures f == MediaName || f == UnencMediaName || EncSeven(f, E[f], nA, SegmentName) || PlainSeg(f, E[f], nB, PlainName)
    {
      FinalFrom(V, RestoreSevens, f);
      if f in Targets(V, V.Keys, RestoreSevens) {
        var g := Source(V, V.Keys, RestoreSevens, f);
        AsideAct(V, nA, tA, nB, plain, g);
      } else if f != MediaName && f != UnencMediaName && V[f].Segment? && V[f].pass == Encrypted {
        SealedActs(V[f].index);
      }
    }
  }

  /** Stage 2 finds the encrypted media playlist of a rendition directory, and its first loop there is order-free. */
  ghost predicate RungStarts(D: Dir, plain: Tag) {
    SealedMediaName in D && OrderFree(Unsealed(D, plain), MoveAsidePlain)
  }

  /** Stage 2's two loops leave a rendition directory in the end state. */
  ghost predicate RungEnds(D: Dir, nA: nat, tA: string, nB: nat, plain: Tag) {
    SealedMediaName in D && FinalShape(Final(Final(Unsealed(D, plain), MoveAsidePlain), RestoreSevens), nA, tA, nB, plain)
  }

  /**
   * Stage 2 in a rendition directory left by stage 1, after the plain pass
   * has written n_B segments and its media playlist: the first loop is
   * order-free, and afterwards the directory holds the encrypted media
   * playlist, the plain one, the encrypted sevens under their own names
   * and the plain segments, the sevens among them moved aside.
   */
  lemma StageTwoRendition(D1: Dir, nA: nat, tA: string, nB: nat, tB: string, plain: Tag)
    requires SealedShape(D1, nA, tA)
    ensures RungStarts(Transcoded(D1, Plain, nB, tB), plain)
    ensures RungEnds(Transcoded(D1, Plain, nB, tB), nA, tA, nB, plain)
  {
    var W := WithSegments(D1, Plain, nB);
    PlainPassShape(D1, nA, tA, nB);
    UnsealedMid(W, nA, tA, nB, tB, plain);
    var U := Unsealed(Transcoded(D1, Plain, nB, tB), plain);
    MidOrderFree(U, nA, tA, nB, plain);
    MidAsideHas(U, nA, tA, nB, plain);
    MidAsideOnly(U, nA, tA, nB, plain);
    var V := Final(U, MoveAsidePlain);
    AsideFinalHas(V, nA, tA, nB, plain);
    AsideFinalOnly(V, nA, tA, nB, plain);
  }

  // ---------------------------------------------------------------------
  // The end state of a rendition directory

  /** The media playlist names end neither in `.ts` nor in `.enc`. */
  lemma PlaylistNameEnds()
    ensures !EndsWith(MediaName, ".ts") && !EndsWith(MediaName, ".enc")
    ensures !EndsWith(UnencMediaName, ".ts") && !EndsWith(UnencMediaName, ".enc")
  {
    assert MediaName[|MediaName| - 1] == '8' && UnencMediaName[|UnencMediaName| - 1] == '8';
  }

  /**
   * At the end no `.enc` file is left in a rendition directory, every name
   * ending in `7.ts` holds a segment of the encrypted pass, and every other
   * `.ts` name a segment of the plain pass.
   */
  lemma Reconciled(E: Dir, nA: nat, tA: string, nB: nat, plain: Tag)
    requires FinalShape(E, nA, tA, nB, plain)
    ensures forall f :: f in E ==> !EndsWith(f, ".enc")
    ensures forall f :: f in E && EndsWith(f, "7.ts") ==> E[f].Segment? && E[f].pass == Encrypted
    ensures forall f :: f in E && EndsWith(f, ".ts") && !EndsWith(f, "7.ts") ==> E[f].Segment? && E[f].pass == Plain
  {
    PlaylistNameEnds();
    forall f | f in E
      ensures !EndsWith(f, ".enc")
      ensures EndsWith(f, "7.ts") ==> E[f].Segment? && E[f].pass == Encrypted
      ensures EndsWith(f, ".ts") && !EndsWith(f, "7.ts") ==> E[f].Segment? && E[f].pass == Plain
    {
      if f == MediaName || f == UnencMediaName {
        NotEndsWithTail(f, "7", ".ts");
      } else {
        var k := E[f].index;
        SegmentEndsWithTs(k);
        SegmentEndsWith7(k);
        UnencSegmentNameEnds(k);
      }
    }
  }

  /**
   * What the two media playlists of a rendition directory point at in the
   * end, for a segment i both passes wrote: the encrypted playlist's line
   * `video-…i.ts` names segment i, encrypted when i ends in 7 and plain
   * otherwise; the plain playlist's line for it, as stage 2 rewrote it,
   * names plain segment i.
   */
  lemma Playback(E: Dir, nA: nat, tA: string, nB: nat, plain: Tag, i: nat)
    requires FinalShape(E, nA, tA, nB, plain)
    requires 1 <= i <= nA && i <= nB
    ensures Holds(E, SegmentName(i), Segment(if i % 10 == 7 then Encrypted else Plain, i))
    ensures Holds(E, UnencLine(SegmentName(i)), Segment(Plain, i))
  {
    UnencLineOfSegment(i);
  }

  // ---------------------------------------------------------------------
  // The whole run

  /** The exit code of a failed transcoding pass. */
  const ConvertFailedCode := 2

  /**
   * The transcoder's exit code, `null` when a signal killed it; only a
   * positive code counts as a failure (`null > 0` is false).
   */
  predicate TranscodeFailed(code: Option<int>) {
    code.Some? && code.value > 0
  }

  /**
   * How the process ends: `process.exit(code)` from a rejection that
   * carries an exit code (or 0 at the end), a file-system call that threw,
   * or an exception thrown in the probe's `close` handler, which no
   * promise catches.
   */
  datatype Outcome = Exit(code: int) | FsFailure | Uncaught

  /** The plain media playlist stage 2 writes into every rendition directory: LD's, rewritten. */
  function PlainList(mediaB: Rung -> string): Tag {
    Playlist(Plain, ReplaceAll(mediaB(LD), MediaPattern, MediaReplacement))
  }

  /** None of the top-level file names is a rendition directory of the class. */
  lemma FileNamesNotRungDirs(videoName: string, iClass: int)
    ensures MasterName(videoName) !in RungDirs(iClass)
    ensures SealedMasterName(videoName) !in RungDirs(iClass)
    ensures UnencMasterName(videoName) !in RungDirs(iClass)
  {
    var m, s, u := MasterName(videoName), SealedMasterName(videoName), UnencMasterName(videoName);
    assert m[|m| - 1] == '8' && s[|s| - 1] == 'c' && u[|u| - 1] == '8';
    forall r | r in Included(iClass) ensures DirName(r) != m && DirName(r) != s && DirName(r) != u {
      DirNameFacts(r);
    }
  }

  /** Stage 2 takes the set-aside master for a rendition directory exactly when it takes the master for one. */
  lemma SealedMasterRendition(videoName: string)
    ensures Rendition(SealedMasterName(videoName)) <==> Rendition(MasterName(videoName))
  {
    var m, s := MasterName(videoName), SealedMasterName(videoName);
    assert s == m + ".enc";
    if |videoName| >= 3 {
      assert s[..8] == m[..8];
    } else {
      assert s[|videoName|] == '.';
      assert RenditionPrefix[|videoName|] != '.';
    }
  }

  /** The working directory after the encrypted pass, from a fresh start. */
  ghost predicate PassedA(files: Dir, dirs: map<string, Dir>, videoName: string, iClass: int, nA: nat, mediaA: Rung -> string) {
    && files == map[MasterName(videoName) := Playlist(Encrypted, MasterText(Included(iClass)))]
    && dirs.Keys == RungDirs(iClass)
    && forall r :: r in Included(iClass) ==> dirs[DirName(r)] == Transcoded(map[], Encrypted, nA, mediaA(r))
  }

  /** Every rendition directory of the class is in the state stage 1 leaves. */
  ghost predicate RungsSealed(dirs: map<string, Dir>, iClass: int, nA: nat, mediaA: Rung -> string) {
    forall r :: r in Included(iClass) ==> DirName(r) in dirs && SealedShape(dirs[DirName(r)], nA, mediaA(r))
  }

  /** The working directory after stage 1, from a fresh start. */
  ghost predicate SealedA(files: Dir, dirs: map<string, Dir>, videoName: string, iClass: int, nA: nat, mediaA: Rung -> string) {
    && files == map[SealedMasterName(videoName) := Playlist(Encrypted, MasterText(Included(iClass)))]
    && dirs.Keys == RungDirs(iClass)
    && RungsSealed(dirs, iClass, nA, mediaA)
  }

  /** The top-level files after the plain pass: the set-aside master and the plain one. */
  ghost predicate MastersB(files: Dir, videoName: string, iClass: int) {
    files == map[SealedMasterName(videoName) := Playlist(Encrypted, MasterText(Included(iClass))),
                 MasterName(videoName) := Playlist(Plain, MasterText(Included(iClass)))]
  }

  /** The LD directory holds the media playlist of the plain pass. */
  ghost predicate LdPlain(dirs: map<string, Dir>, mediaB: Rung -> string) {
    LdDir in dirs && Holds(dirs[LdDir], MediaName, Playlist(Plain, mediaB(LD)))
  }

  /** Stage 2 can start in every rendition directory of the class. */
  ghost predicate RungsStart(dirs: map<string, Dir>, iClass: int, plain: Tag) {
    forall r :: r in Included(iClass) ==> DirName(r) in dirs && RungStarts(dirs[DirName(r)], plain)
  }

  /** Stage 2 leaves every rendition directory of the class in the end state. */
  ghost predicate RungsEnd(dirs: map<string, Dir>, iClass: int, nA: nat, mediaA: Rung -> string, nB: nat, plain: Tag) {
    forall r :: r in Included(iClass) ==> DirName(r) in dirs && RungEnds(dirs[DirName(r)], nA, mediaA(r), nB, plain)
  }

  /**
   * The working directory after the plain pass, from a fresh start: both
   * masters, the LD media playlist of the plain pass, and every rendition
   * directory ready for stage 2.
   */
  ghost predicate PassedB(files: Dir, dirs: map<string, Dir>, videoName: string, iClass: int,
                          nA: nat, mediaA: Rung -> string, nB: nat, mediaB: Rung -> string) {
    && MastersB(files, videoName, iClass)
    && dirs.Keys == RungDirs(iClass)
    && LdPlain(dirs, mediaB)
    && RungsStart(dirs, iClass, PlainList(mediaB))
    && RungsEnd(dirs, iClass, nA, mediaA, nB, PlainList(mediaB))
  }

  /**
   * The published package: the encrypted master and the plain master,
   * which lists every rung's `video_unenc.m3u8`, and in every rendition
   * directory the end state of both passes.
   */
  ghost predicate Packaged(files: Dir, dirs: map<string, Dir>, videoName: string, iClass: int,
                           nA: nat, mediaA: Rung -> string, nB: nat, mediaB: Rung -> string) {
    && files == map[MasterName(videoName) := Playlist(Encrypted, MasterText(Included(iClass))),
                    UnencMasterName(videoName) := Playlist(Plain, UnencMasterText(Included(iClass)))]
    && dirs.Keys == RungDirs(iClass)
    && forall r :: r in Included(iClass) ==> DirName(r) in dirs && FinalShape(dirs[DirName(r)], nA, mediaA(r), nB, PlainList(mediaB))
  }

  /** After the encrypted pass stage 1 finds everything it renames. */
  lemma StageOneReady(files: Dir, dirs: map<string, Dir>, videoName: string, iClass: int, nA: nat, mediaA: Rung -> string)
    requires PassedA(files, dirs, videoName, iClass, nA, mediaA)
    ensures MasterName(videoName) in files && SealedMasterName(videoName) !in dirs
    ensures forall d :: d in RungDirs(iClass) ==> d in dirs && MediaName in dirs[d]
  {
    FileNamesNotRungDirs(videoName, iClass);
    forall d | d in RungDirs(iClass) ensures d in dirs && MediaName in dirs[d] {
      var r :| r in Included(iClass) && d == DirName(r);
      StageOneRendition(nA, mediaA(r));
    }
  }

  /** Stage 1 after the encrypted pass leaves every rendition directory sealed. */
  lemma StageOneDone(files0: Dir, dirs0: map<string, Dir>, files: Dir, dirs: map<string, Dir>,
                     videoName: string, iClass: int, nA: nat, mediaA: Rung -> string)
    requires PassedA(files0, dirs0, videoName, iClass, nA, mediaA)
    requires MasterName(videoName) in files0
    requires files == Rename(files0, MasterName(videoName), SealedMasterName(videoName))
    requires dirs.Keys == dirs0.Keys
    requires forall d :: d in RungDirs(iClass) ==> MediaName in dirs0[d]
    requires forall d :: d in RungDirs(iClass) ==> dirs[d] == Final(Rename(dirs0[d], MediaName, SealedMediaName), SealSevens)
    ensures SealedA(files, dirs, videoName, iClass, nA, mediaA)
  {
    MasterNamesDiffer(videoName);
    forall r | r in Included(iClass) ensures DirName(r) in dirs && SealedShape(dirs[DirName(r)], nA, mediaA(r)) {
      StageOneRendition(nA, mediaA(r));
    }
  }

  /** After stage 1 the plain pass finds no name taken. */
  lemma PassBReady(files: Dir, dirs: map<string, Dir>, videoName: string, iClass: int, nA: nat, mediaA: Rung -> string)
    requires SealedA(files, dirs, videoName, iClass, nA, mediaA)
    ensures MasterName(videoName) !in dirs
    ensures forall r :: r in Included(iClass) ==> DirName(r) !in files
  {
    FileNamesNotRungDirs(videoName, iClass);
  }

  /** Every class the classifier gives has the LD rung. */
  lemma LdRung(iClass: int)
    requires iClass <= 2
    ensures LD in Included(iClass) && DirName(LD) == LdDir
  {
  }

  /** The plain pass leaves its own media playlist in the LD directory. */
  lemma PassBLd(dirs1: map<string, Dir>, dirs: map<string, Dir>, iClass: int, nB: nat, mediaB: Rung -> string)
    requires iClass <= 2
    requires forall r :: r in Included(iClass) ==>
               DirName(r) in dirs && dirs[DirName(r)] == Transcoded(Existing(dirs1, DirName(r)), Plain, nB, mediaB(r))
    ensures LdPlain(dirs, mediaB)
  {
    LdRung(iClass);
  }

  /** The plain pass over sealed rendition directories leaves each ready for stage 2. */
  lemma PassBRungs(dirs1: map<string, Dir>, dirs: map<string, Dir>, iClass: int,
                   nA: nat, mediaA: Rung -> string, nB: nat, mediaB: Rung -> string)
    requires RungsSealed(dirs1, iClass, nA, mediaA)
    requires forall r :: r in Included(iClass) ==>
               DirName(r) in dirs && dirs[DirName(r)] == Transcoded(Existing(dirs1, DirName(r)), Plain, nB, mediaB(r))
    ensures RungsStart(dirs, iClass, PlainList(mediaB))
    ensures RungsEnd(dirs, iClass, nA, mediaA, nB, PlainList(mediaB))
  {
    forall r | r in Included(iClass)
      ensures RungStarts(dirs[DirName(r)], PlainList(mediaB))
      ensures RungEnds(dirs[DirName(r)], nA, mediaA(r), nB, PlainList(mediaB))
    {
      StageTwoRendition(dirs1[DirName(r)], nA, mediaA(r), nB, mediaB(r), PlainList(mediaB));
    }
  }

  /** The plain pass after stage 1 leaves both masters and every rendition directory ready for stage 2. */
  lemma PassBDone(files1: Dir, dirs1: map<string, Dir>, files: Dir, dirs: map<string, Dir>, videoName: string, iClass: int,
                  nA: nat, mediaA: Rung -> string, nB: nat, mediaB: Rung -> string)
    requires iClass <= 2
    requires SealedA(files1, dirs1, videoName, iClass, nA, mediaA)
    requires files == files1[MasterName(videoName) := Playlist(Plain, MasterText(Included(iClass)))]
    requires dirs.Keys == dirs1.Keys + RungDirs(iClass)
    requires forall r :: r in Included(iClass) ==>
               dirs[DirName(r)] == Transcoded(Existing(dirs1, DirName(r)), Plain, nB, mediaB(r))
    ensures PassedB(files, dirs, videoName, iClass, nA, mediaA, nB, mediaB)
  {
    PassBLd(dirs1, dirs, iClass, nB, mediaB);
    PassBRungs(dirs1, dirs, iClass, nA, mediaA, nB, mediaB);
  }

  /** Stage 2 takes a top-level file for a rendition directory exactly when it takes the master for one. */
  lemma MastersNotRenditions(files: Dir, videoName: string)
    requires files.Keys == {SealedMasterName(videoName), MasterName(videoName)}
    ensures (forall f :: f in files ==> !Rendition(f)) <==> !Rendition(MasterName(videoName))
  {
    SealedMasterRendition(videoName);
  }

  /** Every rendition directory stage 2 walks is a rung directory holding the encrypted media playlist. */
  lemma RungsReadyForStageTwo(dirs: map<string, Dir>, iClass: int, plain: Tag)
    requires dirs.Keys == RungDirs(iClass)
    requires RungsStart(dirs, iClass, plain)
    ensures forall d :: d in dirs && Rendition(d) ==> SealedMediaName in dirs[d]
    ensures RenditionsFree(dirs, plain)
  {
    forall d | d in dirs ensures SealedMediaName in dirs[d] && OrderFree(Unsealed(dirs[d], plain), MoveAsidePlain) {
      var r :| r in Included(iClass) && d == DirName(r);
    }
  }

  /** The plain media playlist stage 2 derives is the LD playlist of the plain pass, rewritten. */
  lemma PlainMediaOf(dirs: map<string, Dir>, mediaB: Rung -> string)
    requires LdPlain(dirs, mediaB)
    ensures LdDir in dirs && MediaName in dirs[LdDir] && PlainMedia(dirs) == PlainList(mediaB)
  {
  }

  /** After the plain pass stage 2 is ready exactly when the master's name is not taken for a rendition directory. */
  lemma MastersReady(files: Dir, dirs: map<string, Dir>, videoName: string, iClass: int, mediaB: Rung -> string)
    requires MastersB(files, videoName, iClass)
    requires dirs.Keys == RungDirs(iClass)
    requires LdPlain(dirs, mediaB)
    requires forall d :: d in dirs && Rendition(d) ==> SealedMediaName in dirs[d]
    ensures StageTwoReady(files, dirs, videoName) <==> !Rendition(MasterName(videoName))
  {
    FileNamesNotRungDirs(videoName, iClass);
    assert files.Keys == {SealedMasterName(videoName), MasterName(videoName)};
    MastersNotRenditions(files, videoName);
  }

  /**
   * After the plain pass stage 2 is ready, and its first loop order-free,
   * exactly when the master's name is not taken for a rendition directory.
   */
  lemma StageTwoReadiness(files: Dir, dirs: map<string, Dir>, videoName: string, iClass: int, mediaB: Rung -> string)
    requires MastersB(files, videoName, iClass)
    requires dirs.Keys == RungDirs(iClass)
    requires LdPlain(dirs, mediaB)
    requires RungsStart(dirs, iClass, PlainList(mediaB))
    ensures StageTwoReady(files, dirs, videoName) <==> !Rendition(MasterName(videoName))
    ensures PlainMedia(dirs) == PlainList(mediaB)
    ensures RenditionsFree(dirs, PlainMedia(dirs))
  {
    PlainMediaOf(dirs, mediaB);
    RungsReadyForStageTwo(dirs, iClass, PlainList(mediaB));
    MastersReady(files, dirs, videoName, iClass, mediaB);
  }

  /** Stage 2's top-level files from the two masters of a fresh run. */
  lemma StageTwoFilesOf(videoName: string, iClass: int)
    ensures var rs := Included(iClass);
            var files := map[SealedMasterName(videoName) := Playlist(Encrypted, MasterText(rs)),
                             MasterName(videoName) := Playlist(Plain, MasterText(rs))];
            StageTwoFiles(files, videoName)
            == map[MasterName(videoName) := Playlist(Encrypted, MasterText(rs)),
                   UnencMasterName(videoName) := Playlist(Plain, UnencMasterText(rs))]
  {
    MasterNamesDiffer(videoName);
    UnencMaster(Included(iClass));
  }

  /** Stage 2's loops leave every rendition directory of the class in the end state. */
  lemma StageTwoDirs(dirs2: map<string, Dir>, dirs: map<string, Dir>, iClass: int,
                     nA: nat, mediaA: Rung -> string, nB: nat, plain: Tag)
    requires RungsStart(dirs2, iClass, plain)
    requires RungsEnd(dirs2, iClass, nA, mediaA, nB, plain)
    requires dirs.Keys == dirs2.Keys
    requires forall d :: d in dirs2 && Rendition(d) ==> SealedMediaName in dirs2[d]
    requires forall d ::
               (d in dirs2 && Rendition(d) && OrderFree(Unsealed(dirs2[d], plain), MoveAsidePlain)) ==>
               dirs[d] == Final(Final(Unsealed(dirs2[d], plain), MoveAsidePlain), RestoreSevens)
    ensures forall r :: r in Included(iClass) ==> DirName(r) in dirs && FinalShape(dirs[DirName(r)], nA, mediaA(r), nB, plain)
  {
    forall r | r in Included(iClass) ensures DirName(r) in dirs && FinalShape(dirs[DirName(r)], nA, mediaA(r), nB, plain) {
      DirNameFacts(r);
    }
  }

  /** Stage 2 after the plain pass leaves the package. */
  lemma StageTwoDone(files2: Dir, dirs2: map<string, Dir>, files: Dir, dirs: map<string, Dir>, videoName: string, iClass: int,
                     nA: nat, mediaA: Rung -> string, nB: nat, mediaB: Rung -> string)
    requires PassedB(files2, dirs2, videoName, iClass, nA, mediaA, nB, mediaB)
    requires files == StageTwoFiles(files2, videoName)
    requires dirs.Keys == dirs2.Keys
    requires forall d :: d in dirs2 && Rendition(d) ==> SealedMediaName in dirs2[d]
    requires forall d ::
               (d in dirs2 && Rendition(d) && OrderFree(Unsealed(dirs2[d], PlainMedia(dirs2)), MoveAsidePlain)) ==>
               dirs[d] == Final(Final(Unsealed(dirs2[d], PlainMedia(dirs2)), MoveAsidePlain), RestoreSevens)
    ensures Packaged(files, dirs, videoName, iClass, nA, mediaA, nB, mediaB)
  {
    StageTwoFilesOf(videoName, iClass);
    PlainMediaOf(dirs2, mediaB);
    StageTwoDirs(dirs2, dirs, iClass, nA, mediaA, nB, PlainList(mediaB));
  }
}
