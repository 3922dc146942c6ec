/**
 * Rendition directories as maps from file name to what the file holds, and
 * the three rename loops of the reconciliation stages.  Each loop walks a
 * listing of the directory taken before it starts and, file by file, keeps,
 * deletes or renames the file according to its name alone.  The listing's
 * order is not known, so the loops are characterised by an order-free closed
 * form, `Processed`, which holds whenever no rename lands on a name that a
 * later iteration would itself move or delete.
 */
module Directory {
  import opened Text
  import opened Regex
  import opened Segments

  /** The two transcoding passes: the first writes AES-encrypted segments, the second plain ones. */
  datatype Pass = Encrypted | Plain

  /** What a file holds: segment `index` written by a pass, or a playlist text written by a pass. */
  datatype Tag = Segment(pass: Pass, index: nat) | Playlist(pass: Pass, text: string)

  /** A directory without sub-directories. */
  type Dir = map<string, Tag>

  /** The text of a file read as a playlist; the bytes of a segment are not modelled. */
  function Content(t: Tag): string {
    match t
    case Playlist(_, s) => s
    case Segment(_, _) => ""
  }

  /** The media playlist each transcoding pass writes into a rendition directory. */
  const MediaName := "video.m3u8"
  /** The media playlist of the encrypted pass, set aside by stage 1. */
  const SealedMediaName := "video.m3u8.enc"
  /** The rewritten media playlist stage 2 writes into every rendition directory. */
  const UnencMediaName := "video_unenc.m3u8"

  /** What one iteration of a rename loop does with a listed file. */
  datatype Action = Keep | Remove | MoveTo(target: string)

  /** The three rename loops. */
  datatype Rule =
    | SealSevens      // stage 1: `…7.ts` gets `.enc` appended, every other `.ts` is deleted
    | MoveAsidePlain  // stage 2: `…7.ts` is renamed by `replace(/7.ts/, "7_unenc.ts")`
    | RestoreSevens   // stage 2: `…7.ts.enc` is renamed by `replace(/.enc$/, "")`

  /** The action a loop takes on the file named `f`, decided by the name alone. */
  function Act(rule: Rule, f: string): Action {
    match rule
    case SealSevens =>
      if EndsWith(f, ".ts") then
        if EndsWith(f, "7.ts") then MoveTo(f + ".enc") else Remove
      else Keep
    case MoveAsidePlain =>
      if EndsWith(f, "7.ts") then MoveTo(ReplaceFirst(f, "7.ts", "7_unenc.ts")) else Keep
    case RestoreSevens =>
      if EndsWith(f, "7.ts.enc") then MoveTo(ReplaceAtEnd(f, ".enc", "")) else Keep
  }

  /**
   * One iteration on the listed file `f`: nothing, `unlinkSync` or
   * `renameSync` (which replaces an existing target).  `None` when the file
   * to delete or rename is no longer there, and the call throws.
   */
  function Step(M: Dir, rule: Rule, f: string): (r: Option<Dir>)
    ensures r.None? <==> !Act(rule, f).Keep? && f !in M
    ensures r.Some? ==> f !in r.value || Act(rule, f).Keep? || Act(rule, f) == MoveTo(f)
  {
    match Act(rule, f)
    case Keep => Some(M)
    case Remove => if f in M then Some(M - {f}) else None
    case MoveTo(t) => if f in M then Some((M - {f})[t := M[f]]) else None
  }

  /**
   * No rename of the loop lands on a name that is itself moved or deleted,
   * and no two files are renamed to the same name.  Then the order of the
   * listing does not matter.
   */
  ghost predicate OrderFree(D: Dir, rule: Rule) {
    (forall g, h :: g in D && h in D && Act(rule, g).MoveTo? && Act(rule, g) == Act(rule, h) ==> g == h)
    && (forall g, h {:trigger Act(rule, g), Act(rule, h)} :: g in D && h in D && Act(rule, g) == MoveTo(h) ==> Act(rule, h).Keep?)
  }

  /** Among the processed names `P`, `g` was renamed to `f`. */
  ghost predicate MovedTo(D: Dir, P: set<string>, rule: Rule, g: string, f: string) {
    g in P && g in D && Act(rule, g).MoveTo? && Act(rule, g).target == f
  }

  /** The files of `D` still under their own name once the names in `P` are processed. */
  ghost function Survivors(D: Dir, P: set<string>, rule: Rule): set<string> {
    set f | f in D && (f !in P || Act(rule, f).Keep?)
  }

  /** The names the processed files were renamed to. */
  ghost function Targets(D: Dir, P: set<string>, rule: Rule): set<string> {
    set g | g in P && g in D && Act(rule, g).MoveTo? :: Act(rule, g).target
  }

  /** A processed file renamed to `f`. */
  ghost function Source(D: Dir, P: set<string>, rule: Rule, f: string): (g: string)
    requires f in Targets(D, P, rule)
    ensures MovedTo(D, P, rule, g, f)
  {
    var g :| g in P && g in D && Act(rule, g).MoveTo? && Act(rule, g).target == f; g
  }

  /** The directory `D` once the listed names in `P` have been processed, in any order. */
  ghost function Processed(D: Dir, P: set<string>, rule: Rule): Dir {
    map f | f in Survivors(D, P, rule) + Targets(D, P, rule) ::
      if f in Targets(D, P, rule) then D[Source(D, P, rule, f)] else D[f]
  }

  /** The directory `D` once its whole listing has been processed. */
  ghost function Final(D: Dir, rule: Rule): Dir {
    Processed(D, D.Keys, rule)
  }

  /** In an order-free directory a renamed-to name has exactly one source. */
  lemma SourceUnique(D: Dir, P: set<string>, rule: Rule, g: string, f: string)
    requires OrderFree(D, rule) && MovedTo(D, P, rule, g, f)
    ensures f in Targets(D, P, rule) && Source(D, P, rule, f) == g
  {
    var h := Source(D, P, rule, f);
    assert Act(rule, g) == Act(rule, h);
  }

  /** A file that is moved or deleted is never a rename target in an order-free directory. */
  lemma NotATarget(D: Dir, P: set<string>, rule: Rule, x: string)
    requires OrderFree(D, rule) && x in D && !Act(rule, x).Keep?
    ensures x !in Targets(D, P, rule)
  {
  }

  /** A name of the closed form, and what the file under it holds. */
  lemma ProcessedAt(D: Dir, P: set<string>, rule: Rule, f: string)
    ensures f in Processed(D, P, rule) <==> f in Survivors(D, P, rule) || f in Targets(D, P, rule)
    ensures f in Targets(D, P, rule) ==> Processed(D, P, rule)[f] == D[Source(D, P, rule, f)]
    ensures f !in Targets(D, P, rule) && f in Survivors(D, P, rule) ==> Processed(D, P, rule)[f] == D[f]
  {
  }

  /** Two directories with the same names holding the same files are equal. */
  lemma DirExt(A: Dir, B: Dir)
    requires forall f :: f in A <==> f in B
    requires forall f :: f in A ==> A[f] == B[f]
    ensures A == B
  {
  }

  /** Under order freedom, the processed names of `P` and of a larger set rename to the same places. */
  lemma SameSources(D: Dir, P: set<string>, Q: set<string>, rule: Rule, f: string)
    requires OrderFree(D, rule) && P <= Q && f in Targets(D, P, rule)
    ensures f in Targets(D, Q, rule) && Source(D, Q, rule, f) == Source(D, P, rule, f)
  {
    var g := Source(D, P, rule, f);
    SourceUnique(D, Q, rule, g, f);
  }

  lemma StepKeep(D: Dir, P: set<string>, rule: Rule, x: string)
    requires OrderFree(D, rule) && x in D && x !in P && Act(rule, x).Keep?
    ensures Processed(D, P + {x}, rule) == Processed(D, P, rule)
  {
    var Q := P + {x};
    assert Survivors(D, Q, rule) == Survivors(D, P, rule);
    assert Targets(D, Q, rule) == Targets(D, P, rule);
    forall f ensures f in Processed(D, Q, rule) <==> f in Processed(D, P, rule)
      ensures f in Processed(D, Q, rule) ==> Processed(D, Q, rule)[f] == Processed(D, P, rule)[f]
    {
      ProcessedAt(D, P, rule, f);
      ProcessedAt(D, Q, rule, f);
      if f in Targets(D, P, rule) {
        SameSources(D, P, Q, rule, f);
      }
    }
    DirExt(Processed(D, Q, rule), Processed(D, P, rule));
  }

  lemma StepRemove(D: Dir, P: set<string>, rule: Rule, x: string)
    requires OrderFree(D, rule) && x in D && x !in P && Act(rule, x).Remove?
    ensures x in Processed(D, P, rule)
    ensures Processed(D, P + {x}, rule) == Processed(D, P, rule) - {x}
  {
    var Q := P + {x};
    NotATarget(D, P, rule, x);
    NotATarget(D, Q, rule, x);
    ProcessedAt(D, P, rule, x);
    assert Survivors(D, Q, rule) == Survivors(D, P, rule) - {x};
    assert Targets(D, Q, rule) == Targets(D, P, rule);
    forall f ensures f in Processed(D, Q, rule) <==> f in Processed(D, P, rule) - {x}
      ensures f in Processed(D, Q, rule) ==> Processed(D, Q, rule)[f] == (Processed(D, P, rule) - {x})[f]
    {
      ProcessedAt(D, P, rule, f);
      ProcessedAt(D, Q, rule, f);
      if f in Targets(D, P, rule) {
        SameSources(D, P, Q, rule, f);
      }
    }
    DirExt(Processed(D, Q, rule), Processed(D, P, rule) - {x});
  }

  lemma MoveSets(D: Dir, P: set<string>, rule: Rule, x: string, t: string)
    requires x in D && x !in P && Act(rule, x) == MoveTo(t)
    ensures Survivors(D, P + {x}, rule) == Survivors(D, P, rule) - {x}
    ensures Targets(D, P + {x}, rule) == Targets(D, P, rule) + {t}
  {
  }

  /** One name of the closed form after the move of `x` to `t`. */
  lemma MoveKey(D: Dir, P: set<string>, rule: Rule, x: string, t: string, f: string)
    requires OrderFree(D, rule) && x in D && x !in P && Act(rule, x) == MoveTo(t)
    requires x !in Targets(D, P, rule)
    ensures f in Processed(D, P + {x}, rule) <==> f in (Processed(D, P, rule) - {x})[t := D[x]]
    ensures f in Processed(D, P + {x}, rule) ==> Processed(D, P + {x}, rule)[f] == (Processed(D, P, rule) - {x})[t := D[x]][f]
  {
    var Q := P + {x};
    MoveSets(D, P, rule, x, t);
    ProcessedAt(D, P, rule, f);
    ProcessedAt(D, Q, rule, f);
    if f == t {
      SourceUnique(D, Q, rule, x, t);
    } else if f in Targets(D, P, rule) {
      SameSources(D, P, Q, rule, f);
    }
  }

  lemma StepMove(D: Dir, P: set<string>, rule: Rule, x: string, t: string)
    requires OrderFree(D, rule) && x in D && x !in P && Act(rule, x) == MoveTo(t)
    ensures x in Processed(D, P, rule) && Processed(D, P, rule)[x] == D[x]
    ensures Processed(D, P + {x}, rule) == (Processed(D, P, rule) - {x})[t := D[x]]
  {
    NotATarget(D, P, rule, x);
    ProcessedAt(D, P, rule, x);
    forall f ensures f in Processed(D, P + {x}, rule) <==> f in (Processed(D, P, rule) - {x})[t := D[x]]
      ensures f in Processed(D, P + {x}, rule) ==> Processed(D, P + {x}, rule)[f] == (Processed(D, P, rule) - {x})[t := D[x]][f]
    {
      MoveKey(D, P, rule, x, t, f);
    }
    DirExt(Processed(D, P + {x}, rule), (Processed(D, P, rule) - {x})[t := D[x]]);
  }

  /**
   * Processing one more listed file `x` takes the closed form for `P` to the
   * closed form for `P` plus `x`: the iteration finds the file it needs, and
   * the order in which the names were taken does not show.
   */
  lemma ProcessedStep(D: Dir, P: set<string>, rule: Rule, x: string)
    requires OrderFree(D, rule) && x in D && x !in P
    ensures Step(Processed(D, P, rule), rule, x) == Some(Processed(D, P + {x}, rule))
  {
    match Act(rule, x)
    case Keep => StepKeep(D, P, rule, x);
    case Remove => StepRemove(D, P, rule, x);
    case MoveTo(t) => StepMove(D, P, rule, x, t);
  }

  /** Nothing is processed yet: the directory as listed. */
  lemma ProcessedNone(D: Dir, rule: Rule)
    ensures Processed(D, {}, rule) == D
  {
    assert Survivors(D, {}, rule) == D.Keys;
    assert Targets(D, {}, rule) == {};
  }

  /**
   * The whole listing processed in an order-free directory: every renamed
   * file is under its new name, every file kept and not overwritten is
   * unchanged, and nothing else is there.
   */
  lemma FinalFacts(D: Dir, rule: Rule)
    requires OrderFree(D, rule)
    ensures forall g :: g in D && Act(rule, g).MoveTo? ==>
              Act(rule, g).target in Final(D, rule) && Final(D, rule)[Act(rule, g).target] == D[g]
    ensures forall f :: f in D && Act(rule, f).Keep? && f !in Targets(D, D.Keys, rule) ==>
              f in Final(D, rule) && Final(D, rule)[f] == D[f]
    ensures forall f :: f in Final(D, rule) ==>
              (f in D && Act(rule, f).Keep? && Final(D, rule)[f] == D[f])
              || (f in Targets(D, D.Keys, rule) && Final(D, rule)[f] == D[Source(D, D.Keys, rule, f)])
  {
    forall g | g in D && Act(rule, g).MoveTo?
      ensures Act(rule, g).target in Final(D, rule) && Final(D, rule)[Act(rule, g).target] == D[g]
    {
      SourceUnique(D, D.Keys, rule, g, Act(rule, g).target);
    }
  }

  /** A file the loop moves is, afterwards, under its new name. */
  lemma FinalMoved(D: Dir, rule: Rule, g: string)
    requires OrderFree(D, rule) && g in D && Act(rule, g).MoveTo?
    ensures Act(rule, g).target in Final(D, rule)
    ensures Final(D, rule)[Act(rule, g).target] == D[g]
  {
    SourceUnique(D, D.Keys, rule, g, Act(rule, g).target);
  }

  /** A file the loop keeps, and that nothing is moved onto, is unchanged afterwards. */
  lemma FinalKept(D: Dir, rule: Rule, f: string)
    requires f in D && Act(rule, f).Keep?
    requires forall g :: g in D && Act(rule, g).MoveTo? ==> Act(rule, g).target != f
    ensures f in Final(D, rule) && Final(D, rule)[f] == D[f]
  {
    assert f !in Targets(D, D.Keys, rule);
  }

  /** Every file afterwards was either kept under its name or moved there from a name of the listing. */
  lemma FinalFrom(D: Dir, rule: Rule, f: string)
    requires f in Final(D, rule)
    ensures f !in Targets(D, D.Keys, rule) ==> f in D && Act(rule, f).Keep? && Final(D, rule)[f] == D[f]
    ensures f in Targets(D, D.Keys, rule) ==>
              var g := Source(D, D.Keys, rule, f);
              g in D && Act(rule, g) == MoveTo(f) && Final(D, rule)[f] == D[g]
  {
  }

  // ---------------------------------------------------------------------
  // Running a loop over a listing

  /** The loop run over the first k listed names, `None` once an iteration has thrown. */
  ghost function Run(D: Dir, rule: Rule, names: seq<string>, k: nat): Option<Dir>
    requires k <= |names|
  {
    if k == 0 then Some(D)
    else match Run(D, rule, names, k - 1)
      case None => None
      case Some(M) => Step(M, rule, names[k - 1])
  }

  /** One more iteration of the loop: it stays failed, or takes one step from where it was. */
  lemma RunNext(D: Dir, rule: Rule, names: seq<string>, k: nat, M: Dir)
    requires k < |names| && Run(D, rule, names, k) == Some(M)
    ensures Run(D, rule, names, k + 1) == Step(M, rule, names[k])
  {
  }

  /** The names listed before position k. */
  ghost function Taken(names: seq<string>, k: nat): set<string>
    requires k <= |names|
  {
    set j | 0 <= j < k :: names[j]
  }

  lemma TakenNext(names: seq<string>, k: nat)
    requires k < |names|
    requires forall i, j :: 0 <= i < j < |names| ==> names[i] != names[j]
    ensures Taken(names, k + 1) == Taken(names, k) + {names[k]}
    ensures names[k] !in Taken(names, k)
  {
  }

  /** Once an iteration has thrown, the loop has failed. */
  lemma {:induction false} RunFailed(D: Dir, rule: Rule, names: seq<string>, k: nat, m: nat)
    requires k <= m <= |names| && Run(D, rule, names, k).None?
    ensures Run(D, rule, names, m).None?
  {
    if k < m {
      RunFailed(D, rule, names, k, m - 1);
    }
  }

  /**
   * In an order-free directory, the loop over any listing of distinct names
   * of the directory never throws and is at the closed form of the names
   * taken so far.
   */
  lemma {:induction false} RunProcessed(D: Dir, rule: Rule, names: seq<string>, k: nat)
    requires OrderFree(D, rule) && k <= |names|
    requires forall j :: 0 <= j < |names| ==> names[j] in D
    requires forall i, j :: 0 <= i < j < |names| ==> names[i] != names[j]
    ensures Run(D, rule, names, k) == Some(Processed(D, Taken(names, k), rule))
  {
    if k == 0 {
      ProcessedNone(D, rule);
      assert Taken(names, 0) == {};
    } else {
      RunProcessed(D, rule, names, k - 1);
      TakenNext(names, k - 1);
      ProcessedStep(D, Taken(names, k - 1), rule, names[k - 1]);
    }
  }

  /**
   * The loop over a listing of exactly the names of an order-free directory,
   * whatever their order, ends at `Final`.
   */
  lemma RunFinal(D: Dir, rule: Rule, names: seq<string>)
    requires OrderFree(D, rule)
    requires forall j :: 0 <= j < |names| ==> names[j] in D
    requires forall f :: f in D ==> f in names
    requires forall i, j :: 0 <= i < j < |names| ==> names[i] != names[j]
    ensures Run(D, rule, names, |names|) == Some(Final(D, rule))
  {
    RunProcessed(D, rule, names, |names|);
    assert Taken(names, |names|) == D.Keys;
  }

  // ---------------------------------------------------------------------
  // The two loops that are order-free in every directory

  lemma AppendEncInjective(g: string, h: string)
    requires g + ".enc" == h + ".enc"
    ensures g == h
  {
    assert g == (g + ".enc")[..|g|];
    assert h == (h + ".enc")[..|h|];
  }

  /** A name with `.enc` appended ends in `.enc`, and neither in `.ts` nor in `7.ts.enc` unless the name ends in `7.ts`. */
  lemma AppendEncEnds(g: string)
    ensures EndsWith(g + ".enc", ".enc") && !EndsWith(g + ".enc", ".ts")
  {
    var e := g + ".enc";
    assert e[|e| - 4..] == ".enc";
    assert e[|e| - 1] == 'c';
  }

  /**
   * Stage 1's loop is order-free in every directory: `.enc` names are kept,
   * and appending `.enc` is one-to-one.
   */
  lemma SealSevensOrderFree(D: Dir)
    ensures OrderFree(D, SealSevens)
  {
    forall g, h | g in D && h in D && Act(SealSevens, g).MoveTo? && Act(SealSevens, g) == Act(SealSevens, h)
      ensures g == h
    {
      AppendEncInjective(g, h);
    }
    forall g, h | g in D && h in D && Act(SealSevens, g) == MoveTo(h)
      ensures Act(SealSevens, h).Keep?
    {
      AppendEncEnds(g);
    }
  }

  /** Stripping `.enc` off a name ending in `7.ts.enc` leaves a name ending in `7.ts`. */
  lemma StripEncEnds(f: string)
    requires EndsWith(f, "7.ts.enc")
    ensures EndsWith(f, ".enc")
    ensures ReplaceAtEnd(f, ".enc", "") == f[..|f| - 4]
    ensures EndsWith(f[..|f| - 4], "7.ts") && !EndsWith(f[..|f| - 4], "7.ts.enc")
  {
    assert f[|f| - 4..] == f[|f| - 8..][4..];
    StripEnc(f);
    var g := f[..|f| - 4];
    assert g[|g| - 4..] == f[|f| - 8..][..4];
    assert g[|g| - 1] == 's';
  }

  /** Stripping `.enc` is one-to-one on the names the restoring loop moves. */
  lemma StripEncOneToOne(g: string, h: string)
    requires EndsWith(g, "7.ts.enc") && EndsWith(h, "7.ts.enc")
    requires ReplaceAtEnd(g, ".enc", "") == ReplaceAtEnd(h, ".enc", "")
    ensures g == h
  {
    StripEncEnds(g);
    StripEncEnds(h);
    assert g == g[..|g| - 4] + ".enc" && h == h[..|h| - 4] + ".enc";
  }

  /** A name the restoring loop moves lands on a name the loop keeps. */
  lemma StripEncKept(g: string)
    requires EndsWith(g, "7.ts.enc")
    ensures Act(RestoreSevens, ReplaceAtEnd(g, ".enc", "")).Keep?
  {
    StripEncEnds(g);
  }

  /**
   * Stage 2's restoring loop is order-free in every directory: the restored
   * names end in `7.ts` and are kept, and stripping `.enc` is one-to-one.
   */
  lemma RestoreSevensOrderFree(D: Dir)
    ensures OrderFree(D, RestoreSevens)
  {
    forall g, h | g in D && h in D && Act(RestoreSevens, g).MoveTo? && Act(RestoreSevens, g) == Act(RestoreSevens, h)
      ensures g == h
    {
      StripEncOneToOne(g, h);
    }
    forall g, h | g in D && h in D && Act(RestoreSevens, g) == MoveTo(h)
      ensures Act(RestoreSevens, h).Keep?
    {
      StripEncKept(g);
    }
  }
}
