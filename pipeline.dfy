/**
 * The promise chain at the end of the script: the probe's classification,
 * the encrypted pass, stage 1, the plain pass and stage 2, and how the
 * process ends.  The working directory is one `WorkDir`; the transcoder's
 * exit codes, segment counts and media playlists are parameters.
 */
module Pipeline {
  import opened Text
  import opened Classify
  import opened Ladder
  import opened Directory
  import opened WorkingDir
  import opened Job

  /**
   * `asyncConvert` once the class is known: the pass's file effects, then
   * the transcoder's exit code.  A directory under the master's name makes
   * `writeFileSync` throw; a file under a rung directory's name is not
   * replaced by a directory, so the transcoder cannot write there and fails.
   */
  method Convert(w: WorkDir, videoName: string, iClass: int, pass: Pass, code: Option<int>, n: nat, media: Rung -> string)
    returns (failure: Option<Outcome>)
    requires w.Valid()
    modifies w
    ensures w.Valid() && w.published == old(w.published)
    ensures failure == if MasterName(videoName) in old(w.dirs) then Some(FsFailure)
                       else if (exists r :: r in Included(iClass) && DirName(r) in old(w.files)) || TranscodeFailed(code)
                       then Some(Exit(ConvertFailedCode))
                       else None
    ensures failure.None? ==> w.files == old(w.files)[MasterName(videoName) := Playlist(pass, MasterText(Included(iClass)))]
    ensures failure.None? ==> w.dirs.Keys == old(w.dirs).Keys + RungDirs(iClass)
    ensures failure.None? ==> forall r :: r in Included(iClass) ==>
                                w.dirs[DirName(r)] == Transcoded(Existing(old(w.dirs), DirName(r)), pass, n, media(r))
  {
    var masterTaken := MasterName(videoName) in w.dirs;
    var ok := w.Transcode(videoName, iClass, pass, n, media);
    if !ok {
      return Some(if masterTaken then FsFailure else Exit(ConvertFailedCode));
    }
    if TranscodeFailed(code) {
      return Some(Exit(ConvertFailedCode));
    }
    return None;
  }

  /**
   * The encrypted pass and stage 1.  From a fresh working directory they
   * fail only when the transcoder does, and otherwise leave the sealed
   * state.
   */
  method EncryptedStage(w: WorkDir, videoName: string, iClass: int, codeA: Option<int>, nA: nat, mediaA: Rung -> string)
    returns (failure: Option<Outcome>)
    requires w.Valid()
    modifies w
    ensures w.Valid() && w.published == old(w.published)
    ensures failure.Some? ==> failure.value in {FsFailure, Exit(ConvertFailedCode)}
    ensures old(w.files) == map[] && old(w.dirs) == map[] ==>
              && (failure.None? <==> !TranscodeFailed(codeA))
              && (failure.Some? ==> failure.value == Exit(ConvertFailedCode))
              && (failure.None? ==> SealedA(w.files, w.dirs, videoName, iClass, nA, mediaA))
  {
    ghost var empty := w.files == map[] && w.dirs == map[];
    failure := Convert(w, videoName, iClass, Encrypted, codeA, nA, mediaA);
    if failure.Some? {
      return;
    }
    ghost var files0, dirs0 := w.files, w.dirs;
    if empty {
      assert PassedA(files0, dirs0, videoName, iClass, nA, mediaA);
      StageOneReady(files0, dirs0, videoName, iClass, nA, mediaA);
    }
    var ok := w.RenameEnc(videoName, iClass);
    if !ok {
      return Some(FsFailure);
    }
    if empty {
      StageOneDone(files0, dirs0, w.files, w.dirs, videoName, iClass, nA, mediaA);
    }
  }

  /**
   * The plain pass.  After stage 1 from a fresh start it fails only when
   * the transcoder does, and otherwise leaves every rendition directory
   * ready for stage 2.
   */
  method PlainStage(w: WorkDir, videoName: string, iClass: int, codeB: Option<int>, nB: nat, mediaB: Rung -> string,
                    ghost nA: nat, ghost mediaA: Rung -> string)
    returns (failure: Option<Outcome>)
    requires w.Valid()
    modifies w
    ensures w.Valid() && w.published == old(w.published)
    ensures failure.Some? ==> failure.value in {FsFailure, Exit(ConvertFailedCode)}
    ensures iClass <= 2 && SealedA(old(w.files), old(w.dirs), videoName, iClass, nA, mediaA) ==>
              && (failure.None? <==> !TranscodeFailed(codeB))
              && (failure.Some? ==> failure.value == Exit(ConvertFailedCode))
              && (failure.None? ==> PassedB(w.files, w.dirs, videoName, iClass, nA, mediaA, nB, mediaB))
  {
    ghost var sealed := iClass <= 2 && SealedA(w.files, w.dirs, videoName, iClass, nA, mediaA);
    ghost var files1, dirs1 := w.files, w.dirs;
    if sealed {
      PassBReady(files1, dirs1, videoName, iClass, nA, mediaA);
    }
    failure := Convert(w, videoName, iClass, Plain, codeB, nB, mediaB);
    if failure.None? && sealed {
      PassBDone(files1, dirs1, w.files, w.dirs, videoName, iClass, nA, mediaA, nB, mediaB);
    }
  }

  /**
   * Stage 2 with the final rename.  After the plain pass from a fresh
   * start it fails exactly when the master's name is one stage 2 takes
   * for a rendition directory, and otherwise publishes the package.
   */
  method UnencStage(w: WorkDir, videoName: string, ghost iClass: int,
                    ghost nA: nat, ghost mediaA: Rung -> string, ghost nB: nat, ghost mediaB: Rung -> string)
    returns (outcome: Outcome)
    requires w.Valid()
    modifies w
    ensures w.Valid()
    ensures outcome in {Exit(0), FsFailure}
    ensures w.published == (old(w.published) || outcome == Exit(0))
    ensures PassedB(old(w.files), old(w.dirs), videoName, iClass, nA, mediaA, nB, mediaB) ==>
              && (outcome == Exit(0) <==> !Rendition(MasterName(videoName)))
              && (outcome == Exit(0) ==> Packaged(w.files, w.dirs, videoName, iClass, nA, mediaA, nB, mediaB))
  {
    ghost var passed := PassedB(w.files, w.dirs, videoName, iClass, nA, mediaA, nB, mediaB);
    ghost var files2, dirs2 := w.files, w.dirs;
    if passed {
      StageTwoReadiness(files2, dirs2, videoName, iClass, mediaB);
    }
    var ok := w.RenameUnenc(videoName);
    if !ok {
      return FsFailure;
    }
    if passed {
      StageTwoDone(files2, dirs2, w.files, w.dirs, videoName, iClass, nA, mediaA, nB, mediaB);
    }
    return Exit(0);
  }

  /**
   * The whole chain.  A probe that cannot be classified ends the process
   * with its code (or an uncaught exception) before anything is written;
   * otherwise every stage runs in turn, the first failure ends the chain,
   * and `.finally` exits with 0 after a published package.  From a fresh
   * working directory a run fails only by a failed transcoder or by a
   * video name that stage 2 mistakes for a rendition directory, and
   * otherwise publishes the full package.
   */
  method Run(w: WorkDir, videoName: string, probe: ProbeOutput,
             codeA: Option<int>, nA: nat, mediaA: Rung -> string,
             codeB: Option<int>, nB: nat, mediaB: Rung -> string)
    returns (outcome: Outcome)
    requires w.Valid()
    modifies w
    ensures w.Valid()
    ensures w.published == (old(w.published) || outcome == Exit(0))
    ensures Classification(probe).Reject? ==>
              outcome == Exit(Classification(probe).code) && w.files == old(w.files) && w.dirs == old(w.dirs)
    ensures Classification(probe).Throw? ==>
              outcome == Uncaught && w.files == old(w.files) && w.dirs == old(w.dirs)
    ensures Classification(probe).Resolve? ==> outcome in {Exit(0), Exit(ConvertFailedCode), FsFailure}
    ensures Classification(probe).Resolve? && old(w.files) == map[] && old(w.dirs) == map[] ==>
              if TranscodeFailed(codeA) || TranscodeFailed(codeB) then outcome == Exit(ConvertFailedCode)
              else if Rendition(MasterName(videoName)) then outcome == FsFailure
              else outcome == Exit(0)
                   && Packaged(w.files, w.dirs, videoName, Classification(probe).value.iClass, nA, mediaA, nB, mediaB)
  {
    var settlement := Classification(probe);
    if settlement.Throw? {
      return Uncaught;
    }
    if settlement.Reject? {
      return Exit(settlement.code);
    }
    var iClass := settlement.value.iClass;
    var failure := EncryptedStage(w, videoName, iClass, codeA, nA, mediaA);
    if failure.Some? {
      return failure.value;
    }
    failure := PlainStage(w, videoName, iClass, codeB, nB, mediaB, nA, mediaA);
    if failure.Some? {
      return failure.value;
    }
    outcome := UnencStage(w, videoName, iClass, nA, mediaA, nB, mediaB);
  }
}
