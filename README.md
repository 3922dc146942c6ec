# A model of the single-video HLS converter with selective encryption

`tools/classify_convert_single_enc_win.js` turns one source video into an
HLS package in which every segment whose number ends in 7 is encrypted with
AES-128 and all other segments are plain.  Its flow is as follows:

- It probes the source and classifies it by height into a quality class
  from -1 to 2.  The class decides which rungs of the rendition ladder are
  produced: XXLD, XLD, LD, SD, HD and FHD.
- It transcodes twice into the working directory `_<name>`: first with
  encryption, then without.
- Stage 1 (`asyncRenameEnc`) runs between the two passes.  It sets the
  encrypted master playlist, the media playlists and the encrypted `…7.ts`
  segments aside under `.enc` names, and deletes the other encrypted
  segments.
- Stage 2 (`asyncRenameUnenc`) runs after the plain pass:
  - it writes `<name>_unenc.m3u8` and every rendition's `video_unenc.m3u8`
    by regular-expression rewrites;
  - it gives the encrypted playlists their names back;
  - it moves the plain `…7.ts` segments aside to `…7_unenc.ts`;
  - it gives the encrypted sevens their names back;
  - it renames the working directory to the destination.

The Dafny modules follow that structure:

| module | file | what it holds |
|---|---|---|
| `Text` | text.dfy | `startsWith`/`endsWith`, suffix swaps, decimal numerals and `%05d` padding |
| `Regex` | regex.dfy | the literal-plus-wildcard fragment of JavaScript regular expressions the script uses with `replace` |
| `Classify` | classify.dfy | the probe's `close` handler: quality class, ratio, duration, or the rejection code |
| `Ladder` | ladder.dfy | the rung table, the even output width, the master playlist text and the transcoder argument list |
| `Segments` | segments.dfy | segment names `video-%05d.ts` and the renames the stages apply to them |
| `Playlists` | playlists.dfy | the two rewrites `/video.m3u8\n/g` and `/7.ts\n/g` |
| `Directory` | directory.dfy | rendition directories as maps, and the three rename loops over an unordered listing |
| `WorkingDir` | workdir.dfy | the class `WorkDir`: the working directory that the passes and stages change in place |
| `Job` | job.dfy | what every rendition directory and the whole working directory hold after each step |
| `Pipeline` | pipeline.dfy | the promise chain, from the probe's output to the process's exit |

Modelling choices:

- Each rename loop over `readdirSync` runs in an order the file system
  chooses, so its effect is stated as an order-free closed form
  (`Directory.Final`).  That closed form holds whenever no rename lands on
  a name that the loop itself moves or deletes.
- A file-system call that throws becomes a failed step (`ok == false`).
  At the level of the whole run it becomes the outcome `FsFailure`.
- The transcoder is not modelled inside.  Its exit code, its segment count
  per pass and its media playlist texts are parameters.

The main results:

- **Run from a fresh working directory.**  A run fails only when a
  transcoding pass reports a positive exit code (exit code 2), or when the
  video's name itself starts with `videoHls`.  In the second case stage 2
  takes the master playlist for a rendition directory and `renameSync`
  throws.  Otherwise the run publishes the package (`Job.Packaged`).
- **Each rendition directory at the end** (`Job.Reconciled`,
  `Job.Playback`):
  - no `.enc` file is left;
  - every `…7.ts` name holds the encrypted pass's segment;
  - every other `.ts` name holds the plain pass's segment;
  - the plain playlist's line for a segment names that plain segment.

Three details of the code shape the model:

- The key-info option is pushed into the options shared by every rung, so
  it appears once per rung block of the argument list
  (`Ladder.KeyInfoInEveryBlock`).
- The regular expressions hold unescaped dots, which are wildcards.  The
  model keeps the wildcard and proves that, on the texts and names the
  converter produces, the rewrites agree with the literal reading.
- Stage 2 writes LD's media playlist, rewritten, as every rendition's
  `video_unenc.m3u8`.

## Model

| member | source | states |
|---|---|---|
| Classify.QualityClass | tools/classify_convert_single_enc_win.js:73-81 | the class is -1 above 720 lines, 0 above 480, 1 from 360 to 480 and 2 below 360, each as an if-and-only-if |
| Classify.QualityClassMonotonic | tools/classify_convert_single_enc_win.js:73-81 | a taller source never gets a larger class number |
| Classify.Attempts | tools/classify_convert_single_enc_win.js:63-86 | the `close` handler makes one or two attempts to settle the promise |
| Classify.Classification | tools/classify_convert_single_enc_win.js:61-87 | unparsable output rejects with 3; no first stream rejects with 4; no `format` throws in the handler; otherwise it resolves with the height's class, width/height and the duration |
| Classify.ParseFailureWins | tools/classify_convert_single_enc_win.js:63-86 | after a parse failure the handler also attempts the code-4 rejection, but the promise settles with code 3 |
| Ladder.IncludedIsPrefix | tools/classify_convert_single_enc_win.js:121-166 | class c gets the first 5 - c rungs of the table, lowest first |
| Ladder.IncludedMembership | tools/classify_convert_single_enc_win.js:121-159 | a rung is produced exactly when the class is at most the rung's threshold |
| Ladder.RungsForHeight | tools/classify_convert_single_enc_win.js:73-166 | a source of height h gets XXLD, XLD and LD always, SD iff h >= 360, HD iff h > 480, FHD iff h > 720 |
| Ladder.IncludedAscending | tools/classify_convert_single_enc_win.js:124-162 | the output height strictly grows along the produced rungs |
| Ladder.EvenWidth | tools/classify_convert_single_enc_win.js:125 | the width is even and within one unit of height × ratio; there is no number when the ratio's denominator is 0 |
| Ladder.PlanUpToMeaning | tools/classify_convert_single_enc_win.js:121-166 | the plan built block by block for the first k rungs is the interleaved argument list and the master text of those rungs |
| Ladder.PlanConversion | tools/classify_convert_single_enc_win.js:95-167 | the built argument list is the base options followed by shared-then-own options per produced rung, and the master text lists exactly the produced rungs |
| Ladder.AddRung | tools/classify_convert_single_enc_win.js:126-127 | one rung's block extends the plan of the first k rungs to the plan of the first k + 1 |
| Ladder.PlanStep | tools/classify_convert_single_enc_win.js:126-127 | the next rung adds the shared options, then its own options, and its two master lines |
| Ladder.PlanComplete | tools/classify_convert_single_enc_win.js:121-166 | a plan covering the class's rung count is the pass's whole plan |
| Ladder.MasterHeaderText | tools/classify_convert_single_enc_win.js:116 | the master playlist with no rungs is the two header lines |
| Ladder.MasterTextSnoc | tools/classify_convert_single_enc_win.js:127 | each rung appends its stream-info line and its media path line to the master text |
| Ladder.KeyInfoInEveryBlock | tools/classify_convert_single_enc_win.js:115-164 | `-hls_key_info_file` occurs once per produced rung in the encrypted pass and never in the plain pass |
| Text.PaddedDecimalValue | tools/classify_convert_single_enc_win.js:126 | reading back a `%05d` numeral gives the number |
| Text.ValueOfDecimal | tools/classify_convert_single_enc_win.js:126 | decimal rendering and reading are inverse |
| Text.SwapSuffixBack | tools/classify_convert_single_enc_win.js:226-274 | swapping a suffix and swapping it back restores the name |
| Segments.Counter | tools/classify_convert_single_enc_win.js:126 | a segment counter has at least five digits, and its last digit is the number's last digit |
| Segments.SegmentNameInjective | tools/classify_convert_single_enc_win.js:126 | two segments with the same name have the same number |
| Segments.SegmentEndsWith7 | tools/classify_convert_single_enc_win.js:224 | `endsWith("7.ts")` holds for a segment name exactly when its number ends in 7 |
| Segments.SegmentEndsWithTs | tools/classify_convert_single_enc_win.js:223 | every segment name ends in `.ts` and not in `.enc` |
| Segments.ReplaceFirstAtEnd | tools/classify_convert_single_enc_win.js:260 | in a name with no `t` before its final `7.ts`, the wildcard pattern's leftmost match is that final `7.ts` |
| Segments.UnencRenameOfSegment | tools/classify_convert_single_enc_win.js:258-260 | the wildcard `replace(/7.ts/, …)` on a sevens segment swaps its final `7.ts` for `7_unenc.ts` |
| Segments.UnencSegmentNameEnds | tools/classify_convert_single_enc_win.js:258-272 | a moved-aside name ends in `.ts`, but in neither `7.ts` nor `.enc` |
| Segments.UnencSegmentNameIsNoSegment | tools/classify_convert_single_enc_win.js:260 | no moved-aside name is the name of a segment |
| Segments.UnencSegmentNameInjective | tools/classify_convert_single_enc_win.js:260 | two sevens segments are moved aside to different names |
| Segments.StripEnc | tools/classify_convert_single_enc_win.js:274 | `replace(/.enc$/, "")` on a name ending in `.enc` drops exactly those four characters |
| Regex.FirstMatch | tools/classify_convert_single_enc_win.js:260 | the result is the leftmost index at or after the start where the pattern matches, or there is no match |
| Regex.ReplaceFirst | tools/classify_convert_single_enc_win.js:260 | a non-global replace substitutes exactly the leftmost match, or leaves the subject unchanged |
| Regex.ReplaceAllNoMatch | tools/classify_convert_single_enc_win.js:244-246 | a global replace leaves a subject without a match unchanged |
| Regex.LiteralOccurrenceMatches | tools/classify_convert_single_enc_win.js:244-246 | the pattern matches wherever its own text occurs literally |
| Regex.ReplaceAllByLines | tools/classify_convert_single_enc_win.js:244-246 | a global replace whose pattern ends at a newline works line by line |
| Playlists.StreamInfUnchanged | tools/classify_convert_single_enc_win.js:244 | the master rewrite leaves every stream-info line alone |
| Playlists.MediaPathLineRewritten | tools/classify_convert_single_enc_win.js:244 | a line `d/video.m3u8` becomes `d/video_unenc.m3u8` |
| Playlists.UnencMaster | tools/classify_convert_single_enc_win.js:244 | the rewritten master equals the master that points every rung at `video_unenc.m3u8`, with the same header and stream-info lines |
| Playlists.UnencLine | tools/classify_convert_single_enc_win.js:246 | the literal reading swaps a final `7.ts` for `7_unenc.ts` and keeps any other line |
| Playlists.DigitLineRewrite | tools/classify_convert_single_enc_win.js:246 | a line ending in a digit and `.ts` is renamed iff the digit is 7 |
| Playlists.MediaLineRewrite | tools/classify_convert_single_enc_win.js:246 | the wildcard rewrite of a media playlist line agrees with the literal reading |
| Playlists.UnencMedia | tools/classify_convert_single_enc_win.js:246 | on a playlist of segment lines and non-`ts` lines, the rewrite renames exactly the sevens segments and keeps every other line |
| Playlists.UnencLineOfSegment | tools/classify_convert_single_enc_win.js:246-260 | the playlist's new line for a segment is the segment's stage-2 name |
| Directory.Step | tools/classify_convert_single_enc_win.js:222-234 | one iteration throws exactly when the file it must delete or rename is gone; afterwards the file is gone unless kept or renamed onto itself |
| Directory.ProcessedStep | tools/classify_convert_single_enc_win.js:222-234 | in an order-free directory, one more listed file takes the closed form of the processed names to the closed form with that name added |
| Directory.RunFailed | tools/classify_convert_single_enc_win.js:222-234 | once an iteration throws, the loop has failed |
| Directory.RunProcessed | tools/classify_convert_single_enc_win.js:222-234 | in an order-free directory, the loop over any listing of distinct names never throws and stays at the closed form |
| Directory.RunFinal | tools/classify_convert_single_enc_win.js:222-234 | over a listing of exactly the directory's names, in any order, the loop ends at `Final` |
| Directory.FinalFacts | tools/classify_convert_single_enc_win.js:222-234 | afterwards every moved file is under its new name, every kept file that nothing overwrote is unchanged, and nothing else is there |
| Directory.FinalMoved | tools/classify_convert_single_enc_win.js:226 | a file the loop renames is afterwards under its new name with its contents |
| Directory.FinalKept | tools/classify_convert_single_enc_win.js:222-234 | a file the loop keeps, and that nothing is renamed onto, is unchanged |
| Directory.FinalFrom | tools/classify_convert_single_enc_win.js:222-234 | every file afterwards was kept under its name or renamed there from a listed name |
| Directory.SealSevensOrderFree | tools/classify_convert_single_enc_win.js:222-234 | stage 1's loop is order-free in every directory |
| Directory.RestoreSevensOrderFree | tools/classify_convert_single_enc_win.js:271-278 | stage 2's restoring loop is order-free in every directory |
| Directory.StripEncOneToOne | tools/classify_convert_single_enc_win.js:274 | stripping `.enc` is one-to-one on the names the restoring loop moves |
| WorkingDir.MasterNamesDiffer | tools/classify_convert_single_enc_win.js:203-249 | `<name>.m3u8`, `<name>.m3u8.enc` and `<name>_unenc.m3u8` are three different names |
| WorkingDir.Rename | tools/classify_convert_single_enc_win.js:203 | after `renameSync` the target holds the source's contents, the source is gone and every other name is untouched |
| WorkingDir.WithSegmentsHas | tools/classify_convert_single_enc_win.js:126 | after a pass, segment i of that pass is under `video-%05d.ts` for every i from 1 to n |
| WorkingDir.WithSegmentsOnly | tools/classify_convert_single_enc_win.js:126 | after a pass, every file is as it was or is one of that pass's segments under its name |
| WorkingDir.WithSegmentsKeeps | tools/classify_convert_single_enc_win.js:126 | a pass replaces files but removes none |
| WorkingDir.StageOneDirsMatch | tools/classify_convert_single_enc_win.js:204-216 | stage 1 walks the directories the planner created, in the same order |
| WorkingDir.StageOneDirsAre | tools/classify_convert_single_enc_win.js:204-216 | stage 1 walks exactly the class's rendition directories, each once |
| WorkingDir.RungDirsDistinct | tools/classify_convert_single_enc_win.js:122-160 | different rungs of a class have different directories |
| WorkingDir.DirNameFacts | tools/classify_convert_single_enc_win.js:252 | every rendition directory name starts with `videoHls` |
| WorkingDir.MasterNotRungDir | tools/classify_convert_single_enc_win.js:167 | the master playlist's name is never a rendition directory's |
| WorkingDir.Listing | tools/classify_convert_single_enc_win.js:222 | `readdirSync` lists every name of the directory exactly once, in an unknown order |
| WorkingDir.ListedRenditions | tools/classify_convert_single_enc_win.js:242-266 | over a listing of the working directory, the listed renditions are ready iff no file takes a rendition name and every rendition directory holds the encrypted media playlist |
| WorkingDir.MadeDirsFacts | tools/classify_convert_single_enc_win.js:122-161 | creating the rung directories adds exactly the rung directory names no file holds, each empty, and leaves every existing directory as it was |
| WorkingDir.MadeRungDirs | tools/classify_convert_single_enc_win.js:122-167 | after the directories are created, the master's name is a directory iff it was one before, and no name is both a file and a directory. When no file takes a rung name, every rung directory is there, holding its old contents or nothing |
| WorkingDir.DirNamesOf | tools/classify_convert_single_enc_win.js:122-160 | the directory names collected rung by rung are the class's rendition directories |
| WorkingDir.WrittenRungs | tools/classify_convert_single_enc_win.js:121-166 | after the rung blocks, each rung directory holds what the pass writes over its old contents, and other directories are untouched |
| WorkingDir.RunNames | tools/classify_convert_single_enc_win.js:222-234 | the loop succeeds exactly when the loop specification does not throw, and then leaves its result |
| WorkingDir.UnsealedNext | tools/classify_convert_single_enc_win.js:250-266 | stage 2's first walk, one listed name further, keeps its invariant |
| WorkingDir.UnsealFailed | tools/classify_convert_single_enc_win.js:250-266 | the first walk stops only at a rendition that is missing, not sealed or not order-free, so the listing was not ready |
| WorkingDir.WorkDir.constructor | tools/classify_convert_single_enc_win.js:118 | the working directory starts empty and unpublished |
| WorkingDir.WorkDir.Transcode | tools/classify_convert_single_enc_win.js:118-167 | a pass succeeds iff no directory takes the master's name and no file takes a rung directory's name. Then it writes the master and each rung's segments and playlist, and changes nothing else. On failure the missing rung directories have been created empty, and the master has been written unless a directory holds its name |
| WorkingDir.WorkDir.MakeRungDirs | tools/classify_convert_single_enc_win.js:122-161 | creating the rung directories one after the other gives `MadeDirs` |
| WorkingDir.WorkDir.WriteRungs | tools/classify_convert_single_enc_win.js:121-166 | the rung directories are written one after the other, as `WrittenUpTo` says |
| WorkingDir.WorkDir.ProcessListing | tools/classify_convert_single_enc_win.js:222-234 | a rename loop over a listing changes only its directory, and when it is order-free it succeeds and leaves `Final` |
| WorkingDir.WorkDir.RenameEnc | tools/classify_convert_single_enc_win.js:200-238 | stage 1 succeeds iff the master and every rung's media playlist are there; then the master and the playlists get `.enc`, and each rung directory is at stage 1's `Final` |
| WorkingDir.WorkDir.SealRenditions | tools/classify_convert_single_enc_win.js:217-235 | the walk over `subPaths` succeeds iff every listed directory has its media playlist, and then seals each one |
| WorkingDir.WorkDir.SealRendition | tools/classify_convert_single_enc_win.js:220-234 | one directory: the playlist gets `.enc`, then the segment loop runs to `Final` |
| WorkingDir.WorkDir.RenameUnenc | tools/classify_convert_single_enc_win.js:240-285 | stage 2 succeeds only when ready, and always when ready and order-free; then it writes both masters, takes each rendition through both loops and publishes |
| WorkingDir.WorkDir.RestoreListed | tools/classify_convert_single_enc_win.js:250-282 | both walks over the listing, then the publish step, with the same readiness and results |
| WorkingDir.WorkDir.RestoreMasters | tools/classify_convert_single_enc_win.js:243-249 | succeeds iff both masters are there and no directory takes `<name>_unenc.m3u8`; then the rewritten plain master is written and the encrypted master replaces the plain one |
| WorkingDir.WorkDir.RestoreAll | tools/classify_convert_single_enc_win.js:250-280 | both walks succeed when the listed renditions are ready and order-free, and leave each at the two loops' `Final` |
| WorkingDir.WorkDir.RestoreRenditions | tools/classify_convert_single_enc_win.js:250-266 | the first walk succeeds only if the listed renditions are ready, and always if they are ready and order-free; then it unseals each one and moves its plain sevens aside |
| WorkingDir.WorkDir.RestoreRendition | tools/classify_convert_single_enc_win.js:252-265 | one rendition: it fails when the encrypted playlist is missing, and succeeds with the moved-aside `Final` when the directory is order-free |
| WorkingDir.WorkDir.RestoreSegments | tools/classify_convert_single_enc_win.js:267-280 | the second walk succeeds iff every listed rendition exists, and then takes each to the restoring loop's `Final` |
| Job.AppendEncSeven | tools/classify_convert_single_enc_win.js:224-272 | a name with `.enc` appended ends in `7.ts.enc` iff the name ends in `7.ts` |
| Job.AppendEncStrip | tools/classify_convert_single_enc_win.js:226-274 | stripping `.enc` undoes appending it |
| Job.TsActs | tools/classify_convert_single_enc_win.js:223-272 | what each of the three loops does with a `.ts` name |
| Job.SegmentActs | tools/classify_convert_single_enc_win.js:223-272 | stage 1 sets a segment aside iff its number ends in 7 and deletes it otherwise; stage 2 moves only the sevens aside |
| Job.SealedActs | tools/classify_convert_single_enc_win.js:258-274 | a set-aside segment is kept while the plain ones move, and gets its name back iff its number ends in 7 |
| Job.StageTwoKeeps | tools/classify_convert_single_enc_win.js:258-272 | stage 2 keeps a name ending in neither `7.ts` nor `.enc` |
| Job.UnencActs | tools/classify_convert_single_enc_win.js:258-272 | both loops of stage 2 keep a moved-aside segment |
| Job.PlaylistActs | tools/classify_convert_single_enc_win.js:223-272 | every loop keeps the media playlists |
| Job.NamesDiffer | tools/classify_convert_single_enc_win.js:126-260 | set-aside, ordinary and moved-aside segment names never coincide, and each is one-to-one |
| Job.PlaylistNamesDiffer | tools/classify_convert_single_enc_win.js:220-256 | no segment name, in any of its forms, is a media playlist name |
| Job.FreshTranscoded | tools/classify_convert_single_enc_win.js:126 | a fresh rendition directory after a pass holds segments 1 to n and the media playlist |
| Job.SealFinalHas | tools/classify_convert_single_enc_win.js:222-234 | after stage 1's loop, the set-aside playlist and the encrypted sevens are there |
| Job.SealFinalOnly | tools/classify_convert_single_enc_win.js:222-234 | after stage 1's loop, nothing else is there |
| Job.StageOneRendition | tools/classify_convert_single_enc_win.js:220-234 | in a directory the encrypted pass has just made, stage 1 leaves exactly the set-aside playlist and the encrypted sevens |
| Job.PlainPassShape | tools/classify_convert_single_enc_win.js:126 | the plain pass writes its segments beside the set-aside ones and overwrites none |
| Job.UnsealedMid | tools/classify_convert_single_enc_win.js:255-256 | stage 2 restores the encrypted playlist over the plain pass's and writes the plain one |
| Job.MidOrderFree | tools/classify_convert_single_enc_win.js:257-264 | stage 2's first loop is order-free in such a directory |
| Job.MidAsideHas | tools/classify_convert_single_enc_win.js:257-264 | after the first loop, both playlists, the set-aside sevens and every plain segment are in place |
| Job.MidAsideOnly | tools/classify_convert_single_enc_win.js:257-264 | after the first loop, nothing else is there |
| Job.AsideFinalHas | tools/classify_convert_single_enc_win.js:271-278 | after the second loop, both playlists and every segment of both passes are in place |
| Job.AsideFinalOnly | tools/classify_convert_single_enc_win.js:271-278 | after the second loop, nothing else is there |
| Job.StageTwoRendition | tools/classify_convert_single_enc_win.js:255-278 | in a directory stage 1 sealed and the plain pass wrote into, stage 2's first loop is order-free and both loops reach the end state |
| Job.Reconciled | tools/classify_convert_single_enc_win.js:255-278 | at the end no `.enc` file is left, every `…7.ts` name holds an encrypted segment, and every other `.ts` name holds a plain one |
| Job.Playback | tools/classify_convert_single_enc_win.js:244-278 | for a segment both passes wrote, the encrypted playlist's line names it, encrypted iff its number ends in 7, and the plain playlist's line names its plain version |
| Job.FileNamesNotRungDirs | tools/classify_convert_single_enc_win.js:167-247 | none of the three master names is a rendition directory |
| Job.SealedMasterRendition | tools/classify_convert_single_enc_win.js:252 | stage 2 takes the set-aside master for a rendition directory iff it takes the master for one |
| Job.StageOneReady | tools/classify_convert_single_enc_win.js:203-220 | after the encrypted pass, stage 1 finds everything it renames |
| Job.StageOneDone | tools/classify_convert_single_enc_win.js:200-238 | stage 1 after the encrypted pass leaves the set-aside master and every rendition directory sealed |
| Job.PassBReady | tools/classify_convert_single_enc_win.js:118-167 | after stage 1, the plain pass finds no name taken |
| Job.LdRung | tools/classify_convert_single_enc_win.js:136-141 | every class the classifier gives has the LD rung |
| Job.PassBLd | tools/classify_convert_single_enc_win.js:136-141 | the plain pass leaves its own media playlist in the LD directory |
| Job.PassBRungs | tools/classify_convert_single_enc_win.js:121-166 | the plain pass over sealed directories leaves each ready for stage 2 |
| Job.PassBDone | tools/classify_convert_single_enc_win.js:118-167 | after stage 1, the plain pass leaves both masters and every rendition directory ready for stage 2 |
| Job.MastersNotRenditions | tools/classify_convert_single_enc_win.js:250-252 | stage 2 takes no top-level file for a rendition directory iff the master's name does not start with `videoHls` |
| Job.RungsReadyForStageTwo | tools/classify_convert_single_enc_win.js:250-266 | every rendition directory stage 2 walks holds the encrypted playlist, and its first loop is order-free |
| Job.PlainMediaOf | tools/classify_convert_single_enc_win.js:245-246 | the plain media playlist stage 2 derives is LD's plain playlist, rewritten |
| Job.MastersReady | tools/classify_convert_single_enc_win.js:242-255 | after the plain pass, stage 2 is ready iff the master's name is not a rendition name |
| Job.StageTwoReadiness | tools/classify_convert_single_enc_win.js:242-266 | after the plain pass, stage 2 is ready iff the master's name is not a rendition name; every rendition's first loop is order-free |
| Job.StageTwoFilesOf | tools/classify_convert_single_enc_win.js:243-249 | the top level after stage 2 is the encrypted master under its own name and the plain master pointing at every rung's `video_unenc.m3u8` |
| Job.StageTwoDirs | tools/classify_convert_single_enc_win.js:250-280 | stage 2's loops leave every rendition directory in the end state |
| Job.StageTwoDone | tools/classify_convert_single_enc_win.js:240-285 | stage 2 after the plain pass leaves the package |
| Pipeline.Convert | tools/classify_convert_single_enc_win.js:91-198 | a pass fails with an fs error iff a directory takes the master's name; it fails with code 2 iff a file takes a rung directory's name or the transcoder exits positive; otherwise it has the pass's effects |
| Pipeline.EncryptedStage | tools/classify_convert_single_enc_win.js:292-297 | from a fresh start, the encrypted pass and stage 1 fail (with code 2) iff the transcoder does, and otherwise leave the sealed state |
| Pipeline.PlainStage | tools/classify_convert_single_enc_win.js:298-300 | after stage 1, the plain pass fails (with code 2) iff the transcoder does, and otherwise leaves the state stage 2 expects |
| Pipeline.UnencStage | tools/classify_convert_single_enc_win.js:301-303 | after the plain pass, stage 2 publishes iff the master's name is not a rendition name, and then leaves the package |
| Pipeline.Run | tools/classify_convert_single_enc_win.js:287-310 | a rejected probe exits with its code and an unclassifiable one throws, both leaving the directory alone; from a fresh start, a run exits 2 iff a pass fails, fails on the file system iff the name starts with `videoHls`, and otherwise exits 0 with the package published |

## Left out

- The argument checks `asyncCheckArgv` (lines 24-43) are not modelled.
  They probe the file system.  The same lines test `ffprobe_32.exe` and
  `ffmpeg_32.exe` but spawn the `_64` tools, and they reject without
  returning.  The model starts at the probe's output.
- Spawning the probe and the transcoder is not modelled.  So are their
  progress output (lines 172-186) and the logging helpers.  The probe's
  JSON is an abstract parse outcome; the transcoder's exit code, segment
  count and media playlist texts are parameters.
- The write of `enc.keyinfo` (line 94) is left out.  It lies outside the
  working directory, and the segment bytes it governs are not modelled.
- Segment contents are not modelled.  A segment is its pass and its index,
  and a playlist is its text.
- Each pass writes one segment count for all rungs of the class.  The
  transcoder's real per-rung counts are not modelled.
- `Ladder.EvenWidth` treats the ratio exactly and `Math.round(x)` as
  floor(x + 1/2).  It does not model floating-point rounding.
- When stage 1 or stage 2 fails part-way, the model keeps the partial
  directory state but does not describe it.  Only the outcome is stated.
  For a failed pass, `WorkingDir.WorkDir.Transcode` describes the state up
  to the transcoder's spawn.  What a transcoder that fails may already
  have written is not modelled.
- Pipeline.Convert: when a file holds a rung directory's name, the pass
  ends with exit code 2 whatever the transcoder's code is.  The transcoder
  is taken to fail because it cannot write into that directory; its
  behaviour there is not modelled.
- Classify.Classification: the duration is kept as the raw text of
  `format.duration`.  The `parseFloat` of line 72 is not modelled, nor its
  rendering back to text as the `-t` argument (for example `NaN` for a
  missing or non-numeric field).  A `format` object without a `duration`
  field cannot be expressed: an absent duration stands for an absent
  `format`, which throws.  A first stream without `height` or `width`
  cannot be expressed either.  In the code such a source gets class 2
  (`undefined > 720` is false) and a `NaN` ratio.
- The exit status of a thrown file-system error is left abstract
  (`FsFailure`).  So is the exit status of an exception thrown in the
  probe's `close` handler (`Uncaught`).  Both depend on the Node runtime.
- The final `renameSync(tmpPath, dstPath)` is modelled as the `published`
  flag and never fails.  A destination that appeared meanwhile is not
  modelled.
- The working directory's initial contents are arbitrary for the stage
  methods.  The whole-run results (`Pipeline.Run`, `Job.Packaged`) assume
  it starts empty.
- WorkingDir.WorkDir.RenameUnenc: success is characterised exactly only
  when every rendition's loop is order-free.  Beyond that the contract says
  only that success implies readiness.
- WorkingDir.WorkDir.RestoreRenditions: for the same reason, failure is
  characterised only when the listed renditions are order-free.
