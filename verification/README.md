# Omegacat captures, modelled in Dafny

Omegacat logs in to network devices, runs a command on each, keeps what they
answer in a directory of versions, compares versions line by line, and shows a
run while it happens. This project models the parts of it that carry its
promises, and proves them.

| part | files |
|---|---|
| the line diff: edit graph, Myers' search, trimming, hunks, hunks as a patch | `EditGraph.dfy`, `CommonLines.dfy`, `Myers.dfy`, `Trimming.dfy`, `TextLines.dfy`, `LineDiff.dfy`, `Patching.dfy` |
| the capture store: one type's directory, whole runs of it, its lines and parses, its crash points, the objects over it, slugs, device directories | `FileNames.dfy`, `StoreModel.dfy`, `StoreTheorems.dfy`, `StoreLines.dfy`, `StoreParses.dfy`, `TypeDirectory.dfy`, `ByteOrder.dfy`, `CrashPoints.dfy`, `Slugs.dfy`, `PathElements.dfy`, `DeviceStore.dfy`, `DeviceJson.dfy` |
| the run model: events in, numbered rows out, told by the list of events | `RunModel.dfy`, `RunTheorems.dfy`, `RowWords.dfy`, `RunHistory.dfy` |
| the view's side: result table, pull protocol, the objects at its two ends | `ResultsTable.dfy`, `PullProtocol.dfy`, `RunBridge.dfy` |
| the capture engine: workers over a semaphore, a lane and a cancel | `Engine.dfy`, `EngineTheorems.dfy`, `EngineRun.dfy`, `EngineTable.dfy`, `EngineOutcomes.dfy` |
| two small cores: the CSV printer, key maps of inventory edits | `Csv.dfy`, `KeyMap.dfy` |
| what several of them share | `Sequences.dfy`, `Wrappers.dfy` |

`dafny verify dfyconfig.toml` checks all of it.

Code that changes things step by step is modelled as methods over arrays and
classes, each proved to compute a function of its inputs or of the old state,
and the properties are then proved of that function. Goroutines, crashes and
refused system calls are steps of state machines, and properties of them hold
over every sequence of steps. A `char` stands for a byte, and a string for a
byte string, except in slugs and aliases, where it stands for a rune.

## What turned out

* The hunks of a comparison work as a patch exactly when every change of the
  script, ignored ones included, lies within context lines of one that counts
  (`Patching.PatchWorks`). Ignore rules are what can break that:
  `Patching.PatchLosesIgnored` has an ignored change that is lost.
* A text that is a lone carriage return has one empty line, an empty text none
  (`TextLines.LoneCarriageReturn`), so the two compare as different.
* `Put` joins the capture type to the device's directory unchecked
  (`internal/capture/store.go:219-220`), where every reader checks it first. A
  capture stays in its type's own directory exactly if the type is one path
  element (`DeviceStore.AttemptStaysHome`). With a type such as
  `../r2/running-config` the capture of a device `r1` becomes the next line of
  `r2`'s history, whatever `r2`'s device.json says (`DeviceStore.StrayCapture`,
  `DeviceStore.StrayExists`). Every type `Spec.Validate` accepts is one element
  (`DeviceStore.SafeTypeStaysHome`). A reader finds what was stored exactly if
  `element` lets the type through as it is, which white space around it prevents
  (`PathElements.ReaderMeetsWriter`).
* The comment at `internal/capture/store.go:195` says that device names are
  reserved regardless of extension. The code compares whole slugs, and its list
  lacks com5 to com9 and lpt4 to lpt9. A device called `con.lab` gets the
  directory `con.lab`, one called `com5` the directory `com5`.
  `Slugs.ReservedStem` says of every name whether its slug is one Windows
  reserves.
* A parse whose deletion is refused while its capture's deletion succeeds can end
  up beside another capture of the same second (`CrashPoints.StaleParse`).
  `StoreTheorems.EveryParseMatches` says exactly which runs keep every parse with
  its capture, and `StoreTheorems.NoParseStale` exactly which runs never show a
  parse beside content it was not made from. When deletions are only cut short,
  and not refused one by one, the order of the sweep keeps the first of the two
  conditions (`CrashPoints.StoppedSweepTakesParsesFirst`).
* `appendHistory` returns the error of a failed sync after the line was written
  (`internal/capture/store.go:510-513`). An error from `Put` then comes with a
  recorded capture (`CrashPoints.PutReports`).
* A result's command is what was sent, by the comment at
  `internal/capture/capture.go:564-569`. The code sets it before the wait for the
  expensive lane, so a capture cancelled there has a command that was never sent,
  and that its row does not show (`EngineTable.CancelledInLane`).
  `EngineTable.ResultsAreShown` says exactly when row and result agree.
* A table with a record of no fields does not survive CSV: it is printed like a
  record of one empty field (`Csv.TableReadsBack`).
* Composing key maps loses an original key when its vacated key was given to an
  added session that a later edit moves (`KeyMap.ComposedIsPushed`,
  `KeyMap.ReusedKeyIsLost`). Over a whole history only the keys this happens to
  are lost (`KeyMap.OriginalsFollow`).
* Rows are told apart by identity, a line break and type. That is safe because a
  type has no line break (`ResultsTable.KeyTellsPairs`,
  `ResultsTable.LineBreakMixesPairs`).

## Model

| member | source | states |
|---|---|---|
| EditGraph.UnitSteps | internal/capture/diff.go:231-232 | one step right or down in the edit graph changes the edit distance by at most one, either way |
| EditGraph.DiagonalStep | internal/capture/diff.go:272-275 | a diagonal step never shortens the distance and costs at most two |
| EditGraph.DistParity | internal/capture/diff.go:264 | the distance of a point has the parity of its diagonal, so a step visits every other diagonal |
| EditGraph.Overshoot | internal/capture/diff.go:266-277 | a point beyond the end of both texts is further away than the end, by how far it overshoots |
| EditGraph.PathIffRebuilds | internal/capture/diff.go:193-194 | the walks of the edit graph are exactly the scripts that spell both texts with their line numbers |
| EditGraph.PathPays | internal/capture/diff.go:231-232 | no walk to the end has fewer insertions and deletions than the distance |
| EditGraph.DistanceIsShortest | internal/capture/diff.go:231-232 | a script with as many edits as the distance is a shortest one |
| CommonLines.ShortestKeepsLongest | internal/capture/diff.go:231-232 | the unchanged lines of a shortest script are a longest common subsequence, and its edits are len(a) + len(b) - 2*LCS |
| Myers.Intern | internal/capture/diff.go:237-251 | equal lines get equal numbers and different lines different ones, across both texts |
| Myers.StepReachesFurthest | internal/capture/diff.go:264-276 | starting from the better neighbour and sliding over matches ends at the furthest point d edits reach on the diagonal |
| Myers.FurthestSlidBack | internal/capture/diff.go:295-309 | between the start the step rule gives and a furthest point every pair of lines matches, so the way back is open |
| Myers.HitTest | internal/capture/diff.go:277-279 | the test x >= n and y >= m succeeds exactly at the distance, and then the end's diagonal holds n itself although points may overshoot |
| Myers.Slide | internal/capture/diff.go:271-275 | sliding stops at the first pair that does not match |
| Myers.MoveDiagonal | internal/capture/diff.go:265-276 | v[offset+k] becomes the furthest-reaching point of step d on diagonal k, and nothing else of v changes; every index is in range |
| Myers.Sweep | internal/capture/diff.go:264-280 | after step d every diagonal of d's parity holds its furthest point, and the step hits exactly if d is the distance |
| Myers.Snapshot | internal/capture/diff.go:262-284 | the copied diagonals are those of step d |
| Myers.FindEnd | internal/capture/diff.go:256-288 | the search ends with the distance as found, or gives up exactly if the distance is above MaxDiffEdits; one snapshot a step |
| Myers.WayBack | internal/capture/diff.go:293-304 | one edit before a furthest point lies the previous step's furthest point, where trace[d-1] is read |
| Myers.UndoSlide | internal/capture/diff.go:305-309 | walking back over matches stops where the slide began, inside the grid |
| Myers.UndoMove | internal/capture/diff.go:305-316 | one step back lands on (px, py), inside the grid, at the price of one edit |
| Myers.UndoStep | internal/capture/diff.go:293-317 | each d undoes exactly one edit and stands on the previous step's point |
| Myers.UndoEdits | internal/capture/diff.go:290-317 | from (n, m) the walk back consumes found edits and ends on step 0's diagonal |
| Myers.WalkBack | internal/capture/diff.go:290-327 | the script read off the snapshots rebuilds both texts with exactly found edits |
| Myers.Search | internal/capture/diff.go:232-328 | the script is a shortest one, or the search is refused exactly if the distance is above MaxDiffEdits |
| Trimming.CommonPrefix | internal/capture/diff.go:197-200 | the longest common prefix |
| Trimming.CommonSuffix | internal/capture/diff.go:201-204 | the longest common suffix that does not reach into the prefix |
| Trimming.DropPrefix | internal/capture/diff.go:195-205 | cutting a common prefix keeps the edit distance |
| Trimming.DropSuffix | internal/capture/diff.go:195-205 | cutting a common suffix keeps the edit distance |
| Trimming.TrimKeepsDistance | internal/capture/diff.go:195-211 | the middle is as far apart as the whole texts |
| Trimming.AppendEqual | internal/capture/diff.go:208-210 | the equal lines are written with their numbers in both texts |
| Trimming.AppendShifted | internal/capture/diff.go:215-223 | the middle's script, renumbered, follows the prefix's lines without a gap |
| Trimming.EditScript | internal/capture/diff.go:194-229 | the script is shortest for the untrimmed texts, spells both and numbers their lines 1..n and 1..m, or is refused exactly beyond MaxDiffEdits |
| TextLines.SplitLines | internal/capture/diff.go:87-99 | splitting gives the specified lines |
| TextLines.SplitReadsBack | internal/capture/diff.go:87-99 | lines written with any mix of LF and CRLF endings are read back, exactly if none holds a line feed or ends in a carriage return, they are not one empty line alone, and an empty last line has its terminator |
| TextLines.LoneCarriageReturn | internal/capture/diff.go:87-99 | a lone carriage return is one empty line; an empty text and a lone line break are none |
| LineDiff.CountsAddUp | internal/capture/diff.go:119-138 | added, removed and ignored add up to the edits of the script |
| LineDiff.CountsAreLines | internal/capture/diff.go:130-137 | added counts the inserted lines that are not ignored, removed the deleted ones that are not, ignored those of both kinds that are |
| LineDiff.MarkLine | internal/capture/diff.go:121-129 | a changed line is marked exactly if a rule matches it |
| LineDiff.MarkAndCount | internal/capture/diff.go:119-138 | one pass marks exactly the changed lines a rule matches and counts the three kinds |
| LineDiff.RunEnd | internal/capture/diff.go:158-167 | a run of changes ends at the last one no more than 2*context unchanged lines after the one before it |
| LineDiff.BuildHunk | internal/capture/diff.go:172-186 | a hunk's numbers are the first line and the count of each side |
| LineDiff.GroupHunks | internal/capture/diff.go:146-189 | hunks are the maximal runs of changes with context lines around them, first to last; the loop ends |
| LineDiff.MarkedStillShortest | internal/capture/diff.go:113-139 | marking keeps the script shortest, and the counts add up to the distance, zero exactly for equal lines |
| LineDiff.DiffTextIgnoring | internal/capture/diff.go:109-191 | refused exactly if the texts' lines are further apart than MaxDiffEdits; otherwise counts, Identical (exactly for equal lines) and hunks describe a shortest script, and a line of it is in a hunk exactly if a counted change lies within the lines of context asked for, or within three if less than none were asked for |
| LineDiff.DiffText | internal/capture/diff.go:103-105 | the same with no rules, for the context asked for |
| Patching.HunksApart | internal/capture/diff.go:146-189 | hunks come in order, are not empty, and leave a line of the script between them |
| Patching.CountedOnce | internal/capture/diff.go:143-189 | every counted change is in exactly one hunk |
| LineDiff.ShownExactlyNear | internal/capture/diff.go:143-189 | the hunks show exactly the lines of the script that have a counted change within context lines of them |
| Patching.HunkRanges | internal/capture/diff.go:173-186 | a hunk's lines are consecutive stretches of the two texts at the line numbers and of the lengths it says; a side without lines starts at zero |
| Patching.PatchIsScript | internal/capture/diff.go:63-70 | whatever patch applies is a script with the edits its hunks show |
| Patching.PatchWorks | internal/capture/diff.go:118-190 | applied to the older lines as a patch the hunks give the newer lines, exactly if every change of the script, ignored or not, has a counted change within context lines of it |
| Patching.PatchLosesIgnored | internal/capture/diff.go:118-190 | a comparison with one ignored change away from the counted one: its hunks apply, and give another text than the newer one |
| Patching.PatchWorksWithoutRules | internal/capture/diff.go:118-190 | with no ignore rules the hunks always work as a patch |
| FileNames.CandidatesDiffer | internal/capture/store.go:255-261 | the names tried for one second are all different |
| FileNames.FirstFreeIsFirst | internal/capture/store.go:255-261 | the naming loop ends at the first name that is not taken |
| FileNames.SweepInvertsParsedName | internal/capture/parsed.go:63-65 | the sweep finds the capture a parse was named after exactly if that is a .txt file |
| FileNames.ParsedNamesDiffer | internal/capture/parsed.go:63-65 | two captures never share a parse's name |
| FileNames.TxtIsNotParsed | internal/capture/store.go:365-376 | the sweep takes no capture for a parse |
| StoreModel.CutIsLongest | internal/capture/store.go:316-331 | the cut leaves the longest suffix of history that names at most keep files |
| StoreModel.CutOnBoundary | internal/capture/store.go:285-288 | the cut falls between two runs, never inside one |
| StoreModel.LastStoredIsLast | internal/capture/store.go:459-474 | the last entry with a file is the last entry |
| StoreModel.FreshNameIsFree | internal/capture/store.go:255-261 | a fresh name is a capture's name and not on disk |
| StoreModel.PruneKeepsGood | internal/capture/store.go:296-387 | a prune keeps history naming only files that are there with their digests, in runs, whatever it is refused |
| StoreModel.PutKeepsGood | internal/capture/store.go:228-275 | so does a Put, whichever of its file steps fail |
| StoreModel.PutParsedKeepsGood | internal/capture/parsed.go:94-122 | writing a parse touches no capture |
| StoreTheorems.RunsContiguous | internal/capture/store.go:285-288 | the entries of one file are contiguous, have one digest, and only the first wrote the file |
| StoreTheorems.RunsChange | internal/capture/store.go:285-288 | where the file changes the content does too, and the entry is not marked unchanged |
| StoreTheorems.FreshNameNeverCollides | internal/capture/store.go:255-261 | a fresh name is neither on disk nor in history |
| StoreTheorems.EveryRun | internal/capture/store.go:205-276 | every directory reached by any Puts and parses, with any clock and any failing step, is sound, and its history is the newest part of what was recorded, lines whose sync failed included |
| StoreTheorems.EveryLineReadsBack | internal/capture/browse.go:217-231 | the file a history line names holds exactly the content recorded with that line, with any retention |
| StoreTheorems.NothingDropped | internal/capture/store.go:243-275 | without retention every content recorded has its line, in order, whatever else fails or is written in between |
| StoreTheorems.EveryPutRecorded | internal/capture/store.go:236-270 | what is recorded is the content of every Put, in order, if each could write its file and append its line |
| StoreTheorems.BackupWithoutRetention | internal/capture/store.go:228-275 | with keep 0 the i-th line's file is the i-th content recorded, for every one of them |
| StoreTheorems.PruneKeepsNewest | internal/capture/store.go:296-387 | an unhindered prune keeps exactly the longest suffix naming at most keep files, exactly those captures, and no parse of another |
| StoreTheorems.PutHeals | internal/capture/store.go:271-274 | the next unhindered Put that stores a file under retention leaves the longest end of what was recorded that names at most keep files, and no capture or parse of another, whatever was left behind before |
| StoreTheorems.PruneReports | internal/capture/store.go:357-387 | a Put that stored reports a failed prune exactly if history still names too many files or a file it does not need is still there |
| StoreTheorems.EveryParseMatches | internal/capture/parsed.go:55-59 | all along a run every parse lies beside the capture it was made from, exactly if no sweep takes a capture and is refused its parse, and every parse is written with its capture's digest |
| StoreTheorems.PruneMatches | internal/capture/store.go:357-380 | a prune leaves every parse with its capture exactly if each parse it is refused whose capture does not survive belongs to a capture it is refused too |
| StoreTheorems.NoParseStale | internal/capture/parsed.go:55-59 | all along a run no parse lies beside content it was not made from, exactly if no capture is written under a name whose parse is still there with another digest, and no parse is written with another digest than its capture's |
| StoreLines.EveryLineIsItsAttempt | internal/capture/store.go:267-272 | after any run the history lines are those of the newest attempts recorded, one each and in order, with each attempt's time, command, digest and size |
| StoreLines.RecordersLog | internal/capture/store.go:228-275 | what these attempts captured is the log the files read back from |
| StoreParses.WriteParseOnly | internal/capture/parsed.go:116-121 | a parse is written whole under its name, beside a file that is there, and no other file and no line changes |
| StoreParses.EveryParseReadsBack | internal/capture/parsed.go:93-121 | after any run a parse on disk is, in all its fields, the last one written under its name |
| StoreParses.ParseStays | internal/capture/store.go:366-380 | a parse written is there, as it was written, exactly until a sweep that leaves no line of its capture takes it, unless another is written over it |
| TypeDirectory.TypeDir.FindLastStored | internal/capture/store.go:462-474 | the most recent entry with a file |
| TypeDirectory.TypeDir.ChooseName | internal/capture/store.go:255-261 | the first name not taken |
| TypeDirectory.TypeDir.Put | internal/capture/store.go:228-275 | the new state and outcome, step by step, with any step failing |
| TypeDirectory.TypeDir.FindCut | internal/capture/store.go:316-331 | the cut and the surviving names |
| TypeDirectory.TypeDir.Prune | internal/capture/store.go:296-387 | history rewritten first, files unlinked after |
| TypeDirectory.TypeDir.Sweep | internal/capture/store.go:348-386 | exactly the captures and parses that do not survive go, but for those refused, in whatever order |
| TypeDirectory.TypeDir.Info | internal/capture/browse.go:185-205 | the counts of one type, nothing for a type never captured |
| TypeDirectory.TypeDir.PutParsed | internal/capture/parsed.go:103-122 | a parse is written only beside an existing file whose name element lets through, whole, under that name trimmed; no other file and no line changes |
| TypeDirectory.StoredCountsFiles | internal/capture/browse.go:193-204 | the entries not marked unchanged are as many as the files named |
| TypeDirectory.LastIsLatest | internal/capture/browse.go:193-196 | Last is the latest time of any entry |
| TypeDirectory.NewestIsLast | internal/capture/browse.go:200-203 | the last entry that is not unchanged names the newest file |
| TypeDirectory.TypesAgrees | internal/capture/browse.go:192-206 | after any mix of attempts and pruning, Attempts is the length of history, Stored the number of files it names, and File, SHA and Bytes are those of the entry lastStored picks |
| ByteOrder.SortKeeps | internal/capture/store.go:560 | sorting gives the same strings in byte order |
| CrashPoints.StoppedSweep | internal/capture/store.go:357-380 | a sweep stopped after any unlink is a sweep refused the others |
| CrashPoints.StoppedPut | internal/capture/store.go:262-274 | wherever a Put stops, the directory is that of a Put some of whose steps failed |
| CrashPoints.WholePut | internal/capture/store.go:262-274 | all the steps, none refused, are the Put that goes well |
| CrashPoints.CrashLeavesGood | internal/capture/store.go:290-295 | stopped between any two file steps, with any unlink refused, history names only files that are there with their digests |
| CrashPoints.RecordedSurvives | internal/capture/store.go:266-274 | once a capture's line is appended no crash in the same Put loses the capture |
| CrashPoints.PutReports | internal/capture/store.go:236-275 | the path a Put reports is the newest history line's file and holds the content, or a file of that digest when unchanged; after an error no line was added, or the attempt's line was and could not be synced |
| CrashPoints.ParseListedFirst | internal/capture/store.go:361-369 | a parse is listed before its capture |
| CrashPoints.StoppedSweepTakesParsesFirst | internal/capture/store.go:357-380 | a sweep cut short, in the order of the listing, takes no capture and leaves its parse |
| CrashPoints.StaleParse | internal/capture/parsed.go:55-59 | a run after which a parse lies beside content it was not made from |
| Slugs.SlugIsShaped | internal/capture/store.go:180-201 | a slug is one safe path element of at most 96 bytes, not hidden and none of the eleven words the code lists; a name is refused exactly if every character of it, trimmed and lower-cased, is unsafe, a dash or a dot |
| Slugs.SlugIsIdempotent | internal/capture/store.go:180-201 | a slug is its own slug |
| Slugs.ReplaceRun | internal/capture/store.go:178-187 | a whole run of unsafe characters becomes one dash, and what is on either side is rewritten on its own |
| Slugs.SlugIs | internal/capture/store.go:185-201 | a slug is the name, trimmed, lower-cased, past its leading unusable characters and rewritten, up to the last character within 96 that is no dash or dot, with a suffix for the words the code lists |
| Slugs.ReservedStem | internal/capture/store.go:195-199 | a slug is a name Windows reserves, with or without an extension, exactly if the name, lower-cased and past its leading unusable characters, begins with a reserved word, followed by a dot and something usable within the limit, or by nothing usable and not on the code's list |
| Slugs.ReservedStemExists | internal/capture/store.go:195-199 | con.lab and com5 are such names |
| PathElements.ElementStaysInside | internal/capture/browse.go:104-119 | what element lets through is an entry of the directory it is joined to, whichever separators the system has |
| PathElements.ElementExactly | internal/capture/browse.go:110-119 | a name is let through, trimmed, exactly if it is then not empty, a dot or two dots and has no separator |
| PathElements.GraphicIsElement | internal/capture/browse.go:104-119 | names of visible characters without separators pass unchanged |
| PathElements.SlugIsElement | internal/capture/browse.go:106-107 | every slug passes element unchanged |
| PathElements.JoinIsEntry | internal/capture/store.go:219-220 | a name joined to a directory is that directory's entry of this name exactly if it is one path element |
| PathElements.ReaderMeetsWriter | internal/capture/browse.go:104-119 | a reader, who checks and trims the type, looks where Put wrote exactly if element lets the type through as it is |
| DeviceStore.MergeStrings | internal/capture/store.go:549-562 | the loop keeps the first spelling of each alias, sorted |
| DeviceStore.MergedAliases | internal/capture/store.go:549-562 | up to case and space, merging loses no alias, adds none, keeps each once as it was first spelled, and sorts them |
| DeviceStore.FileStore.MergeDeviceInfo | internal/capture/store.go:409-442 | device.json is merged for its own device and refused to another; nothing else changes |
| DeviceJson.DeviceJsonTells | internal/capture/store.go:409-442 | in any store a device.json has the name and first sight of the first attempt that wrote it, the time of the last, the last platform that any of them knew, and the aliases of all; after one attempt just its own; it is there exactly if one wrote it |
| DeviceStore.EqualFoldIs | internal/capture/store.go:425 | names are equal up to case rune by rune |
| DeviceStore.LetInExactly | internal/capture/store.go:205-225 | a capture is let in exactly if its type and name are usable, its directory can be made, device.json is another spelling of its own name or not there, and can be written |
| DeviceStore.FileStore.Put | internal/capture/store.go:205-276 | the new state of the whole store and the result, with the type joined to the device's directory as it is |
| DeviceStore.AttemptKeepsDevice | internal/capture/store.go:403-436 | one attempt keeps every directory's canonical name and first sight, only grows its aliases, and is let in only under a name equal up to case |
| DeviceStore.RunKeepsDevice | internal/capture/store.go:403-436 | so does any run of attempts |
| DeviceStore.OnlyItsDevice | internal/capture/store.go:403-408 | after any run, with any types, a device's directory takes a capture whose type is one element only from a canonical name equal up to case to its first one |
| DeviceStore.EveryPathIsARun | internal/capture/store.go:205-276 | after any attempts each directory of a store is what the captures that landed in it make of an empty one |
| DeviceStore.EveryPathReadsBack | internal/capture/browse.go:217-231 | in every directory of a store the file a history line names holds exactly the content recorded with that line |
| DeviceStore.OneDeviceOneHistory | internal/capture/store.go:403-408 | with types that are path elements, all that ever landed in a device's directory of a type is of that type and of a device whose name equals the directory's up to case |
| DeviceStore.RefusedChangesNothing | internal/capture/store.go:224-226 | a refused attempt changes no capture and no device.json; an empty directory appears if it came as far as making it |
| DeviceStore.AttemptStaysHome | internal/capture/store.go:219-220 | a capture goes to its type's own directory in its device's directory exactly if the type is one path element, and then changes no other directory and no other device.json |
| DeviceStore.AttemptTouches | internal/capture/store.go:205-276 | whatever its type, an attempt changes the one directory its device and type lead to and its own device.json |
| DeviceStore.SafeTypeStaysHome | internal/capture/spec.go:185-193 | every type a spec may have stays home |
| DeviceStore.SlugStaysHome | internal/capture/store.go:219 | a device's directory is an entry of the directory of devices |
| DeviceStore.StrayCapture | internal/capture/store.go:219-220 | a type that goes up and into another device's directory makes a capture the next line of that device's history, whatever its device.json says |
| DeviceStore.StrayExists | internal/capture/store.go:219-220 | ../r2/running-config, captured for r1, is such a type |
| DeviceStore.TypesShare | internal/capture/store.go:220 | the types a and ./a share a directory |
| RunModel.SettleMoves | internal/capturerun/run.go:363-385 | settling numbers the row, changes no other, and never changes a settled one |
| RunModel.ApplyMoves | internal/capturerun/run.go:206-219 | an event takes one number, gives it to every row it moves, moves nothing else, and leaves settled rows' state, detail and artifact |
| RunModel.ApplyLists | internal/capturerun/run.go:243-246 | an event adds at most one decision, at the end, under its own number |
| RunModel.ApplyOpens | internal/capturerun/run.go:398-417 | an event opens at most the row of its own pair, and only for a named device and type |
| RunTheorems.EventShows | internal/capturerun/run.go:306-333 | a capture's event shows in its row with the state, artifact and command it names, and with its reason, or that there was none, unless the row was settled before |
| RunTheorems.DeviceFailShows | internal/capturerun/run.go:279-298 | a failing device fails exactly its rows in flight, for the reason of its first failure |
| RunTheorems.RowsCarryTheirDevice | internal/capturerun/run.go:398-435 | in every run each row agrees with what is known of its device |
| RunHistory.KnownIsTold | internal/capturerun/run.go:268-287 | in every run what is known of a device is the last platform and the last name that is not empty told of it, and the reason of its first failure |
| RunHistory.RowsShowTheNews | internal/capturerun/run.go:417-435 | in every run each row shows the last platform told of its device and the last name that is not empty, whichever came first, the row or the news |
| RunHistory.RowsAreOpened | internal/capturerun/run.go:301-305 | in every run there is a row for each device and type that an event was about, and no other |
| RunHistory.RowsSayTheirVerdict | internal/capturerun/run.go:282-354 | in every run each row has the state, words and artifact of the first event, failure of its device or end of the run that settled it; before that it is in flight and says nothing |
| RunHistory.RowsShowTheirCommand | internal/capturerun/run.go:307-310 | in every run each row shows the last command sent for it |
| RunHistory.DecisionsAreWorthReading | internal/capturerun/run.go:221-246 | in every run the decisions are the events worth reading, in order, without the captures that fail for their device's failure |
| RunTheorems.FinishMoves | internal/capturerun/run.go:444-462 | what finishing moves is numbered, so that a view sees it |
| RunTheorems.FinishSettles | internal/capturerun/run.go:437-462 | finishing fails each row in flight as a missing result, changes nothing else of it, and leaves settled rows alone |
| RunTheorems.EveryCountIsTrue | internal/capturerun/run.go:356-385 | in every run each counter is the number of rows in its state, and BytesStored the bytes of the stored rows, duplicates and late events included |
| RunTheorems.SettledOnce | internal/capturerun/run.go:356-366 | a settled row keeps its state, detail and artifact whatever is emitted later |
| RunTheorems.RowsSinceCatchUp | internal/capturerun/run.go:593-606 | merging the rows changed since a view was right makes it right again |
| RunTheorems.RowsSinceExactly | internal/capturerun/run.go:593-606 | a view is given exactly the rows numbered above what it has seen, each once, in the order they appeared |
| RunTheorems.DecisionsSinceCatchUp | internal/capturerun/run.go:607-621 | the decisions returned are exactly those not had yet, in order |
| RunTheorems.PullCatchesUp | internal/capturerun/run.go:172-178 | both, from any point of a run to any later one |
| RowWords.ApplyWord | internal/capturerun/run.go:221-334 | an event changes what rows of its own device say and of no other, each by what the row said before |
| ResultsTable.ResultsModel.Clear | app/runview.cpp:90-95 | no rows and no keys |
| ResultsTable.ResultsModel.Merge | app/runview.cpp:97-111 | the table by key after the rows are taken in order; known rows stay in place, new ones go to the end |
| ResultsTable.ResultsModel.Put | app/runview.cpp:98-109 | one row, replaced or appended, with the index kept exact |
| ResultsTable.KeyTellsPairs | app/runtypes.h:37 | with no line break in types, keys are equal exactly for equal pairs |
| ResultsTable.LineBreakMixesPairs | app/runtypes.h:37 | with one, two devices can share a key |
| ResultsTable.TakenShowsMerged | app/runview.cpp:97-111 | the table by key shows what merging by pair gives |
| ResultsTable.OrderCatchesUp | app/runview.cpp:97-111 | a table that had a run's rows in the order they appeared has them in that order again after it takes what changed |
| PullProtocol.Ran | app/runbridge.cpp:132-167 | every interleaving of emits, pokes, reads and a close keeps the protocol's invariant |
| PullProtocol.GoodStep | capi/capi.go:100-107 | every single step of either side keeps it |
| PullProtocol.NoLostWakeup | capi/notify_linux.go:50-57 | whenever the view is idle and behind, a byte is in the pipe or a poke is on its way, although writes to a full pipe are dropped, unless its last pull drained the pipe and got no progress, which leaves it to the tick |
| PullProtocol.UndisturbedPull | include/omegacat/omegacat.h:38-39 | a pull no change overtook leaves the view with everything, and stops it exactly if the run has ended |
| PullProtocol.OnePullCatchesUp | app/runbridge.cpp:132-167 | wherever run and view stand, one pull that nothing overtakes makes an idle, open view that has not stopped current |
| PullProtocol.StoppedIsComplete | include/omegacat/omegacat.h:34-38 | a view that stopped has the run's final rows and all decisions, finds the result set, and no later step of either side changes the run or the result |
| PullProtocol.RowsFirstLoses | include/omegacat/omegacat.h:35-38 | in any run under way, a pull that reads rows before progress can stop for good without the row started last |
| RunBridge.Notifier.Wake | capi/notify_linux.go:50-57 | after a wake on an open notifier a byte waits, whether or not the pipe was full |
| RunBridge.Notifier.Close | capi/notify_linux.go:59-68 | both ends closed and forgotten |
| RunBridge.DrainNotifier | app/runbridge.cpp:27-37 | reading until nothing comes empties the pipe, and ends |
| RunBridge.RunState.constructor | capi/capi.go:131-145 | a new run is wired to its notifier and runs |
| RunBridge.RunState.Poke | capi/capi.go:100-107 | a poke is the protocol's, and does nothing once the notifier is gone |
| RunBridge.RunState.Apply | internal/capturerun/run.go:206-219 | a change and the reading of the hook are the protocol's one step, as long as the result is not set |
| RunBridge.RunState.SetResult | capi/capture.go:316-322 | the outcome is a failure, a cancel or done, and setting it is the protocol's step |
| RunBridge.RunState.Finish | capi/capi.go:232-233 | finishing, which needs the result to be set, is the protocol's last step of the run |
| RunBridge.RunState.Close | capi/capi.go:288-293 | cancelled, unhooked, and its notifier gone |
| RunBridge.Runs.Register | capi/capi.go:115-122 | a handle is never given out twice |
| RunBridge.Runs.CloseRun | capi/capi.go:278-295 | a handle closes once; a second close reports no run and touches nothing |
| RunBridge.Bridge.Adopt | app/runbridge.cpp:95-115 | a run with an end to watch is started on from nothing seen; another one is closed, and the bridge left as it was |
| RunBridge.Bridge.Close | app/runbridge.cpp:121-130 | no handle and nothing watched, and the run behind the handle closed |
| RunBridge.Bridge.Pull | app/runbridge.cpp:132-167 | a pull that runs through takes the protocol's reads in order; one whose slot closes the bridge, on any of the four signals, goes no further, also when the slot opens another run; one that gets no progress has only drained; a closed or finished bridge does not even drain |
| Engine.OrderedKeepsTypes | internal/capture/capture.go:393-414 | ordering loses no type and adds none |
| Engine.OrderedIsStable | internal/capture/capture.go:388-399 | of two specs the cheaper comes first, and of two of one cost the one selected first |
| Engine.WorkerAdvances | internal/capture/capture.go:239-268 | every step of a worker keeps its slot, lane, results and events in agreement |
| Engine.RunningSays | internal/capture/capture.go:594-654 | however a sent command comes out, the result kept and the event emitted, each made on its own, say the same |
| EngineTheorems.ActGood | internal/capture/capture.go:228-268 | every interleaving and a cancel at any moment keep limits and accounts |
| EngineTheorems.LimitsHold | internal/capture/capture.go:129-135 | at most Concurrency devices are visited and at most ExpensiveConcurrency expensive commands are under way |
| EngineTheorems.LimitsAsGiven | internal/capture/capture.go:203-208 | these are the limits New was given, or five and one where it was given none |
| EngineTheorems.SomeoneCanMove | internal/capture/capture.go:243-250 | there is no deadlock: while a worker is not done some worker can move |
| EngineTheorems.EveryStepSpends | internal/capture/capture.go:239-271 | every step uses up some of a bounded amount of work |
| EngineTheorems.EveryRunEnds | internal/capture/capture.go:239-271 | every run has at most entries*(5*specs+9)+1 steps |
| EngineTheorems.NewIsReady | internal/capture/capture.go:183-220 | a configuration New accepts has positive limits and each type once |
| EngineTheorems.NewRefuses | internal/capture/capture.go:190-202 | New refuses exactly a selection of no type and one with a type twice |
| EngineTheorems.ExactlyOneEach | internal/capture/capture.go:221-227 | for every device and every type exactly one result, and as many settling events in the same order, whatever failed or was cancelled; what each result's fields say of how it ended, what was sent, why it failed and what was stored is what its event says |
| EngineTheorems.FailedForOneReason | internal/capture/capture.go:224-227 | in any run a device is said to have failed at most once, and then each of its results carries the error of that failure |
| EngineTheorems.ResultsInAll | internal/capture/capture.go:221-227 | Capture returns devices times types results |
| EngineTheorems.StuckIsComplete | internal/capture/capture.go:269-271 | a run that can go no further is complete, with every slot and lane given back |
| EngineTheorems.CancelledNeverDials | internal/capture/capture.go:252-261 | a device whose worker has not passed its last check when the run is cancelled is never dialed |
| EngineTheorems.CheapFirst | internal/capture/capture.go:388-400 | where the expensive lane is wanted or held, every cheap type of the device is settled |
| EngineRun.WorkerHonors | internal/capture/capture.go:590-654 | a type's start and its settling event are the same worker's, for the same device |
| EngineRun.RanFlown | internal/capturerun/run.go:437-443 | throughout a run every row in flight is a command some worker has under way |
| EngineRun.DoneLeavesNoneInFlight | internal/capturerun/run.go:437-443 | once the engine is done finishing changes no row: no emit is missing |
| EngineTable.RowsByDevice | internal/capturerun/run.go:262-333 | with different identities, a device's rows are what its own events make of them, however the devices' events interleave |
| EngineTable.ResultsAreShown | internal/capture/capture.go:221-227 | in any run over different devices each result handed in has its row, with its state and what it stored; and with its command exactly if that was sent or there is none |
| EngineTable.EveryTypeIsShown | internal/capture/capture.go:307-316 | once a device's worker is done every type selected has a row and one result, which the row shows |
| EngineTable.CancelledInLane | internal/capture/capture.go:576-589 | a worker cancelled while it waits for the expensive lane gets a result with the command it would have sent, and the row shows none |
| EngineOutcomes.PutIsKept | internal/capture/capture.go:632-653 | in any run a store's answer becomes one more result of the type the worker is at: no error, applicable, unchanged exactly if the store said so, with what it stored; the row becomes unchanged or stored accordingly, with it |
| EngineOutcomes.FailIsKept | internal/capture/capture.go:593-602 | in any run a command that fails, or whose output cannot be stored, leaves a result with that error, and its row says it |
| EngineOutcomes.DeclineIsKept | internal/capture/capture.go:616-630 | in any run a command the device refuses does not apply, with the command it was sent, and its row says so in the words of the refusal |
| EngineOutcomes.CancelIsKept | internal/capture/capture.go:371-379 | in any run a cancel noticed before a command is sent leaves a result with its error, and its row says it |
| EngineOutcomes.NoCommandIsKept | internal/capture/capture.go:552-574 | in any run a type without a command for the platform or the model does not apply, no command is kept, and its row says there is none |
| EngineOutcomes.DeviceFailIsKept | internal/capture/capture.go:317-331 | in any run a device that cannot be reached, or whose turn comes after the cancel, fails once, and all its results carry this error, however the run goes on |
| EngineOutcomes.FailingGives | internal/capture/capture.go:322-331 | in any run a device that failed leaves a failed result and a failed row, with its reason, for every type selected |
| EngineOutcomes.StartShows | internal/capture/capture.go:576-591 | in any run a command that is sent has its row in flight, with the command for the device's platform |
| EngineOutcomes.TakesAnyAnswer | internal/capture/capture.go:336-368 | a worker that calls, sends or stores takes any answer the other side can give, and no other step |
| EngineOutcomes.WaitsForRoom | internal/capture/capture.go:244-264 | a worker goes on exactly if there is room and gives up exactly if the run is cancelled; at its check it goes on exactly if it is not |
| EngineOutcomes.TopOfLoop | internal/capture/capture.go:371-379 | at the top of its loop a worker notices the cancel, or goes on; a model is matched only where the command asks for it |
| EngineOutcomes.CallsTell | internal/capture/capture.go:348-368 | a device that answers is told as connected, then its platform with what is worth noting of it, then a new name |
| EngineOutcomes.NameTells | internal/capture/capture.go:464-506 | a name known before is told as resolved, and none is no event |
| EngineOutcomes.DoneTells | internal/capture/capture.go:383-384 | a device is said to be done once every type selected has its result |
| Csv.CsvField | app/exporting.cpp:43-56 | the field, in quotes with quotes doubled if it holds a comma, a quote, CR or LF |
| Csv.QuotedIfNeeded | app/exporting.cpp:43-56 | a field is in quotes exactly if it holds a comma, a quote, CR or LF |
| Csv.DoubledIs | app/exporting.cpp:49-55 | a quote is doubled, all else is as it was |
| Csv.CsvRecord | app/exporting.cpp:58-64 | the fields with commas between and CRLF after |
| Csv.ToCsv | app/exporting.cpp:73-78 | header and rows, one record each |
| Csv.FieldReadsBack | app/exporting.cpp:43-56 | a reader of RFC 4180, section 2, gets any field back and stops where it ends |
| Csv.FileReadsBack | app/exporting.cpp:73-78 | the reader gets back what was printed, for all cells |
| Csv.TableReadsBack | app/exporting.cpp:73-78 | it is the table exactly if every record has a field |
| Csv.PrintedApart | app/exporting.cpp:73-78 | different tables whose records all have a field never print alike |
| KeyMap.KeyChanges.Compose | app/inventory.cpp:110-116 | in whatever order the hash is walked, the map becomes the composition, if no two keys stand at one place |
| KeyMap.KeyChanges.PushOn | app/inventory.cpp:111-114 | every live value a later edit moves is moved, and taken from what is pending |
| KeyMap.KeyChanges.PutRest | app/inventory.cpp:115 | what is pending is put over what was there |
| KeyMap.ComposedIsPushed | app/inventory.cpp:110-116 | a key maps to where pushing it through both maps puts it, exactly if its vacated key was not reused and moved, deletions of both aside |
| KeyMap.ReusedKeyIsLost | app/inventory.cpp:110-116 | why the proviso is needed |
| KeyMap.OriginalsFollow | app/inventory.cpp:110-116 | over any history of edits, swaps and deletions included: all along it an original key maps to where pushing it through every edit puts it, exactly if no edit moves a session that was given this key after it was vacated, but to delete both |

## Left out

- SSH, dialing, fingerprinting, prompts and DNS: each is a call that returns or fails, at any time, whatever it returns.
- The binding store: `identify` is a step that emits a name, new or known before, or none; what name it settles on is any string.
- The vault and its credentials, the TextFSM engine and the template database: a parse result is opaque.
- SHA-256: any function; where a theorem needs it to tell contents apart, it says of which contents.
- Temp files, renames, permissions, torn appends: a whole-file write and a one-line append happen or do not, and an append that happened may fail to sync.
- JSON: history and device.json are values; a history or device.json that does not parse, on which the source returns an error, does not occur.
- The per-slug locks and several stores over one root: one store, one operation at a time.
- Times are numbers and the stamp of a time is any string; that two times of one second share a stamp is allowed, and nothing needs them to differ.
- Regular expressions: an ignore rule is any predicate on a line.
- Unicode tables: lower case, case folding and white space are parameters, of which the slug theorems use only what they do on ASCII.
- `filepath.Base` on Windows: `element` is modelled with the separators it names; drive letters, links and file systems that fold case are left out, and a path is the list of its elements.
- `Devices`, and the order in which `Types` lists types: each type's numbers are modelled, not the sort.
- The overflow of 2*context for a context near the largest integer: integers are unbounded.
- The queued events the engine emits before its first worker starts, and the final sort of its results by device and type.
- What a parse adds to a stored result and its event: it changes neither the event's kind nor the result's outcome.
- Spec validation other than a type being selected twice: the rules for types and commands are checks of single values.
- Row times and durations, the parse columns, and the counters of devices, host keys and rejected credentials.
- The wording of a row's detail when the run model supplies it: each sentence is a constructor.
- PullProtocol.StoppedIsComplete: a rows or decisions read that returns nothing is not modelled; the library returns one while the handle is open.
- RunBridge.Bridge.Pull: the half-second tick is not an object, a pull may start whenever the bridge is idle; what the slot that closes the bridge does to the run behind it is what Close says.
- Qt's models, signals and painting other than the row table and its index; the Windows and Darwin notifiers; C strings and last errors.
- TSV, the clipboard and saving: TSV replaces breaks and tabs by spaces and is not meant to be read back.
- UTF-8: the CSV theorems are about the encoded bytes of each cell.
- The inventory's own editing of its tree: an edit is its key map and the keys it leaves in use.
