# Godspeed OS, modelled and proved in Dafny

This project models the parts of Godspeed OS whose correctness is hardest to see by reading, and proves what they
promise. Three layers of the repository are covered:

- **The file system's journal** (`services/fs`): a disk with a volatile cache that may reorder, lose or tear what is
  in flight, file data written past the journal, the four-phase commit with its three barriers, recovery at mount, and
  the byte layout of the commit record. The main results are about whole histories of data writes, commits, power
  cuts, mounts and cuts inside recovery: what survives, and that data is on the medium before what names it.
- **The kernel's delegated capabilities** (`kernel/src/capability`): the band of reusable resource ids, the
  generations that revoke them, and exactly when no interleaving of the locked steps of allocation, revocation and
  reclaiming can bring a dead capability back or end a live one.
- **The enforcement and build layer** (`scripts/`): transactions on the working tree, printers with the parsers that
  must undo them, one-pass brace scanners, ratchets over whole histories, the build-freshness protocol, and the
  scope and exemption rules.

Every module is one component, named after what it does. Regular expressions appear as function parameters
(is this line a gate, a marker, a fence); every loop, index, stack, map and byte offset around them is exact. A method
models code that works by changing things; it is proved against a function, and the promises are lemmas about that
function. Where a promise does not hold of the code for all inputs, the module proves exactly when it does, with a
concrete input that shows the gap.

| module | component |
|---|---|
| `Text`, `Decimal`, `Bytes` | strings as Python's `str` methods see them, decimal numbers, little-endian fields |
| `Journal`, `JournalCommit`, `JournalMount`, `JournalHistory` | the redo journal: disk and protocol, cuts in a commit, cuts around recovery, whole histories |
| `JournalRecord`, `JournalWitness`, `FileSystem` | the record layout, the hypotheses met, the volume on a drive that can fail |
| `Delegated` | delegated resources and their generations |
| `FileTrees`, `RedTeam` | planting and unwinding files; snapshots and restoring |
| `ElfTrim` | the trimmed copy of a service ELF |
| `BuildFreshness` | build order, stamps and the embed-order check |
| `Toml`, `PlatformFile` | the TOML subset the platform file uses; rendering it and reading it back |
| `CaseFiles` | the `.case` format, `--bless` and `--selftest` |
| `UnifiedDiff`, `GateExtents`, `StrippedShow`, `SurfaceReport` | numbering added lines, lines under architecture gates, stripped command output, the report |
| `Wrap` | filling diagnostic notes |
| `ModuleConsts`, `StripGated` | module-level constants; removing gated code |
| `BaselineFile`, `Ratchets`, `SurfaceRatchet`, `ScaffoldRatchet` | baseline files and the ratchets over them |
| `QuitWaits`, `ApplyBaseline`, `Suppressions`, `FixerGates` | exemptions, markers, and the fixer against its gates |

## Model

| member | source | states |
|---|---|---|
| `JournalCommit.CommitIsAtomic` | services/fs/src/main.rs:2533-2648 | for a power cut after any operation of a commit whose second flush is honoured, whatever the drive answered to the other two, on a disk that may reorder, drop or tear what is in flight: the next mount serves the old home or the new one, whole, everywhere but on blocks already exempt, and which one depends only on whether record and payload survived |
| `JournalCommit.AtomicExactly` | services/fs/src/main.rs:2557-2640 | a commit that changes two blocks is atomic at every cut if and only if the second flush, the one behind the record, is honoured; the first and the third do not matter |
| `JournalCommit.TogetherCut` | services/fs/src/main.rs:2560-2577 | with the first flush refused, staged blocks and record are in flight together: a cut there is still all or nothing, by the payload checksum, and a record that landed over a payload that does not check is left asleep |
| `JournalMount.ReplayIsRestartable` | services/fs/src/main.rs:2668-2785 | a recovery cut short anywhere before it invalidates the record recovers to the same home at the next mount |
| `JournalMount.ReplayWindow` | services/fs/src/main.rs:2748-2780 | recovery issues the invalidation behind the home writes with no barrier between: a reordering disk cut there can lose a committed transaction |
| `JournalMount.ReplayWindowExact` | services/fs/src/main.rs:2748-2780 | that cut is harmless on a disk that tears no sector if and only if every block was home before recovery began |
| `JournalMount.ReplaySettles` | services/fs/src/main.rs:2668-2785 | once a barrier follows a recovery, its home is settled and nothing can be lost |
| `Journal.QuietSurvives` | services/fs/src/main.rs:2668-2785 | a cut on a settled disk recovers to its own home |
| `Journal.CommittedSurvives` | services/fs/src/main.rs:2668-2785 | a cut on a disk with a durable record, however much of the checkpoint landed, recovers to the home with the whole transaction applied |
| `JournalHistory.StepKeeps` | services/fs/src/main.rs:2533-2785 | every event of a volume's life (data written past the journal, commit with any answers to its first and last flush, cut at rest, cut in a commit, mount, cut in recovery, flush) keeps the promise, moved as owed |
| `JournalHistory.JournalIsCrashSafe` | services/fs/src/main.rs:2533-2785 | over every history, what the volume reads, and what a mount would serve, is the home left by the data written and by exactly the transactions that survived, each applied whole; only blocks whose data was in flight at a cut, and not written since, may differ |
| `JournalHistory.DataIsOrdered` | services/fs/src/main.rs:5312-5321 | the ordered-data promise: over every history, when a transaction survives a cut on a drive that honours the first flush, all file data written before that flush is on the medium |
| `JournalHistory.UnorderedDataIsLost` | services/fs/src/main.rs:2557-2559 | with the first flush refused a transaction can survive over data that never reached the medium, for every transaction and every block |
| `JournalHistory.BarrierLandsData` | services/fs/src/main.rs:2557-2559 | past the first honoured flush of any commit, every write acknowledged before it began is on the medium, whatever the cut does |
| `JournalHistory.BarrierSettles` | services/fs/src/main.rs:2458-2480 | a barrier makes every block written past the journal durable |
| `JournalMount.LiveRecordUndoesData` | services/fs/src/main.rs:2678-2747 | data written over a block of a record whose payload checks, and flushed, is undone by the next mount |
| `JournalMount.RecordOwnsItsBlocks` | services/fs/src/main.rs:2678-2747 | and over a block of a record left asleep at mount: staging the same payload again lets recovery undo data that was flushed |
| `JournalMount.StagingOverHeldExact` | services/fs/src/main.rs:2624-2640 | after a refused third flush, every cut into the staging of the next commit serves the held transaction whole, on a disk that tears no sector, if and only if all of it was home already or what is staged so far repeats its payload |
| `JournalMount.WakesExactly` | services/fs/src/main.rs:2678-2747 | a record asleep over a payload that does not check can be found again by a cut in a later staging if and only if what is staged completes that payload, block by block |
| `JournalRecord.DecodeEncode` | services/fs/src/main.rs:2551-2579 | the commit record reads back from its 512-byte block: magic, count, home addresses, payload checksum, own checksum |
| `JournalRecord.RealCodecIsLawful` | services/fs/src/main.rs:2678-2701 | that layout meets everything the crash proofs ask of a record, whatever the checksum function |
| `JournalWitness.FiniteCondition` | services/fs/src/main.rs:2560-2577 | what the proofs ask of the checksum is about the payloads that occur: for one commit, to tell apart at most 56 pairs |
| `JournalWitness.HypothesesHold` | services/fs/src/main.rs:2551-2579 | the hypotheses hold together, of the real record layout and a transaction that changes the home |
| `FileSystem.Volume.BlockRead` | services/fs/src/main.rs:2295-2317 | a read sees the newest staged version of the block, else the disk's; it fails only when the block is not staged and the drive fails it |
| `FileSystem.Volume.BlockWrite` | services/fs/src/main.rs:2321-2346 | a write changes what reads see at that block only, and nothing when it fails; inside a transaction the disk is untouched, and it is refused exactly when 56 other blocks are staged |
| `FileSystem.Volume.BeginTxn` | services/fs/src/main.rs:2482-2487 | a transaction starts with nothing staged and reads see the disk |
| `FileSystem.Volume.AbortTxn` | services/fs/src/main.rs:2489-2494 | nothing staged is ever seen again |
| `FileSystem.Volume.CommitTxn` | services/fs/src/main.rs:2533-2648 | an overflowed or empty transaction leaves the disk alone; otherwise the disk is what the three flush answers and the first failing block write make of it, and success is reported if and only if every staged block, the record and every home block were taken |
| `FileSystem.Volume.Recover` | services/fs/src/main.rs:2668-2785 | recovery on a drive that may fail or misread anything: two passes over the staged blocks, with every early exit |
| `FileSystem.RecoveryIsSafe` | services/fs/src/main.rs:2715-2785 | whatever the drive returns, home is only written, at an address the record gives, with bytes whose checksum is that of a block checked against the record, and the record is only invalidated once every block of it has been written home |
| `FileSystem.TruthfulRecovery` | services/fs/src/main.rs:2668-2785 | on a drive that reads what it holds, recovery is the replay of the crash proofs and reads then see the recovered home |
| `FileSystem.CommittedDiskIsRun` | services/fs/src/main.rs:2533-2648 | whatever the flush answers and whichever block write fails first, the disk left is that of a prefix of the operation list the crash proofs cut into |
| `FileSystem.CommittedDiskIsNext` | services/fs/src/main.rs:2533-2648 | with no write failed it is what the histories take a commit to leave, for all answers |
| `Delegated.NoStaleLifeValidates` | kernel/src/capability/delegated.rs:115-123 | over every run of locked steps, a capability that passes the generation check was minted in the present life of its id, unless a registration was overtaken between its read and its write |
| `Delegated.RevokedForGood` | kernel/src/capability/delegated.rs:147-182 | a revocation or a death mark ends every capability minted before, and for good if and only if no allocation of the slot in progress has read a generation below the capability's |
| `Delegated.DeadForGoodExactly` | kernel/src/capability/table.rs:43-79 | no run ever makes a capability good again if and only if the present generation, and every one a call in progress may still register, is above its own |
| `Delegated.NewLifeIsClean` | kernel/src/capability/delegated.rs:115-123 | a registration opens a life in which a given earlier capability is never good, if and only if no call in progress on the slot read a generation below it |
| `Delegated.OnlyTheOwnerEnds` | kernel/src/capability/delegated.rs:147-182 | a good capability stays good for as long as its owner neither revokes it nor dies if and only if the slot awaits no death mark and no call on it, the owner's own included, is in progress |
| `Delegated.OvertakenExample` | kernel/src/capability/delegated.rs:115-123 | an owner killed while it allocates: the registration it had under way brings a revoked capability of an earlier life back |
| `Delegated.LateMark` | kernel/src/capability/delegated.rs:169-182 | for every state: a slot handed out while it awaits its death mark loses the new owner's capability to the mark |
| `Delegated.AllocatesAlone` | kernel/src/capability/delegated.rs:115-123 | left alone, the three locked steps of an allocation are the allocation |
| `Delegated.GoodUntilMovedOn` | kernel/src/capability/table.rs:43-79 | a good capability stays good while no step moves its slot on, and no longer unless a registration is overtaken |
| `Delegated.GenerationCounts` | kernel/src/capability/generation.rs:30-32 | over every run the generation of a slot never runs ahead of the steps that moved it on, and counts them exactly if and only if no registration was overtaken |
| `Delegated.ReusedIdExample` | kernel/src/capability/delegated.rs:115-159 | an id in two lives: the first capability is dead once revoked and stays dead when another owner holds the id |
| `Delegated.StepKeeps` | kernel/src/capability/delegated.rs:115-182 | every step but an overtaken registration keeps the minted capabilities of a slot dated: at or below the present generation, and below it once their life is over |
| `Delegated.ReclaimedExactly` | kernel/src/capability/delegated.rs:169-182 | reclaiming a dead owner frees all its slots and no other, and marks exactly those resources dead |
| `Delegated.Band.Claim` | kernel/src/capability/delegated.rs:56-66 | a free slot is claimed whenever there is one, found around the cursor; none only when the band is full |
| `Delegated.Band.Allocate` | kernel/src/capability/delegated.rs:115-123 | with no other core between its locks, the claimed id is registered alive, one generation above its last life |
| `Delegated.Band.RevokeOwned` | kernel/src/capability/delegated.rs:147-159 | revoked and freed for its owner; untouched, and answered with false, for anyone else and for an id outside the band |
| `Delegated.Band.TakeOneOwned` | kernel/src/capability/delegated.rs:85-93 | the first slot the owner holds is freed; none only when it holds none |
| `Delegated.Band.ReleaseOwner` | kernel/src/capability/delegated.rs:169-182 | the loop ends with everything the owner held reclaimed, and returns how much that was |
| `FileTrees.CaseRestoresExactly` | scripts/conform.py:851-894 | for every list of plants, any mix of modes, repeated targets, a refusal anywhere: the tree is left byte for byte as found, if and only if no plant opens a file whose new text cannot be written |
| `FileTrees.PlantsUnwind` | scripts/conform.py:866-894 | unwinding last-in first-out gives the original tree back, and files no plant named never changed |
| `FileTrees.UndoInverts` | scripts/conform.py:806-848 | a plant changes its own file only and its undo takes it out again |
| `FileTrees.RefusalLeaves` | scripts/conform.py:806-848 | what a refused plant leaves behind: nothing, or its target emptied when opening came before the failure |
| `FileTrees.AppendEmptiesBinary` | scripts/conform.py:842-844 | one append plant on a file whose bytes are not text leaves the file empty after the case |
| `FileTrees.LosingIsRefused` | scripts/conform.py:843-844 | a plant that loses its file is always reported as a refusal |
| `FileTrees.WorkingTree.ApplyPlant` | scripts/conform.py:806-848 | append, write, create and replace on the tree, with every error |
| `FileTrees.WorkingTree.RunCase` | scripts/conform.py:851-894 | planting stops at the first refusal and always unwinds |
| `RedTeam.Team.DoEdit` | scripts/commandments_redteam.py:53-58 | the first anchor is replaced; a missing anchor changes nothing, not even a snapshot |
| `RedTeam.Team.DoMake` | scripts/commandments_redteam.py:73-74 | the created file holds its text and nothing else changes |
| `RedTeam.Team.Restore` | scripts/commandments_redteam.py:76-86 | created files go, snapshots come back, the tree is the one the case found |
| `RedTeam.Team.RunOne` | scripts/commandments_redteam.py:180-195 | one case, injected or aborted, leaves the tree as it was |
| `RedTeam.Team.RunAll` | scripts/commandments_redteam.py:180-195 | the tree after every sequence of declared cases is the initial tree |
| `RedTeam.SnapshotsAgreeWithUndos` | scripts/commandments_redteam.py:47-86 | first-write snapshots and the undo stack reach the same tree, the original |
| `ElfTrim.TrimElf` | scripts/arm_build.py:90-118 | the loop over the program headers computes the trim, refusals included |
| `ElfTrim.ImageEndIsLeast` | scripts/arm_build.py:106-113 | the end found is the length of the shortest prefix holding the program headers and every segment |
| `ElfTrim.TrimIsShortest` | scripts/arm_build.py:90-118 | a well-formed 32- or 64-bit file is cut to that prefix and only its three section-header fields change |
| `ElfTrim.TrimsAreEqual` | scripts/arm_build.py:114-118 | those properties determine the trimmed file |
| `ElfTrim.TrimLoadsTheSame` | scripts/arm_build.py:90-118 | every segment keeps its place, and one clear of the ELF header keeps its bytes |
| `ElfTrim.TrimIsWellFormed` | scripts/arm_build.py:90-118 | the trimmed file is well-formed and its own trim |
| `ElfTrim.TrimIsIdempotent` | scripts/arm_build.py:90-118 | trimming twice is trimming once |
| `BuildFreshness.PassingCheckMeansFresh` | scripts/arm_build.py:237-270 | over every run of build steps in any order and at any times that do not run backwards, a passing order check with no stamp outstanding means the supervisor embeds exactly the binaries on disk, unless a service was compiled or stamped no later than an earlier supervisor build |
| `BuildFreshness.CompiledExactly` | scripts/embed_order_check.py:26-43 | compiling a changed service under a passing check leaves the check true if and only if the time is not that of the supervisor |
| `BuildFreshness.StampedExactly` | scripts/arm_build.py:248-255 | stamping the one service that awaits it leaves the check true if and only if the time is not that of the supervisor |
| `BuildFreshness.EqualTimesFool` | scripts/embed_order_check.py:26-43 | a service edited and rebuilt at the time of the supervisor that holds the old one passes |
| `BuildFreshness.UnstampedCheckIsFooled` | scripts/arm_build.py:248-255 | without the stamp a run ends with the check passing over a stale copy |
| `BuildFreshness.StepKeeps` | scripts/arm_build.py:237-270 | every timely step keeps: a service awaiting no stamp and no newer than a supervisor build is the one that build embedded |
| `BuildFreshness.Enforce` | scripts/embed_order_check.py:26-43 | the check lists exactly the services newer than the supervisor, refuses without one, and over all services lists none if and only if the check passes |
| `BuildFreshness.Tree.BuildService` | scripts/arm_build.py:239-255 | one turn of the service loop puts the variant asked for in place and leaves no stamp due |
| `BuildFreshness.Tree.BuildAll` | scripts/arm_build.py:237-270 | whatever an earlier run left, the script ends with the check passing and every embedded service the one asked for |
| `PlatformFile.Q` | scripts/platform_file.py:155-171 | the loop over characters gives the quoted string |
| `PlatformFile.QuotedReads` | scripts/platform_file.py:155-171 | TOML unescaping undoes the quoting of every string, whatever text follows |
| `PlatformFile.EscapedHasNoNewline` | scripts/platform_file.py:155-171 | a quoted string holds no newline and no other control character |
| `PlatformFile.ItemsRead` | scripts/platform_file.py:174-175 | every list of strings reads back: quotes, commas, `#` and brackets inside never change the array |
| `PlatformFile.RenderFile` | scripts/platform_file.py:178-208 | the lines appended section by section are the rendered file |
| `PlatformFile.RenderReadsBack` | scripts/platform_file.py:178-226 | parsing the rendered file as TOML gives back exactly the facts, if and only if no target is listed twice; otherwise it is refused |
| `CaseFiles.NormIsStripped` | scripts/conform.py:792-793 | stripping and trimming lines commute, so the comparison sees only the trimmed lines |
| `CaseFiles.NormIsWord` | scripts/conform.py:792-793 | a text normalises to one visible word if and only if it is that word and whitespace |
| `CaseFiles.BlessRecords` | scripts/conform.py:963-983 | blessing keeps head and plants and makes the case expect what was observed, under LF or CRLF |
| `CaseFiles.BlessSettles` | scripts/conform.py:963-983 | afterwards the self-test accepts the case if and only if the diagnostic is not the word for no finding, and blessing again changes nothing |
| `CaseFiles.RecordedIsAccepted` | scripts/conform.py:1155-1166 | the self-test accepts a case that expects what was observed, with that one exception |
| `CaseFiles.RewriteKeepsPlanExactly` | scripts/conform.py:971-980 | a rewrite keeps the plan if and only if nothing after the marker added to it |
| `CaseFiles.LatePlantIsLost` | scripts/conform.py:963-983 | a case with a plant under its expect marker, blessed with anything observed, no longer plants it |
| `UnifiedDiff.AddedLineNumbers` | scripts/shared_surface_check.py:368-384 | the loop numbers the added lines from the hunk headers |
| `UnifiedDiff.ReadBackIsExact` | scripts/shared_surface_check.py:368-384 | for every edit script printed as a unified diff, the numbering is exactly the added lines of the new file if and only if no added text starts with `++` |
| `UnifiedDiff.AddedIsExact` | scripts/shared_surface_check.py:368-384 | each added line stands under its number, none is missing, numbers strictly rise |
| `UnifiedDiff.HeadReads` | scripts/shared_surface_check.py:373-376 | a printed hunk header gives back the new-file line its hunk starts at, empty and one-line ranges included |
| `GateExtents.ArchGatedLines` | scripts/shared_surface_check.py:334-365 | the scan covers disjoint ranges, each the extent of a gate, and stops only where no gate is left |
| `GateExtents.ScanLosesNothing` | scripts/shared_surface_check.py:326-365 | skipping ahead loses nothing: where no gate inside an earlier gate's reach goes past it, the covered set is the union of the extents of all gates, nested ones included |
| `GateExtents.WellGatedIsContained` | scripts/shared_surface_check.py:326-365 | that is so of source whose gates stand on lines of their own and whose items end in their own block |
| `GateExtents.WellGatedIsScannable` | scripts/shared_surface_check.py:326-365 | and its gated items end before the file does, which is all the report asks |
| `GateExtents.NestedGate` | scripts/shared_surface_check.py:334-365 | a gate inside another's extent reaches no further |
| `GateExtents.SameLineGateEscapes` | scripts/shared_surface_check.py:336-345 | for every four lines of that shape, through the reading of their text: a gate on the line that ends a gated statement governs the next line, and no scan covers it |
| `GateExtents.SameLineExample` | scripts/shared_surface_check.py:336-345 | four such lines, character by character |
| `GateExtents.FindEnd` | scripts/shared_surface_check.py:350-360 | the running depth finds the first line that ends the item |
| `SurfaceReport.Report` | scripts/shared_surface_check.py:407-427 | on stripped output the lines reported OUTSIDE are, in order and once each, the added code lines for which the line as far down as the file has leading blank lines is outside every gate extent; so the report is right when the file does not start with a blank line or nothing in it is governed, and where the last governed line is added code, if and only if the file does not start with a blank line |
| `SurfaceReport.NewFileReport` | scripts/shared_surface_check.py:276-282 | on a file new to the branch, with a gate in it and no comment where the last governed item ends, the report is right if and only if the first line is not blank |
| `SurfaceReport.LeadingBlankMisreports` | scripts/shared_surface_check.py:276-282 | a new file of a blank line, a gate, the statement under it and one more: line 4 alone runs on every board, lines 3 and 4 are reported |
| `SurfaceReport.StrippedDiffReads` | scripts/shared_surface_check.py:368-384 | stripping the diff changes none of the lines reported |
| `StrippedShow.ShownTrims` | scripts/shared_surface_check.py:276-282 | the lines of the stripped output are those of the file without its blank ends, the outer two trimmed |
| `StrippedShow.ShownIsShifted` | scripts/shared_surface_check.py:326-365 | so, where no gate inside another's reach goes past it and every gated item ends, a scan of it covers the extents of the file, moved up by its leading blank lines |
| `Wrap.WrapNote` | scripts/conform.py:461-470 | the accumulators give the filled lines, stripped on the right |
| `Wrap.WrapKeepsEveryWord` | scripts/conform.py:454-470 | splitting the printed note gives the label and every word, in order |
| `Wrap.WrapLayout` | scripts/conform.py:454-470 | every line is its words one space apart, continuations aligned under the body |
| `Wrap.WrapIsTight` | scripts/conform.py:463-468 | a line of several words is printed in `width` columns or more if and only if a continuation line of the greedy fill, not the last, spells the label; otherwise the note is the greedy fill |
| `Wrap.WrapIsShortest` | scripts/conform.py:463-468 | a note that does not reach the width uses the fewest lines of any split of its words printed in fewer than `width` columns |
| `Wrap.ShortestWithinWidth` | scripts/conform.py:463-468 | no split printed in at most `width` columns is shorter, if and only if the greedy fill to one column more is not |
| `Wrap.ExactWidthBreaks` | scripts/conform.py:464 | for every label and two words: a note that would be printed in exactly `width` columns is put on two lines |
| `Wrap.WrapCanOverflow` | scripts/conform.py:464 | a body that repeats the label is carried to the width on a line of several words |
| `ModuleConsts.ModuleLevelConsts` | scripts/commandments.py:675-686 | for every input the one pass keeps, in order, exactly the constants no function line with an open brace still encloses |
| `ModuleConsts.OpenFnsEnclose` | scripts/commandments.py:681-685 | the functions on the stack are exactly the enclosing ones |
| `ModuleConsts.OpenFnsRise` | scripts/commandments.py:681-685 | the stack of depths strictly rises and stays below the present depth |
| `ModuleConsts.ModuleConstsAreOutside` | scripts/commandments.py:667-686 | over every nested file whose lines open or close at most one block each, the result is the constants outside functions if and only if none lies in a function whose signature runs past the line that names it |
| `ModuleConsts.SplitSignatureLeaks` | scripts/commandments.py:681-682 | under a two-line signature a local constant is counted |
| `StripGated.StripArchGated` | scripts/arch_seam_check.py:89-123 | the result is the text without the deleted intervals |
| `StripGated.CutsAreDisjoint` | scripts/arch_seam_check.py:93-121 | the intervals are disjoint, in order and inside the text |
| `StripGated.CutsStartAtGates` | scripts/arch_seam_check.py:93-99 | each interval is the region of a gate |
| `StripGated.GatesStartInCuts` | scripts/arch_seam_check.py:94-95 | every gate starts inside a deleted interval |
| `StripGated.BlockEndMatches` | scripts/arch_seam_check.py:107-119 | a braced region ends at the matching brace, the first place where everything opened is closed |
| `StripGated.StrippedDepth` | scripts/arch_seam_check.py:89-123 | every character outside the intervals is kept, and its nesting depth is unchanged if and only if the braces between the earlier gates and their stops cancel out |
| `StripGated.PlainRunUp` | scripts/arch_seam_check.py:98-106 | they cancel out when gates and run-ups hold no brace |
| `StripGated.CloserSwallowed` | scripts/arch_seam_check.py:120-121 | a gated expression that ends a block takes the closing brace with it |
| `BaselineFile.PrintedReads` | scripts/shared_surface_check.py:239-250 | in each of the four formats an entry taken as one line gives back its name and count if and only if the name is one a line can carry; breaks inside a name are the business of the next row |
| `BaselineFile.FileRoundTrips` | scripts/shared_surface_check.py:211-273 | reading a written baseline, with universal newlines, gives back what was recorded if and only if every name is one its format can carry on one line |
| `Ratchets.HistoryFalls` | scripts/one_way_check.py:154-196 | over every history of edits, checks and blesses, the baseline only falls, and a tree that passes later fits every baseline before it |
| `Ratchets.OneWayCheck.Verdict` | scripts/one_way_check.py:173-180 | the check fails exactly when a count grew, and names those crates |
| `Ratchets.OneWayCheck.Record` | scripts/one_way_check.py:164-172 | a bless records the non-zero counts of the tree |
| `SurfaceRatchet.HistoryFalls` | scripts/shared_surface_check.py:437-498 | over every history that starts with the files paired, neither unit's baseline rises |
| `SurfaceRatchet.LaterPassFits` | scripts/shared_surface_check.py:437-498 | a tree that passes fits every earlier baseline in both units |
| `SurfaceRatchet.UnpairedSitesRise` | scripts/shared_surface_check.py:444-449 | with the names file missing the check passes without looking at the sites, and a bless may raise them |
| `ScaffoldRatchet.HistoryRises` | scripts/scaffold_check.py:130-190 | over every history a milestone once recorded stays and never goes down, and measurements that pass later hold every earlier record |
| `ScaffoldRatchet.StepRises` | scripts/scaffold_check.py:166-171 | a bless keeps the record of an architecture that was not measured |
| `QuitWaits.ScanText` | scripts/quit_wait_check.py:69-85 | the nested loops find every wait, its nearest marker, and the marker count |
| `QuitWaits.NearestIsInWindow` | scripts/quit_wait_check.py:79-83 | a wait is excused if and only if a marker stands on its line or among the four above |
| `QuitWaits.MarkIsNoSite` | scripts/quit_wait_check.py:64-66 | a marker line is never itself a wait |
| `QuitWaits.WaitsAreCovered` | scripts/quit_wait_check.py:69-85 | in a file whose waits are all excused, waits and lines still covered are at most four times the markers |
| `QuitWaits.PassingTreesAreBounded` | scripts/quit_wait_check.py:158-178 | in every passing tree the waits are at most four times the recorded exceptions |
| `QuitWaits.BoundIsReached` | scripts/quit_wait_check.py:69-85 | the bound is tight |
| `QuitWaits.BlessedIsAllowed` | scripts/quit_wait_check.py:101-108 | what a bless records is what the next check allows |
| `ApplyBaseline.Apply` | scripts/commandments.py:1889-1918 | the grouping and both loops give the excess and the complaints |
| `ApplyBaseline.UnexcusedIsTheExcess` | scripts/commandments.py:1912-1917 | each path leaves exactly its violations beyond the allowed count, the later ones |
| `ApplyBaseline.CleanExactly` | scripts/commandments.py:1889-1918 | nothing is reported if and only if every exemption is founded and live and every path has exactly the largest count pinned on it |
| `ApplyBaseline.Verdict` | scripts/commandments.py:2023-2034 | the build passes if and only if that holds for every check |
| `ApplyBaseline.TodoStillExcuses` | scripts/commandments.py:1913-1915 | an exemption that owes its reason still excuses; only the complaint about it stops the build |
| `Suppressions.ScanLines` | scripts/conform_ok.py:72-123 | the scan gives every line its exempted codes and lists the refused markers |
| `Suppressions.ExemptExactly` | scripts/conform_ok.py:105-121 | a line is exempt from a code if and only if an accepted marker naming it stands there or has the line in scope |
| `Suppressions.OnlyHonoured` | scripts/conform_ok.py:95-103 | a code no checker honours is never exempted |
| `Suppressions.ProblemsExactly` | scripts/conform_ok.py:86-102 | the problems are the refused markers, each once, in order |
| `Suppressions.ScopeIsNarrow` | scripts/conform_ok.py:105-116 | a scope skips only blank lines and holds no fence but the two that bound it |
| `Suppressions.Cache.Covers` | scripts/conform_ok.py:146-152 | over any sequence of queries every answer is that of a fresh scan, the count is that of the true answers, and each file's problems are recorded once |
| `FixerGates.LastMatchWins` | scripts/line_ending_check.py:101-109 | the verdict is that of the last rule that applies |
| `FixerGates.FindVerdict` | scripts/conform.py:321-327 | the loop over the rules computes that verdict |
| `FixerGates.FixChangesExactly` | scripts/conform.py:359-367 | a text changes if and only if it holds a dash, or must be LF and holds CR LF |
| `FixerGates.FixClears` | scripts/conform.py:359-367 | afterwards no dash is left, and under LF no carriage return if and only if each was followed by a newline |
| `FixerGates.FixIsIdempotent` | scripts/conform.py:359-367 | a second fix changes nothing if and only if no carriage return stood before a CR LF |
| `FixerGates.PairedHasNoTriple` | scripts/conform.py:365-367 | a text whose carriage returns are all followed by newlines never needs a second fix |
| `FixerGates.FixerAgreesWithGates` | scripts/dash_check.py:52-71 | on a tracked text file outside the fixtures the fixer acts if and only if a gate fails, and afterwards none fails for a literal dash or a carriage return |
| `FixerGates.SecondRunIsIdle` | scripts/conform.py:330-373 | over the whole tree a second run finds nothing, with the same exact condition |
| `FixerGates.FixtureIsRewritten` | scripts/dash_check.py:55-56 | a fixture with a dash is rewritten though no gate asks for it |
| `FixerGates.WorkTree.FixDecidable` | scripts/conform.py:330-373 | every file ends as its own fix, the changed list is exact, and without `apply` nothing is written |

## Left out

Where the code and its own words differ, the model follows the code; the members that show it are
`JournalMount.ReplayWindow`, `JournalMount.StagingOverHeldExact`, `JournalMount.LiveRecordUndoesData`,
`JournalMount.RecordOwnsItsBlocks`, `JournalCommit.AtomicExactly`, `JournalHistory.UnorderedDataIsLost`,
`CaseFiles.LatePlantIsLost`, `Delegated.OvertakenExample`,
`Delegated.LateMarkExample`, `FileTrees.AppendEmptiesBinary`, `BuildFreshness.EqualTimesFool`, `Wrap.WrapCanOverflow`,
`Wrap.ExactWidthBreaks`, `ModuleConsts.SplitSignatureLeaks`, `StripGated.CloserSwallowed`,
`GateExtents.SameLineGateEscapes`, `SurfaceReport.LeadingBlankMisreports`, `SurfaceRatchet.UnpairedSitesRise` and
`ApplyBaseline.TodoStillExcuses`.

- JournalHistory.JournalIsCrashSafe: takes the checksum to tell apart the payloads that come to stand under a record in that history, and a torn record to fail its own check; both are hypotheses about CRC-32 on particular blocks, and `JournalWitness.HypothesesHold` shows they can be met. Its histories honour the second flush of a commit, without which `JournalCommit.AtomicExactly` shows there is no atomicity; the first and the third may be refused. They leave out cuts between the end of a recovery and the next honoured flush (`JournalMount.ReplayWindowExact`), cuts over a held transaction before a flush is honoured other than those in staging that `JournalMount.StagingOverHeldExact` finds harmless, and cuts that wake a sleeping record (`JournalMount.WakesExactly`). Data goes to blocks no live record names (`JournalMount.LiveRecordUndoesData`, `JournalMount.RecordOwnsItsBlocks`).
- JournalHistory.StepKeeps: the same events are left out.
- JournalHistory.DataIsOrdered: says nothing of a transaction that survives before any flush was honoured; `JournalHistory.UnorderedDataIsLost` shows the promise fails there.
- JournalCommit.CommitIsAtomic: takes a record left asleep by an earlier cut not to wake; `JournalMount.WakesExactly` says which staging could wake it. A commit cut short by a write the drive fails is one of its prefixes (`FileSystem.CommittedDiskIsRun`).
- FileTrees.CaseRestoresExactly: directories made by a `create` plant are not removed by the code and are not part of the tree; errors of the operating system and two spellings of one path are not modelled.
- RedTeam.Team.RunAll: the one injection that rewrites the baseline file by a pattern is covered as an edit.
- ElfTrim.TrimElf: the byte buffer is a sequence; an assignment past its end appends, as it does in the source.
- GateExtents.ScanLosesNothing: line separators other than the newline are not modelled.
- SurfaceReport.Report: takes the cfg pattern to match a line alike with and without the whitespace around it, and the diff to open with its `diff` line.
- PlatformFile.RenderReadsBack: the TOML reader is the subset the file uses (TOML v1.0.0, "String", "Array", "Table"); the two leading comments are a parameter.
- CaseFiles.BlessRecords: needs the first marker text to be the marker line and no plant after it; the decoding of `\u` escapes in plants is left out, and the two patterns are parameters that do not take the marker or an empty line for a plant header.
- BaselineFile.FileRoundTrips: `int` and `isdigit` are parameters that read back what was printed.
- ModuleConsts.ModuleConstsAreOutside: a line that opens or closes two blocks is not among the nested files; `ModuleLevelConsts` covers it.
- ScaffoldRatchet.HistoryRises: recorded milestones are not negative.
- Ratchets.HistoryFalls: a bless after a failing check, which the scripts allow with a reason in the commit, is outside the histories.
- Delegated.GenerationCounts: generations are unbounded; at 2^32 the kernel stops instead of wrapping, so its runs are among these.
- Delegated.Band.Allocate: runs its three locked steps with nothing in between; the histories interleave them with everything else.
- Delegated.Band.RevokeOwned: the registry's overflow list, which holds only self-test ids, is not modelled.
- Suppressions.Cache.Covers: files do not change between queries.
- FixerGates.FixerAgreesWithGates: escaped spellings of a dash are reported by the gate and never fixed, so they are excluded there.
- The rest of the kernel (scheduling, IPC, memory, architectures), the other services and the SDK: not part of this model.
- The file system above the journal (directories, bitmap, extents, the drive check): not part of this model.
- Pinned-set checks, vocabulary and documentation checks, fence loops of the prose checkers, console output: plain set comparisons or text only.
- Running QEMU, flashing, downloading and host tests: processes, sockets and timing.
