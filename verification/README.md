# The install engine: a model and its proofs

This project models the macOS install engine of the package manager: the
linker that merges kegs into a prefix of directories, files and symlinks; the
string patcher for Mach-O files; the downloader with its chunks, its
single-flight deduplication, its races and its blob cache; the dependency
resolver and the install planner; the transactions that replace an installed
keg; the declared post-install links with their path templates; and the
managed block of shell configuration. `dafny verify dfyconfig.toml` checks it.

What the source changes in place is modelled in place: `Linker`, `Cellar`,
`BlobCache` and `BlobWriter` are classes, the patcher works on an array, and
the loops of the modelled code are loops with invariants. What the source leaves
to its library is a function or an assignment here: finding the next NUL,
moving bytes within a buffer, sorting. Each method is tied to a specification
on values, and the laws are proved about the specification.
The three protocols of the downloader are step relations over any number of
tasks; their laws hold for every run.

## How the files fit together

| files | what they hold |
|---|---|
| `filetree`, `overlay` | the world of kegs, the prefix, path resolution; what laying a keg over the prefix means, path by path |
| `link_steps`, `dryrun`, `keg_links`, `linker` | the linker and its conflict check, proved against the overlay |
| `succession`, `link_laws`, `upgrade_laws`, `upgrade_entries` | what one linked tree leaves for the next; linking, unlinking and upgrading on what paths resolve to, and entry by entry |
| `template`, `post_paths`, `post_install` | path templates and bases; post-install links applied and removed |
| `examples` | small kegs and prefixes, and what the linker makes of them |
| `macho`, `macho_patch`, `macho_laws` | the byte rewriting as a pure function, the in-place passes, their laws |
| `chunks`, `blob`, `reassembly` | byte ranges, the blob cache, putting a chunked download together |
| `dedup`, `race` | leaders, followers, chunk tasks and permits; racing connections |
| `names`, `resolver`, `resolver_laws`, `planner` | the closure and its order; fetching, planning and the order of execution |
| `cellar`, `transactions`, `reinstall` | kegs on disk, replacing one keg, reinstalling several |
| `managed_block` | the managed block of shell configuration |
| `options`, `text`, `sets`, `sums` | shared helpers |

## What was found on the way

Several properties one would expect hold only under a condition. The model
keeps the code as it is; the exact condition of each is proved, and inputs are
given on which it fails.

- Linking replaces a directory symlink by a real directory of links, and
  nothing ever folds it back: link and unlink, or an upgrade, restore the
  entries of the prefix exactly when no symlink had to be unfolded
  (`EntriesRestored`, `UpgradeEntriesExactly`, `PostInstallRoundTrip`; on small
  kegs in `RoundTripExample`, `UpgradeExample`, `PostInstallExample`).
  What paths resolve to is not affected (`RoundTrip`, `UpgradeLaw`).
- A new version links over the old one exactly when no linked path is a file in
  one and a directory in the other (`SuccessorLinkable`).
- The dry run looks at files only. Where a keg has a directory and the prefix a
  symlink to a file it passes, and linking fails half-way (`ClashSlipsThrough`,
  `ClashExample`). It is sound exactly when the kinds agree (`LinkableMeans`).
- A dependency listed twice is counted twice and removed once, so an acyclic
  graph can be reported as a cycle (`RepeatedDependency`); the resolver succeeds
  exactly on acyclic graphs without repeated dependencies (`SucceedsExactly`).
- Of several placeholders in one C string only the first is rewritten
  (`SecondPlaceholderStays`); the pass leaves none exactly when no string of the
  buffer holds a second one (`PlaceholdersGo`).
- A start marker without its end makes the second write of a managed block
  swallow the text between; writing is idempotent exactly when no marker
  dangles that way (`IdempotentExactly`, `DanglingLosesText`).
- Leaders of downloads and their chunk tasks share permits, so large downloads
  can stall for good (`JamIsReachable`, `JamIsForever`). Every run settles
  exactly when fewer checksums are asked for than there are permits
  (`SettlesExactly`).
- Bottles are installed before anything is built. What an item needs comes
  first in every execution exactly when the item is built or the need is
  installed already (`NeedsComeFirst`, `BottlesComeFirst`).
- A bottle whose copy fails half-way stays in the Cellar and is reported as
  installed (`HalfCopiedLooksInstalled` says exactly when), and the next
  installation takes it as it is and gives it a receipt
  (`RemainderBecomesTheKeg`, `HalfCopiedExample`). The same happens to an empty directory in a
  bottle's way (`ReinstallFetched`).

## Model

| member | source | states |
|---|---|---|
| Linking.Linker.CollectConflicts | src/core/cellar/link.rs:119-167 | lists every place below the directory where a keg file meets an entry of another owner, each exactly once and with the owner to blame, whatever order the entries come in |
| Linking.Linker.CollectMerged | src/core/cellar/link.rs:169-203 | the same behind a directory symlink, comparing with what lies behind it |
| Linking.Linker.CheckConflicts | src/core/cellar/link.rs:103-117 | succeeds exactly when the keg conflicts nowhere in the linked directories, and otherwise lists all conflicts, changing nothing |
| Linking.Linker.LinkFile | src/core/cellar/link.rs:247-289 | a keg file is put in place exactly when nothing or a link of its own formula is there, and nothing outside its place changes |
| Linking.Linker.LinkFolder | src/core/cellar/link.rs:234-245 | a directory symlink in the way is unfolded and then merged; success and result are those of the flat path-by-path description |
| Linking.Linker.LinkRecursive | src/core/cellar/link.rs:218-292 | the recursive pass succeeds exactly when every source entry fits, and then every path below holds what the flat description says, nothing else having changed |
| Linking.Linker.LinkOpt | src/core/cellar/link.rs:358-377 | afterwards the opt link of the formula points at this keg, whatever link was there; fails on a directory in its place |
| Linking.Linker.LinkKeg | src/core/cellar/link.rs:205-216 | succeeds exactly when nothing conflicts, the kinds agree and the opt link can be made; a conflict leaves the prefix untouched and is reported in full |
| Linking.Linker.UnlinkEntry | src/core/cellar/link.rs:313-339 | an entry goes exactly when it links to the source's entry; a directory goes when this empties it |
| Linking.Linker.UnlinkRecursive | src/core/cellar/link.rs:307-341 | exactly the links into the source go and are listed once each, and of the shared directories those left empty |
| Linking.Linker.UnlinkOpt | src/core/cellar/link.rs:343-356 | the opt link goes exactly when it points at this keg |
| Linking.Linker.UnlinkKeg | src/core/cellar/link.rs:294-305 | exactly the keg's own links go, are listed once each, and foreign links and files stay |
| DryRun.CheckIsExact | src/core/cellar/link.rs:119-203 | a source entry can be linked exactly when the check finds no conflict there and directory meets directory, file meets file |
| KegLinks.LinkableMeans | src/core/cellar/link.rs:103-292 | the whole link pass goes through exactly when the check passes, the kinds agree and the opt link can be made |
| LinkLaws.ClashSlipsThrough | src/core/cellar/link.rs:184-196 | a keg directory over a symlink to a file is no conflict to the check at or below that place, so the whole check passes exactly when it does elsewhere, and linking fails |
| Examples.ClashExample | src/core/cellar/link.rs:103-292 | on a prefix with one symlink the check passes as a whole and linking the keg fails |
| LinkLaws.LinkRefinesView | src/core/cellar/link.rs:205-292 | after linking, every path resolves as before, overridden by exactly the keg's files, what lies below them, and the opt link |
| LinkLaws.UnfoldedResolves | src/core/cellar/link.rs:234-243 | unfolding a directory symlink changes no path's resolution |
| LinkLaws.UnlinkView | src/core/cellar/link.rs:294-356 | after unlinking, exactly the paths at or below the keg's links resolve to nothing, all others as before |
| UpgradeLaws.RoundTrip | src/core/cellar/link.rs:205-341 | linking and unlinking a keg empties the places of its files and its opt link; every other path resolves as before |
| UpgradeLaws.RoundTripExact | src/core/cellar/link.rs:205-341 | it restores every path's resolution exactly when nothing was visible where the keg went |
| UpgradeLaws.EntriesRestored | src/core/cellar/link.rs:234-341 | it restores every file and link exactly when the keg's places were free and no directory symlink had to be unfolded |
| Examples.RoundTripExample | src/core/cellar/link.rs:234-341 | on a prefix with one directory symlink, linking and unlinking a keg loses the symlink |
| Succession.StillFits | src/core/cellar/link.rs:218-292 | what could be linked into a prefix can still be linked when another tree is, if the kinds agree and common files belong to one formula |
| UpgradeLaws.SuccessorLinkable | src/core/cellar/link.rs:103-292 | a version that could be linked by itself can be linked over another exactly when no linked path is a file in one and a directory in the other |
| UpgradeLaws.UpgradeLaw | src/core/cellar/link.rs:247-378 | two versions that could each be linked, of matching kinds: linking the old one, the new one over it and unlinking the old one ends where installing the new one alone does, for what every path resolves to |
| UpgradeEntries.UpgradeEntriesExactly | src/core/cellar/link.rs:234-378 | it leaves the same files and links exactly when the new version unfolds every directory symlink the old one unfolded |
| Examples.UpgradeExample | src/core/cellar/link.rs:234-378 | an upgrade to a version without the directory loses a symlink that a fresh install keeps |
| Examples.UpgradeSucceeds | src/core/cellar/link.rs:205-341 | two versions that could each be linked, of matching kinds: all three steps of the upgrade succeed, on any prefix that shows nothing of the formula |
| Examples.UpgradeIsPossible | src/core/cellar/link.rs:205-341 | the same on kegs that share one file and differ in another |
| PostInstall.PlanSteps | src/core/cellar/link/post_install.rs:176-222 | all operations are worked out before anything is touched, each directory before its children, and exactly when every target can be reached and every source is a directory of the keg |
| PostInstall.CheckPlan | src/core/cellar/link/post_install.rs:88-113 | passes exactly when no operation of the whole plan meets a bad target or an entry of another owner |
| PostInstall.ApplyPostInstall | src/core/cellar/link/post_install.rs:85-126 | a plan that cannot be checked leaves the prefix untouched; a plan without conflicts and kind clashes goes through; success puts exactly the declared links in place |
| PostInstall.PlanStillFits | src/core/cellar/link/post_install.rs:112-125 | each operation carried out leaves room for every operation of the plan |
| PostPaths.PostInstallPath | src/core/cellar/link/post_install.rs:236-284 | a declared path lies strictly below its base: sources below the keg, targets below the prefix, through plain names only |
| PostPaths.WrittenPathIsRead | src/core/cellar/link/post_install.rs:262-271 | every relative path of plain names is accepted and means those names |
| PostPaths.StepsStayBelow | src/core/cellar/link/post_install.rs:176-284 | no declared step, worked out, touches the prefix root or a source outside the keg |
| PostPaths.ApplyDeclared | src/core/cellar/link/post_install.rs:85-222 | a declaration that cannot be worked out changes nothing; otherwise its steps are applied |
| PostInstall.RemoveRuntimeTree | src/core/cellar/link/post_install.rs:319-336 | exactly the links to the same place below the source go, without ever looking at the source |
| PostInstall.RemoveChildren | src/core/cellar/link/post_install.rs:153-170 | exactly the direct entries the step linked go, told by target and suffix |
| PostInstall.RemovePostInstall | src/core/cellar/link/post_install.rs:129-174 | exactly the links the steps make go, also when the sources have vanished; fails at most at a target that is no directory |
| PostInstall.PostInstallRoundTrip | src/core/cellar/link/post_install.rs:85-174 | remove after apply restores every file and link exactly when the places were free, no link of the steps was there and no directory symlink was unfolded |
| Examples.PostInstallExample | src/core/cellar/link/post_install.rs:85-174 | on a prefix with one directory symlink, applying and removing a step loses the symlink |
| PostInstall.AppliedCanBeRemoved | src/core/cellar/link/post_install.rs:129-174 | after a successful apply no target is refused on removal |
| Templates.Expand | src/core/cellar/link/post_install.rs:35-69 | the loop computes what reading the template and substituting gives, or refuses |
| Templates.ExpandsExactly | src/core/cellar/link/post_install.rs:35-69 | exactly the well-formed templates are accepted, and the result is the substitution with inserted values never expanded again |
| Templates.PrintParses | src/core/cellar/link/post_install.rs:35-69 | every well-formed template is read back from its printed form |
| Templates.ParsePrints | src/core/cellar/link/post_install.rs:35-69 | whatever is accepted is the printed form of a well-formed template |
| Templates.ReadingIsUnique | src/core/cellar/link/post_install.rs:35-69 | no text has two readings |
| Templates.Suffix | src/core/cellar/link/post_install.rs:71-79 | a well-formed suffix is accepted exactly when its expansion, put behind any path, changes the last name and adds none |
| MachoPatch.ReplaceInCString | src/core/extraction/patch/macos.rs:205-222 | one replacement: new bytes, the rest of the field moved up, NULs to the old length, all else unchanged |
| MachoPatch.PlaceholderPass | src/core/extraction/patch/macos.rs:125-139 | the in-place pass equals the field-by-field rewrite of the whole buffer and always ends |
| MachoPatch.PrefixPass | src/core/extraction/patch/macos.rs:141-168 | the same for whole path prefixes, every one that does not overlap an earlier one |
| MachoPatch.PatchStrings | src/core/extraction/patch/macos.rs:115-172 | the buffer ends as the rewriting by all passes in order, and is written back exactly when it differs |
| MachoLaws.NulsSurvive | src/core/extraction/patch/macos.rs:205-222 | the length and every NUL of the buffer survive a pass |
| MachoLaws.PatchKeepsNuls | src/core/extraction/patch/macos.rs:125-168 | and all passes together |
| MachoLaws.FieldsAreIndependent | src/core/extraction/patch/macos.rs:205-222 | each side of a NUL is rewritten as if it were alone |
| MachoLaws.NoOccurrence | src/core/extraction/patch/macos.rs:129-161 | a field without an occurrence is left as it is |
| MachoLaws.FirstOccurrence | src/core/extraction/patch/macos.rs:129-161 | otherwise its first occurrence is replaced, and what follows is left alone for a placeholder and rewritten for a prefix |
| MachoLaws.PlaceholdersGo | src/core/extraction/patch/macos.rs:125-139 | when old and new bytes keep apart, the placeholder pass leaves no occurrence in the buffer exactly when no string holds a second one |
| MachoLaws.PlaceholdersKeepApart | src/core/extraction/patch/macos.rs:120-123 | the two placeholders keep apart from every absolute path without an @ |
| MachoLaws.SecondPlaceholderStays | src/core/extraction/patch/macos.rs:120-139 | of two placeholders in one string one is left, for both placeholders and every new path without an @ |
| MachoLaws.NoneLeft | src/core/extraction/patch/macos.rs:152-165 | when the new prefix cannot recreate the old one, no occurrence of the old one is left |
| Chunks.CalculateChunkRanges | src/core/network/download.rs:587-603 | the loop yields the greedy cut of the file |
| Chunks.RangesTile | src/core/network/download.rs:587-603 | the ranges lie end to end over the file, none empty, none longer than the chunk size |
| Chunks.EveryByteOnce | src/core/network/download.rs:587-603 | every byte of the file is asked for by exactly one inclusive range, nothing beyond it |
| Chunks.HowManyChunks | src/core/network/download.rs:37-45 | at most 7 ranges up to 120 MiB, exactly one for every 20 MiB begun above |
| Blobs.BlobWriter.Commit | src/core/storage/blob.rs:69-100 | the temporary file becomes the blob unless one is there, which is left alone; a blob that appears meanwhile stands in for a failing rename; what fails otherwise leaves everything as it is |
| Blobs.BlobWriter.Drop | src/core/storage/blob.rs:113-122 | an uncommitted temporary file goes with its writer |
| Blobs.FinishDownload | src/core/network/download.rs:993-1017 | nothing is committed unless the checksum matches, success is said exactly when it does and the commit goes through, and no temporary file is left either way |
| Reassembly.ReceiveChunks | src/core/network/download.rs:828-872 | what is written is a prefix of the file in chunk order as long as the next expected offset, and what is hashed is that, or one chunk more after a failing write |
| Reassembly.GatheredExactly | src/core/network/download.rs:880-898 | the closing counts agree exactly when every chunk arrived once with its size, in whatever order |
| Reassembly.GatheredIsFile | src/core/network/download.rs:833-872 | then the bytes are the file, if every chunk brought the file's bytes of its range |
| Reassembly.GatheredOnce | src/core/network/download.rs:833-872 | and they do not depend on the order of arrival |
| Reassembly.DownloadResponse | src/core/network/download.rs:932-988 | a body is hashed and written piece by piece; only a complete one with the checksum is committed, and without disk faults it is |
| Reassembly.DownloadWithChunks | src/core/network/download.rs:740-908 | success means the gathered bytes are the blob and have its checksum; a complete set of chunks, or without range support a complete body, succeeds whatever its order; a cache of genuine blobs stays so |
| Dedup.StepKeeps | src/core/network/download.rs:1193-1246 | every step keeps: permits held and free add up, the map names exactly the leaders, channels carry their leader's result, followers are served |
| Dedup.OneLeader | src/core/network/download.rs:1200-1210 | at most one leader per checksum at a time, and the map holds a checksum exactly while it has one |
| Dedup.FollowerGetsLeadersResult | src/core/network/download.rs:1212-1218 | a follower ends with the result of exactly the leader it subscribed to, in every run |
| Dedup.DoneHasLeadersResult | src/core/network/download.rs:1228-1244 | whoever is done holds what the leader of its checksum published |
| Dedup.Progress | src/core/network/download.rs:1220-1229 | while fewer leaders than permits wait for their own chunks, something unfinished can step without any further failure |
| Dedup.SettlesExactly | src/core/network/download.rs:1193-1246 | in every run from the start: what cannot go on has settled, exactly when fewer checksums are asked for than there are permits |
| Dedup.JamIsForever | src/core/network/download.rs:794-800 | no event lets a leader of a jam go on, ever |
| Dedup.JamIsReachable | src/core/network/download.rs:794-800 | from every start with at least as many checksums as permits some run reaches a jam |
| Dedup.JamsExactly | src/core/network/download.rs:794-800 | a jam, every permit held by a leader none of whose chunks has one, can be reached exactly then |
| Dedup.StepsRunOut | src/core/network/download.rs:1193-1246 | however the scheduler chooses, every run stops |
| Dedup.EndsSettledOrFull | src/core/network/download.rs:1193-1246 | a run that cannot go on has settled every caller and task, or every permit belongs to a leader waiting for its own chunks |
| Race.StepKeeps | src/core/network/download.rs:282-390 | every step of any racer keeps the invariant of the race |
| Race.RaceIsSafe | src/core/network/download.rs:282-421 | at any moment at most one racer holds the gate, a blob in place has the right checksum, success implies a blob, at most one commit happens, a commit is reported and no temporary file is left |
| Race.NoStartAfterCommit | src/core/network/download.rs:353-371 | no body download starts once the race has committed |
| Race.CommitsWhatItHashed | src/core/storage/blob.rs:69-100 | the bytes committed are the bytes hashed |
| Resolver.ComputeClosure | src/types/formula/resolve.rs:52-81 | the smallest set holding the roots and closed under known dependencies, or the last unknown root |
| Resolver.BuildGraph | src/types/formula/resolve.rs:83-108 | in-degrees count list positions, edges count packages |
| Resolver.ResolveClosure | src/types/formula/resolve.rs:7-50 | unknown roots are reported; otherwise packages are taken smallest first among those whose dependencies are placed, and on failure exactly the others are reported |
| Resolver.MidwayStep | src/types/formula/resolve.rs:31-38 | no in-degree is decremented below zero, and a package becomes ready exactly when its last dependency is placed |
| ResolverLaws.LeastOrder | src/types/formula/resolve.rs:14-39 | the result precedes every other topological order of the closure |
| ResolverLaws.OrderIndependent | src/types/formula/resolve.rs:7-50 | it depends neither on the order of the roots nor on that of any dependency list |
| ResolverLaws.SucceedsExactly | src/types/formula/resolve.rs:41-47 | it succeeds exactly when the closure has no cycle and no list repeats a dependency |
| ResolverLaws.StuckDependency | src/types/formula/resolve.rs:41-47 | every reported package without a repeated dependency depends on a reported one |
| ResolverLaws.ReportedCycle | src/types/formula/resolve.rs:41-47 | without repeated dependencies a real cycle lies among the reported packages |
| ResolverLaws.RepeatedDependency | src/types/formula/resolve.rs:96-103 | an acyclic graph with a repeated dependency has a topological order, and the resolver refuses it |
| Planner.DecisionsAgree | src/core/installer/install/planning.rs:285-316 | the decision asked before the graph is built and the one taken when the plan is written agree |
| Planner.FetchAllFormulas | src/core/installer/install/planning.rs:196-283 | succeeds exactly when the requested names and everything they need are usable or kept as installed, and then every fetched formula has its needs fetched or kept |
| Planner.PlanForcing | src/core/installer/install/planning.rs:26-123 | there is a plan exactly when all needs can be fetched and their graph, build dependencies included, has neither a cycle nor a repeated dependency; it lists the packages to take in the resolver's order |
| Planner.PlanIsComplete | src/core/installer/install/planning.rs:33-123 | whatever an item needs is installed or planned strictly earlier |
| Planner.RequestedIsPlanned | src/core/installer/install/planning.rs:63-71 | a requested package is planned exactly unless it is installed, not forced and not due for an upgrade |
| Planner.BuildsAfterNeeds | src/core/installer/install/execute.rs:90-231 | in every execution what a source build needs is installed or attempted before the build |
| Planner.NeedsComeFirst | src/core/installer/install/execute.rs:90-231 | what an item needs is installed or attempted before it in every execution exactly when the item is built or the need is installed already |
| Planner.BottlesComeFirst | src/core/installer/install/execute.rs:90-93 | a registry on which the plan lists a build before the bottle that needs it, and every execution attempts the bottle first |
| Cellars.ScanInstalled | src/core/storage/receipt.rs:42-78 | lists exactly what the directories of the Cellar report, by name and version, whatever order they are read in; backups and empty directories report nothing |
| Cellars.FindInstalled | src/core/storage/receipt.rs:93-103 | a name is found exactly when a keg is reported under it, the first version in string order |
| Transactions.BackupExistingKeg | src/core/installer/install/source_ops.rs:151-180 | the keg is moved to its backup, or stays where it is; in no state on the way is it missing |
| Transactions.RestoreFromBackup | src/core/installer/install/source_ops.rs:182-199 | the backup is back in place whenever clearing and renaming work |
| Transactions.ReinstallFromStore | src/core/installer/install/reinstall_ops.rs:124-165 | in every state the old keg is in its place, in its backup, or replaced with a receipt; it succeeds exactly when the old keg can be set aside and the new one is copied in full and recorded; failure puts the old one back; no installed name is lost |
| Transactions.InstallFromSource | src/core/installer/install/source_ops.rs:63-146 | the same for a source build over an existing keg, names being kept when the old keg was reported under the name built |
| Transactions.InstallBottle | src/core/installer/install/execute.rs:149-199 | what holds the place afterwards in every case: the finalized keg exactly on success; the remainder of the clean-up when it cannot be finalized; the half copy when copying fails; a directory already there is finalized as it is |
| Transactions.HalfCopiedLooksInstalled | src/core/installer/install/execute.rs:161-194 | after a failed installation a new name is reported exactly when the copy got some files in place, or the clean-up left a reported remainder |
| Transactions.RemainderBecomesTheKeg | src/core/installer/install/execute.rs:161-194 | the next installation takes what a failed copy left and gives it a receipt, whatever it would have copied itself |
| Transactions.HalfCopiedExample | src/core/installer/install/execute.rs:149-199 | in an empty Cellar: a copy breaks off after one of two files, the package is found installed, and installing it again adds the receipt and not the file |
| Reinstall.StashAll | src/core/installer/install/reinstall_ops.rs:188-199 | all old kegs are set aside, exactly when each can be, or all are put back |
| Reinstall.ExecuteAll | src/core/installer/install/execute.rs:112-231 | carrying out the plan touches its items' places only and leaves every backup alone; it succeeds exactly when every item goes through, and then each keg is complete |
| Reinstall.SettleKeg | src/core/installer/install/reinstall_ops.rs:203-224 | a backup is dropped exactly when its replacement has a receipt, and otherwise put back |
| Reinstall.ReinstallFetched | src/core/installer/install/reinstall_ops.rs:167-235 | for any number of packages, in every state each old keg is in its place, in its backup or replaced; it succeeds exactly when every keg can be set aside, every item goes through and every package has one, and then each new keg has its item's files; no installed name is lost when putting back works |
| ManagedBlock.LastWriteWins | src/init.rs:188-227 | writing a block and then another equals writing the second alone exactly when no start marker dangles in front |
| ManagedBlock.IdempotentExactly | src/init.rs:188-227 | writing twice equals writing once exactly under the same condition |
| ManagedBlock.NeverDanglesAgain | src/init.rs:188-227 | what has been written once no longer dangles |
| ManagedBlock.SettlesAfterTwo | src/init.rs:188-227 | from the second write on nothing changes, whatever the configuration was |
| ManagedBlock.DanglingLosesText | src/init.rs:193-194 | behind a dangling marker the second write loses the text up to the block |
| ManagedBlock.UpsertManagedBlock | src/init.rs:204-227 | exactly the first complete block is replaced, of the current markers or else of the old ones, its line break included; without one the block is appended on a line of its own, or is the whole of a blank file; all other text stays |

## Left out

- HTTP, TLS, redirects, tokens, retry timing and progress: a network step yields bytes or fails.
- The file system itself: canonical paths, permissions, hard links and failing removals of single links are not part of this model; a symlink can be made exactly where nothing exists inside a real directory.
- SHA-256: a function from bytes to keys that the laws take as a parameter.
- JSON, SQLite and formula parsing: formulas, receipts and steps are values; the state database appears only as a step that can fail.
- Casks, native backends, the command line, search and self-upgrade: tables and plumbing.
- Linking around an installation, uninstalling, and the choice between store and network on reinstall: these string together steps modelled here, and their own failures only warn.
- The code of source builds: a build yields files, part of them, or nothing.
- Text files and load commands of a Mach-O file: only the string passes are modelled.
- Linking.Linker.LinkRecursive: requires that no symlink leads to the destination, which the linked directories and checked post-install targets meet; a destination behind a symlink would be written outside the prefix.
- Linking.Linker.CheckConflicts: requires the linked directories to be real directories, as they are set up; one that is itself a symlink is not covered.
- Linking.Linker.LinkKeg: the same.
- Linking.Linker.UnlinkKeg: the same.
- Linking.Linker.UnlinkRecursive: the destination is a directory, a file or missing; one that is itself a symlink is not covered.
- PostInstall.ApplyPostInstall: requires that no link of the plan lands on or above a directory the plan needs; the code does not check this, and such a plan writes through its own links into the keg. That kind clashes make it fail is not stated.
- PostPaths.PostInstallPath: paths are cut at slashes as on Unix; file names that are not text are not modelled.
- Dedup.StepKeeps: leaders run to completion; a leader dropped in the middle would leave its checksum in the map.
- Race.RaceIsSafe: the file system's own races within one rename are atomic; what two processes write to one temporary file is not modelled, since their names differ.
- Reinstall.ReinstallFetched: packages keep to formula directories of their own, and an item takes its own package's place, a free one or an empty directory; several installed versions of one package in the plan's way are not covered.
- Transactions.InstallBottle: retries after a corrupted download are not modelled; they repeat the step before it.
- Agreement of the state database with the Cellar: the code does not keep it across several installed versions.
