# Verification of wslkit

A Dafny model of the parts of wslkit that can lose data or that have to undo each other, with proofs
about them. `dafny verify dfyconfig.toml` checks all of it.

**Disk transactions** (`World`, `Undo`, `Relink`, `Move`, `Trash`, `Undelete`, `Snapshot`, `Rebuild`,
`Wait`, `Paths`). The machine is a state: files with their contents, the Lxss registry, the default
distribution. Every port call is a nondeterministic success or failure and is recorded with the state
before and after it. The operations are methods that make the same calls in the same order as the
program, with its undo stack, and are proved for every pattern of failures, those of the rollback
included: what holds in every state on the way, what each return leaves, and what must have come
before the calls that cannot be undone. A rollback is stated by its calls: the run ends with one call
for every entry on the stack, newest first (`Undo.Unwound`, `Undo.UnwoundCalls`), only the deletion of
a copy that WSL still holds is left out; the answers reported are theirs, and what they leave is stated
over those answers. An operation fails only for a reason: a call that failed, a question that was
refused, or an answer that is recorded.

**Compact cores.** Reading a VHDX file (`Vhdx`), copying a sparse file byte by byte (`SparseCopy`), the
settings file (`Toml`, `Settings`, `SettingsRoundTrip`), nested disk usage (`Usage`), managed blocks in
a user's files (`Managed`, `Proxy`), the two encodings of wsl.exe (`WslOut`), disabling lines of
.wslconfig (`WslConfig`, `WslConfigFile`) and the recovery ladder (`Guard`). Code that loops is a method
with the same loop, proved to compute a specification function; what the program promises is proved of
that function. `Text`, `Decimal` and `Words` hold what these share.

## What is assumed

- Files are told apart by `CanonicalPath`, with ASCII case folding. The contents of a disk are one
  token; what a running guest writes to its disk is not another token.
- A failed call changes nothing, except that a failed copy, export or file write may leave anything at
  its destination and a failed import may leave something new. `SparseCopy` proves of the copy itself
  when it leaves something. Directories are not part of the state; creating one may fail.
- Names of distributions are unique where an operation goes by name. `Rename` and `CopySparse` refuse a
  destination that exists. Asking whether a file exists may be answered yes when it does not, as the
  ports do for a path they cannot look at. Such answers, those about volumes, locks and what is running,
  what a listing held, and which directories were made are recorded, and so is that any other question
  about the registry was refused; the contracts say what depends on them. A folder is there if there is
  any file in it.
- Unregistering deletes the file at the registered path. An import in place makes a new key for the
  disk; an import of an archive makes a new key and a new disk with the archive's contents.
- The JSON manifests are read as they were written. A registration without a `Version` is one of WSL 2.

## Where the code does less than it promises

Each of these is proved, with the exact condition where there is one.

- A directory given in the extended-length UNC form, or with a second prefix behind the first, is
  written to the registry as a path to another place (`Paths.RepointNamesTarget`, with
  `UncDirectoryIsLost`). `Move` and `Relink` promise a registration that resolves for every other one.
- `Relink` and `Move` put a missing `BasePath` back as an empty one (`Relink.BasedReadsTheSame`).
- `Trash` across volumes: the undo of a copy deletes the copy although the original is gone, so a
  rollback loses the disk, exactly when that deletion works (`Trash.TrashLeaves` in the contract of
  `Trash.Trash`; `Trash.LostRun` is such a run), and likewise every other file (`Trash.Fate`). A file
  beside the disk that is named like the manifest is overwritten by it, and a rollback brings the
  manifest back in its place (`Trash.NamesakeFate`, `Trash.SiblingNoteIsOverwritten`).
- `Restore` with the snapshot folder of the second taken files the replaced disk in a stand-in folder,
  and deletes a disk it finds there when it is on another volume (`Snapshot.Blocked` in the contract of
  `Snapshot.FileAsSnapshot`); that may be the snapshot being restored (`Snapshot.StandInIsDeleted`).
- `Rebuild` trusts the answer that the archive exists. An export that claims success without leaving
  one, with a path that cannot be looked at, costs the distribution (`Rebuild.Misled` and
  `Rebuild.HollowExport` in the contract of `Rebuild.Rebuild`, `Rebuild.NoArchiveNoCopy`).
- `ReadAt` reads the last block to its end, past the size of the disk (`Vhdx.SplitRead`,
  `Vhdx.LastBlockIsNotClipped`); table entries from 2^63 on lead to a wrong place (`Vhdx.AddrIsExact`,
  `Vhdx.EntryWraps`); the number of blocks is wrong when the 64-bit sums wrap (`Vhdx.KeptExactly`,
  `Vhdx.KeptTooFew`).
- `CopySparse` leaves the whole copy in place when closing it fails, although it reports an error
  (`SparseCopy.CopySparse`).
- A hand-written header that spells the name of the table of disks with spaces makes `ParseConfig`
  index an empty table and panic (`SettingsRoundTrip.PanicsExactly`); the comment at
  internal/disk/config.go:30-32 says that no hand edit can do that.
- Disabling lines of .wslconfig makes lines longer: a disabled one by two characters, every one by a
  carriage return where line ends are mixed, and the message about a line that could not be read repeats
  it with every quote escaped. The first to reach a mebibyte stops the reader, and the file says less
  than before exactly if a setting that stays, or a new section, stands from there on
  (`WslConfigFile.Fix`, `FittingIsFirst`, `QuotesLoseTheRest`). What follows a line that was too long
  before is dropped from the new text.
- Entries with equal paths are counted once each (`Usage.CountedOnce`).
- A managed block that holds the end marker is not replaced by the next one (`Managed.MergeReplaces`).
  A reverted `/etc/environment` that was not there before is there and empty (`Proxy.RevertIsExact`).

## Model

| member | source | states |
|---|---|---|
| Paths.Canonicalise | internal/disk/paths.go:17-37 | the trimming loop computes the canonical spelling: extended-length prefix off, one kind of slash, trailing separators off (but not after a drive colon), lower case |
| Paths.TrailingIgnored | internal/disk/paths.go:17-37 | a separator at the end is no part of what a path names, if and only if it is not that of a root |
| Paths.SameNameSameFile | internal/disk/paths.go:17-37 | in one directory, two names are the same file if their canonical spellings agree |
| Paths.FoldedNameSameFile | internal/disk/paths.go:17-37 | two spellings of a file name that differ only in case are the same file |
| Paths.DifferentNames | internal/disk/paths.go:17-37 | files with different names are different files, whatever their directories, so nothing put beside a disk can be that disk |
| Paths.RepointNamesTarget | internal/disk/paths.go:41-82 | the BasePath written for a directory, whatever prefix the old one had, leads back to the file meant there if and only if the directory's extended-length prefix can be taken off and put back |
| Paths.RelinkNamesTarget | internal/disk/paths.go:41-82 | the same for a target file given by its full path: splitting it into directory and name and joining them again names the target |
| Paths.PrefixFollows | internal/disk/paths.go:41-82 | the value written has the extended-length prefix if and only if the old one had, or the directory has one more |
| Paths.UncDirectoryIsLost | internal/disk/paths.go:41-82 | a directory given in the extended UNC form is written as a path that names another file |
| Paths.DirOfFile | internal/disk/paths.go:41-82 | the directory of a file is what stands before its last separator; on a drive the root keeps its own |
| Paths.DirAndBaseRejoin | internal/disk/paths.go:41-82 | directory and base name, joined, are the path again |
| Paths.RepointedDisk | internal/disk/disk.go:61-89 | the disk a registration opens after BasePath and VhdFileName were rewritten is the target, including a registration that relies on the default file name |
| Paths.DefaultNameSameFile | internal/disk/disk.go:61-89 | a missing VhdFileName and one that spells the default name in any case lead to the same disk |
| World.Machine.Do | internal/disk/ports.go:18-173 | a call to the machine changes what its success says, or fails; every call is recorded with the state on either side |
| World.OnlyFileMeans | internal/disk/ports.go:18-173 | a failed copy or write leaves every other file and the registry as they were |
| Undo.UndoStack.Push | internal/disk/relink.go:16-40 | the entry goes on top of what is there |
| Undo.UndoStack.Unwind | internal/disk/relink.go:16-40 | runs every entry exactly once, newest first, past failures, answers which ones worked, and leaves the stack empty |
| Undo.AllOkIsUndone | internal/disk/relink.go:16-40 | an unwind in which everything works leads to the state the stack describes |
| Undo.PushInverse | internal/disk/relink.go:16-40 | pushing the inverse of what was just done keeps the state the stack leads back to |
| Undo.UnwindKeeps | internal/disk/relink.go:16-40 | an invariant that no entry's call can break holds in every state of an unwind, whichever of its calls fail |
| Undo.StepCalls | internal/disk/relink.go:16-40 | an unwind calls nothing but its entries |
| Undo.UnwoundCalls | internal/disk/relink.go:16-40 | the steps an unwind took are one call an entry, newest first, and its answers are what those calls answered |
| Undo.RenameInverse | internal/disk/relink.go:16-40 | renaming back undoes a rename |
| Undo.CopyInverse | internal/disk/relink.go:16-40 | deleting the copy undoes a copy |
| Undo.WriteInverse | internal/disk/relink.go:16-40 | writing the old value undoes a write of a value that was there |
| Undo.UndoneElsewhere | internal/disk/relink.go:16-40 | a file no entry is about does not influence what a rollback does to the others |
| Relink.Repoint | internal/disk/relink.go:122-158 | at every exit the stack holds one entry a value written and leads back to the registry as it was, but for a BasePath that was not there; only this registration's values are written; it succeeds if and only if every call works and the file name can be told, and then leaves the registration pointed at the target |
| Relink.BaseInverse | internal/disk/relink.go:122-158 | writing back a value that was read as absent leaves it there and empty |
| Relink.BasedReadsTheSame | internal/disk/relink.go:122-158 | such a rollback is exact if and only if there was a BasePath, and every value reads as before in any case |
| Relink.PointedNames | internal/disk/relink.go:122-158 | a repointed registration resolves to the target, for a directory that can be repointed |
| Relink.Relink | internal/disk/relink.go:85-119 | no file is ever touched; success means a start from the new path worked and the registration names the target; every other run ends with an unwind of the values it had written, after the start that failed if there was one, and if the unwind's calls work the registry is what it was; with no call failing it succeeds if and only if the name can be told; the rewritten BasePath has the extended-length prefix just if the old one had, for a target without a second one |
| Relink.RelinkReaches | internal/disk/relink.go:85-119 | for an absolute target file in a directory that can be repointed, the rewritten registration names that file |
| Move.BaseOfJoin | internal/disk/move.go:43-45 | the file keeps its name in the directory it goes to |
| Move.Move | internal/disk/move.go:133-225 | whatever fails, in every state the disk is at the source or, renamed, at the target, and nothing else has changed; the source is deleted last, only straight after a start that worked with the registration naming the copy; every return leaves what Leaves says, which for a directory that can be repointed is a registration that resolves to the disk; a run that fails after the file was put in place ends with an unwind of that and of every value written, call by call, and if its calls work files and registry are what they were; it succeeds if everything works; the rewritten BasePath has the extended-length prefix just if the old one had, for a directory without a second one; only the disk at the target is ever waited for, after the stop of what did not start |
| Move.Place | internal/disk/move.go:133-225 | the file is put in place by a rename or a copy that the first undo entry undoes exactly |
| Move.Carry | internal/disk/move.go:133-225 | from the file in place to the end, with the same guarantees, the unwind included |
| Move.Settle | internal/disk/move.go:133-225 | only a start that worked is followed by success, and only a copy that was asked for by deleting the original; a start that did not is followed by the unwind |
| Move.NotUp | internal/disk/move.go:133-225 | a start that failed is stopped first and followed by the unwind; a renamed file goes back only once the disk at the target was waited for and seen unlocked, and otherwise both file and registration stay at the target |
| Move.PutBack | internal/disk/move.go:133-225 | calls every entry there is, the newest first, but for the deletion of a copy that WSL still holds; it never loses the disk, and if its calls work it restores files and registry exactly |
| Move.PutBackKeeps | internal/disk/move.go:133-225 | no state of a rollback loses the disk, and no rollback deletes the original |
| Move.RegistryBack | internal/disk/move.go:133-225 | with everything but the deletion of a copy undone, the registry is what it was |
| Move.MoveReaches | internal/disk/move.go:133-225 | after repointing, the registration leads to the target, for a directory that can be repointed |
| Move.Deleting | internal/disk/move.go:133-225 | deleting the original leaves the disk at the target and the registration on it |
| Trash.ReadFullRegistration | internal/disk/trash.go:217-260 | every value is read again, and a value that is not there keeps what the listing said, so a registration read successfully is the one in the registry |
| Trash.AllStringsListed | internal/disk/trash.go:217-260 | the loop over the string values misses none |
| Trash.AllNumbersListed | internal/disk/trash.go:217-260 | the loop over the numeric values misses none |
| Trash.MoveOne | internal/disk/trash.go:267-320 | one question about the volume decides: a rename whose undo is exact, or a copy and then a deletion, which nothing undoes |
| Trash.MoveDisk | internal/disk/trash.go:267-320 | the disk is moved before anything else, and in every state it is where it was or in the trash; its original is deleted only after a copy, and it is copied only if it was said to be on another volume |
| Trash.MoveSibling | internal/disk/trash.go:267-320 | moving another file neither touches the disk nor spoils the rollback; success moves it with what it held, with one entry on the stack |
| Trash.MoveSiblings | internal/disk/trash.go:267-320 | the loop over what is listed beside the disk, until a file cannot be moved |
| Trash.MoveIntoTrash | internal/disk/trash.go:267-320 | on success the disk and every file listed beside it are in the trash with what they held, the moved names are exactly theirs, in order and different whatever their case, and no other file is different |
| Trash.UnwindRenamed | internal/disk/trash.go:267-320 | after renames only, a rollback never loses the disk, whichever of its calls fail |
| Trash.UnwindCrossed | internal/disk/trash.go:267-320 | after the disk was copied and its original deleted, the rollback loses it exactly if the deletion of the copy works |
| Trash.UnwindNotYet | internal/disk/trash.go:267-320 | before the original is gone a rollback cannot lose the disk, and after renames only it is exact |
| Trash.OneMoreGathered | internal/disk/trash.go:267-320 | a file that could be moved has a new name, and moving it disturbs none that moved before |
| Trash.Fate | internal/disk/trash.go:267-320 | a rollback decides on each file by its own entry: still in the trash if that failed, back if it was renamed, lost if it was copied |
| Trash.HaltedBack | internal/disk/trash.go:267-320 | the same when moving stopped halfway, where the last file may also never have left its place |
| Trash.Trash | internal/disk/trash.go:120-213 | unregistering is called only with nothing at the registered path, the disk in the trash and a manifest that describes it; until then the registry is untouched; every failure after something was moved ends with an unwind of one entry a file moved, call by call, and after a refused unregister with the removal of the manifest; every outcome keeps the disk, unless its original was deleted after a copy, which takes the answer that it is on another volume, and the rollback's deletion of that copy worked, and then it does not; when every file was said to be on one volume nothing is copied; what becomes of every other file is told by its volume and its own undo; after renames only, with no sibling named like the manifest, a rollback that works restores every file; if everything works it succeeds; the trash folder is made, and anything moved, only after the stop and a wait for the registered disk that saw it unlocked |
| Trash.SameVolumeKeeps | internal/disk/trash.go:120-213 | a disk not said to be on another volume is kept in every state of every run |
| Trash.Commit | internal/disk/trash.go:120-213 | the same for the part that changes things |
| Trash.WriteAndUnregister | internal/disk/trash.go:120-213 | a manifest that cannot be written is followed by the unwind of everything moved, and unregistering comes after it |
| Trash.UnregisterIt | internal/disk/trash.go:120-213 | a refused unregister is followed by the unwind of everything moved and by the removal of the manifest |
| Trash.RollBack | internal/disk/trash.go:120-213 | calls every entry there is; which rollbacks keep the disk, and which restore everything; it copies nothing and does not delete the original |
| Trash.BackOut | internal/disk/trash.go:120-213 | after a refused unregister: every entry is called, and then the manifest is removed |
| Trash.UnwindNoted | internal/disk/trash.go:120-213 | a rollback works the same with the manifest written |
| Trash.FilesRolledBack | internal/disk/trash.go:120-213 | every file has the fate its entry decides, and one called like the manifest comes back as the manifest that was written over it, if it was |
| Trash.NamesakeFate | internal/disk/trash.go:120-213 | a file called like the manifest: a rollback brings back what was written over it, and deletes it if it was copied |
| Trash.Gone | internal/disk/trash.go:120-213 | unregistering a distribution whose disk is elsewhere deletes no file |
| Trash.CopiedThenRolledBackIsLost | internal/disk/trash.go:120-213 | the states and answers of such a rollback lead to a state without the disk |
| Trash.LostRun | internal/disk/trash.go:120-213 | from any state with an ordinary disk, a whole run that loses it: said to be on another volume, copied, its original deleted, the manifest refused, the copy deleted by the rollback |
| Trash.SiblingNoteIsOverwritten | internal/disk/trash.go:120-213 | a sibling named like the manifest is overwritten by it and comes back as the manifest |
| Undelete.Resolve | internal/disk/disk.go:119-150 | an exact name wins over one that differs in case, which has to be the only one; no name means the default |
| Undelete.RestoreSettings | internal/disk/trash.go:490-512 | each of the settings is tried, one call each in their order, whatever became of the others, and the default mark last; success means that every call worked and that all three are back; nothing but those numbers is written |
| Undelete.Setting | internal/disk/trash.go:490-512 | one value put back leaves the others as they are |
| Undelete.Undelete | internal/disk/trash.go:454-487 | no file is touched; the new registration has the name and the disk where it lies, and on success the settings listed in the manifest; each outcome has its cause: the disk said not to be there, an import that failed, a listing refused or without the new key, a setting that could not be written; with none of these it succeeds |
| Undelete.OnlyTheFresh | internal/disk/trash.go:454-487 | looking the name up after the import finds the key the import made |
| Undelete.ListedIsFound | internal/disk/trash.go:454-487 | a new key that is listed is found by its name |
| Undelete.TrashThenUndelete | internal/disk/trash.go:454-487 | trashing and undeleting give back name, disk and settings, the default mark included, and change no other registration; what was trashed is found again unless the import or a setting fails, or the listing leaves it out |
| Undelete.SettingsComeBack | internal/disk/trash.go:454-487 | a 32-bit number survives the manifest |
| Snapshot.TakeSnapshot | internal/disk/snapshot.go:101-150 | the disk is never touched; with any file in the folder, an earlier snapshot or a note, nothing changes and it fails; success means a whole copy beside a note that names it; a failure after the copy was tried ends with its removal, and if that works there is none; nothing is touched before the distribution was stopped, if need be, and the registered disk waited for and seen unlocked |
| Snapshot.CopyAside | internal/disk/snapshot.go:101-150 | a copy that failed, or has no note, is removed, and the disk stays where it is |
| Snapshot.FreeDisk | internal/disk/snapshot.go:101-150 | the stop, if there is one, and a wait for the registered disk, whose last answer is the result |
| Snapshot.SnapshotsApart | internal/disk/snapshot.go:101-150 | the snapshots of two distributions, and two of one, share no file |
| Snapshot.StopForDisk | internal/disk/snapshot.go:164-177 | success means the distribution was stopped and its disk then seen unlocked; nothing changes |
| Snapshot.FileAsSnapshot | internal/disk/snapshot.go:432-473 | the replaced disk is where it was or in the new snapshot folder in every state, also when this fails; success means it is there with its note; with a disk in the way it does not succeed, and the run is one that Blocked lists |
| Snapshot.MoveInto | internal/disk/snapshot.go:432-473 | a rename, or a copy and then a deletion, never loses the file |
| Snapshot.StandInIsDeleted | internal/disk/snapshot.go:432-473 | a run in which the disk in the way is the snapshot being restored, and is deleted |
| Snapshot.Restore | internal/disk/snapshot.go:367-429 | in every state the replaced disk is live, aside or in the snapshot folder of the id that is reported, and the restored snapshot's own file is untouched unless it lies in that folder already; success means a start from the restored disk worked, and that the replaced disk is filed under the reported id with its note, or aside; a failed copy is removed and a failed start stopped, and both are followed by an unwind of what was done, call by call; a failure whose rollback works leaves everything as it was; if everything works it succeeds; before anything is moved the live disk is waited for, unless it was said not to be there, and it is moved aside just if it was said to be; what failed to start is waited for before the unwind |
| Snapshot.SwapIn | internal/disk/snapshot.go:367-429 | moving the live disk aside, with the way back on the stack; what follows goes that way back when it fails |
| Snapshot.CopyIn | internal/disk/snapshot.go:367-429 | a copy that fails is removed and the old disk put back, call by call |
| Snapshot.CopyBack | internal/disk/snapshot.go:367-429 | the removal of what the copy left and the unwind |
| Snapshot.BootAndFile | internal/disk/snapshot.go:367-429 | a start that fails is stopped and everything undone, call by call; one that works makes the old disk a snapshot |
| Snapshot.StartBack | internal/disk/snapshot.go:367-429 | the stop and the unwind after a failed start |
| Snapshot.FileIt | internal/disk/snapshot.go:367-429 | the replaced disk becomes the snapshot of the reported id or stays aside, and the restored one stays live |
| Snapshot.BackFromCopy | internal/disk/snapshot.go:367-429 | a rollback after a failed copy keeps both disks in every state and, if it works, is exact |
| Snapshot.BackFromStart | internal/disk/snapshot.go:367-429 | a rollback after a failed start keeps both disks in every state and, if it works, is exact |
| Snapshot.NamesApart | internal/disk/snapshot.go:367-429 | the five files a restore is about have different names |
| Rebuild.NoArchiveNoCopy | internal/disk/rebuild.go:174-289 | a run misled about the archive is left without a copy by the unregister |
| Rebuild.Rebuild | internal/disk/rebuild.go:174-289 | unregistering comes after an export that claimed success and the answer that its archive is there; in every state there is the first disk, the archive or a disk that a start has worked on, and the archive stays from the unregister until a start from the imported disk has worked, if and only if that answer was true; it is untrue only after an export that left no archive; what is said of the archive at the end is so; success keeps name, contents and settings; every call of a run is told by how it ends, the one import from the archive among them, which goes to the folder the registration named; the imported key is found if it is listed |
| Rebuild.Prepare | internal/disk/rebuild.go:174-289 | the first questions and the stop change nothing; ready exactly if none of it was refused, with the default mark as the registry has it |
| Rebuild.ExportFirst | internal/disk/rebuild.go:174-289 | nothing is destroyed before the archive was asked for and said to be there |
| Rebuild.ExportOnce | internal/disk/rebuild.go:174-289 | an export that fails is followed by removing what it left, and the disk is as it was |
| Rebuild.ReplaceIfThere | internal/disk/rebuild.go:174-289 | the distribution is unregistered if and only if the archive is said to be there |
| Rebuild.Replace | internal/disk/rebuild.go:174-289 | a refused unregister leaves everything and keeps the archive |
| Rebuild.Import | internal/disk/rebuild.go:174-289 | the archive is imported under the old name into the old folder, and the disk the new registration names then has its contents |
| Rebuild.MakeAgain | internal/disk/rebuild.go:174-289 | one import, from the archive to the folder the registration named; one that fails leaves the archive, and the run ends there |
| Rebuild.FindAgain | internal/disk/rebuild.go:174-289 | the registration found by the name is the import's, and it is found just if the listing worked and holds it; otherwise the archive is left |
| Rebuild.Settle | internal/disk/rebuild.go:174-289 | settings that cannot be put back leave the archive |
| Rebuild.TryOut | internal/disk/rebuild.go:174-289 | only a start that worked is followed by deleting the archive; a start that fails ends the run |
| Rebuild.TidyUp | internal/disk/rebuild.go:174-289 | the archive is deleted unless it is wanted, and what was not running before is stopped again |
| Rebuild.OnArchiveIsSafe | internal/disk/rebuild.go:174-289 | from the unregister on, a run whose every state has the archive is safe |
| Rebuild.StartedIsSafe | internal/disk/rebuild.go:174-289 | after a start that worked on the imported disk, a run is safe without the archive |
| Rebuild.Destroying | internal/disk/rebuild.go:174-289 | unregistering takes the key and the old disk and leaves the archive and the name free |
| Wait.WaitForDisk | internal/disk/compact.go:255-294 | one question who else is up, then lock questions about the disk at the path and no other; success only right after an error-free "not locked"; one question and no sleep when another distribution is up; otherwise refused only at or past the deadline; no more questions than the polls that fit into the timeout, rounded up, and one; the refusal names the others that are up, or says what timeout to try |
| Wait.EffectiveTimeout | internal/disk/compact.go:255-294 | the timeout is positive and at most an hour, and the one asked for if that is |
| Wait.OthersRunning | internal/disk/compact.go:320-332 | one question, answered with the running distributions that are not the one excluded, in order |
| Vhdx.ReadBAT | internal/vhdx/vhdx.go:324-372 | each refusal has its cause: a ratio of zero, a region too small for the entries, more than 2^25 of them, or a read that failed; otherwise the table kept is the payload entries in order, exactly one a block of the disk if and only if the 64-bit sums did not wrap; the last raw entry read is a payload entry; AllocatedBytes is the block size times the entries in state 6 |
| Vhdx.KeepPayload | internal/vhdx/vhdx.go:324-372 | the loop keeps, as entry k, raw entry k + k / ratio, and counts the states |
| Vhdx.LowestFirst | internal/vhdx/vhdx.go:324-372 | a raw entry is its eight bytes, the lowest first |
| Vhdx.Interleaving | internal/vhdx/vhdx.go:324-372 | one raw entry in ratio + 1 is a sector bitmap, and the others are the payload entries in order |
| Vhdx.TotalIsExact | internal/vhdx/vhdx.go:324-372 | so many raw entries hold all payload entries and end in one |
| Vhdx.KeptExactly | internal/vhdx/vhdx.go:324-372 | as many entries as blocks are kept if and only if the 64-bit sums fit |
| Vhdx.KeptTooFew | internal/vhdx/vhdx.go:324-372 | a disk whose sums wrap and whose table is accepted |
| Vhdx.Reader.ReadAt | internal/vhdx/vhdx.go:155-196 | whatever is returned is what the guest sees at those offsets; no error means all of it; a file read that failed is reported as one and as nothing else, and otherwise success comes exactly when the disk's own tables allow it; a partially present block is an error |
| Vhdx.Reader.ReadChunk | internal/vhdx/vhdx.go:155-196 | the part of a read in one block: the file's bytes if the block is fully present, zeros if it was never written |
| Vhdx.AddrIsExact | internal/vhdx/vhdx.go:155-196 | an entry leads to the megabyte its upper 44 bits name if and only if it is below 2^63 (section 2.5.1.2 of MS-VHDX) |
| Vhdx.EntryWraps | internal/vhdx/vhdx.go:155-196 | a fully present block behind the end of the file that is read from a wrong place in it |
| Vhdx.BytesAppend | internal/vhdx/vhdx.go:155-196 | a read split anywhere gives the same bytes |
| Vhdx.SplitRead | internal/vhdx/vhdx.go:155-196 | a read that works as a whole works in two parts if and only if the second starts inside the disk |
| Vhdx.LastBlockIsNotClipped | internal/vhdx/vhdx.go:155-196 | a disk that can be read past its end, but not from there |
| Vhdx.NoPartialBlock | internal/vhdx/vhdx.go:155-196 | a read that works touches no partially present block and stays inside the table |
| Vhdx.PresentBytes | internal/vhdx/vhdx.go:155-196 | the bytes of a fully present block are the file's, at one address after another |
| Vhdx.AbsentBytes | internal/vhdx/vhdx.go:155-196 | the bytes of a block that is not present are zeros |
| SparseCopy.AllocatedRanges | internal/disk/copy_windows.go:110-139 | the paged listing ends and lists every allocated byte and no other, in order, unless the file system says that there is more and lists nothing |
| SparseCopy.PagesJoin | internal/disk/copy_windows.go:110-139 | one page after another lists what both list |
| SparseCopy.CopySparse | internal/disk/copy_windows.go:151-247 | a file that is there is left alone; it fails if and only if a call to the source or the target did, or the access list could not be read; success leaves the source's bytes, with the source's holes, whatever the reads come back short with, unless the listing of ranges claimed more and gave nothing; a failed or cancelled copy is deleted, once, and is there only if that failed; a file that does not close is left, whole; progress only rises and ends at the total |
| SparseCopy.CopyChunk | internal/disk/copy_windows.go:151-247 | a chunk is copied whole or not at all |
| SparseCopy.CopyRange | internal/disk/copy_windows.go:151-247 | a range is copied to its end, under any pattern of short reads |
| SparseCopy.CopyRanges | internal/disk/copy_windows.go:151-247 | all ranges: the source's bytes in them, zeros and holes elsewhere |
| SparseCopy.Fill | internal/disk/copy_windows.go:151-247 | made sparse before it is given its length, so that the holes take up no space |
| SparseCopy.TotalOf | internal/disk/copy_windows.go:151-247 | the total of the ranges, which fits into 64 bits |
| SparseCopy.ImageIsSource | internal/disk/copy_windows.go:151-247 | with every allocated byte listed, the copy is the source byte for byte |
| SparseCopy.TotalFits | internal/disk/copy_windows.go:151-247 | ranges in order and apart add up to no more than where they end |
| Toml.QuoteUndone | internal/disk/config.go:295-326 | unquote of quote is the string, for every string |
| Toml.Quote | internal/disk/config.go:295-326 | escapes the characters that would end the string |
| Toml.Unescape | internal/disk/config.go:295-326 | the loop over the escapes |
| Toml.SplitTOMLList | internal/disk/config.go:239-293 | splits at the commas outside quoted strings |
| Toml.ItemsSkipEscaped | internal/disk/config.go:239-293 | nothing in a quoted string ends it or the item |
| Toml.SplitFindsItems | internal/disk/config.go:239-293 | the split of a written list finds its strings again, whatever commas, quotes and backslashes are in them |
| Toml.ListReadsBack | internal/disk/config.go:239-293 | a written list reads back as its strings |
| Settings.SetWhatGetPrints | internal/disk/config.go:90-152 | setting what was printed for any setting of a valid configuration stores that setting |
| Settings.ParseConfig | internal/disk/config.go:174-235 | reads line after line up to the first that is refused or makes it panic, and says which |
| Settings.LastLineCounts | internal/disk/config.go:174-235 | a setting is what the last line about it says, and its default if no line is about it |
| Settings.UnknownIsSkipped | internal/disk/config.go:174-235 | a line with a key that is not known might as well not be there |
| Settings.DirsAre | internal/disk/config.go:174-235 | the folders of a list are its parts without the space around them, and a blank part is none |
| SettingsRoundTrip.ParsedIsValid | internal/disk/config.go:174-235 | whatever file is read, the configuration is one that can be stored |
| SettingsRoundTrip.SpacedHeaderPanics | internal/disk/config.go:174-235 | a section header that spells the name of the table of disks with spaces around it, and any setting after it, make the parser panic if and only if the table has no entry yet |
| SettingsRoundTrip.PanicsExactly | internal/disk/config.go:174-235 | a file makes the parser panic if and only if it is read up to such a header, which comes before any entry of the table, and the next line that says anything is a setting that can be read |
| SettingsRoundTrip.PanicHasCause | internal/disk/config.go:174-235 | the same from any line on, with the lines it comes from |
| SettingsRoundTrip.EmptyTablePanics | internal/disk/config.go:174-235 | the converse, from any line on |
| Settings.RenderConfig | internal/disk/config.go:333-388 | the text is the lines of the rendering, each ended |
| Settings.RenderDisk | internal/disk/config.go:333-388 | the block of one attached disk |
| SettingsRoundTrip.RenderingReads | internal/disk/config.go:333-388 | the lines written for a valid configuration, read from the defaults on, give it |
| SettingsRoundTrip.DiskReads | internal/disk/config.go:333-388 | the block written for a disk adds that disk to the table |
| SettingsRoundTrip.RenderingLines | internal/disk/config.go:333-388 | every line written is one line |
| SettingsRoundTrip.RoundTrip | internal/disk/config.go:333-388 | writing a configuration and reading the file gives it back if and only if it is valid: no line breaks, scan directories not empty, trimmed and without a semicolon, a timeout of at most an hour, no negative partition |
| SettingsRoundTrip.RewriteKeeps | internal/disk/config.go:333-388 | rewriting any file that can be read keeps what it says |
| Decimal.FormatParses | internal/disk/config.go:333-388 | a printed number reads back as itself |
| Decimal.ReadsNumerals | internal/disk/config.go:140-143 | just the numerals up to the largest value are read, with zeros in front or not, each as its number |
| Decimal.ReadsSigned | internal/disk/config.go:53-54 | a sign is one character in front of a numeral, and the least value is one further from zero |
| Usage.ContainsIsAncestor | internal/disk/usage.go:246-254 | the test on strings is proper ancestry of paths, name by name |
| Usage.Comparable | internal/disk/usage.go:246-254 | of two directories that hold the same file, one is the other or holds it |
| Usage.AccountForNesting | internal/disk/usage.go:259-279 | marks, in place, exactly each entry that has others inside it, and adds up those inside no other |
| Usage.SumIsUnion | internal/disk/usage.go:259-279 | the sum is the size of the union of the entries' subtrees plus every counted entry with the path of an earlier one |
| Usage.CountedOnce | internal/disk/usage.go:259-279 | each byte is counted once if and only if no counted entry that takes up space repeats a path |
| Usage.DistinctIsExact | internal/disk/usage.go:259-279 | for distinct paths the sum is the size of the union |
| Usage.OrderIsFree | internal/disk/usage.go:259-279 | the order of the entries does not matter |
| Usage.Attribute | internal/disk/usage.go:320-346 | adds up the entries at or under a directory that are in no other of them, and names the largest |
| Usage.AtMostTheDirectory | internal/disk/usage.go:320-346 | no more of a directory is explained than there is |
| Managed.OwnIs | internal/proxy/files.go:203-224 | the user's lines are what stands before a block and after its end; without a block, all of the text, its last line ended |
| Managed.OnlyBreaksGo | internal/proxy/files.go:203-224 | of a block all the line breaks at its end are taken off, and nothing else |
| Managed.MergedParts | internal/proxy/files.go:203-224 | a merged file is the user's lines around one block if and only if the block does not hold the end marker |
| Managed.MergeReplaces | internal/proxy/files.go:203-224 | merging b into what merging a gave is merging b, if and only if a does not hold the end marker |
| Managed.MergeTwice | internal/proxy/files.go:203-224 | merging the same block again changes nothing, under the same condition |
| Managed.EndMarkerInBlock | internal/proxy/files.go:203-224 | a block for which it does not hold |
| Managed.UnmergeRestores | internal/proxy/files.go:228-238 | unmerging a merged file gives the user's lines back, with the last line ended, if and only if the block does not hold the end marker |
| Proxy.PlanApply | internal/proxy/apply.go:47-68 | the change for every file, worked out from what is there, writing nothing; it fails just if there is no file or one cannot be read |
| Proxy.AppliedHolds | internal/proxy/apply.go:47-68 | after applying, every file that is wslkit's own holds its content, every other one the lines that are the user's around a block with its content, and all else is as it was |
| Proxy.SecondPlanIsIdle | internal/proxy/apply.go:47-68 | planning again after applying finds nothing to do if and only if no block holds the end marker |
| Proxy.PlanRevert | internal/proxy/apply.go:74-102 | the changes that take wslkit's part out of each file, working from the paths alone; it fails just if a file cannot be read |
| Proxy.ApplyThenRevert | internal/proxy/apply.go:74-102 | applying and reverting, with whatever settings, deletes wslkit's own files, gives the user's text of the others back and leaves everything else alone |
| Proxy.RevertIsExact | internal/proxy/apply.go:74-102 | the files are restored exactly if and only if wslkit's own were not there and the others were, without a block and with the last line ended |
| Proxy.Apply | internal/proxy/apply.go:108-135 | carries out the changes in order, skipping those that change nothing; a failure leaves those before it done; it fails just if a command does |
| Proxy.AtChange | internal/proxy/apply.go:108-135 | each path ends as the one change about it says |
| WslOut.Decode | internal/wslout/wslout.go:24-59 | ends on every stream, with the decoding of its lines and of its rest |
| WslOut.Utf16Line | internal/wslout/wslout.go:24-59 | the length of the first line, its line feed included |
| WslOut.DecodeUTF16 | internal/wslout/wslout.go:24-59 | two bytes a unit; half a unit at the end is dropped |
| WslOut.OnlyNulsGo | internal/wslout/wslout.go:24-59 | the NULs at the end of a decoded text go, and nothing else |
| WslOut.MixedStream | internal/wslout/wslout.go:24-59 | ended lines in UTF-16LE without NUL, followed by NUL-free valid UTF-8, decode to the two texts one after the other |
| WslOut.Utf16Undone | internal/wslout/wslout.go:24-59 | decoding undoes encoding, surrogate pairs included (section 2 of RFC 2781) |
| WslOut.TextIsValid | internal/wslout/wslout.go:24-59 | the encoding of a text is valid UTF-8 (section 3 of RFC 3629) |
| WslOut.ValidIsText | internal/wslout/wslout.go:24-59 | valid UTF-8 is the encoding of some text |
| WslConfigFile.Parse | internal/wslconfig/wslconfig.go:33-76 | reads the lines the scanner gives: cut at the line feeds, one carriage return off, up to the first of a mebibyte |
| WslConfigFile.BytesAreUtf8 | internal/wslconfig/wslconfig.go:33-76 | the length of a line is that of its UTF-8 encoding |
| WslConfigFile.Scan | internal/wslconfig/wslconfig.go:33-76 | the scanner, line after line |
| WslConfig.ParseLines | internal/wslconfig/wslconfig.go:33-76 | every line is an entry of the section it stands in, a header, a problem or nothing, and each section is listed where it first appears |
| WslConfig.SameValue | internal/wslconfig/wslconfig.go:33-76 | a setting has the same value with an inline comment behind it, or in quotes, or both |
| WslConfig.HeaderRead | internal/wslconfig/wslconfig.go:33-76 | a line in brackets starts the section of that name, in lower case, whatever follows |
| WslConfig.EntryRead | internal/wslconfig/wslconfig.go:33-76 | a line with a key and a text is an entry with that key and the text's value |
| WslConfig.Get | internal/wslconfig/wslconfig.go:79-88 | the last value of a key, without regard to case |
| WslConfig.Lint | internal/wslconfig/lint.go:43-124 | the lines to be disabled are exactly those that could not be read, entries that mean nothing on this host, and the last entry of a key that needs bridged networking when that is off; the reason of each is told in the words for its first cause, whatever the words |
| WslConfig.ModeIs | internal/wslconfig/lint.go:43-124 | the networking mode is the last one given for WSL 2, and only without one the last experimental one |
| WslConfig.WhyIff | internal/wslconfig/lint.go:43-124 | a line has a cause just when it is to be disabled |
| WslConfig.LintIsFair | internal/wslconfig/lint.go:43-124 | no such line starts a section |
| WslConfig.CommentOut | internal/wslconfig/lint.go:265-284 | every flagged line becomes two comments, the first with the reason of its first finding; the others stay |
| WslConfig.CommentOutKeepsMeaning | internal/wslconfig/lint.go:265-284 | reading the result gives the same sections and exactly the entries that were not flagged, in order, and every key no finding is about has the value it had |
| WslConfig.DisabledKeeps | internal/wslconfig/lint.go:265-284 | the same for any part of a file, in any section |
| WslConfig.DisabledSections | internal/wslconfig/lint.go:265-284 | the sections stay as they are |
| WslConfig.NotAHeader | internal/wslconfig/lint.go:265-284 | a line with an entry or a problem starts no section |
| WslConfigFile.Fix | internal/fix/actions/wslconfig.go:24-50 | for any wording of the reasons: nothing is written if no line is to be disabled; otherwise reading the new text gives the sections and the settings, in order, that the first lines of the file say without the disabled ones, up to the first line that grows too long for the scanner; it gives those of the whole file if and only if no line from there on holds a setting that stays or starts a section for the first time, and then every key no finding is about has the value it had |
| WslConfigFile.FittingIsFirst | internal/fix/actions/wslconfig.go:24-50 | the lines before that one do not grow too long, and it does: with the carriage return it is written with if line ends become that, the two characters put before a disabled line, and the nine before a reason |
| WslConfigFile.DisabledReads | internal/fix/actions/wslconfig.go:24-50 | what is read back of a file with disabled lines is what the lines that fit say without them |
| WslConfigFile.LostIff | internal/fix/actions/wslconfig.go:24-50 | settings and sections of the first lines are those of all if and only if nothing is lost after them |
| WslConfigFile.RewrittenReads | internal/fix/actions/wslconfig.go:24-50 | lines joined with either line end, ended again if the file was, are read again up to the first of a mebibyte, its end counted, and say what they said |
| WslConfigFile.RewrittenSays | internal/fix/actions/wslconfig.go:24-50 | so the new file has their sections, settings and last values |
| WslConfigFile.EndedAsBefore | internal/fix/actions/wslconfig.go:24-50 | the last line is ended if and only if it was, unless it is blank |
| WslConfigFile.StopsAtLongLine | internal/fix/actions/wslconfig.go:24-50 | nothing from a line of a mebibyte on, its end counted, is read back |
| WslConfigFile.DisabledTooLong | internal/fix/actions/wslconfig.go:24-50 | any line that can just be read is too long once it is disabled, and so is one whose reason repeats it; nothing from there on is read back |
| WslConfigFile.LongerEnd | internal/fix/actions/wslconfig.go:24-50 | where line ends are mixed, a line that stays may grow too long by its new end |
| WslConfigFile.StrayLosesTheRest | internal/fix/actions/wslconfig.go:24-50 | a first line that could not be read takes everything after it along if the message about it is too long |
| WslConfigFile.QuotesLoseTheRest | internal/fix/actions/wslconfig.go:24-50 | such a file, whatever follows: 600,000 quotes, each escaped by the message |
| Guard.Cap | internal/guard/guard.go:211-223 | keeps the rungs the options permit, in order |
| Guard.PermittedIs | internal/guard/guard.go:211-223 | the permitted ladder rises and holds exactly the rungs allowed by the cap and by administrator rights |
| Guard.Decide | internal/guard/guard.go:141-201 | a ladder only with evidence: the service hung, or something was recorded as running and the distribution does not answer; the clock only if it is known to be out |
| Guard.Check | internal/guard/run.go:77-120 | a probe asks in order and no further than needed, and the report holds every answer: of the service, of the default distribution and its name, and of its clock |
| Guard.ProbeIsQuiet | internal/guard/run.go:77-120 | a probe changes nothing |
| Guard.Run | internal/guard/run.go:127-188 | the rungs tried are the first of the permitted ladder, each after a probe that found WSL not answering, up to the first that worked; Recovered says what the last probe found; a dry run changes nothing; the clock is stepped exactly if it is no dry run and the first probe read one that is out by more than the threshold |
| Guard.ClimbLadder | internal/guard/run.go:127-188 | one rung and one probe at a time, until a probe is healthy |
| Guard.ClimbMutates | internal/guard/run.go:127-188 | the changes of a climb are one call a rung, in order |
| Guard.RunChangesOnly | internal/guard/run.go:127-188 | all a run changes is the clock, if it steps it, and one call a rung tried; without administrator rights the service is neither killed nor restarted |
| Guard.TakeRung | internal/guard/run.go:191-203 | each rung is its one call |

## Left out

- Planning (`PlanMove`, `PlanRelink`, `PlanTrash`, `PlanRestore`, `PlanRebuild`) and the wording of plans, progress and errors: what planning checks is required of the callers of the operations.
- Listing, finding and purging trash and snapshots, `Compact` around its wait, and rendering: single-branch code around the parts that are modelled.
- Parsing of VHDX headers, region tables and metadata, and their checksums: only the block allocation table and the reads are modelled.
- Rendering of the proxy files' contents, the scripts run in the guest and base64: files are parameters, with or without a block.
- Lint findings that disable no line, the versions and builds in the key table, the words of the findings and their sorting by line: the table and the wording are parameters, any table and any words without a line break, and of two reasons a line shows the first found.
- Concurrent change of the files or the registry by another process while an operation runs.
- Move.Move: promises that the registration resolves to the disk only for a directory that can be repointed, since the code does not manage it for others; that the disk is kept is promised for all.
- Relink.Repoint: a rollback is exact but for a BasePath that was not there, which the code puts back empty.
- Snapshot.Restore: with no live disk to put back, a copy that failed and could not be cleaned up may leave part of itself.
- Undelete.Undelete: for a name that is free, as the operation promises; what WSL does with a name that is taken is not part of this model.
- Vhdx.Reader.ReadAt: whether the file itself can be read is not predicted, only reported.
- SparseCopy.CopySparse: the source does not change during the copy, and the access list carried over is one question that may fail.
- Settings.ParseConfig: text is Unicode characters, so bytes that are not UTF-8, which the list splitter replaces, are not modelled; a refusal carries its line number and not its words.
- Settings.RenderConfig: the comments in the file are a parameter, any single lines that start with `#`.
- Usage.AccountForNesting: the sizes of the entries are those of one unchanging tree; du is run once an entry, on a tree that may change.
- WslConfigFile.Parse: text is Unicode characters; bytes that are not UTF-8 are not modelled.
- WslConfig.Get: case folding is the ASCII one.
- Guard.Run: the log, the duration and the texts of errors are not modelled.
