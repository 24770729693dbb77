# stormbootx, modelled and proved in Dafny

stormbootx is a UEFI network boot loader. This project models the parts of it
whose mistakes would cost most, and proves what they promise:

- the crash-safe self-update of a boot medium (`src/selfupdate.rs`,
  `src/manifest.rs`): the state file, the manifest, `apply`, `revert`,
  `at_start`, `mark_good`, the decisions of `try_update`, and any number of
  starts with a power cut or a failed operation at every step;
- the GPT and FAT reader (`src/esp.rs`, served by `src/espfs.rs`, fed by
  `src/blockio.rs`): the block adapter, two sector caches, FAT12/16/32 chains
  with hints and coalesced runs, long names, directories, paths, and the
  checksummed partition table;
- four self-contained algorithms: streaming SHA-256 (`src/sha256.rs`), the PCI
  bus walk (`src/connectx.rs`), chunked bodies undone in place
  (`src/manifest.rs`), and the command channel's JSON and HTTP framing
  (`src/command.rs`).

`dafny verify dfyconfig.toml` checks all of it.

## How it is modelled

Code that changes state step by step is a class or a method here as it is
there; code that only computes is a function. Every such method is tied to a
function or predicate of the values before and after it, and the laws are
lemmas about those.

**The medium.** A `Medium` is a map from case-folded paths to contents, and the
text of the state file. `Vol.Delete`, `Rename`, `Write` and `WriteState` are its
only steps. `seen` is the set of all media a power cut could leave so far, so
"wherever it is cut off" is "for all media in `seen`". Any operation may fail,
with or without having had its effect; `faults` counts the failures, and what is
promised only when nothing fails is said under `faults == old(faults)`.

**A boot.** `Session.Machine` is one boot of one machine over its medium.
`Lifecycle` is what a medium and its machine remember, and the events that change
it, with the laws that hold over every run of events. An event that depends on
the machine's minimum says whether that could be read (`unread`).
`Lifetime.WholeLife` runs the machine day by day: a `Day` says what is offered and
served, whether the boot attaches, whether the power stays on, and what other media
make of the machine's minimum afterwards; each boot is cut off anywhere or not. It
keeps the medium's `Past`: at every step the event, how it came about (`How`: cut
off, failed, the update it had planned, and its day), and the whole medium it left.
What holds of every past is then proved of every life. `Past.Valid` ties what each
step does to the day's offer, and what can be put back at each moment to the files
there were when the last offer was taken and to the bodies of its update: a listed
name holds the old contents, the new ones, or nothing.

**The disk.** `Disks.Device` is the firmware's block device: whole blocks, or an
error, after which the buffer holds anything. `Disks.Disk` is either adapter over
it. It counts the reads that stray outside the range it was given, and every
method that reads through a mounted volume leaves that count as it was.
`fat.img` is the disk as a byte sequence; chains, file contents, directory
records and links are functions of it, and every read equals them.

**Where each module comes from.**

| file | models |
|---|---|
| State.dfy, Paths.dfy, Text.dfy, Hex.dfy | `State`, `path_ok`, and the string operations of Rust they use |
| Manifest.dfy, ManifestText.dfy, Version.dfy | the signed manifest, and the decisions on it by what its versions and canaries say |
| Medium.dfy, Vol.dfy | paths, the medium, and what an interrupted update can leave |
| SelfUpdate.dfy, Offer.dfy | `revert`, `apply`, and the middle of `try_update` |
| Session.dfy, Lifecycle.dfy, Lifetime.dfy | boots, events, and whole lives |
| Overlong.dfy, Mishaps.dfy | inputs at which the self-update does not do what one would expect |
| Disk.dfy, Arith.dfy, Bytes.dfy | the block adapters and the arithmetic |
| FatLayout.dfy, FatChain.dfy, Fat.dfy | mounting, chains, reading files |
| Little.dfy, Geometry.dfy, FatTable.dfy, Written.dfy | a volume as it is written: boot sector, areas, allocation table, files and directories |
| Lfn.dfy, Dir.dfy, Lookup.dfy, EspFs.dfy | long names, listings, paths, open files |
| Record.dfy, Names.dfy | directory records as they are written, and which names lead to them |
| Crc.dfy, Gpt.dfy, GptTable.dfy | the checksum, the partition table, and one as it is written |
| Sha256.dfy, ShaVectors.dfy, ShaExample.dfy | the hash, its constants, and the standard's first example |
| Connectx.dfy, ConfigSpace.dfy, Wire.dfy, Utf8.dfy, Dechunk.dfy, Json.dfy, Http.dfy | the other self-contained algorithms |

## What the proofs found

- **A bus can be missed.** The PCI walk drops a bus when its stack of 256 is
  full (src/connectx.rs:183). `Connectx.FullStackMissesABus` is a configuration
  space in which a reachable bus is never scanned, and
  `Connectx.CompleteExactlyWhen` says exactly when the walk is complete. It always
  is with at most 257 bridges on the reachable buses
  (`Connectx.FewBridgesIsComplete`); that space has 258
  (`Connectx.OneMoreIsTooMany`).
- **The machine's minimum can go down.** A failed read of `StormBootMinSerial`
  counts as 0 (src/selfupdate.rs:269-275), when an offer is judged and when a set
  passes. `Lifecycle.MinimumCanFall` is a run in which serial 5 replaces 7.
  An event of this medium lowers the minimum exactly when it is a pass whose read
  failed, whose write took effect and whose serial is below it
  (`Lifecycle.MinimumFallsExactlyWhen`), and a run keeps it exactly when it has
  none of these and no other medium lowers it (`Lifecycle.MinimumKeptExactlyWhen`).
  On a machine that starts from one medium, one failed read is not enough: the
  serial must have been taken unread too (`Lifecycle.BelowOnlyIf`). Where another
  medium passes a higher serial while one is on trial here, one is
  (`Lifecycle.OneFailedReadCanDo`).
- **A set put back badly is still recorded as put back.** `at_start` writes the
  given-up record even when `revert` reported failures
  (src/selfupdate.rs:132-148), so the files it could not put back are no longer
  listed; and `apply` writes the old record whatever taking its swap back came to
  (src/selfupdate.rs:535-537). `Mishaps.GivenUpAndLost` and
  `Mishaps.TakenBackAndLost` are lives in which that leaves a medium without its
  bootloader. With nothing failing in that start the old set is always back, and
  otherwise it is exactly when nothing of the update is left
  (`Lifetime.GivenUpIsRestored`).
- **A set that is not in place can pass.** `mark_good` does not look whether the
  swap finished. In `Mishaps.SetPassesThatIsNotThere` the power went during the
  swap; in `Mishaps.SetPassesThatWasTakenBack` the swap failed, all of it was taken
  back, and the old record could not be written. Whatever happened, the manifest's
  whole set is there exactly when the names say so: each changed file is there,
  with its `.prev` unless it was new, and each retired one is not
  (`Offer.WholeExactlyWhen`). What passes is always what the step that took it left
  (`Lifetime.PassIsWholeExactlyWhen`): if that step did not fail, the path swapped
  last tells, and if it was not cut off either, the set is whole.
- **A list over the state's space stops an update late.** `write_state` refuses a
  text over its buffer after the `.new` files are written; they stay. `Apply`
  always fails then, and otherwise only when an operation did.
  `Overlong.CannotBeRecorded` is an accepted manifest of 32 empty files that does
  it.
- **The last clusters of a huge FAT32 volume cannot be reached.** `mount` takes any
  cluster count, but a link to one of the last eight 28-bit numbers is an end mark
  (src/esp.rs:546-551). `Geometry.ClustersCanBeLinked` says so exactly, and that it
  cannot happen on FAT12 or FAT16.
- **A failure before the swap does not leave all as it was.** The module's own
  comment (src/selfupdate.rs:36-37) says it does. No listed file has changed then,
  but the `.prev` copies dropped by that time stay dropped, and `.new` files may
  stay (`SelfUpdate.Quiet` says exactly that, for `SelfUpdate.Apply`,
  `Session.Machine.TryUpdate` and every past).
- **A comment that says more than the code does.** The comment on `State::parse`
  (src/manifest.rs:359-361) says a failed serial is also in the machine's
  variable. Only passed serials are written there; the model follows the code.
- **Long-name part 0.** A continuation entry numbered 0, when part 0 would be
  next, makes `Lfn::push` count below zero (src/esp.rs:925). The model stops
  there with an error of its own, `Underflow`. Any complete name followed by such an
  entry with its checksum does it (`Dirs.PartZeroBreaks`), for one the two records
  of `Dirs.PartZeroBreaksOff`.

## Model

| member | source | states |
|---|---|---|
| UpdateState.CheckPath | src/manifest.rs:273-303 | decides exactly the paths an update may write: the length, the components and their letters, the reserved suffixes, and the four places, for every string |
| Paths.AllowedExactlyWhen | src/manifest.rs:273-303 | for every string: an update may write it if and only if it has at most 128 characters and is, in any case, `startup.nsh`, `EFI/BOOT/` and a file, `stormboot/` and a file that is neither the state nor `local.conf`, or `stormboot/`, a directory and a file, a file being a plain name that ends in neither `.new` nor `.prev` |
| Paths.SuffixExactlyWhen | src/selfupdate.rs:442 | a name is a loadable driver's, or a sibling's, exactly when it is something and then the ending, in either case |
| UpdateState.PathIsAWord | src/manifest.rs:273-303 | an accepted path has no whitespace and does not start with `+`, which is what lets a list of them be kept on one line |
| UpdateState.NotASiblingName | src/manifest.rs:290-294 | no accepted path ends, in any case, in `.new` or `.prev`, the names the update itself uses |
| UpdateState.Parse | src/manifest.rs:362-384 | the loop over lines gives the state the text stands for, unknown lines and unreadable values included |
| UpdateState.Render | src/manifest.rs:398-410 | leaves the whole text and its length exactly when it fits the buffer, and otherwise says so: a cut text is never taken for a whole one |
| UpdateState.Buf.WriteStr | src/manifest.rs:418-428 | appends whole or not at all |
| UpdateState.RoundTrip | src/manifest.rs:362-410 | parsing what was rendered gives the state back, for every state the code keeps |
| UpdateState.AnyTextIsReadable | src/manifest.rs:359-384 | whatever the file holds, what is read from it is a state that can be written and read again |
| UpdateState.WrittenStands | src/manifest.rs:362-410 | any state that can be read, written and read again, is the same state, but for `prev` where no trial runs |
| UpdateState.ChangedIsTheList | src/manifest.rs:387-395 | `changed` gives back exactly the (path, was-new) list that was joined into `files` |
| UpdateState.TrialRoundTrip | src/selfupdate.rs:509-519 | the trial state `apply` writes is read back whole, and its list is the list of what was about to change |
| UpdateState.TextOfATrial | src/manifest.rs:398-410 | the text of a state on trial, line by line with its keys |
| UpdateState.ShortWithoutList | src/selfupdate.rs:740-744 | a record without a file list, such as a pass and a start that gives up write, always fits the space it is written in |
| Manifests.Parse | src/manifest.rs:193-266 | the line-by-line reader accepts and refuses exactly what the manifest's grammar does, with the same first error |
| Manifests.ParsedIsAccepted | src/manifest.rs:193-266 | every accepted manifest has a serial, a version and the bootloader, at most 32 files of at most 8 MB and 24 MB together, all writable paths, no two the same file to FAT |
| ManifestText.AcceptedComesBack | src/manifest.rs:193-266 | and every manifest with those properties, written out, is accepted and read as itself |
| ManifestText.HexTextReads | src/manifest.rs:306-328 | any bytes printed as hex digits are read back by the digit loop |
| ManifestText.AnyCaseIsTheDigest | src/manifest.rs:306-327 | in capitals, small letters or both |
| Text.ParsesExactlyWhen | src/manifest.rs:510-514 | a number is read if and only if it is digits, whatever zeros lead, with a plus sign or none, and is in range |
| Manifests.UpdateExactlyWhen | src/manifest.rs:471-495 | a serial is taken if and only if no trial runs, it is above all this medium ran or saw fail, not below what the machine passed, and meant for this machine |
| Versions.VersionsInOrder | src/manifest.rs:508-524 | of two release numbers, with any leading zeros and whatever is built or pre-released of them, the offered one is declined as older if and only if its value, three 64-bit digits, is below the running one's and no downgrade is asked for |
| Versions.TakenExactlyWhen | src/manifest.rs:508-524 | for any two texts: a version is taken if and only if both are release numbers and it is no step back, or a downgrade is asked for |
| Versions.UnreadableExactlyWhen | src/manifest.rs:508-524 | nothing can be said if and only if one of the two is no release number |
| Versions.PrintedSays | src/manifest.rs:508-515 | every three 64-bit numbers printed with dots between them are that release, with any `-` or `+` after them |
| Versions.MeantExactlyFor | src/manifest.rs:149-152 | a manifest is for exactly the machines its canary list has, but for the case of letters; for all if it has none, and for no machine without an address if it has one |
| BootMedium.ListedPathsAreApart | src/manifest.rs:289-293 | for any list of distinct accepted paths, no path, `.new` or `.prev` of one is a path, `.new` or `.prev` of another |
| BootMedium.StateIsApart | src/manifest.rs:273-303 | nor is any of them, in any case, the file the update's state is kept in |
| BootMedium.RevertRestores | src/selfupdate.rs:160-178 | from anything an interrupted update can leave, `revert` gives every listed path its contents from before, or its absence, removes its `.new` and `.prev`, and touches nothing else |
| BootMedium.OneRestoredMedium | src/selfupdate.rs:160-178 | that leaves one medium, not one of several |
| BootMedium.RevertsAgree | src/selfupdate.rs:129-178 | from any two points of the same interrupted update, `revert` ends in the same files |
| BootMedium.RestoredExactlyWhen | src/selfupdate.rs:160-178 | whatever failed, the files are as they were exactly when no `.new`, no `.prev` and no file new to the medium is left |
| Volume.Vol.Rename | src/selfupdate.rs:697-719 | one step of the medium: the file moves, contents and all, to a name that was free; or the operation fails and either nothing or that happened |
| Volume.Vol.Delete | src/selfupdate.rs:688-693 | one step: the file is gone, or the operation failed; a missing file is no failure |
| Volume.Vol.Write | src/selfupdate.rs:661-685 | replaces the file's contents; a cut or a failure may leave any contents at all under that name, or none, and no other file and no record changes |
| Volume.Vol.WriteState | src/selfupdate.rs:740-744 | the record is the old one or the whole new one; a text over the space is refused and changes nothing |
| SelfUpdate.RevertOne | src/selfupdate.rs:163-176 | one path put back, and every medium on the way is one `revert` can start from; with nothing failing its rename finds its source there and its target free |
| SelfUpdate.Revert | src/selfupdate.rs:160-178 | the whole loop: cut off anywhere and whatever fails it leaves something it can start from again, with the record unchanged; with nothing failing, exactly the files from before |
| SelfUpdate.RevertIsRestartable | src/selfupdate.rs:129-178 | cut off and started again any number of times, it ends where one uninterrupted run ends, and until then the record still has the trial |
| SelfUpdate.DropPrevs | src/selfupdate.rs:496-498 | the leftover `.prev` copies go, and nothing listed changes yet |
| SelfUpdate.WriteNews | src/selfupdate.rs:499-506 | every new body lies beside its file before anything is swapped |
| SelfUpdate.RetireStep | src/selfupdate.rs:522-525 | the rename of a retired driver finds its source there and its `.prev` free |
| SelfUpdate.AwayStep | src/selfupdate.rs:528-530 | the rename of a changed file to its `.prev` finds its source there and the name free |
| SelfUpdate.InStep | src/selfupdate.rs:531 | the rename of a `.new` into place finds its source there and the name free, and completes that file's swap |
| SelfUpdate.Swap | src/selfupdate.rs:521-534 | the two loops: at every cut the files swapped are a prefix of the order, at most one is half-way, and at the end all are swapped |
| SelfUpdate.SwapIsInFlight | src/selfupdate.rs:521-536 | wherever the swap stands, `revert` can start from it |
| SelfUpdate.LastOnlyAfterAll | src/selfupdate.rs:521-534 | at every cut the path swapped last is done only if every other changed and retired path already is |
| SelfUpdate.TakeBack | src/selfupdate.rs:535-537 | after a failed swap the files from before are back if nothing fails, and the record is the old one or still the trial's |
| SelfUpdate.Apply | src/selfupdate.rs:489-544 | at every cut either nothing listed has changed or the trial is recorded and its files are in flight; until the swap ends, done or failed, the order holds; success means all of it is in place and recorded; it fails if the list does not fit, and otherwise only when an operation does |
| Offer.FindChanged | src/selfupdate.rs:417-436 | what it fetches was not on the medium and has the signed size and hash, and a file it does not fetch is on the medium as signed; with nothing failing it succeeds exactly when every file not on the medium is served as signed |
| Offer.CheckOne | src/selfupdate.rs:420-435 | one file: carried already; or not, and a body that matches; or refused, which with nothing failing it is exactly when it is neither carried nor served as signed |
| Offer.FindRetired | src/selfupdate.rs:437-445 | only drivers that are on the medium, that an update may write and that the manifest does not name are retired, none twice; and all of those, when the listing is whole |
| Offer.SortedBootloader | src/selfupdate.rs:452-453 | the sort keeps the names apart and puts the bootloader, if it changed, last |
| Offer.PlanIsProper | src/selfupdate.rs:417-453 | what is planned from an accepted manifest is what `apply` asks of its caller: accepted, distinct paths and true was-new marks |
| Offer.Propose | src/selfupdate.rs:417-453 | the whole plan: every file of the manifest is carried or among the fetched, nothing fetched was carried, the bootloader is last if it changes, and nothing has been written; with nothing failing there is one exactly when every file not carried is served as signed |
| Offer.BootloaderOnlyAfterAll | src/selfupdate.rs:452-453 | so at every cut of the swap a new bootloader is in place only if every other changed and retired path is already done |
| Offer.SwappedExactlyWhen | src/selfupdate.rs:521-537 | whatever has become of an update with its trial on record, swapped, cut off or taken back, all its items are swapped if and only if their names say so: each changed file there, its `.prev` too unless it was new, each retired driver gone |
| Offer.WholeExactlyWhen | src/selfupdate.rs:489-537 | and the manifest's whole set is there, and no retired driver, if and only if those names say so |
| Offer.LastTellsOfAll | src/selfupdate.rs:521-534 | where a swap was cut off and nothing taken back, the names of the path swapped last tell of all |
| Offer.UpdatedSetIsWhole | src/selfupdate.rs:489-544 | after a complete update every file the manifest names is on the medium with its signed size and hash |
| Offer.RetiredAreGone | src/selfupdate.rs:522-525 | and every retired driver is gone |
| Offer.CompleteIsWhole | src/selfupdate.rs:417-544 | so the medium carries the manifest's whole set and, if all its drivers were listed, no other driver |
| Session.Machine.AtStart | src/selfupdate.rs:104-155 | at every cut the medium can still be put back and its record is the old one or the next; a start that gives nothing up changes no file, at any cut; only a set that had its starts is put back; if nothing fails the files are whole by the time the record says so |
| Session.Machine.MarkGood | src/selfupdate.rs:230-265 | ends a trial only for the serial this boot has on trial, touches no file, raises `min`; writes that serial to the machine's minimum only above what was read of it, and so lowers it exactly when the read failed, the write took effect and the serial is below it |
| Session.Machine.SetNvMin | src/selfupdate.rs:257-285 | the minimum stays or becomes the serial; it is lowered exactly when its read failed, its write took effect and the serial is below it; with nothing failing it is the larger of the two |
| Session.Machine.TryUpdate | src/selfupdate.rs:303-485 | changes nothing while a trial runs; at every cut the record is one the offer allows: only a manifest meant for this machine whose serial is above all it must be (judged with the machine's minimum or, if that could not be read, with 0) changes it, an older version only raises `min`, an unreadable one does nothing, and a set is noted as there only if it is; no file has changed unless an update was planned from such a manifest, and no listed one unless the trial is on record or taking the swap back failed; restarts only with the whole signed set in place and on trial, one for this machine, of a serial above all that ran or failed here, and whose release is not below the running one unless it asks for a downgrade; and with nothing failing it does so whenever the offer is to be taken, something differs, all of it is served, and there is room for it and for its record; without room, or with a file not served, it changes nothing |
| Session.ApplyLeavesHeld | src/selfupdate.rs:489-544 | whatever `apply` leaves, cut or not, is the trial's record with the files in flight, or the old record with no listed file changed or a swap being taken back; what was replaced can be put back |
| Lifecycle.RunKeeps | src/selfupdate.rs:104-485 | over any run of events `min` and `failed` never decrease, and a running trial has `prev`, `min` and `failed` below its serial and at most two starts |
| Lifecycle.MinimumFallsExactlyWhen | src/selfupdate.rs:257-275 | an event lowers the machine's minimum exactly when it is a pass of a lower serial whose read failed, or another medium's doing; it takes a serial below it exactly when the read failed and the serial is below it |
| Lifecycle.JudgedUnread | src/manifest.rs:471-495 | a failed read lets through the serials below the minimum and changes nothing about the others |
| Lifecycle.MinimumKeptExactlyWhen | src/selfupdate.rs:230-285 | over a run the minimum never goes down if and only if no step is a pass, unread, of a lower serial, nor another medium's lowering |
| Lifecycle.BelowOnlyIf | src/manifest.rs:466-468 | whenever a trial's serial is below the minimum, it was taken so while the minimum could not be read, or another medium has passed a higher one since |
| Lifecycle.OneFailedReadCanDo | src/manifest.rs:466-468 | a run of the latter kind, in which one failed read lowers the minimum from 7 to 5 |
| Lifecycle.MinimumCanFall | src/selfupdate.rs:257-275 | a run, of an offer that replaces the bootloader, that lowers the minimum from 7 to 5 |
| Lifecycle.SettledIsNeverTaken | src/manifest.rs:471-495 | a serial that passed, failed or was declined as older on this medium is never taken again on it, nor any below it |
| Lifecycle.ThirdStartPutsBack | src/manifest.rs:443-449 | the record of a trial that is never marked good is counted twice and, at the third start, is the one it replaced with the serial marked failed |
| Lifetime.OfferIsAnEvent | src/selfupdate.rs:303-485 | every record an offer can leave is one event's doing, about the offered manifest, which is meant for this machine, and `unread` only if the minimum was; declined only if its version is older, taken or adopted only if it is not |
| Lifetime.PassIsAnEvent | src/selfupdate.rs:230-265 | so is every record and minimum an attach can leave, whichever of its two writes were made |
| Lifetime.OneStart | src/selfupdate.rs:104-485 | one day, cut off anywhere: the past goes on by the day's steps in their order, none left out, to the medium as it is now; what they do is tied to what the day offers, serves and attaches; a step is marked failed only if an operation failed, and the start cut off only if the power may go |
| Lifetime.WholeLife | src/selfupdate.rs:104-485 | any number of days with any offers, failures and cuts, from any medium without a trial: what happened is a valid past of exactly these days, each step of which changes only the files it may and does what its day's offer asks for, and in which at every moment the files there were before the last offer taken can be put back; no step of it failed if no operation did |
| Lifetime.GivenUpIsRestored | src/selfupdate.rs:128-178 | in any life, whatever failed or was cut off before: a start that gives a set up without a failure leaves the files of just before that set was taken, listed paths' leftovers gone; after a failure that holds exactly when no leftover is there |
| Lifetime.ThirdStartRestores | src/selfupdate.rs:104-178 | in any life, from an offer taken, with no pass and no failing start: by the third start that is not cut off, however many are, the set has been given up, the files are those it replaced, and the record is too but for the failed serial |
| Lifetime.DaysWithoutAttachRestore | src/selfupdate.rs:104-178 | so it is after three days with the power on, where none of the days after the taking attaches and no start fails |
| Lifetime.AttachPasses | src/selfupdate.rs:230-265 | and a set on trial passes on a day that attaches, if nothing of it is cut off or fails |
| Lifetime.PassIsWholeExactlyWhen | src/selfupdate.rs:104-544 | in any life, what passes, on a day that attaches, is the serial of a manifest offered to this machine on the day it was taken, over the files that step left: its whole set is there if and only if the names say so; if that step did not fail, if and only if the path swapped last is done; and always if it was not cut off either |
| Lifetime.UnlistedNeverChanges | src/selfupdate.rs:36-37 | in any life, whatever failed and was cut off, a name that no planned update lists holds what it held at first |
| Lifetime.UnconcernedNeverChanges | src/selfupdate.rs:36-37 | so does a name that no manifest offered in it concerns: no file it names, no driver it would retire, and none of their siblings |
| Lifetime.NothingOfferedNothingChanges | src/selfupdate.rs:303-367 | and where nothing that is offered is a manifest, no file and no record ever changes |
| Lifetime.NothingIsForgotten | src/selfupdate.rs:104-485 | in any life of any medium no remembered serial is lowered and no settled one is taken again; nor is the machine's minimum lowered, unless a serial below it was taken unread, for which an operation has to have failed, or another medium overtook or lowered it |
| Overlong.CannotBeRecorded | src/selfupdate.rs:509-519 | an accepted manifest whose serial is taken, and the update planned from it, whose record does not fit |
| Mishaps.SetPassesThatIsNotThere | src/selfupdate.rs:230-265 | a life without a failure in which a serial passes whose one file is not on the medium |
| Mishaps.SetPassesThatWasTakenBack | src/selfupdate.rs:535-537 | a life in which a serial passes after its swap failed and was taken back, though the path swapped last looks done |
| Mishaps.GivenUpAndLost | src/selfupdate.rs:128-152 | a life in which one failed rename leaves no bootloader under a record that says the old set is back |
| Mishaps.TakenBackAndLost | src/selfupdate.rs:535-537 | the same after a failed swap, under the old record |
| Disks.Disk.ReadNs | src/blockio.rs:809-827 | any byte range, whole blocks or not: the disk's bytes there when it says so, nothing changed around them, and no failure but the device's |
| Disks.Disk.ReadRaw | src/espfs.rs:75-98 | the same for the adapter that takes its bounce buffer out and puts it back |
| Disks.Cover | src/espfs.rs:86-93 | the blocks read for a range hold the range, and are on the device if the range is |
| Fats.Cached | src/esp.rs:507-532 | a read through a sector cache, across sector borders, after any reads and failures before it, is the disk's bytes; what the cache says it holds it holds |
| FatLayout.MountedIsSound | src/esp.rs:370-466 | a volume that mounts has its areas in order on sector borders and its last cluster ends inside the partition |
| Geometry.MountsAsWritten | src/esp.rs:370-466 | any boot sector with its fields written at their places mounts, with a given layout, if and only if its sizes are sane and that layout is where the geometry puts the FAT that counts, the root area and as many whole clusters as fit, inside the partition, with the FAT's width |
| Geometry.MountsExactlyWhen | src/esp.rs:370-466 | the same of the fields alone: 32 bits exactly without a 16-bit FAT size, 12 exactly when with one every cluster's number is below 0xFF7, 16 exactly when not but below 0xFFF7, and refused when neither |
| Geometry.FieldsComeBack | src/esp.rs:370-394 | each field of a boot sector is read from its place, the sector count from either |
| Geometry.OneLayout | src/esp.rs:445-461 | a geometry has one layout |
| Geometry.ClustersTile | src/esp.rs:498-505 | the valid clusters tile the data area: each of its bytes is in exactly one |
| Geometry.LittleIsLeft | src/esp.rs:406 | after the last cluster the volume has less than one left |
| Geometry.ClustersCanBeLinked | src/esp.rs:544-555 | on a FAT12 or FAT16 volume that mounts no cluster's number means anything else, and on a FAT32 one exactly those of the last eight numbers do |
| FatLayout.EntriesAreInside | src/esp.rs:535-556 | every FAT entry of every valid cluster, of any width, lies inside the volume, though the FAT's size is never compared with the number of clusters |
| FatLayout.ClustersAreInside | src/esp.rs:498-505 | so does every cluster's data |
| Fats.Fat.Mount | src/esp.rs:370-466 | accepts and refuses exactly as its boot sector's layout does (`Geometry.MountsAsWritten` says when and where), and from then on no read strays from the partition |
| Fats.Fat.Next | src/esp.rs:535-556 | the link the FAT has for the cluster, FAT12's straddling entries included, or the disk's failure |
| FatTables.EntryComesBack | src/esp.rs:536-548 | every entry of a table written out in any of the three widths, FAT12's two in three bytes included, is read back from its place as it was written |
| FatTables.LinkIsAsWritten | src/esp.rs:535-556 | so a cluster's link on the disk is the one its table was written with |
| FatChain.WalkIsChain | src/esp.rs:739-753 | stepping along a chain with a step count reaches its nth cluster if and only if the chain is that long and the count allows it |
| FatChain.Pigeonhole | src/esp.rs:739-748 | distinct clusters of a volume are no more than it has, which is why a step count finds loops |
| FatChain.AcyclicIsWalked | src/esp.rs:739-788 | on a chain without repeats no walk between two of its clusters is cut short |
| FatChain.RunIsOneStretch | src/esp.rs:757-778 | clusters that follow one another in the chain and on the disk are one stretch of it: a run read at once is those clusters' contents |
| Fats.Fat.Run | src/esp.rs:757-774 | the run it finds is made of the chain's next clusters, and ends because enough was found or because the chain goes on elsewhere |
| Fats.Fat.Seek | src/esp.rs:739-753 | arrives at the chain's cluster of that index or at the error the chain has |
| Fats.Fat.ReadAt | src/esp.rs:714-788 | on every mounted volume returns exactly the slice of the chain's concatenated clusters (of what was written, `Written.WrittenFileIsRead`), leaves a hint that names a true cluster of that chain, and fails only as the chain or the device does |
| Written.WrittenFileIsRead | src/esp.rs:714-788 | a file entered in the FAT, in any width, and put into its clusters, wherever they are, is read back: any part of it, at any position, with any true hint, is that part of what was written, and nothing makes the read fail |
| Written.ChainAsWritten | src/esp.rs:535-556 | its chain is the clusters it was written to, in order |
| Fats.Fat.ReadFile | src/esp.rs:792-840 | the whole file is the front of its chain's concatenated clusters, with the same errors |
| Fats.WholeIsFromTheStart | src/esp.rs:792-840 | reading whole and reading from 0 with no hint come to the same result |
| Fats.AcyclicIsNeverRefused | src/esp.rs:739-788 | on a chain without repeats that is long enough for the file, no position, size and true hint make a read fail |
| Fats.LoopIsTrue | src/esp.rs:739-788 | "the chain loops" is only said of a chain that revisits a cluster |
| Lfns.Lfn.Push | src/esp.rs:911-930 | the record in place changes as the value does, for every entry but the one that counts below zero |
| Lfns.Lfn.Name | src/esp.rs:933-940 | gives a name exactly when every part came in order and the checksum is right |
| Lfns.NameComesBack | src/esp.rs:893-941 | any name of 1 to 255 units, cut into entries in on-disk order and pushed after anything, comes back exactly under its checksum |
| Lfns.OtherChecksumGivesNone | src/esp.rs:933-941 | and not under any other |
| Lfns.DroppedEntryGivesNone | src/esp.rs:911-941 | with any entry missing there is no name |
| Lfns.ChangedChecksumGivesNone | src/esp.rs:911-941 | nor with any entry's checksum changed |
| Records.ChangedByteShows | src/esp.rs:874-877 | one byte changed in a short name always changes the checksum its long name must carry |
| Records.ChecksumOfReadme | src/esp.rs:874-877 | and that of README.TXT is 0x73 |
| Dirs.OpenDir | src/esp.rs:568-583 | a cursor in front of the directory's first record, or the error its entry deserves |
| Dirs.NextEntry | src/esp.rs:588-674 | the first record from where the cursor is that shows, past records none of which does, with what was written in it (`Records.ItemIsListed`) and its long name if one was put together; or the end of the directory, reached by its mark or by its chain; or an error only where the chain leaves the volume, has more clusters than the volume, or a long-name part counts below zero, or when the device fails |
| Records.ItemIsListed | src/esp.rs:618-671 | a record written with a name, attributes, cluster, size and case flags at their places is listed with exactly those, the high half of the cluster on FAT32 alone, `STEM.EXT` in the flags' case when no long name was put together, and a first byte 0xE5 told from a deleted record's |
| Records.ListedExactlyWhen | src/esp.rs:618-633 | a written record shows if and only if it is no volume label; a label ends a long name |
| Records.LongNameIsListed | src/esp.rs:893-941 | a long name's records as they are written, whatever came before them, and then the item's own record list the item under that name |
| Written.WrittenDirectoryIsRead | src/esp.rs:558-583 | a directory's bytes are those written to its clusters, by its entry's cluster or, for the root of FAT32, by the boot sector's |
| Written.WrittenRootIsRead | src/esp.rs:558-583 | on FAT12 and FAT16 cluster 0 is the fixed root area |
| Dirs.ReadRecord | src/esp.rs:614-616 | the record read is the directory's next 32 bytes, in the root area or across the chain's clusters; only the device makes it fail, and then nothing moves |
| Dirs.PartZeroBreaks | src/esp.rs:911-925 | a complete name that a part numbered 0 follows, with its checksum, makes the count go below zero |
| Dirs.PartZeroBreaksOff | src/esp.rs:911-925 | two records that do so |
| Lookups.FindIn | src/esp.rs:677-686 | finds exactly the directory's first entry of that name; says not found only of a directory that has none, or of a file, and any other error only where the directory's own bytes obstruct the search; on a disk that reads, if the directory's chain does not loop, what it holds is always found and what it lacks never is |
| Lookups.HeldIsNotObstructed | src/esp.rs:588-686 | what a directory holds is never behind a broken link, a bad start or a bad long-name part, unless its chain loops |
| Lookups.LackedIsNotObstructed | src/esp.rs:588-686 | nor do they keep a search from seeing that a directory has no such name, its end mark included |
| Lookups.LoopsIsTrueOfIt | src/esp.rs:600-606 | "a directory's chain loops" is only said of a chain that revisits a cluster |
| Lookups.ShownIsFound | src/esp.rs:845-872 | an entry matches the 8.3 name it is listed under, in either of Windows NT's cases |
| Lookups.ShownIsHeld | src/esp.rs:677-686 | so an entry that is the first of the name it is listed under is what the directory holds, and a search finds, under that name |
| Names.MatchesExactlyWhen | src/esp.rs:845-891 | a name leads to an entry if and only if, but for the case of ASCII letters, it spells the entry's long name or its 8.3 name, whose dot it may also have with nothing after it |
| Names.ShortIsFoundExactlyWhen | src/esp.rs:845-872 | the 8.3 half of that, for every text |
| Names.UnitsMatchExactlyWhen | src/esp.rs:879-891 | the long half, for every two texts, in UTF-16 |
| Lookups.OneEntryOfAName | src/esp.rs:677-686 | however far two readings of a directory went, they find the same entry |
| Lookups.HeldIsNotLacked | src/esp.rs:677-686 | no directory both holds a name and lacks it |
| Lookups.LookupIn | src/esp.rs:696-708 | follows the path's components one directory after another, `..` to the root included; not found means a component is not there, any other error that a directory on the way cannot be searched; on a disk that reads, if no directory on the way loops, it comes to where the path leads, and says not found where it breaks off |
| Names.PartsArePieces | src/esp.rs:696-708 | a path leads through exactly its pieces that are neither empty nor `.`, whichever separators are between them |
| Names.StartsAtTheRoot | src/esp.rs:697 | and starts from the root if and only if its first separator is in front of everything else |
| Lookups.OneEntryOfAPath | src/esp.rs:696-708 | a path leads to one entry |
| Lookups.LeadsOrBreaksOff | src/esp.rs:696-708 | and one that leads somewhere does not break off on the way, so each answer is settled by the disk |
| EspFs.File.Read | src/espfs.rs:303-321 | after any reads and seeks, the file's bytes at the position, as many as fit, and the position moves by them; past the end is an error; on a good disk and chain nothing else is |
| EspFs.File.SetPosition | src/espfs.rs:339-354 | any position, all ones being the end |
| EspFs.Directory.Read | src/espfs.rs:278-302 | the next entry of this directory's listing, or its end, which is answered only where the listing ends; an entry that does not fit the caller's buffer is not lost, and one is held back only if there is one; a failed read does not move the listing, and it fails only where the directory's entry or its chain do, or the device |
| EspFs.Directory.SetPosition | src/espfs.rs:344-351 | position 0 forgets the listing, so that it starts anew; no other is taken |
| Crc.Update | src/esp.rs:85-93 | the bit loop computes the state of CRC-32, which `Crc.ResidueExactlyWhen` and `Crc.CheckValue` tell from any other |
| Crc.AfterInTwo | src/esp.rs:223-236 | chunk by chunk is the same as all at once, wherever the chunks are cut |
| Crc.StatesStayApart | src/esp.rs:85-93 | two runs that differ are never brought together by the same bytes |
| Crc.ChangeIsCaught | src/esp.rs:85-97 | two byte strings that differ only within four bytes in a row have different checksums |
| Crc.ResidueExactlyWhen | src/esp.rs:85-97 | for all data: the state after it and four more bytes is CRC-32's residue 0xDEBB20E3 if and only if they are its checksum, low byte first |
| Crc.CheckValue | src/esp.rs:1329-1331 | the checksum of `123456789` is 0xCBF43926 |
| Gpt.WalkGpt | src/esp.rs:192-243 | hands on exactly entries 1 to count in order, each with its own bytes, when it succeeds; and unless the device fails it does so if and only if the header is good and the whole array's checksum matches; so it reads every table as it is written (`GptTables.TableComesBack`) |
| GptTables.TableComesBack | src/esp.rs:192-243 | a table written with its header's fields and both checksums at their places is read: all its entries, in order |
| GptTables.WrittenTableIsListed | src/esp.rs:133-187 | and its partitions are listed each with the type, GUID, first and last block, number and name that were written, the free entries left out |
| GptTables.EspTypeIsItsGuid | src/esp.rs:68-71 | the type looked for is C12A7328-F81F-11D2-BA4B-00A0C93EC93B as a GPT stores it |
| Gpt.NoEntryStraddles | src/esp.rs:214-217 | no entry of an accepted size straddles two chunks |
| Gpt.FindEsp | src/esp.rs:119-131 | the first entry of the ESP type among those `partitions` lists, with its range checked |
| Gpt.FirstEspStep | src/esp.rs:119-187 | scanning raw entries for the type agrees, entry by entry, with listing the used ones first |
| Gpt.Partitions | src/esp.rs:165-187 | the used entries in table order into the slots there are, and how many there are in all |
| Gpt.DamageIsNoticed | src/esp.rs:237-241 | a table damaged within any four bytes in a row of its array is always refused |
| Sha256.Hasher.Update | src/sha256.rs:88-117 | after any pieces the state is that of all the whole blocks so far and the buffer holds the rest, never 64 bytes |
| Sha256.Hasher.Finalize | src/sha256.rs:119-135 | the digest is SHA-256 of everything given, block by block over the padded message |
| Sha256.DigestPieces | src/sha256.rs:88-135 | for every way of cutting a message into pieces the digest is that of the message |
| Sha256.Digest | src/sha256.rs:181-185 | the one-shot form is the same function |
| Sha256.PaddingIsShortest | src/sha256.rs:119-127 | the padding loop stops at the first length that fills whole blocks with the bit count, section 5.1.1 of FIPS 180-4 |
| Sha256.HashBlocksOfPrefix | src/sha256.rs:107-116 | hashing the blocks of a prefix does not depend on what follows |
| ShaVectors.ConstantsAreCubeRoots | src/sha256.rs:40-52 | each round's constant is how its prime's cube root goes on after the point, in 32 bits, as section 4.2.2 of FIPS 180-4 has it |
| ShaVectors.StartIsSquareRoots | src/sha256.rs:55-58 | the hash starts with how the square roots of 2, 3, 5, 7, 11, 13, 17 and 19 go on, section 5.3.3 |
| ShaExample.DigestOfAbc | src/sha256.rs:137-178 | the digest of `abc` is the standard's, through every word of its schedule and every round |
| Connectx.ScanBus | src/connectx.rs:169-194 | reports every function of the bus once, in order, and pushes exactly the unseen buses its bridges lead to, while there is room |
| ConfigSpace.WrittenIsFound | src/connectx.rs:169-194 | from configuration headers as their bytes are laid out: a function is found if and only if it is there and is its device's first or one of several, under its own vendor and device, and exactly the bridges lead on, each to the bus it was given |
| Connectx.Walk | src/connectx.rs:153-196 | ends on every configuration space, and reports the functions of the buses the walk comes to |
| Connectx.ScansOnceWhatIsReachable | src/connectx.rs:153-196 | each bus is scanned at most once, and only if bridges lead to it from the start |
| Connectx.CompleteExactlyWhen | src/connectx.rs:180-188 | everything reachable is scanned if and only if every bus dropped for want of room was scanned from elsewhere |
| Connectx.OneBridgeEachIsComplete | src/connectx.rs:153-196 | when no two bridges name the same bus the stack never fills and exactly the reachable buses are scanned |
| Connectx.FewBridgesIsComplete | src/connectx.rs:153-196 | with at most 257 bridges on the reachable buses, wherever they lead, nothing is dropped and exactly the reachable buses are scanned |
| Connectx.OneMoreIsTooMany | src/connectx.rs:182-186 | with 258 a bus can be missed |
| Connectx.FullStackMissesABus | src/connectx.rs:182-186 | a configuration space in which a reachable bus is not scanned |
| Chunked.Dechunk | src/manifest.rs:558-575 | in place: afterwards the body is at the front and its length is returned, or there is no body and none is claimed, for every buffer |
| Chunked.BodyComesBack | src/manifest.rs:558-575 | any well-formed chunked body, extensions and trailers included, gives the concatenation of its chunks |
| Chunked.OnlyWellFormedBodies | src/manifest.rs:558-575 | and nothing else gives anything |
| Chunked.CutShortIsRefused | src/manifest.rs:558-575 | a body cut anywhere before the end of its last chunk's line is refused |
| Chunked.SizeLineReads | src/manifest.rs:561-563 | a size in hexadecimal reads as that size, with or without an extension |
| Utf8.DecodesExactlyWhen | src/manifest.rs:562 | bytes are read as a text if and only if they are its UTF-8, so nothing overlong, cut short or surrogate is |
| Json.PrintEscaped | src/command.rs:258-272 | the printing loop escapes character by character |
| Json.ValueOf | src/command.rs:227-255 | the scan with its depth counter finds what follows the first such key at depth 1 outside strings |
| Json.JsonStr | src/command.rs:191-216 | its text with the escapes undone |
| Json.StringComesBack | src/command.rs:191-272 | printing and reading a string undo each other, control characters, quotes and backslashes included |
| Json.AnySpellingIsRead | src/command.rs:191-216 | a string is read whichever way each of its characters is written: itself, a letter or mark after a backslash, or four hexadecimal digits in either case |
| Json.EscapeIsASpelling | src/command.rs:258-272 | what `escape` prints is one of these, with no control character left |
| Json.PastValue | src/command.rs:227-255 | no text and no key inside a value, however deeply nested, is taken for the key sought |
| Json.StringsComeBack | src/command.rs:191-272 | for any printed object and plain key: the string of the first field of that name, and nothing when there is none or it is no string |
| Json.NumbersComeBack | src/command.rs:219-223 | a printed unsigned number comes back |
| Http.ReadRequest | src/command.rs:313-345 | the header loop comes to what the bytes say: partial, refused and why, or the request |
| Http.VerdictStands | src/command.rs:313-345 | a request once done stays that request however much more arrives, and a refused one stays refused |
| Http.ArrivalDoesNotMatter | src/command.rs:313-345 | for any two moments of one connection at which there is a verdict, it is the same request or both are refused |
| Http.VerdictComes | src/command.rs:313-345 | once the largest size of a request has arrived it is done or refused |
| Http.RequestComesBack | src/command.rs:313-345 | a request as a client composes it is read back exactly, whatever follows it, and is partial at every byte before its last |
| Http.LengthAsWritten | src/command.rs:326-336 | the body's length is the last that a `Content-Length` line gives, in any case and with any blanks, and 0 if none does; lines about anything else do not matter |

## Left out

- Volume.Vol.ReadState: the text is read whole and as text; the source reads at most 64 KiB and replaces bytes that are not UTF-8.
- Volume.Vol.WriteState: the state file's replacement is one step; a torn state text is not modelled, though any text is read as the code reads it.
- Offer.FindChanged: the HTTP fetch is a map from paths to bodies, and an answer of the wrong length is a missing body.
- Session.Machine.TryUpdate: the manifest's text arrives verified; the Ed25519 signature, the settings, the address lookup and the medium's free space (one boolean, `room`) are inputs.
- Session.Machine.AtStart: chain-loading the restored bootloader and the hand-off variables; only that it is to be chain-loaded is returned.
- SelfUpdate.Apply: `carry_identity`, which moves two settings to `local.conf`, a file no update lists; so `Lifetime.UnlistedNeverChanges` does not speak of that file.
- Offer.CompleteIsWhole: the listing of drivers is modelled with the 64 names its source is good for; with more, unnamed drivers may stay.
- Manifests.Parse: works on text; bytes that are not UTF-8, which the source refuses first, are not represented. The bootloader's name is the x86-64 one.
- ManifestText.AcceptedComesBack: asks that each text of the manifest be one line without whitespace at its ends, since no other can be written on a line.
- UpdateState.RoundTrip: is for the states the code keeps (`prev` only beside a trial, the list one trimmed line); `UpdateState.AnyTextIsReadable` and `UpdateState.WrittenStands` cover states read from any other text.
- Dirs.NextEntry: entries carry their cluster, size and directory flag; dates and the other attributes are left out.
- Lfns.Lfn.Push: is not promised for a continuation entry numbered 0 when part 0 is next, where the source's subtraction underflows.
- FatLayout.MountedIsSound: the volume label and the texts of the errors are left out, and the reasons a boot sector is not FAT are one.
- EspFs.Directory.Read: whether the file information fits the caller's buffer is an input; its layout is left out.
- Gpt.WalkGpt: returns the list of what it hands on, where the source calls a closure with each; its callers' closures are loops over that list.
- Connectx.Walk: a configuration register gives the same answer each time it is read.
- Chunked.Dechunk: sums of lengths are unbounded; a chunk size near 2 to the 64th, whose sum overflows in src/manifest.rs:568, counts as a chunk that is not there.
- Http.ReadRequest: likewise for the sum in src/command.rs:338.
- Json.ValueOf: works on characters where the source works on the bytes of the same UTF-8 text; it looks for ASCII only, so the two agree.
- Json.AnySpellingIsRead: leaves out the other escapes. The reader takes `\b`, `\f` and escaped surrogate pairs differently from section 7 of RFC 8259, and `escape` prints none of them.
- Sha256.Hasher.Finalize: of the standard's examples one is proved, `ShaExample.DigestOfAbc`; nothing is said about the strength of the hash.
- Firmware calls, protocol installation, device paths, the network stack, the NVMe/TCP initiator, drivers, the clock and the console: they depend on code outside these files.
- Small decisions a table settles: `intent::decide`, `pin_action`, `for_me`, the settings' parsers and the message texts.
