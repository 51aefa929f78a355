# Verified model of the arcade panel's stateful core

This project models, in Dafny 4.11, the parts of the game-server panel that keep promises across failures: restoring a
backup and recovering from a cut restore, the archive format pair, paged listings, the audit log, the port ledger and
settings saves, the console hub, start and stop intents, scheduled tasks, deletion, accounts and sessions, the login
limiter, and PBKDF2. `dafny verify dfyconfig.toml` checks all of it.

Each stateful part comes in two layers. A value layer gives the state as a datatype, each atomic step of the program as a
function on it, the invariant, and theorems over every run of steps, crashes and interleavings included. A class layer
holds the same fields as the program and changes them in place, method by method; every method's contract ties the new
state to the value layer. Code that is one loop over data is a method proved against a specification function.

| part | value layer | in place |
|---|---|---|
| restore and recovery | RestoreDisk, RestoreProps | Restore |
| archive pair | Archive, ArchiveRoundTrip (trees in Trees) | Archive.Walk, Archive.Untar |
| paged listing | Listing, ListPage | Listing.MaxHeap, ListPage.ListFilesPage |
| server.properties | Props, PropsPort (text routines in GoText) | their methods |
| port ledger, settings | Ledger | PortManager, SettingsSave |
| audit log | AuditLog, AuditLoad, AuditRestart | AuditStore |
| console | Console | Hub |
| lifecycle intents | Intent | Lifecycle |
| scheduler | Schedule | Scheduler |
| deletion | Tombstones | Deletion |
| accounts and sessions | Sessions | Accounts |
| login limiter | Limiter | Limiter.Gate |
| PBKDF2 | Pbkdf2 | Pbkdf2 |

## How failures are modelled

- A disk operation ends in one of the fates of module Effects: done, refused, or cut by the process dying. Where the
  program can report an error although the new bytes are in place (`writeDurable`, `internal/arcade/restore_journal.go:30-55`)
  the model allows exactly that; `writeFileAtomic` (`internal/arcade/runtime.go:74-82`) reports an error only when nothing
  was published, and so does its model.
- `calm` parameters say that nothing goes wrong outside; contracts use them to state when an operation must succeed.
- A section the program runs under one lock is one step. Where it lets go of the lock and takes it again, other requests
  run in between: as steps of the value layer, and as calls of a `Meanwhile` or `Others` method in the class layer.
- Fields whose comment calls them history (`claims`, `doomed`, `accepted`, `sent`, ...) record what happened so that a
  theorem can speak of it; no step of the program decides by them.

## What does not hold as one might expect

Each of these is stated as the exact condition under which the code meets the property, with a concrete state or run that
breaks it or a whole family of them.

- Removing a committed staging tree in an order that drops `.committed` early lets the next boot undo the restore
  (RestoreDisk.MarkerFirstUndoesRestore, RestoreDisk.MarkerFirst, RestoreDisk.MarkerFirstAfterRestore).
- A top-level name with a backslash is restored but never recovered (Restore.BackslashBlocksRecovery,
  Restore.RecoverableExactly); a recorded player limit of 0 is recomputed from the old properties (RestoreDisk.MetaComesBack).
- A committed restore whose properties file could not be read again keeps the old metadata over the archive's files
  (RestoreProps.UnreadableKeepsOldMeta).
- The entry limit of extraction counts headers, not the directories they create (Archive.OneHeaderManyFolders,
  Archive.EntriesWithin).
- A settings value with a newline is accepted and breaks the file (SettingsSave.NewlineBreaksFile, Props.RoundTrip).
- A clone that cannot be saved frees its port by number and may free a newer claim's; two servers can then be registered on
  one port (Ledger.ReleasePortBreaksLedger, Ledger.ReleasePortCovers, Ledger.RegisterSound).
- Boot recovery sets the journalled port although another server may have it by then (Ledger.RecoveryBreaksLedger,
  Ledger.RecoverSound).
- A settings save cannot move a port onto or across its server's own ports: never for a server with extra ports, nor back
  to the port its container still holds (Ledger.MoveUnderHandOver, Ledger.OwnPortsBlockMove). Its lease can take a number
  away from a lease of another protocol (Ledger.HandOverStealsReservation, Ledger.HandOverSound).
- The audit log's `Dropped` can count a record that is on disk (AuditLog.DroppedCountsWritten, AuditLog.OverflowMiscounts,
  AuditLog.DroppedIsExact), and the load's charge is exact only without gaps on disk (AuditLoad.ChargeMissesGap,
  AuditLoad.ChargeIsExact).
- A start whose first load fails loses the range an earlier process recorded, unless it failed before reading the record
  and its report did not reach the disk, or after charging it. A lost range is neither charged nor passed, and its numbers
  can come again (AuditRestart.FailedLoadLosesRange, AuditRestart.RestartExact, AuditRestart.NumbersPassRange). A record adopted after the
  queue overflowed erases the count of what the queue gave up (AuditRestart.AdoptionErasesCount).
- The staging tree of an aborted restore, or of a finished recovery, that could not be removed makes the next boot remove
  later files and take back later settings (RestoreDisk.LeftStagingUndoesLaterWork).
- Boot resume reads the intent's generation without waiting for its save; read during a save that then fails, it can start
  a server against a later stop (Intent.StrayTicketDefeatsStop, Intent.ResumeReadIsSafe).
- A one-shot task can be claimed twice after its last record failed, or after a tick that looked before a claim marked
  after it (Schedule.OnceExactly).
- A deletion that reports an error while writing its tombstone can still take effect at the next boot
  (Tombstones.RefusedDeletion).
- The login limiter admits up to 2·limit − 1 attempts within a minute, not limit (Limiter.WindowBound,
  Limiter.BoundIsReached).

## Model

| member | source | states |
|---|---|---|
| `RestoreDisk.NoOriginalLost` | internal/arcade/manager.go:239-252 | In every state reachable before the commit marker, mid-rollback and mid-recovery included, each original entry is intact in exactly one of the live directory and `old/` |
| `RestoreDisk.SafeSettles` | internal/arcade/manager.go:254-393 | From every such state recovery ends in exactly the original tree and the original metadata |
| `RestoreDisk.KeptSettles` | internal/arcade/manager.go:275-287 | Once the marker is durable recovery leaves the live tree and the saved metadata alone |
| `RestoreDisk.EvacuateStep` | internal/arcade/backup.go:581-595 | Renaming one live entry into `old/` keeps the transaction recoverable |
| `RestoreDisk.InstallStep` | internal/arcade/backup.go:628-638 | Renaming one archive entry into the live directory keeps it recoverable |
| `RestoreDisk.RemoveStep` | internal/arcade/manager.go:325-339 | Removing, or half removing, a live entry keeps it recoverable when recovery's own test allows the name: only what the archive brought |
| `RestoreDisk.MoveBackStep` | internal/arcade/restore_journal.go:139-150 | Renaming a held original back keeps it recoverable |
| `RestoreDisk.RollBackStep` | internal/arcade/restore_journal.go:57-63 | Journalling the rollback is safe from every phase once the journal names every original |
| `RestoreDisk.DiscardKeepsSafe` | internal/arcade/backup.go:525-529 | Removing the staging tree of a restore that changed nothing, cut at any point, loses nothing |
| `RestoreDisk.DiscardKeepsKept` | internal/arcade/manager.go:283-285 | Removing a committed staging tree, cut at any point, keeps the restore committed as long as the marker goes late |
| `RestoreDisk.MarkerFirst` | internal/arcade/manager.go:283-285 | If the removal drops `.committed` first, the outcome is unchanged exactly when `old/` is already gone or what is left of the staging tree undoes nothing |
| `RestoreDisk.MarkerFirstAfterRestore` | internal/arcade/manager.go:283-285 | In terms of what is left of the staging tree: an early loss of the marker is harmless exactly when `old/` is gone, or what is left in it is what the archive put back and, with the journal, the archive brought no new name and left the metadata as it was |
| `RestoreDisk.MarkerFirstUndoesRestore` | internal/arcade/manager.go:283-285 | A two-entry state in which a removal that drops the marker first makes the next boot undo a committed restore |
| `RestoreDisk.MetaComesBack` | internal/arcade/manager.go:371-380 | The recovered metadata equals the journalled one exactly when the player limit was recorded or the old properties name none; otherwise it is the limit they name; port and properties never change, and recovery applied twice changes nothing more |
| `RestoreDisk.LeftStagingUndoesLaterWork` | internal/arcade/manager.go:266-391 | When the staging tree of an aborted restore or a finished recovery could not be removed: the next boot leaves later files and metadata alone exactly when `old/` or the journal is gone, or no later file has a name only the archive brought and the saved metadata is still the old |
| `RestoreDisk.ValidateManifest` | internal/arcade/restore_journal.go:79-99 | The validation loop accepts exactly the lists of distinct plain names |
| `RestoreDisk.ValidateJournal` | internal/arcade/restore_journal.go:79-99 | The journal is accepted exactly when its old port and limit are in range, both lists are short enough, and both are valid manifests |
| `Restore.Host.RollBack` | internal/arcade/backup.go:1087-1115 | The in-process rollback: whatever happens the state stays recoverable, and success means the original tree is live and nothing is held |
| `Restore.Host.PutBack` | internal/arcade/backup.go:1100-1115 | The rename loop over held entries, in both its forms: only live and `old/` change, and success puts every original back |
| `Restore.Host.Stage` | internal/arcade/backup.go:520-543 | Unpacking beside the live tree touches nothing live |
| `Restore.Host.Announce` | internal/arcade/backup.go:555-580 | Two journal writes; afterwards the journal names every original and every archive entry |
| `Restore.Host.Evacuate` | internal/arcade/backup.go:581-600 | Success: nothing live, every original held; any cut: recoverable |
| `Restore.Host.Install` | internal/arcade/backup.go:619-638 | `installed` is exactly what is live at every return; success: the live tree is the archive |
| `Restore.Host.Adopt` | internal/arcade/backup.go:647-671 | The tree and the metadata become exactly what the archive's properties make of them, a refused port printed anew, the player limit the number the file names or else the one before; or the journal stays for recovery |
| `Restore.Host.Commit` | internal/arcade/backup.go:673-687 | The marker is written last; its error can follow its publication |
| `Restore.Host.Finish` | internal/arcade/backup.go:647-692 | From the installed tree: exactly the archive's tree and metadata and committed, or retained for recovery, or dead with a recoverable disk |
| `Restore.Host.Swap` | internal/arcade/backup.go:581-692 | The four stages in order, each failure rolled back or retained; success is exactly the archive's tree and metadata |
| `Restore.Host.RestoreBackup` | internal/arcade/backup.go:520-692 | Restored: exactly the archive's tree and metadata, durably, with the player limit its file names; aborted: the original tree and metadata; retained: locked for recovery; dead: recoverable. Undisturbed it succeeds whenever the archive's properties are admissible |
| `Restore.Host.TakeOut` | internal/arcade/manager.go:308-344 | Recovery removes only installed names, stopping at the first failure |
| `Restore.Host.ClearHeld` | internal/arcade/manager.go:350-364 | Live entries whose originals are held are cleared so that these can return |
| `Restore.Host.Recover` | internal/arcade/manager.go:266-391 | One boot's recovery, itself cut anywhere: recoverable stays recoverable, committed stays committed, and finished means the original tree and metadata; undisturbed it finishes exactly when the staging directory and journal are readable and valid |
| `Restore.Host.BringBack` | internal/arcade/manager.go:365-391 | The returning half of recovery, metadata included |
| `Restore.RestoreThenReboot` | internal/arcade/backup.go:520-692 | A restore followed by any number of boots, all cut anywhere: once a recovery finishes the server is wholly the original, or exactly what the archive makes if the marker was durable: every file of the archive, and port, properties and player limit from its server.properties |
| `Restore.BackslashBlocksRecovery` | internal/arcade/restore_journal.go:79-122 | A name with a backslash, which the restore itself accepts, makes recovery refuse the journal |
| `Restore.RecoverableExactly` | internal/arcade/restore_journal.go:79-122 | A cut restore with its journal complete is recovered exactly when no list is too long and no name holds a backslash, for all names a directory can hold |
| `RestoreProps.ReloadProps` | internal/arcade/files.go:785-831 | The reload computes the adopted port and properties of a text, and the player limit: the number the text names if that is positive, else the one before |
| `RestoreProps.ReloadedSettings` | internal/arcade/files.go:785-831 | Whatever the text: every other setting is the file's, the port stays or becomes one in range, and the port among the settings is the model's |
| `RestoreProps.OwnFileAdmissible` | internal/arcade/backup.go:640-646 | An archive with a properties file the panel printed passes the test before the swap, its port read as the one printed |
| `RestoreProps.ReloadFollowsFile` | internal/arcade/files.go:785-831 | For every text the strict reader accepts: its port and settings are adopted and the file stays, unless the ledger refuses the port; then the old port stays in model and settings, and the file is printed anew exactly then |
| `RestoreProps.CommittedFileAgrees` | internal/arcade/backup.go:646-671 | The committed tree is the archive's but for server.properties, and that file reads back as the committed settings exactly when it was not printed anew or the settings survive printing |
| `RestoreProps.UnreadableKeepsOldMeta` | internal/arcade/backup.go:646-671 | A properties file that cannot be read after the install is committed under the old metadata, which agrees exactly when the file changes nothing |
| `Archive.Walk` | internal/arcade/backup.go:808-888 | The walk succeeds exactly on trees of directories, regular files and links, and emits the members in order, links left out |
| `Archive.Target` | internal/arcade/backup.go:1020-1024 | Every member name is cleaned to a path below the destination |
| `Archive.TargetOfJoin` | internal/arcade/backup.go:1020-1024 | A name the walk wrote is extracted to the place it was read from |
| `Archive.DotsClean` | internal/arcade/backup.go:1020-1024 | Empty and dot parts count for nothing, a double dot takes the part before it back, and none leads above the destination |
| `Archive.ExtractedBounded` | internal/arcade/backup.go:968-1080 | For any archive, what is on disk when extraction ends or is refused lies below the destination and within both byte limits, and its files within the entry limit |
| `Archive.CutShortBounded` | internal/arcade/backup.go:1042-1090 | The same after a member an I/O error cut short, with directories made and part of a file written |
| `Archive.ExtractedPlaces` | internal/arcade/backup.go:1006-1090 | Extraction makes nothing but the places its members name or lie on the way to one, and an accepted archive makes all of them |
| `Archive.EntriesWithin` | internal/arcade/backup.go:1015-1030 | For every accepted archive: the entries on disk stay within the entry limit exactly when the places its members name do |
| `Archive.OneHeaderManyFolders` | internal/arcade/backup.go:1015-1030 | The entry limit counts headers: one header creates two directories under a limit of one |
| `Archive.Untar` | internal/arcade/backup.go:968-1080 | The extraction loop computes the specified result; refused anywhere, an I/O error within a member and a failing checksum included, its disk use stays within the limits and at the archive's own places |
| `ArchiveRoundTrip.FlatLookup` | internal/arcade/backup.go:808-888 | The path map a tree flattens to agrees with looking the path up in the tree, at every path |
| `ArchiveRoundTrip.UnpackEntries` | internal/arcade/backup.go:968-1080 | Extracting what the walk emits for any directory adds exactly its flattened contents |
| `ArchiveRoundTrip.AcceptedWithin` | internal/arcade/backup.go:968-1080 | Extraction never accepts more than the limits allow |
| `ArchiveRoundTrip.RoundTrip` | internal/arcade/backup.go:808-1080 | Extracting the emitted sequence of any tree succeeds exactly when it fits the limits, and then gives back that tree without its links, empty directories included |
| `ArchiveRoundTrip.OwnEntriesWithin` | internal/arcade/backup.go:808-1080 | An accepted archive of the panel's own walk never makes more entries than the limit, directories included |
| `Listing.KeyInjective` | internal/arcade/pagination.go:103-107 | Two entries of a directory never share a key |
| `ListPage.KeyOrder` | internal/arcade/pagination.go:103-107 | The keys sort as the listing should: folders before files, within a kind by lower-cased name, then by name |
| `GoText.LessMeans` | internal/arcade/pagination.go:107-110 | The order of strings: a proper beginning first, else the smaller character where they first differ |
| `GoText.LowerAt` | internal/arcade/pagination.go:107 | Lower-casing moves the letters A to Z and nothing else |
| `GoText.ItoaDecimal` | internal/arcade/model.go:692 | Numbers are printed in decimal, most significant digit first, without leading zeros |
| `GoText.ParseSigned` | internal/arcade/model.go:700-706 | A sign is read; an empty number, any other character and a number too large are refused |
| `Listing.RootIsLargest` | internal/arcade/pagination.go:26-32 | The heap's root has the largest key |
| `Listing.UpStep` | internal/arcade/pagination.go:26-32 | One sift-up swap restores the order above the hole |
| `Listing.DownStep` | internal/arcade/pagination.go:26-32 | One sift-down swap with the larger child restores the order below the hole |
| `Listing.MaxHeap.Push` | internal/arcade/pagination.go:116-117 | The heap keeps its order and gains exactly the item |
| `Listing.MaxHeap.Pop` | internal/arcade/pagination.go:118-119 | Pop removes the largest and keeps the order and all the rest |
| `ListPage.AcceptOne` | internal/arcade/pagination.go:108-121 | What one more accepted entry does to the first 2001 of the sorted keys |
| `ListPage.Offer` | internal/arcade/pagination.go:116-121 | Push, or pop and push, keeps the heap equal to the first 2001 of what was scanned |
| `ListPage.ListFilesPage` | internal/arcade/pagination.go:48-152 | A page is the first 2000 of the sorted entries above the cursor, folders before files and each kind in name order; a next cursor exists exactly when entries remain; cursors of another server or directory, and of another generation, get their own errors, and a directory over a million entries gives no page |
| `ListPage.SortedComplete` | internal/arcade/pagination.go:107-115 | Sorting keeps every readable entry exactly once, in strictly rising key order |
| `ListPage.ContinuesAfter` | internal/arcade/pagination.go:107-110 | The entries above a page's last key are the sorted entries that follow it |
| `ListPage.PagesJoin` | internal/arcade/pagination.go:137-150 | Following cursors over an unchanged directory yields the whole sorted listing, once, and stops |
| `Props.ParsePropsLines` | internal/arcade/files.go:767-779 | The parser's loop computes the specified map, later lines winning |
| `Props.WriteEntries` | internal/arcade/files.go:681-707 | The printer's loop writes one line per key |
| `Props.WriteProps` | internal/arcade/files.go:681-707 | The printed file: the header lines, then one line for each key in sorted order |
| `Props.SortedKeys` | internal/arcade/files.go:681-707 | Every key once, in rising byte order |
| `Props.OneOrder` | internal/arcade/files.go:681-707 | There is exactly one such order, so the printed text is a function of the map |
| `Props.PrintedLine` | internal/arcade/files.go:767-779 | What the parser makes of one printed line |
| `Props.SpacedEntry` | internal/arcade/files.go:767-779 | Blanks before the key, space around the sign and a carriage return change nothing about an entry |
| `Props.CommentSkipped` | internal/arcade/files.go:767-779 | A line starting with either comment sign sets nothing, however far indented |
| `Props.ParsedContained` | internal/arcade/files.go:767-779 | Nothing the parser returns can spill into another key or line |
| `Props.RoundTrip` | internal/arcade/files.go:681-779 | Parsing the printed file gives the same map exactly when every key and value is well formed, for every map and every key order |
| `Props.PrintedReadsBack` | internal/arcade/files.go:681-779 | The file the panel prints reads back as the same map exactly when every key and value is well formed |
| `PropsPort.ValidateCanonicalProps` | internal/arcade/files.go:899-919 | The check refuses exactly the texts with a line that counts and has no =, an empty key, a key with one of the five reserved characters, or an odd run of backslashes at its end |
| `PropsPort.PropsPortValue` | internal/arcade/files.go:344-385 | The strict reader's loops compute the specified answer; PrintedPort and OneLinePort say what that is |
| `PropsPort.PrintedPort` | internal/arcade/files.go:344-385 | A file printed from well formed settings is accepted exactly when every key is canonical and no line goes on, and the answer is read from the value those settings hold |
| `PropsPort.OneLinePort` | internal/arcade/files.go:344-385 | The line that names a port from 1 to 65535 is read as that port |
| `GoText.ItoaReads` | internal/arcade/model.go:692-706 | A printed number reads back as itself exactly when it fits a machine word |
| `PropsPort.LastValueWins` | internal/arcade/files.go:344-385 | The last value of a key is the parsed map's value, and no value means no key |
| `PropsPort.ReadersAgree` | internal/arcade/files.go:344-803 | For every text: a port the strict reader accepts is the one the parser and reload adopt, and where it sees none the parsed map has none |
| `PropsPort.HasPortLine` | internal/arcade/backup.go:1119-1127 | Whether the first line that names a port names this one |
| `PropsPort.LineReadersAgree` | internal/arcade/backup.go:1119-1127 | On every line the third reader sees the key and value the strict one does, spaces aside |
| `PropsPort.FirstPortAccepted` | internal/arcade/backup.go:1119-1127 | In every text the strict reader accepts, the first port line names the port the parser adopts |
| `Ledger.ClaimSound` | internal/arcade/manager.go:1414-1444 | A claim keeps the two reservation maps in agreement, leases disjoint, and no lease in conflict with a server |
| `Ledger.ReserveAgrees` | internal/arcade/manager.go:1414-1444 | Writing a lease's numbers keeps the maps in agreement exactly when no other lease holds one of them |
| `Ledger.ReleaseSound` | internal/arcade/manager.go:1494-1509 | A release keeps the ledger sound and never frees a number another lease holds |
| `Ledger.ReleasePortCovers` | internal/arcade/manager.go:1508-1519 | Releasing a bare number frees nobody else's lease exactly when the number is unheld or held by the caller's own lease |
| `Ledger.RegisterSound` | internal/arcade/manager.go:978-987 | Registration checks nothing: it keeps the ledger sound exactly when its bindings are still free, as they are while its lease is in the table |
| `Ledger.LeasesApart` | internal/arcade/manager.go:1414-1444 | Distinct leases hold disjoint numbers |
| `Ledger.MoveSound` | internal/arcade/manager.go:2485-2527 | A port move that passed its checks keeps the ledger sound, the old `BindPort` of a live server included |
| `Ledger.MoveBackSound` | internal/arcade/manager.go:2603-2616 | Rolling the port back during a settings save never creates a conflict |
| `Ledger.DeleteSound` | internal/arcade/manager.go:1185-1199 | Deleting a server keeps the ledger sound |
| `Ledger.StartExitPublish` | internal/arcade/manager.go:1706-1733 | After a start a server publishes its own ports and its dynamic bindings, after an exit or a failed save its own alone; a move of a live server keeps both bases, of a stopped one only the new |
| `Ledger.PlainShape` | internal/arcade/manager.go:1320-1357 | A shape without protocols publishes its one port over TCP |
| `Ledger.BuiltHas` | internal/arcade/manager.go:1320-1357 | Exactly the span of ports up to the last there is, over each protocol, and the usable extras |
| `Ledger.RecoverSound` | internal/arcade/manager.go:371-384 | Boot recovery's unchecked port keeps the ledger sound exactly when nobody publishes or holds what the server then would |
| `Ledger.HandOverSound` | internal/arcade/manager.go:2588-2598 | The save's unchecked lease keeps the ledger sound exactly when nobody else holds one of the server's numbers |
| `Ledger.HandOverStealsReservation` | internal/arcade/manager.go:2588-2598 | A concrete ledger in which that lease takes another lease's number away |
| `Ledger.HandOverGuards` | internal/arcade/manager.go:2588-2598 | While the lease stands nobody else can claim or move onto the server's old ports |
| `Ledger.MoveUnderHandOver` | internal/arcade/manager.go:2485-2527 | Inside a settings save a move passes exactly when it would without the save's lease and the new ports meet none the server publishes already |
| `Ledger.GuardedStep` | internal/arcade/manager.go:2588-2601 | A step of another request leaves the save's guard standing and its server as it was, or exited |
| `Ledger.SaveStaysGuarded` | internal/arcade/manager.go:2588-2616 | Over every run of careful steps of others during a save, exits included, rolling the port back stays possible and sound |
| `Ledger.OwnPortsBlockMove` | internal/arcade/manager.go:2485-2520 | That condition fails for every server with extra ports, for every move that overlaps its own span, and for every move back onto its container's |
| `Ledger.StepGood` | internal/arcade/manager.go:1387-1519 | Every step keeps the ledger sound and everybody's lease in the table exactly when it is careful: only a release by number, a settings save's lease and boot recovery have a condition at all |
| `Ledger.RunGood` | internal/arcade/manager.go:1320-1564 | Every run of claims, releases, registrations, moves, starts, exits, deletions, saves, recoveries and reboots stays good throughout exactly when its every step is careful |
| `Ledger.ReleasePortBreaksLedger` | internal/arcade/clone.go:320-345 | From an empty ledger: a clone that frees its port by number frees a newer claim, and two servers end on one port |
| `Ledger.RecoveryBreaksLedger` | internal/arcade/manager.go:371-384 | A retained restore that moved a port, a new server on the old one, a reboot: recovery puts both on one port |
| `PortManager.CandidateBindings` | internal/arcade/manager.go:1387-1412 | The admission loop accepts exactly the shapes whose every member is in range, and builds exactly their binding set |
| `PortManager.ServerBindings` | internal/arcade/manager.go:1320-1357 | Exactly the ports a server publishes, its old container's among them while it lives |
| `PortManager.BindingConflict` | internal/arcade/manager.go:1359-1371 | Conflict exactly when the sets meet |
| `PortManager.Manager.ClaimPortBindings` | internal/arcade/manager.go:1414-1444 | Claims exactly when no server publishes and no lease holds one of the bindings |
| `PortManager.Manager.ReleaseReservation` | internal/arcade/manager.go:1494-1509 | The loop frees exactly the numbers still held by this lease |
| `PortManager.Manager.ReleasePort` | internal/arcade/manager.go:1508-1519 | The lease that holds the number now is freed, whoever holds it |
| `PortManager.Manager.Register` | internal/arcade/manager.go:978-987 | Registration and release in one section, whether or not the lease is still there |
| `PortManager.Manager.ChangeServerPort` | internal/arcade/manager.go:2485-2527 | Moves exactly when the whole new binding set is in range, unpublished and unreserved |
| `PortManager.Manager.HandOver` | internal/arcade/manager.go:2588-2601 | The lease on everything the server publishes, whoever held the numbers |
| `PortManager.Manager.SetPort` | internal/arcade/manager.go:2603-2606 | The port is set without asking the ledger |
| `PortManager.Manager.Others` | internal/arcade/manager.go:2588-2616 | Claims, releases, other servers' moves and any exit, in any number and order, keep a good ledger good and the save's guard standing |
| `PortManager.Manager.ClaimStart` | internal/arcade/manager.go:1648-1733 | Dynamic bindings are checked against live servers only; a refusal leaves them set, a failed save clears them |
| `PortManager.Manager.Exit` | internal/arcade/manager.go:2010-2035 | The container's ports go with it |
| `PortManager.Manager.NextFreePort` | internal/arcade/manager.go:1530-1564 | The least free port from the hint on, 0 exactly when there is none |
| `SettingsSave.NewlineBreaksFile` | internal/arcade/manager.go:2540-2555 | A value with a newline passes the request checks and makes the file unable to hold the settings |
| `SettingsSave.FileReadsBack` | internal/arcade/files.go:681-707 | The file that holds the settings reads back as them exactly when they are well formed |
| `SettingsSave.ChangedMeans` | internal/arcade/manager.go:2627-2662 | The new settings in terms of the request: port, properties, player limit, and which keys wait for a restart |
| `SettingsSave.WantedPort` | internal/arcade/manager.go:2540-2555 | Accepted exactly are requests on known keys whose port reads as a number from 1 to 65535, and that number is the port asked for |
| `SettingsSave.Store.WritePropsHeld` | internal/arcade/files.go:681-707 | The file is the print of the model; an error can follow the replacement |
| `SettingsSave.Store.Change` | internal/arcade/manager.go:2627-2662 | The new settings: the request over the old ones, the port in the properties too, and what waits for a restart |
| `SettingsSave.Store.RollBack` | internal/arcade/manager.go:2603-2616 | The model is back as it was, the container gone or not, and file and servers.json with it unless the server is marked; the ledger stays good |
| `SettingsSave.Store.Publish` | internal/arcade/manager.go:2645-2672 | Model, file and servers.json move together, or back together, or the server is marked, whatever other requests do between the writes |
| `SettingsSave.Store.MovePort` | internal/arcade/manager.go:2587-2624 | The lease and the move: undisturbed, it moves exactly when the ports are free and meet none of the server's own, and it never moves onto its own |
| `SettingsSave.Store.ApplySettings` | internal/arcade/manager.go:2537-2679 | Every return leaves model and servers.json equal on the new settings (success) or the old ones (error), the file printed from them or untouched, or the server marked, with other requests between any two steps; on success the request is in the properties, the limit is the number it names, and exactly the changed keys of a running server wait for a restart, beside those that did before; undisturbed it succeeds exactly on a valid request whose port can be moved to |
| `AuditLog.AcceptSound` | internal/arcade/auth.go:814-819 | Admitting a record keeps the books sound: the queue stays the contiguous range ending at the newest number, an overflow is counted |
| `AuditLog.AppendAscending` | internal/arcade/auth.go:1384-1399 | Appending the queue's head keeps numbers strictly rising within and across segments |
| `AuditLog.WriteSound` | internal/arcade/auth.go:1384-1399 | Writing the head once keeps the books sound |
| `AuditLog.AdvanceSound` | internal/arcade/auth.go:828-834 | Dropping a durable head keeps them sound |
| `AuditLog.StepSound` | internal/arcade/auth.go:800-844 | Every step of the log keeps the books sound |
| `AuditLog.EveryRecordAccounted` | internal/arcade/auth.go:800-844 | Every accepted number was written, is pending, or was pushed out, and `Dropped` counts those pushed out |
| `AuditLog.DroppedIsExact` | internal/arcade/auth.go:816-819 | `Dropped` is the number of lost records exactly when no record already on disk was pushed out |
| `AuditLog.OverflowMiscounts` | internal/arcade/auth.go:816-819 | The next overflow miscounts exactly when the head was written but not yet synced |
| `AuditLog.DroppedCountsWritten` | internal/arcade/auth.go:814-844 | A run from an empty log: its head is written but never synced, the queue overflows, and `Dropped` is 1 with nothing lost |
| `AuditLog.RunSound` | internal/arcade/auth.go:800-844 | Over any mix of appends, write and sync failures, overflows and rotations the books balance |
| `AuditLoad.ChargeCounts` | internal/arcade/auth.go:1273-1284 | The load's subtraction equals the number of recorded pending numbers above everything on disk |
| `AuditLoad.ChargeIsExact` | internal/arcade/auth.go:1273-1284 | It is the number of pending records not on disk exactly when disk has no gap among them, and never more |
| `AuditLoad.ChargeMissesGap` | internal/arcade/auth.go:1273-1284 | A disk and a health record for which one missing record is not charged |
| `AuditLoad.ScanSegment` | internal/arcade/auth.go:1212-1260 | A segment is accepted exactly when its numbers are positive and strictly rising after the last |
| `AuditLoad.Scan` | internal/arcade/auth.go:1191-1272 | All segments in order are accepted exactly when every number rises; torn last lines are cut and the last number bounds everything on disk |
| `AuditLoad.Renumber` | internal/arcade/auth.go:1295-1303 | Records queued before the load keep their order and get the numbers after everything known |
| `AuditLoad.FreshSound` | internal/arcade/auth.go:1269-1314 | The books a load starts with are sound |
| `AuditRestart.StepSteady` | internal/arcade/auth.go:1068-1316 | Every failed load with its report, every entry queued meanwhile and the load that succeeds keep the books of a start: each queued entry is queued or was given up, and `Dropped` is what was carried over and charged and given up, less what an adoption erased |
| `AuditRestart.StepDecides` | internal/arcade/auth.go:1103-1291 | A load adopts the record exactly when it reads it while the file is still the one found and counts more failures than this process; it charges the range exactly when it also gets through the segments and nothing is queued; adopting erases what the queue gave up until then |
| `AuditRestart.StepWaits` | internal/arcade/auth.go:1068-1088 | The record stays to be adopted exactly when a load fails before reading it, no report reaches the disk, and it still counts more failures |
| `AuditRestart.RestartExact` | internal/arcade/auth.go:1068-1316 | Over every start: which load, if any, adopts the record, whether its range is charged and passed by the numbers, and how many given-up entries the count lacks, each exactly by the order of failures, reports and appends |
| `AuditRestart.ReadingIs` | internal/arcade/auth.go:1068-1316 | That load is the first to read the record, if every load before it failed early and left no trace on disk, and there were fewer of them than the record counts failures |
| `AuditRestart.NumbersPassRange` | internal/arcade/auth.go:1273-1294 | With nothing queued and the range not reached on disk, the next number passes the recorded range exactly when it was charged |
| `AuditRestart.FailedLoadLosesRange` | internal/arcade/auth.go:1068-1110 | A start whose first load fails on a segment: the range of three lost records is overwritten, nothing is dropped, and the first of their numbers is given out again |
| `AuditRestart.AdoptionErasesCount` | internal/arcade/auth.go:1103-1110 | A start that queues 2001 entries before it can read the record: adopting it erases the count of the entry given up, and nothing is charged |
| `AuditStore.Store.Admit` | internal/arcade/auth.go:814-819 | One admission refines the specified step |
| `AuditStore.Store.OpenSegment` | internal/arcade/auth.go:1364-1383 | A full segment is left behind before a new record, never before a retry |
| `AuditStore.Store.WriteHead` | internal/arcade/auth.go:1384-1399 | The write refines the specified step |
| `AuditStore.Store.RetainSegments` | internal/arcade/auth.go:1339-1356 | Only the oldest segments go, and only while more than four are left |
| `AuditStore.Store.AppendHead` | internal/arcade/auth.go:1357-1407 | Success: the newest segment has gained the head, unless it was written before, and of the others only oldest are gone; failure: written at most once, still queued |
| `AuditStore.Store.Flush` | internal/arcade/auth.go:827-834 | The queue is drained front first, and the first failure keeps the rest |
| `AuditStore.Store.SaveHealth` | internal/arcade/auth.go:1076-1088 | The record on disk is the old one or the new status, which names exactly the queue; an error can follow the replacement |
| `AuditStore.Store.AuditFailure` | internal/arcade/auth.go:1068-1075 | One more failure, reported with the range of the queue |
| `AuditStore.Store.LoadOrFail` | internal/arcade/auth.go:805-809 | A load with its report is one step of the start |
| `AuditStore.Store.Append` | internal/arcade/auth.go:800-844 | Never refused: the entry has a new, higher number and is on disk, queued or counted. Loaded: it has the next number and nothing written is forgotten. Before that it is one step of the start; the queue is numbered again by the load it begins with, or grows by the entry and gives up its oldest when full |
| `AuditStore.Store.ChargeLost` | internal/arcade/auth.go:1273-1291 | The status and the numbers become exactly those of the charge |
| `AuditStore.Store.ReadSegments` | internal/arcade/auth.go:1089-1272 | The recorded health is adopted when it has seen more failures, and each torn tail counts as one more; a successful read leaves no torn tail |
| `AuditStore.Store.Load` | internal/arcade/auth.go:1089-1316 | A load accepts exactly rising segments; however far it comes, status, record, numbers and queue are those of the specified step |
| `Console.TrySendSound` | internal/arcade/hub.go:107-119 | Every message sent to an open connection is taken or counted, never both |
| `Console.SendAllExact` | internal/arcade/hub.go:107-119 | A viewer that takes nothing meanwhile keeps exactly the first messages its queue has room for, and the rest is counted |
| `Console.PublishAppends` | internal/arcade/hub.go:180-228 | A live room gives a line the next number, keeps its text, and fills in a level and a source only where it had none |
| `Console.PublishFollows` | internal/arcade/hub.go:180-228 | One publish keeps an attached viewer in step with the room |
| `Console.ControlFollows` | internal/arcade/hub.go:232-247 | Control messages never disturb the lines |
| `Console.ReplayIsTail` | internal/arcade/hub.go:123-148 | Replay on join is exactly the last min(seq, 500) lines, consecutive and ending at the returned number |
| `Console.LinesInOrder` | internal/arcade/hub.go:214-225 | Whatever was shed, the lines a viewer takes rise strictly above its join |
| `Console.NoDropNoGap` | internal/arcade/hub.go:16-19 | The counter is zero exactly when everything was taken, and then replay and lines together have no gap and no repeat |
| `Console.StepSound` | internal/arcade/hub.go:123-290 | Every step keeps the viewer in step; a dead room and a closed connection change no more |
| `Console.RunSound` | internal/arcade/hub.go:123-290 | Over every run the viewer stays in step, a dead room never revives, and after close nothing more is counted |
| `Hub.Conn.TrySend` | internal/arcade/hub.go:107-119 | Refines the specified send |
| `Hub.Conn.Close` | internal/arcade/hub.go:95-104 | Idempotent |
| `Hub.Room.Join` | internal/arcade/hub.go:123-148 | A live room attaches the viewer and hands over the tail; a dead one attaches nobody |
| `Hub.Room.Publish` | internal/arcade/hub.go:180-228 | Stamp, ring and fan-out in one section, to every attached connection |
| `Hub.Room.DropRoom` | internal/arcade/hub.go:270-289 | Every connection is closed, the ring emptied, the room dead |
| `Hub.Room.Tail` | internal/arcade/hub.go:252-264 | The newest n lines, the whole ring for an n out of range |
| `Hub.Hub.Join` | internal/arcade/hub.go:123-148 | Creates the room if need be, never revives a dead one |
| `Hub.Hub.Publish` | internal/arcade/hub.go:180-228 | Creates the room if need be; into a dead room nothing is published |
| `Hub.Hub.Leave` | internal/arcade/hub.go:165-176 | Detaches and closes, and creates no room |
| `Hub.Hub.DropRoom` | internal/arcade/hub.go:270-289 | A tombstone is left even where there was no room |
| `Hub.Hub.SendRaw` | internal/arcade/hub.go:232-247 | Sending after the room was let go keeps every viewer in step, whoever left or closed meanwhile |
| `Intent.StepSound` | internal/arcade/lifecycle_intent.go:5-25 | Memory and disk agree on the intent outside a save, launches follow recorded claims, and a current ticket is overtaken or stays current |
| `Intent.CommitIsDurable` | internal/arcade/manager.go:1706-1733 | A claim commits exactly when its ticket is the newest intent and nothing refuses it, and then servers.json says starting; a claim that does not commit changes nothing there |
| `Intent.GrantIsCurrent` | internal/arcade/lifecycle_intent.go:5-25 | A granted generation is the newest persisted intent |
| `Intent.FailedSaveGrantsNothing` | internal/arcade/lifecycle_intent.go:18-23 | A failed save restores both fields and hands out no generation |
| `Intent.BootStops` | internal/arcade/manager.go:133-226 | A panel restart finds no server running and changes nothing else |
| `Intent.RunSound` | internal/arcade/manager.go:1577-1926 | Generations on disk never go back |
| `Intent.NewestIntentWins` | internal/arcade/manager.go:1577-1738 | In every run, every start commits while the newest persisted intent is its own and says run |
| `Intent.StopSupersedes` | internal/arcade/manager.go:1740-1832 | A stop or kill accepted after a ticket was given supersedes it for the life of the process |
| `Intent.StrayTicketDefeatsStop` | internal/arcade/manager.go:534-552 | A run in which a generation read during a failing save starts the server against a later stop |
| `Intent.ResumeReadIsSafe` | internal/arcade/manager.go:534-552 | The generation boot resume reads is safe in every future exactly when no intent is being saved at that moment |
| `Lifecycle.Server.PersistIntent` | internal/arcade/lifecycle_intent.go:5-25 | The next generation, durably, or no change at all |
| `Lifecycle.Server.ClaimStart` | internal/arcade/manager.go:1648-1738 | Success refines the committing claim; failure leaves servers.json and every field but the bind port as they were |
| `Lifecycle.Server.SetStatus` | internal/arcade/manager.go:1990-2008 | The status stands whether or not it was saved |
| `Lifecycle.Server.StartExpected` | internal/arcade/manager.go:1577-1642 | The runner is asked only after a claim on disk, made under an intent that was newest and said run, whatever happened while it waited, starts under other tickets included; undisturbed it starts exactly a registered server that may start, on a fresh ticket or the one it was given |
| `Lifecycle.Server.AcceptStop` | internal/arcade/manager.go:1756-1760 | An accepted stop is on disk and overtakes every earlier ticket |
| `Lifecycle.Server.Stop` | internal/arcade/manager.go:1740-1783 | A stop with an intent overtakes every ticket current before it; a stop of a server that is down is refused |
| `Lifecycle.Server.Restart` | internal/arcade/manager.go:1874-1926 | The restart's start obeys the same rule, its ticket taken before its own stop; without that stop it does not start; undisturbed it ends with the server starting again |
| `Lifecycle.Server.Resume` | internal/arcade/manager.go:529-558 | Resume uses an existing run intent, makes one where there was none, and leaves a stopped intent alone |
| `Schedule.StepSound` | internal/arcade/scheduler.go:458-608 | Every step that does not expose a one-shot keeps it claimed at most once |
| `Schedule.ClaimedAtMostOnce` | internal/arcade/scheduler.go:458-608 | Over ticks, duplicates, manual runs, edits, crashes and reloads a one-shot's scheduled run is claimed at most once between two armings |
| `Schedule.OnceExactly` | internal/arcade/scheduler.go:458-608 | A step keeps that promise for every future exactly when it is neither the failing last record of the claimed run nor a late mark during it |
| `Schedule.FailedRecordRepeats` | internal/arcade/scheduler.go:588-609 | After a failing last record the next day's tick claims the one-shot again |
| `Schedule.LateMarkRepeats` | internal/arcade/scheduler.go:471-480 | After a mark on a running task a crash makes the next tick claim it again |
| `Schedule.ExecutionIsDurable` | internal/arcade/scheduler.go:559-575 | A run executes exactly when its claim was recorded, and a scheduled one only if the task was still enabled |
| `Schedule.ParkedRun` | internal/arcade/scheduler.go:458-489 | A disabled task is not claimed by any tick, in any run without an enabling edit |
| `Schedule.InterruptedIsNotReplayed` | internal/arcade/scheduler.go:93-99 | A one-shot cut short is reported and never replayed until it is enabled again |
| `Scheduler.Scheduler.constructor` | internal/arcade/scheduler.go:71-105 | Every running record becomes interrupted, one-shots among them disabled |
| `Scheduler.Scheduler.Record` | internal/arcade/scheduler.go:300-318 | The whole list is written with the change, or the change is undone |
| `Scheduler.Scheduler.Dispatch` | internal/arcade/scheduler.go:458-489 | Marks exactly what its copy says is due, on disk and in memory alike, and admits only enabled tasks |
| `Scheduler.Scheduler.EnterRun` | internal/arcade/scheduler.go:523-545 | One run of a task at a time |
| `Scheduler.Scheduler.ClaimRun` | internal/arcade/scheduler.go:559-575 | The claim is recorded or nothing changes; a scheduled run needs the task enabled |
| `Scheduler.Scheduler.FinishRun` | internal/arcade/scheduler.go:588-609 | The last record refines the specified step, failing or not |
| `Scheduler.Scheduler.Update` | internal/arcade/scheduler.go:259-292 | The task gets what was asked; disabling cancels the pending occurrence and nothing else changes; a failed write changes nothing |
| `Scheduler.Scheduler.RunTask` | internal/arcade/scheduler.go:499-616 | Steps run only between a recorded claim and the last record, stopping at the first failing step, while edits, ticks and other runs go on; a second run of the same task does nothing; undisturbed, the run is counted and dated, a one-shot disabled, and its end told from a failure |
| `Tombstones.StepSound` | internal/arcade/deletion.go:21-57 | Every step of every deletion, save, registration, crash and boot keeps the tombstones sound |
| `Tombstones.RunSound` | internal/arcade/deletion.go:21-57 | Over every run |
| `Tombstones.OrderOfRemoval` | internal/arcade/manager.go:1185-1244 | Data and backups go only while a tombstone asks for it, and a tombstone goes only once no list holds the server and all it asked for is gone |
| `Tombstones.DeletionIsFinal` | internal/arcade/manager.go:171-225 | Once a tombstone was durable the server is absent after the next boot and ever after, whatever crashes and concurrent saves happen |
| `Tombstones.RefusedDeletion` | internal/arcade/restore_journal.go:30-55 | A deletion whose first write reports an error spares the server exactly when that write was not published |
| `Deletion.Panel.BeginDeletion` | internal/arcade/deletion.go:21-30 | The tombstone, which an error can still have published |
| `Deletion.Panel.CompleteDeletion` | internal/arcade/deletion.go:31-57 | Success: everything asked for is gone; a container not known to be down keeps everything |
| `Deletion.Panel.Save` | internal/arcade/manager.go:609-639 | The published list is the list in memory |
| `Deletion.Panel.DeleteIntent` | internal/arcade/manager.go:1171-1246 | Success: off every list, data gone; before the tombstone nothing changes; after it the server is off the panel and its tombstone outlives every incomplete cleanup |
| `Deletion.Panel.DeleteFound` | internal/arcade/manager.go:1176-1246 | The same for a deletion that waited for another of the same server and finds it off the list: condemned and cleaned up again, never back on a list |
| `Deletion.Panel.Retry` | internal/arcade/manager.go:218-224 | One unfinished deletion, retried at boot: its tombstone goes only with everything asked for gone and the server off the saved list, and then it does go if nothing fails |
| `Deletion.Panel.Load` | internal/arcade/manager.go:133-226 | No condemned server is ever listed; a tombstone is dropped only once its deletion is complete; undisturbed, every deletion is completed and no tombstone is left |
| `Sessions.CreatedSound` | internal/arcade/auth.go:467-487 | A new account keeps every session current |
| `Sessions.PasswordSetSound` | internal/arcade/auth.go:700-722 | After a password change no session lives on the old credential but the caller's own |
| `Sessions.UserGoneSound` | internal/arcade/auth.go:735-775 | A deleted user has no session left |
| `Sessions.OpenedSound` | internal/arcade/auth.go:557-586 | A session opened on the current credential within both limits keeps them |
| `Sessions.AdminRemains` | internal/arcade/auth.go:743-753 | Deleting one of several admins, or no admin, leaves an admin |
| `Sessions.SessionTracksCredential` | internal/arcade/auth.go:529-587 | A session other than the kept one was minted against the credential that is current now |
| `Sessions.StepSound` | internal/arcade/auth.go:467-775 | Every locked section keeps all of this |
| `Sessions.RunSound` | internal/arcade/auth.go:467-775 | In every run sessions track credentials, stay within 32 a user and 4096 in all, and once an admin exists one always does |
| `Accounts.Auth.CommitUsers` | internal/arcade/auth.go:489-513 | Memory follows only once the file is written |
| `Accounts.Auth.Login` | internal/arcade/auth.go:529-587 | A session is minted only on a credential the password matched and that is still the user's after hashing, with the user's current role; undisturbed the answer is exact: denied to a wrong password or unknown user, refused at 32 live sessions of the user or 4096 in all, else one new session of twelve hours, and only expired sessions go |
| `Accounts.Auth.Mint` | internal/arcade/auth.go:553-587 | The last locked section of a login: expired sessions go, and a session is minted exactly while both limits leave room |
| `Accounts.Auth.SetPassword` | internal/arcade/auth.go:648-724 | The new credential is set only for a user who showed the old one, or by an admin; others' sessions end; undisturbed it succeeds exactly on an acceptable new password so shown, and no other user or session changes |
| `Accounts.Auth.DeleteUser` | internal/arcade/auth.go:735-775 | Refused exactly for an unknown user and for the last admin |
| `Accounts.Auth.CreateUser` | internal/arcade/auth.go:404-491 | The first account is an admin's and only an empty panel takes it; undisturbed it succeeds exactly on acceptable names and passwords not taken yet, and nothing else changes |
| `Accounts.Auth.SessionOf` | internal/arcade/auth.go:595-609 | An expired session is never answered with, and is forgotten |
| `Accounts.Auth.Logout` | internal/arcade/auth.go:589-593 | Ends that session and no other |
| `Accounts.Sweep` | internal/arcade/auth.go:566-577 | Exactly the expired sessions go, and the user's live ones are counted |
| `Accounts.CountAdmins` | internal/arcade/auth.go:743-753 | The number of admins |
| `Limiter.Gate.Allow` | internal/arcade/auth.go:1000-1022 | Sweep, bucket and count refine the specified step; admitted exactly is a key with a live bucket below its limit, or without one while fewer than 4096 are live |
| `Limiter.Step` | internal/arcade/auth.go:1000-1022 | One attempt keeps buckets a minute long, a minute apart and within the limit |
| `Limiter.WindowBound` | internal/arcade/auth.go:1000-1022 | In any minute a key is admitted at most 2·limit − 1 times, each bucket at most limit times, and the table never passes 4096 |
| `Limiter.BoundIsReached` | internal/arcade/auth.go:1000-1022 | For every limit a run attains the bound |
| `Pbkdf2.XorInto` | internal/arcade/auth.go:361-363 | The in-place loop is the octet-wise exclusive-or |
| `Pbkdf2.FillIndex` | internal/arcade/auth.go:348-351 | The four octets of the block index |
| `Pbkdf2.DeriveBlock` | internal/arcade/auth.go:345-365 | The inner loop leaves T_i of section 5.2 of RFC 2898 in the buffer |
| `Pbkdf2.Key` | internal/arcade/auth.go:337-368 | The first keyLen octets of T_1, T_2, ... in a row, over any function of fixed output length |
| `Pbkdf2.ShorterIsPrefix` | internal/arcade/auth.go:337-368 | A shorter key is a prefix of a longer one |
| `Pbkdf2.BitsUndo` | internal/arcade/auth.go:361-363 | The bitwise exclusive-or undoes itself, for any width |
| `Pbkdf2.OctetUndo` | internal/arcade/auth.go:361-363 | So it does on every octet |
| `Pbkdf2.IndexBigEndian` | internal/arcade/auth.go:348-351 | The index is written most significant octet first, in 32 bits |
| `Pbkdf2.IndexRepeats` | internal/arcade/auth.go:348-351 | Two blocks start from the same message exactly when their indexes agree in 32 bits |

## Left out

- Docker, RCON, processes and log readers: a container's state is an arbitrary answer where a protocol asks for it.
- HTTP handlers, WebSocket and SSE transport, MCP, the command line and the browser code.
- File permissions, ownership, symlink races and `os.Root`: directories are maps with atomic renames. fsync appears only as
  a write that may fail before or after publication.
- gzip and tar framing, JSON, base64, SHA-256 and HMAC: taken as lossless or as given functions.
- Restore: while one runs no other writer is active (the program holds `fsMu` and the container is stopped), and the
  staging name is neither an original's nor an archive entry's. Journals over 8 MiB and several staging directories at once are not
  modelled. The recovery mark is a field of the panel only: that servers.json keeps it is not modelled. An unreadable
  marker reads as an absent one, as in the code. `RemoveAll` is taken to keep the marker until `old/` is gone
  (MarkerGoesLate); RestoreDisk.MarkerFirst says what happens otherwise. In the branch where nothing had moved, the code
  does not clear an earlier recovery mark, nor does the model.
- Archive: file modes, times and the free-disk check, which appears only as a refusal.
- Listing: case folding beyond ASCII, the cursor's encoding, and the batches in which a directory is read.
- ValidateJournal: an unknown phase and missing old properties, which the types of the model cannot express.
- Properties: how a file's bytes stand for a text is a parameter of the restore. The `:` separator test of the strict
  reader cannot succeed after its validation and is not modelled.
- Ledger: extra ports are modelled already parsed. Lease identifiers are assumed fresh and not empty. Bindings
  found at launch stay out of the global invariant, as in the code, which checks them against live servers only.
- Settings: labels of settings waiting for a restart are represented by their keys.
- Audit: the migration of the old log file, record and line size limits, redaction, and the in-memory window of the newest
  2000 entries. A failed write's repair by truncation is taken to succeed. Numbers do not wrap at 64 bits.
- Console: timestamps. A connection joins one room, once.
- Lifecycle: the runner's own supervision, which only changes the status; the failure counter appears as a refusal.
- Scheduler: adding and deleting tasks, dropping a server's tasks, parsing clock times, and daylight saving. Days stand for
  moments, so two runs on one day count as the same occurrence; slots appear as a choice. For repeating tasks nothing is
  claimed about once a day.
- Deletion: the refusal to load when servers.json is missing while tombstones exist, corrupt tombstones, and the order of
  the list. Identifiers are never given out twice.
- Accounts: names are ASCII, where lower-casing and case folding agree; roles are given at creation and never change, as
  in the code; loading and validating users.json, the bootstrap token and the enforcement switches are not modelled.
- Limiter: clock readings are whole nanoseconds and never go back in WindowBound, as for a monotonic clock.
- PBKDF2: the RFC's refusal of keys longer than 2^32 - 1 blocks, which the code does not have; Pbkdf2.IndexRepeats says
  when blocks would repeat.
- Deadlock freedom.
- Plugin download, import scanning, Geyser YAML, player lists, jobs, template seeding, reordering, metrics, heap sizing,
  Java image choice and backup pruning: easy beside the above or heuristic.
