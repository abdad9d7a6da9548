# Cyberlegion: the shared-directory protocols, proved

Cyberlegion lets independent processes on one machine run a hub of agent sessions with no server between
them. What they share is a directory tree: lock directories, lease files, unit records, a pane index and
mailboxes. They also share terminal panes, into which one process types while a human may be typing there
too. This project models the parts where those processes meet, and proves what they keep.

- **Locking.** `LockProtocol` takes the advisory lock one file-system call at a time: processes are program
  counters over a shared directory, any of them may crash at any step, and lock directories have an identity
  that no process can see. Mutual exclusion does not follow from the code without a hypothesis: a rename may
  take away a directory other than the one whose dead holder was read. The main theorem assumes it does not
  and says no more; it is complemented by the exact condition under which a capture is safe and by runs in
  which the lock is lost. Exactly when a contender gets in, and that a release frees the lock, is proved beside
  it. `LockRecheck` proves what the second look at a captured lock does buy.
- **Leases.** `LockedSection` shows that every interleaving of lock-wrapped read-decide-write sections is a
  run of atomic operations on the file. `Lease` is the ownership automaton those operations apply, `Fencing`
  proves the whole-run fencing theorems, `StartService` the guarantees of resolve-or-start, and `ServiceStore`
  has the transitions as methods on the stored lease.
- **Presence.** `Presence` uses the same section theorem for a standing owner's presence pointer, and
  `Deliveries` follows the deliveries that look at the owner's home first and spawn into it later.
- **Mail.** `Mailbox` is the mailbox at file-call granularity, with listings that run while messages move, and
  `Waits` has any number of waits consuming from it at once.
  `Inbox` has the ordering and filtering of an inbox and the two waiting loops; `MailStore` the store's
  operations with their error cases.
- **Units and panes.** `PaneIndex` proves that unit records and the pane index stay in step over every
  lifecycle operation; `UnitRegistry` has those operations as methods.
- **Console.** `ScreenReader` reads an input box off a screen and is proved against a painter. `DraftGuard`
  waits out and restores a human's draft, and `Ring` submits a message as a turn; both face an arbitrary
  sequence of screens.
- **Quoting.** `Quoting` has the shell and TOML encoders, and decoders written from the standards: POSIX.1-2017
  Shell Command Language, sections 2.2.1 and 2.2.2, and the basic string of TOML v1.0.0.

Clock readings, pane lists, unit liveness, screen texts and the kernel's answer to a liveness probe are
observations: they are arbitrary inputs of a step, never part of the state a lock protects. A waiting loop
takes a list of what it will observe, in the order in which it asks.

Where the code and its comments differ, the model follows the code:

- `packages/cyberlegion/src/store/lock.ts:45-46` calls an unreadable holder "never grounds to steal". The
  re-check of a captured lock does drop one (`lock.ts:97-107`), and a live process that has made its lock but
  not yet named itself in it loses it: `LockProtocol.UnnamedLiveLockIsTaken`. `SoloReclaimBreaksIff` says that
  this is the only lock a reclaim finalizes by mistake.
- A restored lock whose holder released it meanwhile can be left at the path with nobody in it, for good:
  `LockRecheck.ReleasedLockBlocksBoth`, and `RestoreBlocksForeverIff` for exactly when.
- `packages/cyberlegion/src/presence-spawn.ts:52-53` looks at the home before the presence lock is taken, so a
  refresh that drops the home meanwhile does not stop the spawn: `Deliveries.SpawnsAfterHomeDropped`, and
  `SpawnHomeIsGoneIff` for exactly when the record has lost the home by then.
- `packages/cyberlegion/src/unit-runtime.ts:81-82` drops a stopped unit's pane pointer so that a recycled pane
  never resolves to it. What it drops is whatever is at that pane, another unit's pointer included:
  `PaneIndex.RecycledPaneLosesPointer`, and `TakesForeignPointerIff` for exactly when, for every operation.
- `packages/cyberlegion/src/agentdef/realize.ts:71` puts an effort between quotes without escaping it:
  `Quoting.EffortArrivesIff` says exactly which efforts arrive.
- `packages/cyberlegion/src/console/prompt-guard.ts:149-151` promises that a cleared draft is typed back.
  `DraftGuard.DraftSurvivesIff` says exactly for which drafts the box ends as it was.
- `packages/cyberlegion/src/console/prompt-guard.ts:152-154` promises to leave a draft of more than one row
  alone. The reader stops at a blank line, so a draft can read as one row, or as no box:
  `DraftGuard.LongDraftIsLeftIff` says exactly which drafts are left.

`dafny verify dfyconfig.toml` checks the whole project.

## Model

| member | source | states |
|---|---|---|
| LockProtocol.StepKeepsInv | packages/cyberlegion/src/store/lock.ts:89-143 | Every single call, and a crash, keeps what each live process's program counter guarantees about the lock directory, as long as a rename takes the directory that was read; what the calls achieve is said by `ReleaseFreesTheLock`, `CanEnterAloneIff` and `WaiterCanEnterIff` |
| LockProtocol.RunKeepsInv | packages/cyberlegion/src/store/lock.ts:89-143 | At most one live process is between a successful mkdir and its release, in every run of any number of processes with crashes anywhere and no mis-captured lock |
| LockProtocol.CrashFreeRunsNeverReclaim | packages/cyberlegion/src/store/lock.ts:117-143 | Without a crash no lock is ever taken away, so mutual exclusion needs no hypothesis |
| LockProtocol.CaptureIsSafeIff | packages/cyberlegion/src/store/lock.ts:89-108 | From any state that meets the invariant, a rename followed by another process's mkdir keeps mutual exclusion if and only if the rename found nothing, the directory that was read, or no live lock |
| LockProtocol.ViolationIsMisCapture | packages/cyberlegion/src/store/lock.ts:82-87 | Any run that puts two live processes inside has mis-captured a lock |
| LockProtocol.SoloReclaimBreaksIff | packages/cyberlegion/src/store/lock.ts:89-108 | From any state that meets the invariant, a process about to reclaim can by itself, however long it goes on, get in beside a live holder if and only if the lock at the path is a live one that does not name its holder yet |
| LockProtocol.UnnamedLiveLockIsTaken | packages/cyberlegion/src/store/lock.ts:97-107 | Two live contenders and an abandoned lock suffice to break mutual exclusion: the lock taken is a live one whose holder is not written yet |
| LockProtocol.ThirdContenderEntersDuringCapture | packages/cyberlegion/src/store/lock.ts:99-104 | With a third contender even a fully written live lock is lost while it sits in another's grave |
| LockProtocol.RecoverableIff | packages/cyberlegion/src/store/lock.ts:136-138 | An idle contender can get in past a dead process's lock if and only if the lock still names that process |
| LockProtocol.CrashBeforeHolderLeavesOrphan | packages/cyberlegion/src/store/lock.ts:129-133 | A process that dies between its mkdir and its holder file leaves a directory that names nobody |
| LockProtocol.CrashMidReleaseLeavesOrphanIff | packages/cyberlegion/src/store/lock.ts:134-134 | So does one that dies in the middle of its release, if and only if nobody has read its holder file and is on the way to reclaim it |
| LockProtocol.OrphanBlocksForever | packages/cyberlegion/src/store/lock.ts:45-53 | That directory is never reclaimed and nobody enters again: the price of never stealing on an unclear read |
| LockProtocol.ReleaseFreesTheLock | packages/cyberlegion/src/store/lock.ts:134-134 | After the two steps of a release nothing is at the path, nothing else has changed, and any other idle process can get in by itself |
| LockProtocol.CanEnterAloneIff | packages/cyberlegion/src/store/lock.ts:117-143 | From any state that meets the invariant an idle contender can get in by itself if and only if the lock is free or names a process that is gone |
| LockProtocol.WaiterCanEnterIff | packages/cyberlegion/src/store/lock.ts:135-141 | So can a waiting one, before its call ends: the retries go on as a new call would |
| LockProtocol.KeptOutChangesNothing | packages/cyberlegion/src/store/lock.ts:114-116 | A contender that cannot get in changes nothing, however long it tries by itself: a live lock is waited out, never stolen |
| LockProtocol.GivesUpWithoutTrace | packages/cyberlegion/src/store/lock.ts:139-139 | It can time out, and all is then as it was before the call |
| LockProtocol.LostRaceGoesOn | packages/cyberlegion/src/store/lock.ts:91-96 | A process that loses the race to rename a dead lock away has changed nothing and can still get in before its call ends |
| LockProtocol.CapturedMakerFails | packages/cyberlegion/src/store/lock.ts:128-136 | A maker whose directory is renamed away before it is named has its call fail with nothing changed; left alone, it would have named its lock and been inside |
| LockProtocol.CapturedHolderReleases | packages/cyberlegion/src/store/lock.ts:134-134 | A holder whose lock was renamed away releases nothing while the path is free, and takes away the lock that another process makes there |
| LockProtocol.RestoreSparesNamedLock | packages/cyberlegion/src/store/lock.ts:98-104 | A restore onto a lock that names a holder leaves that lock as it is and drops the captured one |
| LockProtocol.RestoreReplacesUnnamedLock | packages/cyberlegion/src/store/lock.ts:98-104 | A restore onto a free path or an unnamed lock puts the captured lock back there, and the maker of the unnamed one then writes its name into the restored lock |
| LockProtocol.RestoreUndoesCapture | packages/cyberlegion/src/store/lock.ts:89-105 | A captured lock whose holder turns out to be alive goes back as it was: undisturbed, the four steps of the attempt leave everything as they found it and the process waiting |
| LockRecheck.TwoContendersExclude | packages/cyberlegion/src/store/lock.ts:82-108 | Two contenders that never crash exclude each other in every run, captures of live locks included |
| LockRecheck.StartsExcluded | packages/cyberlegion/src/store/lock.ts:82-108 | The same from any start in which the path holds nothing or a dead process's leftover |
| LockRecheck.RestoreLeavesBehindIff | packages/cyberlegion/src/store/lock.ts:98-104 | A restore leaves a lock nobody is in at the path if and only if its holder is not in it and the path is free, holds an empty leftover, or already holds a lock of that holder left behind |
| LockRecheck.LeftBehindBlocksIff | packages/cyberlegion/src/store/lock.ts:98-104 | A lock left behind keeps both contenders out for good if and only if neither is already about to take what is at the path |
| LockRecheck.RestoreBlocksForeverIff | packages/cyberlegion/src/store/lock.ts:98-104 | The two together: exactly when one restore blocks the lock for as long as both contenders live |
| LockRecheck.ReleasedLockBlocksBoth | packages/cyberlegion/src/store/lock.ts:98-104 | It happens: a run from a dead process's lock ends with both contenders outside, a released lock back at the path, and neither ever getting in |
| LockRecheck.ReleaseLetsTheOtherIn | packages/cyberlegion/src/store/lock.ts:134-134 | With no restore behind it a release frees the lock, and the other contender gets in |
| LockedSection.EventKeepsInv | packages/cyberlegion/src/store/file-store.ts:49-54 | Opening, filling and renaming a temporary file, and every lock call or crash, keep the file whole and equal to what the operations so far left |
| LockedSection.LockedWritesAreAtomic | packages/cyberlegion/src/service.ts:164-180 | In every interleaving of lock, load, decide, write and unlock by any number of processes, with crashes anywhere and no mis-captured lock, the file's history is a run of atomic operations; it is never torn and a crash leaves the old or the new content |
| LockedSection.RenameInstalls | packages/cyberlegion/src/store/file-store.ts:49-54 | Whenever a filled temporary file is renamed, whatever the others did meanwhile, the file holds exactly what its writer decided and the journal records it |
| LockedSection.WriteLands | packages/cyberlegion/src/store/file-store.ts:49-54 | A write that is decided can be opened, filled and renamed, and the file then holds it |
| LockedSection.CrashLeavesOldContent | packages/cyberlegion/src/store/file-store.ts:30-54 | A process that dies while it writes leaves its temporary file behind, torn or whole, and the file as it was, with no operation done |
| LockedSection.ActionRuns | packages/cyberlegion/src/service.ts:359-374 | An operation that leaves the file as it is runs and is in the journal too |
| LockedSection.SectionIsUndisturbed | packages/cyberlegion/src/store/lock.ts:147-154 | While a process is in its section no run of the others, crashes included, changes the file, the journal or what it has read |
| LockedSection.SectionRuns | packages/cyberlegion/src/store/lock.ts:147-154 | Any operation that is allowed on what the file holds can be carried out by an idle process at a free lock, from the mkdir to the release, and leaves the lock free |
| Lease.ChangesIffEnds | packages/cyberlegion/src/service.ts:207-336 | A transition changes a lease exactly when it meets that state's own guard, and its answer follows; otherwise an unforced acquire answers with what is there |
| Lease.KeptWhileNoneEnds | packages/cyberlegion/src/service.ts:213-241 | A sequence of transitions that meet no guard leaves the lease as it was |
| Lease.KeptIffNoneEnds | packages/cyberlegion/src/service.ts:207-336 | The lease stays what it is throughout a sequence if and only if none of its transitions meets a guard: no reservation is lost and no live holder is silently displaced |
| Lease.ReservationIsExclusive | packages/cyberlegion/src/service.ts:213-223 | While a reservation stands, every unforced acquire answers `starting` and a force naming another generation is stale |
| Lease.LiveHolderIsResolved | packages/cyberlegion/src/service.ts:213-223 | While a holder stands, every unforced acquire resolves to it |
| Lease.GrantStandsForItsTtl | packages/cyberlegion/src/service.ts:224-241 | A grant reserves the next generation under the token it hands out; from then on an unforced acquire answers `starting` exactly until the time to live has passed, and takes over after |
| Lease.RefusalTells | packages/cyberlegion/src/service.ts:258-336 | Which refusal a bind, release or handoff gets: no service, then a claim that is not the current one, then a unit that is unknown or not live; otherwise it is done |
| Lease.VerifiesIff | packages/cyberlegion/src/service.ts:343-357 | The ownership check accepts exactly the unit and generation at which the lease is active |
| Lease.OwnershipFollowsTransitions | packages/cyberlegion/src/service.ts:252-336 | A bound unit verifies at its generation; after a handoff the other verifies at the next one and the one that handed off is refused as stale |
| Fencing.StepRaisesRank | packages/cyberlegion/src/service.ts:207-336 | Every write raises the generation or moves on within it: reserved, active, vacant, never back |
| Fencing.RankGrows | packages/cyberlegion/src/service.ts:164-174 | Two moments of a run have the same lease, or the later one ranks above |
| Fencing.GenerationNeverDecreases | packages/cyberlegion/src/service.ts:201-206 | The generation never decreases over a run |
| Fencing.OneHolderPerGeneration | packages/cyberlegion/src/service.ts:318-336 | A generation names at most one holder over a whole run |
| Fencing.OneBindPerGeneration | packages/cyberlegion/src/service.ts:252-286 | A generation is bound successfully at most once |
| Fencing.StaleForever | packages/cyberlegion/src/service.ts:338-357 | A unit that verified and is then refused as stale is never accepted again at that generation, across deletion and re-creation of the endpoint record |
| Fencing.LoggedActionOwned | packages/cyberlegion/src/service.ts:364-374 | Each action run under verified ownership ran when the lease named its unit and generation |
| Fencing.ActionIsLogged | packages/cyberlegion/src/service.ts:364-374 | Each such action, and no other operation, adds the generation and unit it was checked for to the log |
| Fencing.OwnedActionRunsIff | packages/cyberlegion/src/service.ts:364-374 | An action under ownership runs exactly when the check accepts, and leaves the lease alone |
| Fencing.ActionLogIsFenced | packages/cyberlegion/src/service.ts:359-374 | In the log of such actions generations never decrease and each has one acting unit |
| Fencing.LeaseFileIsFenced | packages/cyberlegion/src/service.ts:163-180 | End to end, down to single file-system calls: any two moments of a run show whole leases, the later not behind, and no generation with two holders |
| Fencing.StaleStaysStale | packages/cyberlegion/src/service.ts:338-357 | End to end, over three moments of one run: verified, then stale, then never accepted again |
| Fencing.ActionsAreFenced | packages/cyberlegion/src/service.ts:359-374 | End to end, the action log is fenced in every interleaving, whatever the clocks read |
| StartService.RunKeepsCalls | packages/cyberlegion/src/service.ts:393-425 | Interleaved starts keep their generations distinct and their tokens current while reserved |
| StartService.LaunchesAreDistinct | packages/cyberlegion/src/service.ts:386-425 | Each launch runs under a generation of its own, at most one call per generation reports `started`, and a failed launch whose release was not lost is no longer reserved |
| StartService.StartedMeansOwner | packages/cyberlegion/src/service.ts:413-424 | A call reports `started` exactly when its bind made its unit the owner; a refused bind changes nothing |
| StartService.SupersededNeverStarts | packages/cyberlegion/src/service.ts:389-391 | A start whose generation has been passed never becomes the owner, in every run on, and is refused as stale |
| StartService.CallTurns | packages/cyberlegion/src/service.ts:393-425 | At each of its turns: a call launches exactly when its acquire takes over, its unit becomes owner exactly when it is live and the reservation is still the call's, and a failed launch gives up exactly its own reservation |
| StartService.UncontestedStartSucceeds | packages/cyberlegion/src/service.ts:413-424 | A start nobody interferes with, whose launch brings up a live unit, reports `started` and makes the unit owner of the next generation |
| StartService.FailedStartIsRetryable | packages/cyberlegion/src/service.ts:404-412 | After a failed launch the service is vacant and any acquire is granted at once |
| StartService.StoredLaunchesAreDistinct | packages/cyberlegion/src/service.ts:386-425 | The same end to end: any number of starts in any interleaving of single file-system calls, judged against the stored lease |
| StartService.StoredSupersededNeverStarts | packages/cyberlegion/src/service.ts:389-391 | End to end, over two moments of one run: a start the stored lease has passed never becomes the owner |
| ServiceStore.Service.AcquireService | packages/cyberlegion/src/service.ts:207-243 | A grant is exactly a takeover the guard allows, reserves the next generation under the new token until now plus the time to live, and is what the automaton does; otherwise the lease stays; the endpoint is created either way |
| ServiceStore.Service.BindService | packages/cyberlegion/src/service.ts:258-286 | A bind succeeds exactly when it changes the lease, and then its unit owns the generation |
| ServiceStore.Service.ReleaseService | packages/cyberlegion/src/service.ts:293-316 | A release vacates at the same generation or changes nothing |
| ServiceStore.Service.HandoffService | packages/cyberlegion/src/service.ts:322-336 | A handoff makes the other unit owner of the next generation and the old one stale, or changes nothing |
| ServiceStore.Service.StartService | packages/cyberlegion/src/service.ts:393-425 | One start against arbitrary transitions by others: it starts nothing exactly when the acquire takes nothing over, and then says what is there; it reports `started` exactly when the launch is up, the unit is live at the end and the reservation it made is still there; else why not; a failed launch gives up its own reservation and nothing else |
| Presence.PointerIsFoldOfWrites | packages/cyberlegion/src/identity.ts:328-342 | No update is lost over any run: the pointer is every locked write, unbinds included, applied one after the other |
| Presence.PointerIsLastWrite | packages/cyberlegion/src/identity.ts:328-342 | The pointer is what the last claim, clear or spawn wrote, unless that very unit has been unbound since |
| Presence.NoSecondSpawn | packages/cyberlegion/src/presence-spawn.ts:29-31 | While the bound unit stays live and nobody moves it, no delivery spawns a second presence |
| Presence.PresenceIsAtomic | packages/cyberlegion/src/presence-spawn.ts:54-91 | In every interleaving down to single file-system calls, with crashes and no mis-captured lock, the record is whole and its pointer is all the locked writes so far |
| Presence.StoredPointerIsLastWrite | packages/cyberlegion/src/identity.ts:328-342 | In every such interleaving the stored pointer is the last claim, clear or spawn, unless unbound since |
| Presence.NoSecondSpawnStored | packages/cyberlegion/src/presence-spawn.ts:29-31 | In every such interleaving, from any moment at which a unit is the stored presence, no delivery spawns a second one while it stays live and nobody moves it |
| Presence.StandingStore.ClaimPresence | packages/cyberlegion/src/identity.ts:335-342 | A claim overwrites the pointer, or fails for an owner that is gone |
| Presence.StandingStore.ClearPresence | packages/cyberlegion/src/identity.ts:359-368 | A clear leaves no pointer and is no error when there was none |
| Presence.StandingStore.WriteStanding | packages/cyberlegion/src/identity.ts:186-207 | A refresh carries the pointer over, and keeps, drops or replaces the home |
| Presence.StandingStore.SpawnPresence | packages/cyberlegion/src/presence-spawn.ts:47-92 | The section under the lock: it answers with the bound unit exactly when that one is live there, else spawns exactly when the opening succeeds, and binds the unit; it unbinds it again and reports that when the trust prompt never cleared, and unbinds and rethrows exactly when the trust step failed |
| Presence.StandingStore.Release | packages/cyberlegion/src/presence-spawn.ts:74-80 | Unbinds when the unit is still the presence and says whether it did |
| Deliveries.SpawnHomeIsGoneIff | packages/cyberlegion/src/presence-spawn.ts:52-70 | Over any run every spawn is that of a delivery that saw, before it took the lock, the home it spawns into; the record no longer has that home if and only if a refresh in between dropped or replaced it and none set it back |
| Deliveries.StoredHomeIsGoneIff | packages/cyberlegion/src/presence-spawn.ts:52-70 | The same of the stored record in every interleaving down to single file-system calls |
| Deliveries.SpawnsAfterHomeDropped | packages/cyberlegion/src/presence-spawn.ts:52-53 | It happens: a delivery looks at the home, a refresh drops it, and the delivery spawns into it |
| Mailbox.EveryMessageIsConserved | packages/cyberlegion/src/store/file-store.ts:92-129 | Over any interleaving of put, ack and delete steps every message put is in exactly one of unread, read and gone, whole as sent, and acknowledged at most once |
| Mailbox.OnlyForward | packages/cyberlegion/src/store/file-store.ts:105-129 | A message only moves forward, and its content never changes |
| Mailbox.PutArrives | packages/cyberlegion/src/store/file-store.ts:49-54 | A put opens, fills and renames its file, whatever others do in between, and the message is then unread, whole and as sent |
| Mailbox.DraftIsUndisturbed | packages/cyberlegion/src/store/file-store.ts:49-54 | No other step touches a message that is being put |
| Mailbox.CallMovesItsMessage | packages/cyberlegion/src/store/file-store.ts:105-129 | An acknowledgement of an unread message moves it, as it is, to read; a deletion makes it gone |
| Mailbox.OthersStay | packages/cyberlegion/src/store/file-store.ts:105-129 | A message no call is about stays where it is, as it is |
| Mailbox.ListingNeverMisses | packages/cyberlegion/src/store/file-store.ts:96-103 | A listing that returns contains every message that was there when it began and was not deleted by its end, whatever runs meanwhile |
| Mailbox.ListingIsTrue | packages/cyberlegion/src/store/file-store.ts:23-28 | Whatever is listed was sent, and reads back exactly as sent, never torn |
| Mailbox.ReverseOrderMisses | packages/cyberlegion/src/store/file-store.ts:99-102 | Scanning read before unread would miss a message that is in the mailbox throughout |
| Waits.WaitsReturnDistinctMessages | packages/cyberlegion/src/wake/await.ts:47-53 | Of any number of waits on one mailbox, interleaved with each other and with every put, ack and delete, no two return the same message |
| Waits.WaitOutcome | packages/cyberlegion/src/wake/await.ts:47-53 | A wait returns a message exactly as it was sent, and has consumed it; it throws, while listing or while acknowledging, only on one that is consumed or deleted already |
| Waits.PickIsFirstOfInbox | packages/cyberlegion/src/wake/await.ts:48-50 | The message a wait tries to acknowledge is the first of the unread inbox it listed |
| Waits.UndisturbedWaitReturns | packages/cyberlegion/src/wake/await.ts:47-53 | A wait nobody interferes with returns the oldest match in the mailbox and has moved it to read |
| Waits.FailedListingEndsTheWait | packages/cyberlegion/src/wake/await.ts:47-53 | A listing that fails over a file that moved meanwhile ends the wait with an error: the mailbox is untouched, and the wait never returns a message or polls again |
| Inbox.SortIsSorted | packages/cyberlegion/src/message.ts:75-75 | The inbox order is a permutation sorted by id |
| Inbox.InboxShows | packages/cyberlegion/src/message.ts:67-76 | The inbox shows exactly the matching messages of the snapshot, oldest id first |
| Inbox.FiltersMean | packages/cyberlegion/src/message.ts:67-76 | Without a filter every unread message is shown, and every read one unless only unread ones are asked for; a sender filter keeps those from that id or handle, a thread filter those that carry that thread |
| Inbox.IdLeIsLexical | packages/cyberlegion/src/message.ts:67-75 | Ids are ordered by the first character in which they differ, a prefix first |
| Inbox.EarlierSortsFirst | packages/cyberlegion/src/message.ts:67-75 | So ids that start with times spelled with equally many digits are ordered by time |
| Inbox.OldestFirst | packages/cyberlegion/src/wake/await.ts:48-50 | The message a wait takes is the oldest unread one that matches |
| Inbox.AwaitReply | packages/cyberlegion/src/wake/await.ts:38-61 | Each outcome exactly when its condition first holds, a match acknowledged and nothing else, and a wait that ends within its cap when the clock advances |
| Inbox.WatchMail | packages/cyberlegion/src/wake/watch.ts:22-45 | No seeded message is emitted, none twice, and every other message any poll showed is emitted |
| MailStore.Mail.PutMessage | packages/cyberlegion/src/store/file-store.ts:92-94 | Puts into the unread part of one mailbox, or refuses an id that is no file name |
| MailStore.Mail.AckMessage | packages/cyberlegion/src/store/file-store.ts:105-115 | Moves exactly one unread message to read, or fails and changes nothing |
| MailStore.Mail.RemoveMessage | packages/cyberlegion/src/store/file-store.ts:117-129 | Removes the unread copy, else the read one, else fails |
| MailStore.Mail.RemoveMailbox | packages/cyberlegion/src/store/file-store.ts:131-133 | Empties one mailbox and no other |
| MailStore.Mail.ReadAck | packages/cyberlegion/src/message.ts:92-100 | Consumes an unread message, hands back a read one, fails on an unknown one |
| MailStore.Mail.SendReadTwice | packages/cyberlegion/src/message.ts:89-100 | A message sent and read twice comes back as sent both times, consumed exactly once |
| PaneIndex.AdoptKeeps | packages/cyberlegion/src/identity.ts:544-574 | Adopting the panes that are bound to nothing keeps records and index in step |
| PaneIndex.StopKeeps | packages/cyberlegion/src/unit-runtime.ts:83-110 | Stopping a unit leaves no pointer to it |
| PaneIndex.RestartKeeps | packages/cyberlegion/src/unit-runtime.ts:149-233 | Restarting keeps the maps in step, also when the open fails after the stop |
| PaneIndex.RebindKeeps | packages/cyberlegion/src/unit-runtime.ts:258-293 | Rebinding keeps the maps in step and leaves the unit exactly one pointer, the new pane's |
| PaneIndex.CloseKeeps | packages/cyberlegion/src/decommission.ts:131-133 | Closing leaves neither record nor pointer |
| PaneIndex.StepSparesOthers | packages/cyberlegion/src/unit-runtime.ts:81-88 | No operation touches the record of a unit it is not about |
| PaneIndex.PointersStayInStep | packages/cyberlegion/src/unit-runtime.ts:62-110 | Over any sequence of operations no two pointers name one unit, a pointer to a unit whose record has a pane is that pane's key, and a stopped or closed unit has no pointer |
| PaneIndex.TakesForeignPointerIff | packages/cyberlegion/src/unit-runtime.ts:81-88 | For every operation, a unit it is not about loses its pointer if and only if the index names that unit at a pane the operation stops, closes, leaves or takes over; registering and adopting never take one |
| PaneIndex.RestartTakesForeignPointerIff | packages/cyberlegion/src/unit-runtime.ts:149-215 | A restart takes another unit's pointer exactly at the old pane, also when the open then fails, or at the new one |
| PaneIndex.RecycledPaneLosesPointer | packages/cyberlegion/src/unit-runtime.ts:81-88 | It happens: stopping a dead unit drops the pointer of the unit that got its recycled pane |
| PaneIndex.StopIsRecordedIff | packages/cyberlegion/src/unit-runtime.ts:90-110 | A stop is recorded exactly when the unit has no pane or its backend does not list the pane; otherwise nothing changes |
| PaneIndex.RestartOutcome | packages/cyberlegion/src/unit-runtime.ts:149-233 | A restart that gets a session has the unit active in its pane; one whose open fails leaves it stopped; one that is refused or cannot stop the unit changes nothing |
| PaneIndex.RebindGoesThroughIff | packages/cyberlegion/src/unit-runtime.ts:258-293 | A rebind binds the unit to the pane unless another running unit has it or the unit may still run elsewhere, and then changes nothing |
| PaneIndex.AdoptBindsAll | packages/cyberlegion/src/identity.ts:544-574 | After an adoption every listed pane that a record can carry is bound, and a pane bound before still is |
| PaneIndex.AdoptTwiceIsOnce | packages/cyberlegion/src/identity.ts:544-574 | Adopting the same panes again changes nothing |
| PaneIndex.MarkExitedOutcome | packages/cyberlegion/src/identity.ts:494-501 | Only a session's record that is neither stopped nor exited is ever marked exited |
| PaneIndex.SanitizedIsPlain | packages/cyberlegion/src/paths.ts:152-155 | A pane's key is a plain file name of the same length that keeps every plain character |
| UnitRegistry.Hub.FindPaneByAgentId | packages/cyberlegion/src/store/file-store.ts:200-208 | The scan finds a pane exactly when some pointer names the unit |
| UnitRegistry.Hub.RegisterUnit | packages/cyberlegion/src/identity.ts:107-139 | Registers under the id the pane or environment gives, else a new one, and the pane then resolves to it |
| UnitRegistry.Hub.SpawnUnit | packages/cyberlegion/src/session.ts:319-335 | The new unit's pane resolves to it |
| UnitRegistry.Hub.AdoptPanes | packages/cyberlegion/src/identity.ts:544-574 | The loop over listed panes does what the adoption step says |
| UnitRegistry.Hub.Reconcile | packages/cyberlegion/src/identity.ts:584-604 | Exactly the prunable records of this multiplexer whose pane is gone exit, and nothing on an empty answer |
| UnitRegistry.Hub.StopRuntimeOf | packages/cyberlegion/src/unit-runtime.ts:92-110 | Records a stop unless the backend still lists the pane, and then changes nothing |
| UnitRegistry.Hub.StopUnit | packages/cyberlegion/src/unit-runtime.ts:117-123 | A stopped unit is recorded so and has no pointer |
| UnitRegistry.Hub.RestartUnit | packages/cyberlegion/src/unit-runtime.ts:149-233 | A restarted unit is found in its new pane |
| UnitRegistry.Hub.RebindUnit | packages/cyberlegion/src/unit-runtime.ts:258-293 | Binds the unit to the calling pane or changes nothing |
| UnitRegistry.Hub.CloseUnit | packages/cyberlegion/src/decommission.ts:131-133 | Removes the record and the pointer, or changes nothing |
| ScreenReader.LowestBoxWins | packages/cyberlegion/src/console/prompt-guard.ts:70-74 | The lowest row that reads as a box decides |
| ScreenReader.UnknownIffNoBox | packages/cyberlegion/src/console/prompt-guard.ts:70-92 | A screen is unknown exactly when no row reads as a box |
| ScreenReader.HeadIff | packages/cyberlegion/src/console/prompt-guard.ts:43-62 | A row opens a box exactly when it is the harness's mark alone, or the mark, one of its separators and text on one line, and that text is read |
| ScreenReader.ClaudePlaceholderIff | packages/cyberlegion/src/console/prompt-guard.ts:48-48 | A claude placeholder is exactly a quoted hint on one line after the word it opens with |
| ScreenReader.ReadBox | packages/cyberlegion/src/console/prompt-guard.ts:72-89 | The row loop reads the box that starts at a row |
| ScreenReader.ReadShape | packages/cyberlegion/src/console/prompt-guard.ts:70-92 | The bottom-up scan returns the lowest box |
| ScreenReader.PaintedBoxEnds | packages/cyberlegion/src/console/prompt-guard.ts:77-86 | A painted box is read exactly as far as it was painted |
| ScreenReader.PaintedBoxReadsBack | packages/cyberlegion/src/console/prompt-guard.ts:70-92 | A draft of any rows painted below arbitrary rows, with few rows and no second box beneath, is read back with its visible lines and row count |
| ScreenReader.PaintedBoxIsRecognizedIff | packages/cyberlegion/src/console/prompt-guard.ts:74-86 | A painted box is recognized if and only if it is framed: by rules, or by a blank row with at most six non-blank rows after it |
| ScreenReader.PaintedDraftReads | packages/cyberlegion/src/console/prompt-guard.ts:77-89 | A draft of any lines is read whole when none of its further lines is blank; otherwise it is cut at the first blank one, and a ruled box is not recognized |
| ScreenReader.VisibleIsAllIff | packages/cyberlegion/src/console/prompt-guard.ts:75-80 | The lines read back are the lines painted if and only if none ends in white space |
| ScreenReader.OnlySpaceIsCut | packages/cyberlegion/src/console/prompt-guard.ts:75-78 | What is cut from the end of a line is white space only |
| ScreenReader.ReadsEmptyIff | packages/cyberlegion/src/console/prompt-guard.ts:87-89 | A painted draft reads as empty exactly when nothing was typed or its one line is worded like a placeholder, and else as its text and row count |
| ScreenReader.SplitUndoesJoin | packages/cyberlegion/src/console/prompt-guard.ts:99-99 | The rows of a screen are recovered from its text |
| ScreenReader.JoinUndoesSplit | packages/cyberlegion/src/console/prompt-guard.ts:99-99 | And the text from its rows: splitting and joining are each other's inverse |
| ScreenReader.FirstKnownWins | packages/cyberlegion/src/console/prompt-guard.ts:98-106 | Among the shapes' readings the first that is not unknown is the screen's |
| ScreenReader.ReadScreen | packages/cyberlegion/src/console/prompt-guard.ts:98-106 | With the harness unknown the first shape that recognizes a box decides |
| ScreenReader.UnknownHarnessReadsTheSame | packages/cyberlegion/src/console/prompt-guard.ts:98-106 | Without the harness named, a screen that no other shape recognizes reads the same |
| ScreenReader.PaintedScreenReadsBack | packages/cyberlegion/src/console/prompt-guard.ts:94-106 | The round trip from the screen's text |
| DraftGuard.WithDraftGuard | packages/cyberlegion/src/console/prompt-guard.ts:162-219 | It sleeps while and only while another's draft is fresh and time is left, at most `maxWaitMs` in all; it gives up exactly past the deadline; and it clears another's draft only on one row, after it read the same at every poll for `idleMs` |
| DraftGuard.ChangedAtIsAReadTime | packages/cyberlegion/src/console/prompt-guard.ts:184-197 | The time kept is that of a read since which the draft has stood still |
| DraftGuard.SleepsFit | packages/cyberlegion/src/console/prompt-guard.ts:187-193 | The sleeps fit in `maxWaitMs` when the clock advances over each |
| DraftGuard.WaitingEnds | packages/cyberlegion/src/console/prompt-guard.ts:187-193 | The waiting ends before a sleep too many |
| DraftGuard.SleepsOnStandingDraftIff | packages/cyberlegion/src/console/prompt-guard.ts:184-197 | On a draft that stands still the guard sleeps once more exactly while it is another's, has stood for less than `idleMs`, and the sleep fits in `maxWaitMs` |
| DraftGuard.IdleDraftIsSettled | packages/cyberlegion/src/console/prompt-guard.ts:184-197 | So such a draft is settled at the first guard that finds it idle, when the deadline leaves room until then |
| DraftGuard.BoxOnScreen | packages/cyberlegion/src/console/prompt-guard.ts:98-106 | What the guard reads of a one-line box, whatever is in it, is what the screen reader makes of it; text that is no single line to the reader is no box |
| DraftGuard.DraftSurvivesIff | packages/cyberlegion/src/console/prompt-guard.ts:149-160 | When `send` submits, the harness receives exactly the caller's text and the box ends as it was, if and only if the box was empty or held one line, with no white space at its end, that is not worded like a placeholder, the caller's own text or a hint that reads the same |
| DraftGuard.DraftSurvivesARefusalIff | packages/cyberlegion/src/console/prompt-guard.ts:213-218 | The same when `send` throws before typing, where text that reads as no draft is kept too |
| DraftGuard.StagedTextStaysBeforeTheDraft | packages/cyberlegion/src/console/prompt-guard.ts:213-218 | When `send` throws with its text staged, the draft is typed behind that text |
| DraftGuard.OwnTextIsReplaced | packages/cyberlegion/src/console/prompt-guard.ts:156-157 | The caller's own text is cleared, the new text is received alone, and nothing is typed back |
| DraftGuard.LongDraftIsLeftIff | packages/cyberlegion/src/console/prompt-guard.ts:204-208 | An idle draft painted on several rows is left untouched if and only if it is read on several: none of its further lines is blank, or, in a box without rules, the first of them is not and at most six non-blank rows stand below |
| Ring.RingTurn | packages/cyberlegion/src/console/ring.ts:43-86 | The message is typed at most 1 + attempts/2 times and exactly once without `requirePosted`; a bare Enter follows only a staged screen; success is reported exactly when the last screen was taken |
| Ring.JudgedByPosts | packages/cyberlegion/src/console/ring.ts:28-62 | A screen counts as taken exactly when the harness posted the text, or it left the box and that is enough; as staged exactly when it is in the box only; as lost exactly when it is nowhere and had to be posted |
| Ring.TypingIsBounded | packages/cyberlegion/src/console/ring.ts:69-80 | With n screens the message is typed at most 1 + (n - 1)/2 times |
| Ring.AllLostTypesAgain | packages/cyberlegion/src/console/ring.ts:69-80 | The bound is met when every screen is lost |
| Ring.TypedOnceWithoutLoss | packages/cyberlegion/src/console/ring.ts:36-41 | Without a lost screen the message is typed exactly once |
| Quoting.SplitUndoesJoin | packages/cyberlegion/src/agentdef/realize.ts:13-16 | Splitting a joined command line gives back exactly its words |
| Quoting.SplitsBackIff | packages/cyberlegion/src/agentdef/realize.ts:13-16 | It does if and only if no word holds a NUL |
| Quoting.ShimInvokesSelf | packages/cyberlegion/src/session.ts:580-592 | The self shim re-invokes exactly the words it was written for |
| Quoting.EscapeReads | packages/cyberlegion/src/agentdef/realize.ts:75-78 | Every character is read back from its spelling in a TOML basic string |
| Quoting.TomlRoundTrip | packages/cyberlegion/src/agentdef/realize.ts:75-78 | A TOML reader gives back any string that was encoded |
| Quoting.LaunchCommandSplitsIff | packages/cyberlegion/src/agentdef/realize.ts:92-112 | The shell starts the harness with exactly its model, effort and instruction arguments |
| Quoting.InstructionsArrive | packages/cyberlegion/src/agentdef/realize.ts:80-87 | Through the shell and the harness's own syntax the instructions arrive as they were written |
| Quoting.EffortArrivesIff | packages/cyberlegion/src/agentdef/realize.ts:66-73 | A codex effort arrives as written if and only if none of its characters needs an escape |
| Quoting.ModelAndEffortArrive | packages/cyberlegion/src/agentdef/realize.ts:66-73 | The model and, with claude, the effort reach the program as their flags' own arguments |
| Quoting.CursorEffortIff | packages/cyberlegion/src/agentdef/realize.ts:46-64 | With cursor an effort rides on a listed model id that ends in it, the asked one itself when it is such an id, and without one the model is launched as asked for |

## Left out

- Lock timeouts as progress: a waiter may give up, and then has no effect; nothing is claimed about who gets a lock when.
- Reuse of process ids, and a kernel that says "no such process" of a live one.
- Closing a standing owner removes its record without the presence lock (`packages/cyberlegion/src/decommission.ts:132`); `Presence` has only the operations that take the lock, so it says nothing about a close that races one of them.
- Power loss: a crash loses a process, never a completed file-system call.
- The holder file is written in one step, because a partial one reads as an unreadable one; a release is two steps, and the removal of a captured directory is one.
- `setMainPane`, a third user of the lock, whose section is a single write or removal.
- Reservation tokens are opaque inputs; the proofs use only that a bind or release must name the current one. Diagnostic fields (`by`, `at`, `forced`, `updatedAt`, notes, `control`) carry no decision.
- `ctx.isLive` in place of the pane-based liveness: the unit records a transition sees are arbitrary, which covers any answer.
- Project resolution and service-name checks before a transition; each service has a lease and a lock of its own.
- Mailbox: message ids are taken to be distinct, as the time and random part of an id make them; a call that would reuse one does nothing.
- MailStore.Mail.AckMessage: does not model a record file that is not valid JSON, which no complete write leaves; reading it is an error that names the file.
- Inbox.AwaitReply: takes a finite list of polls and may end unfinished with it, where the program waits on.
- Inbox.WatchMail: takes a finite list of polls likewise.
- Inbox: ids are compared as plain character sequences, not by locale.
- Worktrees, their leases and dirty checks, briefs, conversations, and opening or tearing down panes: what a lifecycle operation observes of them is an input (`refused`, `aborted`, `reachable`, the listed panes).
- UnitRegistry.Hub.CloseUnit: leaves out the unit's data directory and its mailbox, which `MailStore.Mail.RemoveMailbox` removes.
- PaneIndex: adoption starts from the panes whose harness could be detected; `prune` is the single step that marks a prunable record exited.
- DraftGuard.DraftSurvivesIff: the human types nothing between the last read and the end of the send, and the box is one row long; what the keys do in a longer one is not modelled.
- DraftGuard.WithDraftGuard: takes a finite list of observations, and the bound on the whole wait assumes a clock that advances over each sleep by the poll interval; a bound on each single sleep needs no such clock.
- Ring: `isStaged` and the copy count of a screen are observations; the settle pauses are not modelled.
- Quoting: the launch's report of an effort it could not carry.
- Quoting: the shim's `"$@"`, the launch line's environment prefix and resume arguments, and lone UTF-16 surrogates, which are not Unicode scalar values.
- Command-line parsing, output, installation, permissions, agent-definition lookup and workspace labels: list and configuration work beside the protocols.
