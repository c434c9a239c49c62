# The getcash page, as a verified model

A Dafny model of the parts of the getcash page that keep money and records safe: the durable request store, the serial
queues under it, the storage-backed calls to the worker, the trade counters, two small polling machines, and the exact
arithmetic and text forms of amounts. Asynchronous code is modelled as a system of steps. A step is the code between two
`await`s; everything outside the page (the host's storage, the worker, timers, the chain, the user) is an event that may
come in any order, fail, or land and still report a failure. Main results hold over every run of such events.

Where the code keeps state in a closure, a class with the same fields updates them in place, and each method is proved to
take exactly one step of the system; the results are then proved about the steps. Code that is only expressions is
modelled by functions and lemmas.

## Modules

| file | what it models |
|---|---|
| `SerialQueue.dfy`, `RecordMutation.dfy` | the per-key promise chain, and the serial record mutator over it |
| `RequestRecord.dfy` | which changes of a record must be written at once, and which reach memory alone |
| `RequestStore.dfy` | every step of the request store: memory, mirror and host, key by key |
| `RequestStoreSafety.dfy`, `RequestStoreRuns.dfy` | what each step keeps, and what follows for whole runs |
| `RequestStoreSecured.dfy`, `RequestStoreRepair.dfy` | over whole runs, what puts a record on its way to the host and what a reconcile and a flush repair, and the inputs on which they do not |
| `RequestStoreMoney.dfy` | over whole runs, what a host that has not heard of money waits for |
| `RequestStoreSchedule.dfy` | the store's queues as promise chains, and its passes as those of the single flight |
| `RequestStoreTasks.dfy` | that no call is dropped, and what a screen reads of a key: notes, timers, named failures |
| `RequestsStore.dfy` | the store's closure as a class, each method one step |
| `Mirror.dfy`, `StableSort.dfy`, `RequestIndex.dfy`, `IndexChanges.dfy` | the boot mirror, the index of open requests, and the stored index under its changes |
| `ReconcileFlight.dfy`, `InParallel.dfy` | the single flight of reconcile, and the lanes its reads run in |
| `WorkerRpc.dfy` | the call channel to the worker through shared storage |
| `TradeNumbers.dfy` | the trade counter, its search and its lost writes |
| `MeldPoll.dfy`, `PurseBalance.dfy`, `FloorsSlot.dfy` | the payment status poll, the purse reading, and the floors' in-flight slot |
| `Digits.dfy`, `FundingAmount.dfy`, `Keypad.dfy`, `Cash.dfy` | amounts as text and the keypad that edits them |
| `Rounding.dfy`, `SaleSize.dfy`, `Bounds.dfy` | the fiat sale, headroom, and bounds rounded to whole CASH |
| `Catalog.dfy` | two catalogs of payment methods merged, and the region list |
| `Wrappers.dfy` | `Option`, `Result` and a map lookup |

## What is proved, and what turned out not to hold

The request store. From any start in which memory is not behind the host, every step keeps, and every run therefore has:
the host never ahead of memory, equal `rev` meaning the same record up to the witness fields, a clean entry on the host,
and an entry that is not on the host with a write ahead of it, a noted failure, or marked as not looked at since it was
read from the mirror or a removal of it was tried. Four things a reader might expect do not hold, and each is given with
its input and its exact condition:

- A finished record that was read from the mirror counts as clean and is never read again. When its last host write was
  lost with the page, no reconcile and no flush writes it (`FinishedRecordStaysUnwritten`). In any run in which the record
  stays in memory, a pass that looked at it leaves it on the host or on its way there, and the host has it once the key has
  nothing left to do, if and only if it was not in that gap, or another step put it on its way, and nothing took its way
  away after that (`ReconcileSecuresIff`, `ReconciledIsStoredIff`, `ReconcileThenFlushStoresIff`).
- A flush alone does not retry a write that failed: in any run in which nothing changes the record after it, the host ends
  with it if and only if it had it, or a write of it lay ahead, at the flush, and nothing took that away (`FlushStoresIff`).
- A removal the host rejects has already taken the record's timer. What is left then, and after a rejected write, is exact:
  the record is on its way if and only if the host has it all the same, or a timer that is left or a task behind holds
  another write (`RejectedRemovalSecuresIff`, `RejectedWriteSecuresIff`). The results over runs take both in (`SecuredIff`).
- A mirror that fell behind the host takes the host back at the next critical change (`StaleMirrorTakesHostBack`); the exact
  condition is `WriteThroughAdvancesIff`. A reconcile need not repair it: when its merge takes the host's record over, the
  host still has that record if and only if it took no call of the key between the read and the merge (`ReadRepairsIff`).
  Otherwise memory is clean and ahead of the host, and a record that is finished by then is never read again
  (`StaleReadLeavesHostBehind`, `StaleReconcileLeavesHostBehind`).

Two more hold only by the page's own rules, which the model states as `Ruled`. A record created over a host record no one
read replaces it, and keeps the invariant exactly when the host's is not ahead (`CreateKeeps`). A removal during a pass' reads
can be undone by one of them (`RemovalDuringReadComesBack`, `ComesBackIff`), and by nothing once no copy, read, merge or write
of the record is left (`NowhereIsForGood`).

Money the host has not heard of has its write out, or failed and says so, or is in an entry nothing has looked at since it
was read from the mirror or a removal of it was tried. In any run it is otherwise if and only if a change that is not critical
or a reconcile took up such an entry and left it to the timer, or a record was created over an older one on the host, and no
write of it started since, no removal was tried, the page was not reloaded, and no change of the record says that no money moved
(`MoneyWaitsIff`, `UnverifiedMoneyWaits`).

The stored index of requests holds a ref if and only if a change that took effect added it, or it was there, and none that
took effect dropped it since, whichever changes fail or report a failure after they landed (`ListedIff`).

The flight of `reconcile` lands with a pass that succeeds and that no call joined, with one exception: a call that joined a
pass that then threw leaves the next flight one pass more, although nobody waits for it (`LandsIff`, `CrashLeavesAPass`).

The call channel. A call that is rejected while it allocates clears nothing. Its request stays when the sequence write
landed all the same, and the worker then runs it (`RejectedSequenceWriteLeavesItsRequest`); it also stays, one past the
sequence, when the request was written and the sequence never got there, until another call writes over it
(`RejectedRequestWriteLeavesItsRequest`). With a refused clear these are all the cases, and each of them is one
(`RequestStaysIff`).

Trade numbers. Numbers are taken once as long as starts do not overlap, the counter is read, and no trace goes that the
counter has not passed; the first and the last are needed (`OverlapMovesCounterBack`, `LostAdvanceAndDropRepeatNumber`). In any
run at all a number is taken twice if and only if some quote finds the trace of a taken one gone, its search getting to it and
its counter write, where it needs one, done (`QuoteRepeatsIff`), and the next quote or start after that quote is a start
(`TakenTwiceIff`).

The purse. A refresh that says the purse was drawn on is dropped if and only if it finds the reading off
(`SpentRefreshIsLostIff`), and the balance shown was read before some such refresh if and only if it was read before one that
was dropped (`GateIsReadAndNeverStale`). It can stay on the screen: when the reading is on again before the watcher has run,
nothing replaces it (`SpentRefreshLostInABlink`).

The region list shows every row once if and only if no failing row is also unsupported or under its minimum
(`GroupsPartitionIff`); rows built from a catalog always satisfy that (`CatalogRowsAreListedOnce`).

The headroom is no inverse; the gap is exact (`HeadroomGap`).

The comment in `app/stores/requests.ts` above `writeHost` says a failed entry stays pending for the next observation or
reconcile. The code agrees for observations that are not witness-only and for a reconcile; the model follows the code.

## Model

| member | source | states |
|---|---|---|
| `SerialQueue.CallKeepsValid` | app/stores/requests.ts:1059-1062 | a new call keeps the chain in order: a task starts only once every earlier call of its key is settled |
| `SerialQueue.AdvanceKeepsValid` | app/stores/requests.ts:1061-1062 | so does starting a task whose predecessor settled, and settling it either way |
| `SerialQueue.CleanupKeepsValid` | app/stores/requests.ts:1063-1067 | so does deleting the tail only when it is still the task's own: no open call is ever left outside the tail |
| `SerialQueue.HeadAloneProceeds` | app/stores/requests.ts:1057-1070 | of a key's open calls exactly the first runs or can start, so a failure blocks nobody and no call overtakes an open one |
| `SerialQueue.ChainRefinesQueues` | app/stores/requests.ts:1057-1070 | the chain refines one first-in first-out queue per key: a call appends, starting and cleaning change nothing, settling takes the head |
| `SerialQueue.OneRunningPerKey` | app/funding/record-mutation.ts:16-39 | no two tasks of one key overlap |
| `RecordMutation.StepKeepsRefinement` | app/funding/record-mutation.ts:16-39 | every step keeps: the store is the sequential replay of the updates that took effect, and each resolved promise answered its own place in it |
| `RecordMutation.RunningSeesAllBefore` | app/funding/record-mutation.ts:17-21 | until a task settles the store holds exactly what the calls before it left |
| `RecordMutation.AnyScheduleIsSequential` | app/funding/record-mutation.ts:11-40 | that holds for every schedule, with any tasks failing and failed writes that landed |
| `RecordMutation.EachCallEnds` | app/funding/record-mutation.ts:16-31 | over every run a call is open, resolved or rejected exactly as the answers to its read, its update on the value before it in call order and its storage call say, a throw and a failed read rejecting it; and a task under way awaits what was not answered yet |
| `RecordMutation.PendingIsLast` | app/funding/record-mutation.ts:14-37 | under each key the pending map holds the last call made, until that call's `finally` has run, and nothing from then on |
| `RecordMutation.SerialRecordMutator.constructor` | app/funding/record-mutation.ts:11-14 | a mutator starts with no pending mutation over the given store |
| `RecordMutation.SerialRecordMutator.Mutate` | app/funding/record-mutation.ts:16-19 | a call hangs on the key's tail and becomes the tail |
| `RecordMutation.SerialRecordMutator.StartTask` | app/funding/record-mutation.ts:19-21 | a task whose predecessor settled starts its read |
| `RecordMutation.SerialRecordMutator.AnswerRead` | app/funding/record-mutation.ts:21-22 | a read hands the stored value to the update, and a rejected one ends the task |
| `RecordMutation.SerialRecordMutator.AnswerUpdate` | app/funding/record-mutation.ts:22-28 | the update's answer keeps, clears or writes, or ends the task when it threw |
| `RecordMutation.SerialRecordMutator.AnswerStore` | app/funding/record-mutation.ts:24-29 | the write or clear ends the task with what its promise answers, whether or not a rejected one landed |
| `RecordMutation.SerialRecordMutator.Finally` | app/funding/record-mutation.ts:33-37 | the tail is deleted only when it is still this mutation |
| `RequestStoreSafety.CommitKeeps` | app/stores/requests.ts:1167-1178 | a commit keeps the store's invariant, the mirror rewritten with it, whether it writes now or behind the timer |
| `RequestStoreSafety.WriteHostKeeps` | app/stores/requests.ts:1113-1122 | the start of a host write keeps it, whether the entry is pending, clean or gone |
| `RequestStoreSafety.WriteAnswerKeeps` | app/stores/requests.ts:1123-1140 | so does the answer to the write: clean when it took the record, pending with its error when it failed |
| `RequestStoreSafety.ObserveStartKeeps` | app/stores/requests.ts:1198-1213 | an observation keeps it: no entry, witness fields alone, or a commit of the next rev |
| `RequestStoreSafety.NoteStartKeeps` | app/stores/requests.ts:1217-1241 | a flag and a hand-off keep it |
| `RequestStoreSafety.CreateKeeps` | app/stores/requests.ts:1182-1194 | a new record, its host write queued, keeps it exactly when a host record under its key is not ahead of it |
| `RequestStoreSafety.ClearAnswerKeeps` | app/stores/requests.ts:1245-1256 | the answer to a removal's clear keeps it, and a rejected one leaves the entry |
| `RequestStoreSafety.TimerKeeps` | app/stores/requests.ts:1148-1163 | a timer that fires, or a flush that takes it, turns into a queued write |
| `RequestStoreSafety.ReadAnswerKeeps` | app/stores/requests.ts:3176-3199 | the answer to a reconcile read keeps it: rejected, missing, unusable or a record to merge |
| `RequestStoreSafety.MergeKeeps` | app/stores/requests.ts:3200-3216 | the merge of a record the host held some time ago keeps it, whatever happened since |
| `RequestStoreSafety.ReloadKeeps` | app/stores/requests.ts:1094-1111 | a crash and a reload from the mirror keep it |
| `RequestStoreSafety.NextKeepsInv` | app/stores/requests.ts:1113-1256 | every step of the store that follows the page's rules, on every key, keeps the invariant |
| `RequestStoreRuns.ReachableStoresAgree` | app/stores/requests.ts:1113-1241 | in every reachable state the host is not ahead, equal revs are equal records up to the witness fields, a clean entry is on the host, and any other has a write ahead, a noted failure or is unverified |
| `RequestStoreRuns.RevsNeverFall` | app/stores/requests.ts:1198-1241 | through any run a record's rev never falls, in memory as long as it stays there and on the host as long as it stays there |
| `RequestStoreRuns.NextMovesForward` | app/stores/requests.ts:1167-1178 | one step never takes a record back in memory or on the host, and never changes it at the same rev |
| `RequestStoreRuns.BootIsSafeIff` | app/stores/requests.ts:1094-1111 | a hydrated store satisfies the invariant exactly when no mirrored record is behind its host copy |
| `RequestStoreRuns.ReloadIsBoot` | app/stores/requests.ts:1094-1111 | a reload is a boot over the mirror and the host the page left behind |
| `RequestRecord.RankFits` | app/funding/requests/model.ts:957-1013 | the rank is 0 exactly where no money has been seen, a side exit keeps the rank of the leg it left, and a record is finished exactly at the end of its kind's way |
| `RequestRecord.CriticalIff` | app/stores/requests.ts:225-266 | the critical changes are exactly: money seen for the first time, one of eight statuses arriving, a failure appearing, the buyer's submit or skip noted on a top-up, and the stamp or id of a recovery's or a payment's prompt moving |
| `RequestStoreRuns.CriticalChangeStartsWrite` | app/stores/requests.ts:1172-1175 | each of those changes starts the host write of its next rev at once and takes the timer |
| `RequestStoreRuns.OtherChangeWaits` | app/stores/requests.ts:1198-1213 | every other change goes to the timer alone with the next rev pending, and one of the witness fields alone takes no rev |
| `RequestStoreRuns.WriteResolves` | app/stores/requests.ts:1115-1140 | a write's answer leaves the record on the host and clean, or pending with its failure noted |
| `RequestStoreRuns.CriticalObservationIsDurable` | app/stores/requests.ts:1198-1213 | when an observation with one of those changes resolves, whatever happened in between, the host holds that rev or the entry is pending with its failure |
| `RequestStoreRuns.RemovalCompletes` | app/stores/requests.ts:1245-1256 | a removal whose clear was answered leaves nothing of the record in memory, mirror or host |
| `RequestStoreRuns.RemovedStaysRemoved` | app/stores/requests.ts:1245-1256 | from then on no queued task, timer, flush, late read or reload puts it back or writes it, without a new create |
| `RequestStoreRuns.ReloadLosesOnly` | app/stores/requests.ts:1073-1111 | what a reload loses is exactly a finished record the mirror had no room for and whose host write had not landed |
| `RequestStoreSecured.OwnStepIsExact` | app/stores/requests.ts:1113-1256 | while the record stays in memory a step leaves it on the host or on its way exactly when it was so and the step takes no way away (a removal's start or clear, a rejected write, a reload, each with its condition), or the step puts it there |
| `RequestStoreSecured.SecuredIff` | app/stores/requests.ts:1113-1256 | so through any stretch of any run, rejections, failed removals and reloads included: it ends so exactly when it was so at the start, or a step secured it, and nothing took its way away after that |
| `RequestStoreSecured.RejectedWriteSecuresIff` | app/stores/requests.ts:1122-1132 | a rejected write leaves the entry pending with its failure, and on its way exactly when the host has the record or a timer or a later task holds another write |
| `RequestStoreSecured.RejectedRemovalSecuresIff` | app/stores/requests.ts:1247-1250 | a rejected removal leaves the entry with no timer, and on its way exactly when the host still has the record, or it is pending and a task behind the removal writes |
| `RequestStoreSecured.DrainedIsStoredIff` | app/stores/requests.ts:1113-1178 | once the key has no task and no timer left, the host has memory's record under exactly that condition |
| `RequestStoreRepair.FlushStoresIff` | app/stores/requests.ts:1159-1163 | after a flush anywhere in a run, with nothing changed since, the host has the record by the time the queue is empty exactly when it had it or a write of it lay ahead at the flush, and nothing took that away |
| `RequestStoreRepair.ReconcileSecuresIff` | app/stores/requests.ts:3169-3217 | whatever interleaves short of a reload, a pass that looked at a record (read and answered, or finished) leaves it on the host or on its way exactly when it was no finished clean entry the host does not hold and nothing took its way away, or another step secured it and nothing took that away |
| `RequestStoreRepair.ReconciledIsStoredIff` | app/stores/requests.ts:3169-3226 | so once the key has nothing left to do after the pass, the host has memory's record under the same condition to the end |
| `RequestStoreRepair.ReconcileThenFlushStoresIff` | app/stores/requests.ts:3169-3226 | with a flush after the pass and nothing changed since, an empty queue is enough |
| `RequestStoreRepair.ReadStepsSecure` | app/stores/requests.ts:3181-3217 | one step at a time, a merge, or an answer that the host has nothing, leaves the record on the host or a write of it scheduled |
| `RequestStoreRepair.MergeTakesTheNewer` | app/stores/requests.ts:3200-3216 | a merge leaves the newer of the two records, with memory's scheduled when it is ahead, in any state at all |
| `RequestStoreRepair.ReadTakesTheNewer` | app/stores/requests.ts:3200-3205 | from any start, even a memory behind the host, when a pass' reads end memory is at or past every record a read was answered with, and has given up no newer one |
| `RequestStoreRepair.ReadRepairsIff` | app/stores/requests.ts:3178-3205 | from any start, when a merge takes the read record over, the host has it still exactly when it took no call of the key since the read |
| `RequestStoreRepair.StaleReadLeavesHostBehind` | app/stores/requests.ts:3172-3205 | a critical change that lands inside the read of a record the host has finished leaves memory finished and clean, the host at the change, and no reconcile or flush moves it |
| `RequestStoreRepair.StaleReconcileLeavesHostBehind` | app/stores/requests.ts:3172-3205 | so a mirror at rev 3 beside a host settled at rev 7 ends at 7 in memory and 4 on the host |
| `RequestStoreRepair.WriteThroughAdvancesIff` | app/stores/requests.ts:1172-1175 | before that, whatever happens until the host takes it, a critical change moves the host forward exactly when memory was not behind it |
| `RequestStoreRepair.RemovalDuringReadComesBack` | app/stores/requests.ts:1245-1256 | a removal while a read of the key is answered is undone by its merge |
| `RequestStoreRepair.ComesBackIff` | app/stores/requests.ts:3200-3205 | a record that is nowhere is put back, short of a create, exactly by a merge read before or a reload from a mirror that has it |
| `RequestStoreRepair.NowhereIsForGood` | app/stores/requests.ts:1245-1256 | over any run, one with no copy, no write out, no merge queued and no read that found it stays nowhere until a create |
| `RequestStoreMoney.OwnStepIsExact` | app/stores/requests.ts:231-261 | after a step, money the host has not heard of waits with no write out, failed or unverified exactly when it did and the step does not take it on, or the step leaves an unverified entry to the timer or creates a record over an older one |
| `RequestStoreMoney.MoneyWaitsIff` | app/stores/requests.ts:231-261 | so over every run: exactly when a step left it so, or it was so at the start, and no step took it on since |
| `RequestStoreMoney.BootWaitsForNothing` | app/stores/requests.ts:1094-1111 | at no boot does money wait that way |
| `RequestStoreMoney.UnverifiedMoneyWaits` | app/stores/requests.ts:1232-1241 | a hand-off on an entry read from the mirror leaves its money to the timer |
| `RequestStoreSchedule.OwnStepTracks` | app/stores/requests.ts:1059-1070 | each step of the store on a key is a step of a promise chain whose open calls are the key's queue |
| `RequestStoreSchedule.QueueIsAChain` | app/stores/requests.ts:1059-1070 | so in every state of every run the queue is the open calls of the chain built along the run |
| `RequestStoreSchedule.FlightRunsPasses` | app/stores/requests.ts:3108-3130 | the passes of the flight are passes of the store: one begins only when none is under way and ends only when one is |
| `RequestStoreTasks.EveryCallRuns` | app/stores/requests.ts:1057-1070 | no call is dropped and none overtakes another: over any run the task of an observation, flag, hand-off, removal or create starts before the key's queue is empty, when exactly the tasks queued at the call have ended, whatever fails, short of a reload |
| `RequestStoreTasks.NotesAreKept` | app/stores/requests.ts:1217-1241 | a flag puts its note, and a hand-off its payload, into a top-up's record under the next rev and changes nothing else of it, with the write left to the timer; a withdrawal or a missing record is left alone |
| `RequestStoreTasks.TimerIff` | app/stores/requests.ts:1143-1178 | a key has a timer after a step exactly when the step is one of those that set it, by what changed, or it had one and the step is none of those that take it; a firing timer and a flush leave a queued write |
| `RequestStoreTasks.FailuresAreNamed` | app/stores/requests.ts:1115-1140 | an entry names a failed write exactly from its rejection until a write is answered well, a newer read replaces it or a reload, and a failed read exactly from its rejection until a merge or a reload |
| `RequestStoreTasks.IndexChangesIff` | app/stores/requests.ts:1182-1256 | a task turns to the index exactly after its storage call was answered well, or for a create with nothing left to write at once |
| `RequestStoreRepair.StaleMirrorTakesHostBack` | app/stores/requests.ts:1094-1111 | a mirror at rev 3 beside a host at rev 7 takes the host to 4 |
| `RequestStoreRepair.FinishedRecordStaysUnwritten` | app/stores/requests.ts:3172-3176 | a settled record read from the mirror stays unwritten through a reconcile and a flush |
| `RequestStoreRepair.CreateReplacesHostRecord` | app/stores/requests.ts:1182-1194 | a record created over a host record that was not read replaces it |
| `RequestsStore.OpenPage` | app/stores/requests.ts:1094-1111 | a new store hydrated from any mirror is the boot state of its readable part, and valid exactly when every key of the mirror is a request's and none of it is behind the host |
| `RequestsStore.RequestsStore.HydrateFromMirror` | app/stores/requests.ts:1094-1111 | hydration adds the mirror's readable records, clean, and touches no entry already there |
| `RequestsStore.RequestsStore.TookKeepsValid` | app/stores/requests.ts:1113-1256 | a method that takes a step by the page's rules keeps the store valid |
| `RequestsStore.RequestsStore.CommitChange` | app/stores/requests.ts:1167-1178 | a commit replaces the record and the mirror, then writes through or schedules, and changes no other key |
| `RequestsStore.RequestsStore.BeginWriteHost` | app/stores/requests.ts:1115-1122 | a write captures the pending record, and a clean or missing entry needs none |
| `RequestsStore.RequestsStore.Create` | app/stores/requests.ts:1182-1194 | a create of a taken key changes nothing; any other takes the create step |
| `RequestsStore.RequestsStore.Observe` | app/stores/requests.ts:1198-1201 | an observation of a known key is queued |
| `RequestsStore.RequestsStore.Flag` | app/stores/requests.ts:1217-1220 | so is a flag |
| `RequestsStore.RequestsStore.SetHandoff` | app/stores/requests.ts:1232-1235 | so is a hand-off |
| `RequestsStore.RequestsStore.Remove` | app/stores/requests.ts:1245-1247 | a removal is queued behind everything of its key |
| `RequestsStore.RequestsStore.TimerFires` | app/stores/requests.ts:1148-1157 | a timer that fires leaves the map and queues a write |
| `RequestsStore.RequestsStore.Flush` | app/stores/requests.ts:1158-1163 | a flush turns every pending timer into a queued write |
| `RequestsStore.RequestsStore.RunHead` | app/stores/requests.ts:1059-1062 | the task at the head of a queue runs to its first await, whichever it is |
| `RequestsStore.RequestsStore.RunObserve` | app/stores/requests.ts:1201-1212 | an observation's task: gone, witness fields alone, or a commit |
| `RequestsStore.RequestsStore.RunNote` | app/stores/requests.ts:1220-1240 | a flag's or a hand-off's task commits on a top-up and leaves a withdrawal alone |
| `RequestsStore.RequestsStore.RunRemove` | app/stores/requests.ts:1247-1250 | a removal's task takes the timer and starts the clear |
| `RequestsStore.RequestsStore.RunMerge` | app/stores/requests.ts:3200-3216 | a merge takes the newer record, or schedules memory's |
| `RequestsStore.RequestsStore.WriteAnswers` | app/stores/requests.ts:1123-1140 | the answer to a write, up to what its task awaits next |
| `RequestsStore.RequestsStore.ClearAnswers` | app/stores/requests.ts:1250-1254 | the answer to a clear: the entry goes and the mirror is written, or nothing changes |
| `RequestsStore.RequestsStore.BeginReadOne` | app/stores/requests.ts:3169-3176 | a finished record is not read and is only rescheduled when pending; any other is read |
| `RequestsStore.RequestsStore.ReadOneAnswers` | app/stores/requests.ts:3177-3200 | the answer to a read: its error, a write-back, nothing, or a queued merge |
| `RequestsStore.RequestsStore.EndReads` | app/stores/requests.ts:3225-3226 | after the reads the mirror is written when a merge loaded a record |
| `Mirror.WriteMirror` | app/stores/requests.ts:1073-1091 | the loops keep what the mirror's definition says |
| `Mirror.RecentAreLatest` | app/stores/requests.ts:1079-1082 | of the finished records at most fifty are kept, and none dropped finished after one kept |
| `Mirror.WrittenHolds` | app/stores/requests.ts:1073-1083 | the mirror has every unfinished record and exactly those finished ones, each under its own key, and nothing else |
| `Mirror.MirrorRoundTrip` | app/stores/requests.ts:1072-1111 | hydrating an empty memory brings exactly these back, clean, as far as their keys are requests'; hydrating any memory replaces nothing in it |
| `StableSort.SortFits` | app/utils/request-index.ts:42 | sorting keeps every item, falls, and keeps the order of equal items |
| `StableSort.StableSortIsUnique` | app/utils/request-index.ts:42 | a list with these properties is the only one |
| `RequestIndex.KeyReadsBackIff` | app/utils/request-index.ts:19-30 | a key reads back as its ref exactly for a safe positive number under a non-empty or absent source without `#` |
| `RequestIndex.KeyTextIsItsOwnIff` | app/utils/request-index.ts:24-30 | of the texts read as a ref, exactly those without leading zeros are the ref's own key |
| `RequestIndex.KeysAreInjective` | app/utils/request-index.ts:19-21 | two refs share a key exactly when source and number agree, an empty source counting as none |
| `RequestIndex.Deduplicate` | app/utils/request-index.ts:34-41 | the loop keeps the first ref of each key in order |
| `RequestIndex.SerializeRequestIndex` | app/utils/request-index.ts:33-44 | what is stored is the duplicate-free list, newest first |
| `RequestIndex.ParseRequestIndex` | app/utils/request-index.ts:50-86 | what is read is the recognized entries, bare numbers too, duplicate-free and newest first |
| `RequestIndex.ParsedNames` | app/utils/request-index.ts:50-86 | of any stored array exactly the keys its entries name are read, bare numbers and objects alike |
| `RequestIndex.StoredIndexReadsBack` | app/utils/request-index.ts:33-86 | reading what was stored gives the duplicate-free stable newest-first list of the positive numbers, nothing that was not stored and every key of one, and storing that again changes nothing |
| `IndexChanges.ChangeMoves` | app/stores/requests.ts:1258-1268 | one change of the index adds its refs under keys not listed and drops the very ref it names, and leaves every other key |
| `IndexChanges.IndexIsItsChanges` | app/stores/requests.ts:1258-1268 | however changes overlap and fail, the stored index lists under every key what the changes that took effect leave there, in call order |
| `IndexChanges.ListedIff` | app/stores/requests.ts:1192-1254 | a ref is in the stored index exactly when a create or a reconcile that took effect added it, or it was there, and no removal that took effect dropped it since |
| `ReconcileFlight.NoCallIsDropped` | app/stores/requests.ts:3103-3130 | no two passes overlap, and a caller whose promise resolved was served by a whole pass that began at or after its call |
| `ReconcileFlight.LandsIff` | app/stores/requests.ts:3108-3128 | a pass that succeeds lands its flight exactly when no call came since it began and none is left of a pass that threw, and begins one more otherwise |
| `ReconcileFlight.LandsInTwo` | app/stores/requests.ts:3118-3121 | a flight no call joins any more lands after at most one more successful pass than the one running |
| `ReconcileFlight.PassesAreCalledFor` | app/stores/requests.ts:3108-3121 | there are never more passes than calls, and one begins only for a call that comes just then or is owed it |
| `ReconcileFlight.CrashLeavesAPass` | app/stores/requests.ts:3118-3127 | a call that joined a pass that then threw makes the next flight run twice |
| `ReconcileFlight.Reconciler.Reconcile` | app/stores/requests.ts:3108-3115 | a call during a flight joins it and asks for one more pass; any other starts a flight |
| `ReconcileFlight.Reconciler.PassEnded` | app/stores/requests.ts:3116-3128 | the end of a pass starts the next one, lands the flight, or crashes it |
| `InParallel.LanesTakeEachOnce` | app/stores/requests.ts:317-328 | never more lanes at work than the limit; every item before the cursor is taken exactly once; when all lanes are done all items were taken unless every lane's work threw |
| `InParallel.Lanes.constructor` | app/stores/requests.ts:323-327 | the lanes start on the first items, one each |
| `InParallel.Lanes.WorkEnds` | app/stores/requests.ts:324-326 | a lane takes the next item, ends when there is none, or dies of its work |
| `WorkerRpc.StepKeepsInv` | lib/worker-rpc.ts:90-126 | every step of page, storage and worker keeps the channel's invariant |
| `WorkerRpc.ChannelIsSafe` | lib/worker-rpc.ts:90-126 | numbers rise in call order, every number the sequence reached had its request written first, an answer is to the call's own request and payload, and a call that got its number has left no request under it unless its clear was refused |
| `WorkerRpc.RequestsAreTheCalls` | lib/worker-rpc.ts:90-100 | a stored request is, payload and all, that of the call that wrote there last, and one the worker read or answered under a number is that of the call whose sequence write reached it |
| `WorkerRpc.CallGoesAsDecided` | lib/worker-rpc.ts:102-126 | a call with its number polls until an answer is there or its polling ends, whichever is first, then clears its three keys whatever each clear says, and returns just that |
| `WorkerRpc.ClearTakesItsKey` | lib/worker-rpc.ts:119-124 | each clear takes its own key of the call's own number and nothing else |
| `WorkerRpc.RequestStaysIff` | lib/worker-rpc.ts:90-126 | of a returned call a request is still stored, under a number the worker has not swept, exactly when its clear was refused, its sequence write landed and was rejected, or the sequence never reached it and no later call wrote there |
| `WorkerRpc.RejectedSequenceWriteLeavesItsRequest` | lib/worker-rpc.ts:90-100 | the second case happens, and the worker can read the request |
| `WorkerRpc.RejectedRequestWriteLeavesItsRequest` | lib/worker-rpc.ts:93-97 | so does the third, one past the sequence |
| `WorkerRpc.Poll` | lib/worker-rpc.ts:127-148 | the poll answers with the first answer it reads, gives up exactly when the deadline or the one grace a claim buys has passed, and ends |
| `WorkerRpc.StorageWorkerManager.StartSend` | lib/worker-rpc.ts:102-114 | a call hangs its allocation on the chain |
| `WorkerRpc.StorageWorkerManager.SequenceIsRead` | lib/worker-rpc.ts:91 | an allocation takes the number after the stored sequence |
| `WorkerRpc.StorageWorkerManager.RequestIsWritten` | lib/worker-rpc.ts:92-98 | the sequence is written only after the request was |
| `WorkerRpc.StorageWorkerManager.SequenceIsWritten` | lib/worker-rpc.ts:98-99 | the call gets its number, or is rejected with nothing cleared |
| `WorkerRpc.StorageWorkerManager.ReadAnswer` | lib/worker-rpc.ts:130 | a poll reads under its own number alone |
| `WorkerRpc.StorageWorkerManager.ClearKey` | lib/worker-rpc.ts:119-124 | request, response and claim are cleared in turn, a failed clear passed over |
| `TradeNumbers.LookMeans` | lib/coinage.ts:482-496 | the search gives the least free number at or above the counter, throws exactly when a hundred in a row are taken, and fails exactly on a trace it cannot read before that |
| `TradeNumbers.TradeCounterKey.NextFreeTradeNumber` | lib/coinage.ts:482-508 | the loop is that search, and a moved counter is written or the call is rejected |
| `TradeNumbers.TradeCounterKey.AdvanceTrade` | lib/coinage.ts:1274-1291 | the advance leaves the next number stored, or is lost |
| `TradeNumbers.QuoteGives` | lib/coinage.ts:487-507 | a number handed out is the stored counter from then on, has no trace, and everything the counter passed has one |
| `TradeNumbers.TracedIff` | lib/coinage.ts:475-508 | over any run a number has a trace exactly when one appeared, a request started under it, or it was there at the start, and none was dropped since |
| `TradeNumbers.NumbersAreTakenOnce` | lib/coinage.ts:475-508 | whichever advances are lost and traces unread, started numbers rise, the one handed out was never taken, and the counter never moves back, in runs where starts do not overlap, the counter is read and no trace above it goes |
| `TradeNumbers.QuoteRepeatsIff` | lib/coinage.ts:482-507 | in any state, a taken number is handed out exactly when its trace is gone, the search gets to it, and the counter need not move or its write is done |
| `TradeNumbers.QuotedIsTakenIff` | lib/coinage.ts:475-508 | over any run, the number handed out is a taken one exactly when some quote met that condition and no quote or start came since |
| `TradeNumbers.TakenTwiceIff` | lib/coinage.ts:475-508 | over any run, a number is taken twice exactly when some quote met that condition and the next quote or start after it is a start |
| `TradeNumbers.CounterFallsIff` | lib/coinage.ts:468-508 | in any state the counter falls exactly when an advance lands after the counter passed it, or a quote that could not read the counter writes a lower one |
| `TradeNumbers.OverlapMovesCounterBack` | lib/coinage.ts:1274-1279 | with a quote between a start and its advance the counter goes from 3 to 2 |
| `TradeNumbers.LostAdvanceAndDropRepeatNumber` | lib/withdraw-live.ts:827-838 | with the advance lost and the record then gone, number 1 is taken twice |
| `MeldPoll.PollNeverStallsOrDoubles` | app/stores/requests.ts:2197-2261 | a poll that was not stopped is the screen's and has exactly one of a read, a timeout or a pause going; a stopped one sets nothing going; every wait is within 3 and 30 seconds |
| `MeldPoll.PollWaitsAsAnswered` | app/stores/requests.ts:2240-2255 | from the answers the poll's own reads were given: its failures are the answers since the last status, and a timer waits three seconds after a status or an early 404, and after any other failure three seconds doubled once per answer since the last status, at most thirty |
| `MeldPoll.WaitDoubles` | app/stores/requests.ts:2249-2254 | each further failure that is no 404 doubles that wait, up to the longest; a 404 and a status keep the cadence |
| `MeldPoll.ScreenIsAsAsked` | app/stores/requests.ts:2197-2261 | the store polls exactly the payment that was asked for and not called off since, paused while it was paused, and starts a poll exactly for one that is not shown |
| `MeldPoll.EndsIff` | app/stores/requests.ts:2226-2247 | a read ends the poll exactly when the payment is gone, the rail cannot move, or the record was seen before and is not there |
| `MeldPoll.GoneIffThirdInARow` | app/stores/requests.ts:2108-2164 | a payment is declared gone exactly on the third 404 in a row about it, counted over every read of it |
| `MeldPoll.StepKeepsFits` | app/stores/requests.ts:2108-2261 | every step keeps: one read out per poll, a timeout only while nothing else goes, an unstopped poll being the screen's, and each count being its 404s in a row |
| `MeldPoll.PollClosure.Stop` | app/stores/requests.ts:2213-2216 | stop and its timer |
| `MeldPoll.PollClosure.Pause` | app/stores/requests.ts:2217-2220 | pause and its timer |
| `MeldPoll.PollClosure.Resume` | app/stores/requests.ts:2221-2225 | a resume reads at once unless a read is out |
| `MeldPoll.PollClosure.EndTick` | app/stores/requests.ts:2240-2255 | the rest of a tick: count, then stop, end, or set the one timer |
| `MeldPoll.MeldPolling.StartMeldPoll` | app/stores/requests.ts:2197-2200 | starting the same key is a no-op; another key replaces the running poll |
| `MeldPoll.MeldPolling.SetForeground` | app/stores/requests.ts:1358-1365 | another request taking the screen ends the poll |
| `MeldPoll.MeldPolling.ObserveMeldStatus` | app/stores/requests.ts:2115-2187 | one answer moves the shared count and gives its outcome |
| `MeldPoll.MeldPolling.OutcomeObserved` | app/stores/requests.ts:2238-2256 | the tick goes on after its observation, and ends the poll of the screen when it is over |
| `MeldPoll.MeldPolling.TimerFires` | app/stores/requests.ts:2255 | a timeout that fires starts the next tick |
| `PurseBalance.GateIsReadAndNeverStale` | app/composables/usePurseBalance.ts:39-132 | over every run: one read, timer or held retry while the chain is due and none otherwise; an unknown purse has a chain due; failed implies unknown; a balance shown was read after the reading was last off and the last heeded refresh that said it was spent, and before some such refresh exactly when before a dropped one |
| `PurseBalance.BalanceStands` | app/composables/usePurseBalance.ts:103-128 | a balance becomes unknown only by a spent refresh or by turning the reading off |
| `PurseBalance.OldReadChangesNothing` | app/composables/usePurseBalance.ts:78-85 | a read of an older epoch changes nothing |
| `PurseBalance.CurrentReadEnds` | app/composables/usePurseBalance.ts:64-101 | the current read shows its answer and ends the chain, or leaves a known balance, names the failure from the last quick retry on, and sets one timer |
| `PurseBalance.SpentRefreshIsLostIff` | app/composables/usePurseBalance.ts:103-109 | a refresh that says a shown balance was spent leaves it standing, stale, exactly when it finds the reading off |
| `PurseBalance.NeverStaleUnlessDropped` | app/composables/usePurseBalance.ts:103-112 | a stale balance is shown only in runs in which such a refresh found the reading off |
| `PurseBalance.SpentRefreshLostInABlink` | app/composables/usePurseBalance.ts:103-109 | in a blink of the switch it stays, with nothing under way to replace it |
| `PurseBalance.StepKeepsFits` | app/composables/usePurseBalance.ts:39-132 | every step keeps: timers and held retries of the current epoch alone, one thing alive per due chain, and the failure named past the quick retries while the purse is unknown |
| `PurseBalance.UsePurseBalance.OnMounted` | app/composables/usePurseBalance.ts:114-116 | a mount reads at once when the reading is on |
| `PurseBalance.UsePurseBalance.RefreshNow` | app/composables/usePurseBalance.ts:103-112 | a refresh calls the old chain off and starts its own |
| `PurseBalance.UsePurseBalance.Watch` | app/composables/usePurseBalance.ts:118-129 | the switch turned on reads, turned off calls everything off and forgets the balance |
| `PurseBalance.UsePurseBalance.TimerFires` | app/composables/usePurseBalance.ts:92-100 | a due retry is held in a hidden tab and read otherwise |
| `PurseBalance.UsePurseBalance.ReleaseHeldRetry` | app/composables/usePurseBalance.ts:53-58 | a tab that is seen reads the held retry |
| `PurseBalance.UsePurseBalance.EndRead` | app/composables/usePurseBalance.ts:66-101 | the end of a read, its epoch checked first |
| `PurseBalance.UsePurseBalance.Unmount` | app/composables/usePurseBalance.ts:130-134 | unmounting calls everything off |
| `FloorsSlot.SeedOutranksEarlierLoads` | app/stores/offers.ts:171-188 | the floors shown are the last seeding's or a later load's; an answer lands exactly when its load holds the slot, which no load from before the seeding does, and it never replaces a later answer |
| `FloorsSlot.ShowsWhatWasGiven` | app/stores/offers.ts:135-188 | over every run the floors shown are those of the last seeding or of a later answer to a load asked for since, and an ask leaves one load in flight, the one there was or a new one |
| `FloorsSlot.Slot.Ask` | app/stores/offers.ts:171-187 | an ask joins the load in flight or starts one that takes the slot |
| `FloorsSlot.Slot.SeedFloors` | app/stores/offers.ts:135-139 | seeding replaces the floors and frees the slot |
| `FloorsSlot.Slot.Land` | app/stores/offers.ts:174-179 | an answer is kept only by the load that holds the slot |
| `FloorsSlot.Slot.Release` | app/stores/offers.ts:183-185 | a load frees the slot only when it is its own |
| `Digits.ShowIsCanonical` | app/funding/selection.ts:58-68 | a number's digits are canonical and read back as the number |
| `FundingAmount.ParseOfFormat` | app/funding/selection.ts:44-68 | every amount that is not negative reads back from its text at every precision, and no other has a text |
| `FundingAmount.ReadsIff` | app/funding/selection.ts:44-56 | a text reads as an amount exactly when, white space around it aside, its whole part and at most the precision's places, filled up with zeros, are the amount's digits |
| `FundingAmount.CanonicalizeIsIdempotent` | app/funding/selection.ts:70-73 | canonicalizing again changes nothing, and two texts share a canonical form exactly when they are the same amount |
| `Keypad.KeyStaysEnterable` | app/funding/selection.ts:101-131 | one key keeps the entry well-formed, under the maximum, within the precision and nine whole digits |
| `Keypad.AnyKeysStayEnterable` | app/funding/selection.ts:91-131 | so does every run of keys |
| `Keypad.KeyIsTakenIff` | app/funding/selection.ts:101-131 | a key is taken exactly when what it makes of the entry is inside every limit, a delete always, and the maximum is reported exactly when a digit would go past it |
| `Keypad.DeleteUndoes` | app/funding/selection.ts:109-111 | a delete undoes the key before it, but for the zero a digit stood in for and the one a dot put before itself |
| `Keypad.NextKeyEnters` | app/funding/selection.ts:101-131 | the last character of an enterable text, tapped on the rest, gives that text and does not report the maximum |
| `Keypad.EveryAmountCanBeTyped` | app/funding/selection.ts:91-131 | every amount within the limits is entered by typing its canonical text, key by key, without ever reporting the maximum |
| `Cash.CashTextReadsBack` | app/utils/cash.ts:7-23 | every positive amount reads back from its text, and zero reads as none |
| `Cash.TypedIsRead` | app/utils/cash.ts:7-17 | what is typed with a dot, a comma or neither, white space around it or not, is read as its digits, the fraction padded to six places, and as none for nothing, for a bare mark and for more places |
| `Cash.KeypadTextIsRoundedDown` | app/utils/cash.ts:42-54 | the keypad's text of a balance is worth at most the balance and less than one keypad unit under it |
| `Cash.TailIsText` | app/utils/cash.ts:20-23 | the two ways a number's tail is cut write the same text |
| `SaleSize.SizeIsSolvent` | lib/withdraw-live.ts:399-417 | exactly when a sale is refused; a figure and its payment never exceed the floor or the landing; the PSM keeps back only the cut digits; what comes back is the unused share, between nothing and what the fees leave |
| `SaleSize.FigureIsGreatest` | lib/withdraw-live.ts:399-411 | the figure is the greatest the sale's digits can write that, with its payment, the landing less two and a half percent covers on a pool, and all of it on the PSM |
| `SaleSize.FundableIff` | lib/withdraw-live.ts:426-454 | the check passes exactly when the fees leave something and, on a pool, the landing less slippage and half a percent covers figure and payment, on the PSM when the pair decides the same sale again and all of it does |
| `SaleSize.SizedStaysFundable` | lib/withdraw-live.ts:319-358 | a figure stays fundable, at whatever slippage the hand-off allows, while the payment costs no more and the landing at the check's share is no less than it was at the sizing's share |
| `SaleSize.PointIsTolerated` | lib/withdraw-live.ts:338-341 | a landing that falls by no more than one percent leaves a pool sale fundable at any slippage up to the sizing's, while the payment costs no more |
| `SaleSize.CutFits` | packages/meld/src/sell.ts:84-87 | a figure is cut down by less than one step, and is positive exactly from one step on |
| `SaleSize.HeadroomGap` | lib/withdraw-live.ts:657-660 | taking the headroom off again falls short by exactly this gap, nothing exactly when remainder and quotient by fifty stay under fifty together, and never by the bound or more |
| `SaleSize.MinimumIsMissedByTheGap` | lib/withdraw-live.ts:663-672 | a withdrawal at the CASH quoted for a minimum is offered at no less than the minimum less that gap |
| `SaleSize.PsmGrossIsLeast` | packages/funding/src/psm-batch.ts:68-96 | a PSM swap gives a net exactly when it takes in the priced gross or more, and there is no price exactly where the fee takes everything |
| `Bounds.BoundIsTight` | app/stores/session.ts:1019-1030 | a bound's figure is the least or the greatest whole CASH inside the limit, and there is none exactly when the limit or the cost is not positive or none fits |
| `Bounds.NearestOutOfRange` | app/stores/session.ts:1048-1066 | the loop gives the first error none is nearer than, one with a figure beating one without |
| `Bounds.JudgedIsLeast` | app/stores/offers.ts:349-362 | the minimum shown is the least CASH that buys the floor, more than was asked for; where the target is bought, what is sent is the least whose worst fill covers, with the margin, the least that buys it |
| `Bounds.WorstFillCovers` | packages/chainflip/src/quote.ts:43-47 | the worst fill of what is sent still buys the target with the margin over it |
| `Catalog.CompareIsExact` | lib/supported.ts:327-335 | the comparison is the exact order of the two decimals, and has no answer exactly when one is not a decimal |
| `Catalog.MergeTakesBoth` | lib/supported.ts:351-379 | a category is routed exactly when either side routes it, by the two first methods made one or the one there is |
| `Catalog.RestStands` | lib/supported.ts:351-379 | a preferred method that is not the first of its category is as it was, the other side's methods of new categories follow, and all else is the preferred corridor's |
| `Catalog.WidenedIsWider` | lib/supported.ts:358-371 | of comparable methods the smaller minimum, the larger maximum and all providers stand; a method is failing only where both are |
| `Catalog.WidenedElse` | lib/supported.ts:342-371 | of two that cannot be compared the available one stands alone, the preferred bounds stand where currencies differ, and a bound a side does not give is blank |
| `Catalog.ProvidersLead` | lib/supported.ts:370 | the preferred side's providers come first, in their order |
| `Catalog.MergeCorridorMaps` | lib/supported.ts:383-394 | the loop merges every country of either catalog |
| `Catalog.GroupsPartitionIff` | lib/supported.ts:572-603 | the list shows every row exactly once if and only if no failing row is also unsupported or under its minimum |
| `Catalog.TimesListed` | lib/supported.ts:572-603 | such a row is shown twice, every other once |
| `Catalog.RegionGroups` | lib/supported.ts:572-603 | the pushes build the sections in order, leaving out the empty ones |
| `Catalog.HeadingsFit` | lib/supported.ts:572-603 | every section has rows and its heading says what each of them is; the first pickable region the device reports leads alone under its own heading exactly when no filter runs; the choice is headed by that |
| `Catalog.RowFits` | lib/supported.ts:524-540 | a row is unsupported, failing or under its minimum exactly when its method is missing, failing or has a readable minimum above what is paid, one at most, and picked exactly when none; a minimum shown is that method's |
| `Catalog.OptionsIff` | lib/supported.ts:517-523 | there are no rows exactly while no corridor is read |
| `Catalog.CatalogRowsAreListedOnce` | lib/supported.ts:517-603 | so every region of a catalog is listed exactly once, whatever is detected or filtered |

## Left out

- The reducer and its transitions are not modelled: an observation brings any record that keeps `rev`, which no transition writes.
- `migrateRecord` is the identity on what the store wrote; a record it cannot use is the read that is dropped.
- Records removed by the reap, and when a reconcile asks for it, are any removals a pass makes after its reads.
- The page's rules in `Ruled` (a created record is not behind the host's, removals wait for a pass' reads) are assumed of runs; `CreateKeeps`, `CreateReplacesHostRecord` and `RemovalDuringReadComesBack` say what happens otherwise.
- A storage call that was rejected has landed by then or never does, in the store, the record mutator and the call channel; one that landed later could put an older value over a newer one.
- `RequestRecord.WitnessOnly` compares values, where the source compares the fields' identity: a reducer that rebuilt an equal field would commit a new rev there and not here.
- In the store's steps an index change is one awaited step of its task; `IndexChanges` follows the index on its own.
- A removal that throws rejects the pass' `Promise.all` at once and leaves the other lanes' removals out, where the model's pass ends with none out; one still out at the next pass' reads is `RemovalDuringReadComesBack`.
- A mirror that a throwing Web Storage turned off, and a host write that lands only after a reload, are not modelled.
- An observation that throws is not modelled; the polls take every observation as resolving.
- The sale poll, the payment poll, the job poll and the deposit watch are further machines of the poll's kind.
- `TradeNumbers.NumbersAreTakenOnce`: takes counter reads as reliable, since a failed one may write a lower counter, as `CounterFallsIff` says.
- The counter's text: a missing or malformed one is 1, and what `parseInt` makes of other texts is not modelled.
- `WorkerRpc.ChannelIsSafe`: says nothing about responses and claims the worker writes after a call has returned.
- The worker is an environment that reads forward to the stored sequence and answers under the number it read; the heartbeat and `alive` are not modelled.
- Purse refreshes between setup and mount are not modelled; the screen is taken from its mount on.
- The retry timer and the watchers of the offers store, and the partial answers of the alternate egress.
- `Bounds.BoundIsTight`: the limit and the cost are whole cents; how their texts become cents in floating point is not modelled.
- Slippage and margins are whole basis points; whether a row's minimum is above what is paid is a given answer per row.
- The order of the merged map's countries, and the merged country list's name order.
- Chain clients, fee estimates, quotes, Meld and Chainflip calls, host payments and key derivation are values an event brings.
- `createCoinageHandoff`, `runFundingViaWorker` and `quoteWithdrawOffers`: loops over foreign calls.
- Components, wording, themes, telemetry and logs.
