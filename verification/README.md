# An SM-DP+ server, modelled and proved

This project models `euicc-smdp`, the SM-DP+ of SGP.22 as a server: its four
ES9+ functions (InitiateAuthentication, AuthenticateClient,
GetBoundProfilePackage, HandleNotification), its `order add` and `order reset`
commands, the in-memory session table, the order and notification tables, the
database migration, and the three small codecs around them. It proves what the
server promises over whole runs.

The C library that runs the protocol is a record of arbitrary deterministic
functions (`Rsp.Library`), one per entry point, over session states whose octets
only the library understands. Every theorem holds for every such library, except
where a named hypothesis says what it needs: `Evidence.ResultsNeedACertificate`,
which the library's documentation promises, `Evidence.LearnsTheEuicc`, which the
handlers count on and the documentation promises only in part (that an accepted
response can be cut into fields is written nowhere), or the library accepting the
calls of one download.

The same pieces of work (`Protocol`) are run at three granularities:

- **Threads.** `Threads` cuts every handler where it takes or gives up a mutex,
  and lets any number of threads and command processes interleave.
- **One server thread.** `ClosedRegion.SingleThreaded` picks the schedules in which
  the next request is taken up when the last is answered, while `order add` and
  `order reset`, being processes of their own, may write between any two store
  operations of a handler. This is the server as shipped: a current-thread
  runtime, and no handler awaits.
- **Atomic.** `Es9.Step` runs one request or command from start to end, which is
  the shipped server as long as no command runs in the middle of a handler. The
  class `Es9.AppState` holds the handlers as methods that change the session
  table and the store step by step; each is proved to do exactly what `Step` says.

`Outcomes` gives a second account of each atomic step, from the library's own
answers to the rows, the session and the answer that result, without any of the
handlers' intermediate values.

`Simulation` proves that every atomic run is a schedule of one server thread, with
the same state, the same library calls and the same answers, so what holds under
every schedule holds of every atomic run. `Sequential` proves the converse: a
schedule in which nothing starts before everything else is answered is an atomic
run of the same requests, so what holds of atomic runs holds of it. `Answers` ties
the calls of a schedule to what its clients are told.

Requests, nonces, clock readings, random octets, and the row a query for an
ICCID happens to pick are inputs of the steps.

## Main results

- **Transparency** (every schedule): each package a client is answered with is
  octet for octet what the same calls yield alone on a fresh library session, and
  its Profile and the metadata the eUICC accepted belong to the order served.
- **Single use** (every schedule): between two packages answered on one
  transactionId it was answered to an InitiateAuthentication anew; packages plus
  live sessions never exceed the transactionIds answered. The removal in
  GetBoundProfilePackage does not look again whether the session is there; that it
  is, follows from the mutual exclusion of the session lock.
- **No data race, no deadlock, no livelock** (every schedule): what a mutex guards is
  neither seen nor changed without it, some unfinished thread can always move, every
  reachable state drains, and no schedule moves for ever.
- **Closed region** (one server thread): only `order reset` takes an order out of
  {Downloaded, Failed}. With two threads this is false, and a schedule that shows it
  starts from an empty store. With any number of threads an order stays there until
  its reset as long as no thread may bind it, and does not, under some schedule, if
  one will.
- **Bounded re-serving** (one server thread): from Downloaded or Failed on, packages
  served plus sessions holding the order never grow until a reset; the bound is
  attained.
- **No stranding** (one server thread): an order is Downloaded or Failed if and only
  if some request marked it so after its last reset was written, and that request
  served it or stored a verified result that says so. That the serving or the
  result also came after the reset is false, and the schedule that shows it starts
  from an empty store: the reset can come between the serving and the mark. It holds
  exactly if no request has still to mark the order when the reset is written. One
  order on offer can always be downloaded.
- **Evidence** (one server thread, under the two hypotheses): an order that is
  not Available remembers EID and certificate at every moment. Atomically, for every
  library, a step keeps the invariant behind this exactly unless it is of one of two
  described kinds. Under every schedule an order remembers the eUICC written to it
  last, so the one served exactly if no other was written to it last; that another can
  be is shown from an empty store.
- **Failures** (every schedule): a request answered as failed wrote to no table and
  made no session come or go, and the reason code tells what the last library call
  made for it returned. Atomically, the subject tells the cause.
- **Notification log** (every schedule): append-only; each new row was stored by a
  HandleNotification of its own, and one that has answered stored its row exactly if
  the notification was legible. Each Failed order has its reason in it. In atomic
  runs the rows are in order of arrival.
- **Sessions** (every schedule): the table is what the log of its operations makes of
  an empty one, so an id is known exactly from its insert to what first ends it;
  memory bounded by the inserts of the last 600 s.
- **Kernels**: `from_hex` is total on Unicode and inverts `to_hex_upper`; the
  ICCID reader answers exactly on its grammar; MatchingIDs are exactly unbiased;
  `migrate` makes ready exactly the databases described, and which interruptions of
  it can be recovered from is given exactly.

## Model

| member | source | states |
|---|---|---|
| Transparency.EveryPackageIsTransparent | crates/smdp/src/server/es9.rs:233-289 | whatever the schedule, each serving equals the replay of its transactionId's calls alone on a fresh library session; Profile and accepted metadata are the served order's |
| Answers.EveryPackageAnswerIsTransparent | crates/smdp/src/server/es9.rs:269-288 | whatever the schedule, each package a client is answered with was served in its own thread and equals that replay |
| Answers.AtomicPackageIsTransparent | crates/smdp/src/server/es9.rs:269-288 | in every atomic run, each package answered equals the replay of the run's calls on its transactionId |
| Answers.RunKeepsAnswers | crates/smdp/src/server/es9.rs:131-135 | every session opened and every package served is answered by the thread that did it and by no other, and as many are answered as were opened and served |
| Transparency.RunKeepsTransparency | crates/smdp/src/server/es9.rs:131-134 | at every moment each live session is what its own calls alone made of it, and what threads carry in local variables is still true |
| Transparency.SchedulesKeepProfiles | crates/smdp/src/store/sqlite.rs:212-277 | no schedule loses an order, changes its Profile, or clears what it remembers |
| Transparency.CallPackageServes | crates/smdp/src/server/es9.rs:250-276 | the library call of GetBoundProfilePackage asks with the Profile of the order its session holds, and what it returns is what the replay returns |
| SingleUse.EachSessionServesOnce | crates/smdp/src/server/es9.rs:239-283 | two servings on one transactionId have an opening between them; servings and live sessions together never exceed openings, under every schedule |
| SingleUse.RunKeepsSingleUse | crates/smdp/src/server/es9.rs:239-283 | in every reachable world the session a thread looked up is still there as long as it has the lock, and live sessions are opened and unserved |
| Answers.TwoPackagesTwoSessions | crates/smdp/src/server/es9.rs:239-288 | between the servings behind two package answers on one transactionId a client was answered with that transactionId |
| Answers.PackagesNeverExceedSessions | crates/smdp/src/server/es9.rs:239-288 | under every schedule packages answered and live sessions together never exceed transactionIds answered |
| Answers.AtomicPackagesNeverExceedSessions | crates/smdp/src/server/es9.rs:239-288 | the same of every atomic run, counted over its answers |
| SessionLife.PackagesNeedAnOpening | crates/smdp/src/server/es9.rs:239-288 | in every atomic run, a request answered with the transactionId lies between two packages answered on it |
| SingleUse.WorkKeepsSingleUse | crates/smdp/src/server/es9.rs:239-283 | a piece of work on a session that is there keeps live sessions among the opened and unserved |
| Threads.LocksAreExclusive | crates/smdp/src/server/mod.rs:71-75 | each mutex is held by exactly the thread it names, in every reachable world |
| Threads.LockKeepsOthersSilent | crates/smdp/src/server/es9.rs:239-283 | while one thread works under the session lock, no other changes a session or makes a call |
| Guarded.StoreIsGuarded | crates/smdp/src/store/sqlite.rs:137-278 | a piece of work of the server without the mutex of the store neither changes the store nor depends on what it holds |
| Guarded.SessionsAreGuarded | crates/smdp/src/server/es9.rs:131-283 | a piece of work without the session lock neither changes the session table nor depends on what it holds |
| Guarded.OnlyMutexesAreWaitedFor | crates/smdp/src/server/es9.rs:131-283 | an unfinished thread can go exactly if it has the mutex it needs or no thread has it |
| Guarded.WritesAreMadeWithoutSessions | crates/smdp/src/server/es9.rs:206-286 | every write to the store is made after the session lock was given up |
| Threads.SomeThreadCanGo | crates/smdp/src/server/es9.rs:239-258 | while a thread is unfinished some thread can move: the store is waited for under the session lock, never the reverse |
| Threads.EveryStateDrains | crates/smdp/src/server/es9.rs:85-358 | from every reachable world all threads can finish |
| Threads.MovesAreBounded | crates/smdp/src/server/es9.rs:85-358 | without new requests no schedule makes more moves than were left |
| Threads.RowAfterWrite | crates/smdp/src/store/sqlite.rs:156-277 | a store write never loses an order or its Profile, and changes a state only by naming that order |
| Simulation.WorkedOutIsStep | crates/smdp/src/bin/smdp.rs:123-124 | a handler's pieces of work run back to back are the atomic step, for all six kinds, with the calls it makes |
| Simulation.AtomicRunIsASchedule | crates/smdp/src/bin/smdp.rs:123-124 | every atomic run is a schedule of one server thread with the same final state, the same calls and the same answers |
| Simulation.AnsweredAsTheStepsDo | crates/smdp/src/bin/smdp.rs:123-124 | in that schedule every request gets the atomic step's answer |
| Sequential.SequentialScheduleIsAtomic | crates/smdp/src/bin/smdp.rs:123-124 | a schedule in which nothing starts before everything else is answered is an atomic run of the same requests and commands: same state, same calls, same answers |
| Races.TwoThreadsReopenAnOrder | crates/smdp/src/server/es9.rs:155-228 | with two threads an order goes from Downloaded back on offer without a reset: the closed region needs the current-thread runtime |
| Scenarios.TheRaceHappens | crates/smdp/src/server/es9.rs:155-228 | a schedule from an empty store that does so |
| Reopening.ReopensIfItWillBeBound | crates/smdp/src/server/es9.rs:155-228 | with any number of threads, a handed-over order that no thread may bind stays so until its reset, and one that some thread will bind is reopened by some schedule without a reset |
| Reopening.BindsAnyway | crates/smdp/src/server/es9.rs:205-228 | a thread whose request the library accepts binds its order, whoever else is at work and whatever became of the order |
| ClosedRegion.OnlyResetReopens | crates/smdp/src/server/es9.rs:155-228 | with one server thread and commands interleaving between store operations, an order leaves {Downloaded, Failed} exactly by `order reset` |
| ClosedRegion.LeavesByAWrite | crates/smdp/src/server/es9.rs:228 | in any world it leaves exactly by a write of Available or Bound to it |
| ClosedRegion.RunKeepsRegion | crates/smdp/src/server/es9.rs:155-182 | what was read as offerable still is when the order is bound |
| Reserving.ReservingIsBounded | crates/smdp/src/server/es9.rs:155-161 | with one server thread and commands between store operations: once Downloaded or Failed, packages served plus live sessions holding the order never grow until a reset |
| Reserving.WorkSpendsHolders | crates/smdp/src/server/es9.rs:205-287 | each piece of work keeps that sum from growing, across sweeps, overwrites and re-authentication |
| OrderLife.ReservingIsBounded | crates/smdp/src/server/es9.rs:155-161 | the same of atomic runs, counted over their answers |
| OrderLife.StepSpendsHolders | crates/smdp/src/server/es9.rs:205-287 | each atomic step keeps that sum from growing |
| OrderLife.HeldSessionIsServed | crates/smdp/src/server/es9.rs:250-282 | a session that holds an order is served, whatever the order's state, exactly when the library accepts: the bound is attained |
| Stranding.HandedOverIffMarked | crates/smdp/src/server/es9.rs:282-287 | with one server thread and commands between store operations: an order is Downloaded or Failed if and only if a request marked it so after its last reset was written |
| Stranding.MarkHasACause | crates/smdp/src/server/es9.rs:285-353 | under every schedule, who marks an order Downloaded has in this request served it or stored a verified result that says so, and who marks it Failed has in this request stored one that says so |
| Stranding.NoStrandingExactly | crates/smdp/src/server/es9.rs:282-353 | from a moment on, an order is handed over only after it was served or a result for it was stored, if and only if no request that did so earlier has still to mark it |
| Races.ResetBeforeTheMark | crates/smdp/src/server/es9.rs:282-287 | one server thread: a reset between the serving and the mark ends Downloaded with nothing served and nothing stored since |
| Scenarios.TheResetComesTooEarly | crates/smdp/src/bin/smdp.rs:201-212 | a schedule of one server thread from an empty store that does so |
| OrderLife.HandedOverIffSettled | crates/smdp/src/server/es9.rs:285-353 | when no command runs inside a handler: an order is Downloaded or Failed if and only if, since its last reset, a package was served from it or a verified result matched it |
| OrderLife.StaysHandedOver | crates/smdp/src/bin/smdp.rs:201-212 | atomically, only `order reset` takes an order out of {Downloaded, Failed} |
| OrderLife.AcceptedDownloadSucceeds | crates/smdp/src/server/es9.rs:147-289 | with one order on offer, in whatever state the server is, an accepting three-call download serves it, ends Downloaded and remembers the eUICC |
| OrderLife.StepOnOrder | crates/smdp/src/server/es9.rs:138-353 | every way a step can treat an order's row: which transitions exist, what causes each, what never changes |
| OrderLife.RunKeepsProfiles | crates/smdp/src/store/mod.rs:43-57 | over every run an order keeps id, MatchingID, ICCID, Profile and metadata, and EID and certificate are never cleared |
| OrderLife.RunKeepsKeys | crates/smdp/src/store/sqlite.rs:14-23 | row ids ascend and MatchingIDs stay unique over every run |
| OrderLife.AddedOrderIsAsAsked | crates/smdp/src/service.rs:56-70 | an order is added exactly if an ICCID can be had and the MatchingID is free; it carries the files as given, the MatchingID given or 22 symbols drawn octet for symbol, the ICCID given or the metadata's, and no eUICC; every other row is as it was |
| OrderLife.AddedOrderAgreesWithMetadata | crates/smdp/src/bin/smdp.rs:183-189 | an order added without `--iccid` carries its metadata's ICCID, for the rest of every run |
| Protocol.ChosenOrderIsTheOnlyOffer | crates/smdp/src/server/es9.rs:155-182 | the chosen order is a row of the table and the only offerable one |
| Protocol.OneOfferIsChosen | crates/smdp/src/server/es9.rs:155-182 | one offerable order, Available or Bound, is always chosen |
| Protocol.FindAfterBinding | crates/smdp/src/server/es9.rs:225-228 | what every row holds after an order was bound |
| Es9.AppState.Initiate | crates/smdp/src/server/es9.rs:85-136 | the handler, statement by statement, does the atomic step: a session is inserted only when everything succeeded |
| Es9.AppState.Authenticate | crates/smdp/src/server/es9.rs:138-231 | the handler does the atomic step, the order id kept in the session before the fields can fail |
| Es9.AppState.GetPackage | crates/smdp/src/server/es9.rs:233-289 | the handler does the atomic step: the session is spent, then the order is Downloaded |
| Es9.AppState.Notify | crates/smdp/src/server/es9.rs:304-358 | the handler does the atomic step: the row before the move |
| Es9.Add | crates/smdp/src/bin/smdp.rs:172-200 | `order add` does the atomic step on its own store, whatever sessions the server has |
| Es9.Reset | crates/smdp/src/bin/smdp.rs:201-212 | `order reset` does the atomic step on its own store |
| Outcomes.InitiateNotAsked | crates/smdp/src/server/es9.rs:89-116 | a challenge of another length than 16 and a NUL in an address fail with 4.2, under 4.2 and 8.1.1, and change nothing |
| Outcomes.InitiateAsked | crates/smdp/src/server/es9.rs:109-135 | in terms of the library's answers alone: which codes a failure has, and on success the four fields as returned, that very session stored without an order, and every other entry kept exactly if younger than 600 s at the sweep |
| Outcomes.AuthenticateWithoutOrder | crates/smdp/src/server/es9.rs:155-182 | unless exactly one row is Available or Bound: 8.2.5 with 3.9, nothing changed |
| Outcomes.AuthenticateAsked | crates/smdp/src/server/es9.rs:184-231 | with that row, in terms of the library's answers alone: the session's new state and order, the codes of every failure, the four fields answered, and in the row the EID and certificate exactly as returned, or neither |
| Outcomes.GetPackageWithoutOrder | crates/smdp/src/server/es9.rs:239-267 | no session: 8.10.1 with 3.9; no order held, or none with that id: 8.2.5 with 3.9; nothing changed |
| Outcomes.GetPackageAsked | crates/smdp/src/server/es9.rs:269-288 | in terms of the library's answers alone: a failure keeps the session in its new state; a success answers the package as returned, removes the session and marks the row, and only it, Downloaded |
| Outcomes.NotificationHandled | crates/smdp/src/server/es9.rs:313-357 | in terms of the library's answers alone: which order is asked about with whose certificate, the row kept field for field, the move made, and 204 in every case |
| Outcomes.AnyMatchMayBeFound | crates/smdp/src/store/sqlite.rs:208-210 | of several orders of one ICCID each may be the one found |
| Outcomes.AddedIff | crates/smdp/src/bin/smdp.rs:183-191 | `order add` adds an order if and only if an ICCID is given or carried by the metadata, and the MatchingID given or drawn is in no row |
| Outcomes.AddWithIccid | crates/smdp/src/service.rs:56-70 | the order added, field for field, or the refusal of a MatchingID in use |
| Outcomes.ResetOutcome | crates/smdp/src/bin/smdp.rs:201-212 | `order reset` makes the row with the id, and only it, Available and leaves the rest of it alone, or reports that there is none |
| SessionLife.KnownIffOpen | crates/smdp/src/server/sessions.rs:29-53 | a transactionId has a session exactly if a request opened it and no package, redraw, or successful InitiateAuthentication 600 s after its birth came since |
| SessionLog.KnownIffUnended | crates/smdp/src/server/sessions.rs:29-53 | under every schedule an id has a session exactly if an insert of it was followed by no removal of it, no other insert of it and no sweep 600 s after its birth |
| SessionLog.SessionsAreTheirLog | crates/smdp/src/server/sessions.rs:28-54 | the table of every schedule is the log of its operations applied to an empty table |
| SessionTable.PresentIffUnended | crates/smdp/src/server/sessions.rs:29-53 | after any operations an id is present exactly if its last insert was followed by no remove of it and no sweep 600 s after its birth, whatever the clock does |
| SessionTable.SizeAfterInsert | crates/smdp/src/server/sessions.rs:13-14 | right after an insert the table is no larger than the inserts less than 600 s before its sweep, itself counted |
| SessionTable.Sessions.Insert | crates/smdp/src/server/sessions.rs:29-39 | sweeps at one clock reading, then stores a fresh entry born at another |
| SessionTable.Sessions.Get | crates/smdp/src/server/sessions.rs:41-43 | finds an entry of any age |
| SessionTable.Sessions.Update | crates/smdp/src/server/sessions.rs:16-21 | a handler's writes through the entry leave its birth alone |
| SessionTable.Sessions.Remove | crates/smdp/src/server/sessions.rs:45-47 | takes one entry out |
| SessionTable.Sessions.Sweep | crates/smdp/src/server/sessions.rs:49-53 | keeps exactly the entries younger than 600 s |
| OrderStore.SqliteStore.AddOrder | crates/smdp/src/store/sqlite.rs:156-190 | appends one Available row under the next id, or refuses a MatchingID in use and changes nothing |
| OrderStore.SqliteStore.ListOrders | crates/smdp/src/store/sqlite.rs:192-202 | every row, in id order |
| OrderStore.OneByIccid | crates/smdp/src/store/sqlite.rs:208-210 | some row with that ICCID, none only if there is none |
| OrderStore.SqliteStore.BindEuicc | crates/smdp/src/store/sqlite.rs:212-220 | sets EID and certificate of one row, nothing else |
| OrderStore.SqliteStore.SetState | crates/smdp/src/store/sqlite.rs:270-278 | sets the state of one row, nothing else |
| OrderStore.SqliteStore.RecordNotification | crates/smdp/src/store/sqlite.rs:222-240 | appends one row and leaves the others |
| OrderStore.FindAfterState | crates/smdp/src/store/sqlite.rs:270-278 | what every lookup sees after a state was set |
| OrderStore.FindAfterEuicc | crates/smdp/src/store/sqlite.rs:212-220 | what every lookup sees after an eUICC was bound |
| OrderStore.FindAfterOrder | crates/smdp/src/store/sqlite.rs:156-190 | a new order's id was unused, and every earlier lookup is unchanged |
| EvidenceUnderway.EvidenceAtEveryMoment | crates/smdp/src/store/mod.rs:13-14 | under the two hypotheses, with one server thread and commands between store operations: at every moment what is not Available remembers EID and certificate, and what a session holds does or is about to |
| EvidenceUnderway.RunKeepsUnderway | crates/smdp/src/server/es9.rs:203-228 | the invariant behind it, with what the thread at work still carries |
| Evidence.EvidenceKeptExactly | crates/smdp/src/server/es9.rs:203-228 | for every library, an atomic step keeps the evidence invariant of rows and sessions if and only if it is not one of the two losing kinds |
| Evidence.RowsKeptExactly | crates/smdp/src/store/mod.rs:13-14 | for every library, an atomic step breaks the documented promise about rows if and only if it binds, serves or moves an order whose EID and certificate are not known then |
| Evidence.PromiseHoldsExactly | crates/smdp/src/store/mod.rs:13-14 | a run keeps that promise throughout if and only if none of its steps does so |
| Evidence.RunKeepsEvidence | crates/smdp/src/store/mod.rs:13-14 | under the two hypotheses, over every run, what is not Available remembers EID and certificate, and so does whatever a session holds |
| Evidence.EvidenceFromTheStart | crates/smdp/src/store/mod.rs:13-14 | the same for every row, from an empty store |
| Evidence.ServedWithoutEvidence | crates/smdp/src/server/es9.rs:205-211 | without the first hypothesis it fails: a Failed AuthenticateClient leaves a session from which the package is served with no eUICC remembered |
| Scenarios.TheEvidenceIsMissing | crates/smdp/src/server/es9.rs:205-211 | a run from an empty store that does so |
| Evidence.PromisesKeepEvidence | crates/smdp/src/server/es9.rs:317-353 | the two hypotheses, that an accepted response is learned from and can be cut into fields and that no result verifies without a certificate, exclude both losing kinds |
| RememberedEuicc.RemembersItsOwnExactly | crates/smdp/src/store/mod.rs:1 | under every schedule, an order remembers the eUICC a request wrote to it, at any later moment, exactly if no eUICC was written to it since or the last one written is the same |
| RememberedEuicc.RemembersTheLast | crates/smdp/src/server/es9.rs:221-228 | an order remembers the eUICC last written to it |
| RememberedEuicc.WritesItsOwn | crates/smdp/src/server/es9.rs:203-228 | what an accepted request will write is the EID and the certificate the library returns for the very session that then holds the order, or neither |
| Scenarios.TheOtherEuiccIsRemembered | crates/smdp/src/server/es9.rs:155-228 | a run from an empty store: two eUICCs authenticate for one order, the first is served, the second is remembered |
| FailedWitness.FailedOrdersHaveAReason | crates/smdp/src/server/es9.rs:329-353 | from an empty store, under every schedule, a Failed order has a stored, verified notification of its own with installed = false |
| FailedWitness.RunKeepsWitnesses | crates/smdp/src/server/es9.rs:329-353 | a thread about to move an order has already written the row that says what the move does, and every Failed order keeps its row |
| KeptRows.OneRowPerDelivery | crates/smdp/src/server/es9.rs:304-358 | under every schedule earlier rows are untouched, every new row was stored by a HandleNotification of its own from the octets delivered to it, and one that has answered stored a row exactly if they could be read or verified without a certificate |
| KeptRows.MoverStoredItsRow | crates/smdp/src/server/es9.rs:329-353 | a thread about to move an order stored the row that says so itself |
| NotificationLog.LogIsConserved | crates/smdp/src/server/es9.rs:313-339 | a run leaves earlier rows alone and appends one row per legible delivery, in order, raw octets unchanged, with a verdict exactly for verified installation results |
| NotificationLog.LogIsInArrivalOrder | crates/smdp/src/store/sqlite.rs:26-35 | notification ids ascend, so id order is arrival order |
| NotificationLog.KeptIffLegible | crates/smdp/src/server/es9.rs:320-339 | a delivery is kept exactly when it verified or could be read |
| Scenarios.NothingIsKept | crates/smdp/src/server/es9.rs:320-339 | a library that can neither verify nor read: nothing that arrives is kept |
| NotificationLog.MovesIffVerifiedResult | crates/smdp/src/server/es9.rs:313-353 | an order is moved exactly by an installation result verified with the certificate remembered for the order found under the ICCID the library reads |
| NotificationLog.UnverifiedMovesNothing | crates/smdp/src/server/es9.rs:340-353 | an unverified notification changes no order and no session |
| FailedThreads.FailureLeavesNoMark | crates/smdp/src/server/es9.rs:85-276 | under every schedule, no piece of work of a request that ends up answered as failed changed a table or the set of sessions |
| ReasonCodes.AnswerTellsTheLastCode | crates/smdp/src/server/es9.rs:72-83 | under every schedule the answer of a request tells what the last library call made for it returned: 3.8 exactly for -1, 4.2 for any other code but 0, success only for 0, and without a call 3.9 for a missing session or order and 4.2 for a question that could not be put |
| Failures.FailureIsAtomic | crates/smdp/src/server/es9.rs:85-276 | an atomic Failed answer leaves both tables and the set of sessions as they were |
| Failures.ReasonTellsTheCode | crates/smdp/src/server/es9.rs:72-83 | a function fails exactly when it cannot ask or a call stops it; 3.8 exactly for a return of -1, 4.2 for every other stopping code, 3.9 for no session or order |
| Failures.SubjectTellsTheCause | crates/smdp/src/server/es9.rs:55-70 | which subjects a Failed answer can have, and what each tells: the address refused, no session, no order, or a response that could not be cut into fields |
| Wire.FromHexIsTotal | crates/smdp/src/es9/wire.rs:30-41 | on every Unicode string: never past a chunk's end, OddLength exactly for an odd octet length, otherwise NotHex of the first non-digit, otherwise what the digits spell |
| Wire.DecodeOfEncode | crates/smdp/src/es9/wire.rs:26-41 | decoding inverts encoding |
| Wire.EncodeOfDecode | crates/smdp/src/es9/wire.rs:26-41 | encoding a decoded string gives it back in upper case |
| Wire.SameTransactionIffSameUpperCase | crates/smdp/src/es9/wire.rs:44-60 | two accepted transactionIds are one exactly if they differ in letter case only |
| Wire.HexSpells | crates/smdp/src/bin/smdp.rs:119-121 | upper- and lower-case encodings spell the octets and differ in case only |
| Wire.DigitsInOrder | crates/smdp/src/es9/wire.rs:26-41 | the sixteen digits in order, upper and lower case, written and read |
| Wire.NoOtherDigits | crates/smdp/src/es9/wire.rs:34-36 | no other character is a digit |
| Wire.WidthIsShortest | crates/smdp/src/es9/wire.rs:31-33 | the octet length counts each character as the shortest UTF-8 sequence with room for it |
| CommandLine.ParseIccid | crates/smdp/src/bin/smdp.rs:99-117 | the loop over the ten octets computes `ParseIccidOf`, on every string |
| CommandLine.IccidIffTenPairs | crates/smdp/src/bin/smdp.rs:99-117 | exactly which strings are accepted, and as which octets |
| CommandLine.AgreesWithFromHex | crates/smdp/src/bin/smdp.rs:99-117 | it agrees with `from_hex` on twenty hexadecimal digits, and only there do both succeed |
| CommandLine.PlusPassesForZero | crates/smdp/src/bin/smdp.rs:108 | elsewhere they differ: a leading plus sign passes for a zero |
| CommandLine.PairMeans | crates/smdp/src/bin/smdp.rs:106-113 | every pair means what `from_hex` makes of it, or, after a plus sign, of it with a zero for the sign |
| CommandLine.PanicsIffSplit | crates/smdp/src/bin/smdp.rs:106-113 | the slicing panics exactly if a slice ends inside a character and every slice before it was read |
| CommandLine.ParseOfPrinted | crates/smdp/src/bin/smdp.rs:99-121 | a printed ICCID is read back |
| Metadata.IccidFromMetadata | crates/smdp/src/service.rs:85-110 | the cursor never leaves the octets, and an ICCID is returned exactly if the octets carry it |
| Metadata.IccidOfIsTheCarriedOne | crates/smdp/src/service.rs:85-110 | the reader answers exactly on the grammar `BF 25`, definite length, `5A 0A`, ten octets |
| Metadata.LengthFieldRoundTrip | crates/smdp/src/service.rs:90-99 | every short form and every long form of one to four octets (section 8.1.3 of X.690) is stepped over and means its length |
| Metadata.IccidRoundTrip | crates/smdp/src/service.rs:85-110 | every encoding, with anything appended, gives its ICCID back |
| Metadata.AppendingChangesNothing | crates/smdp/src/service.rs:85-110 | appended octets change no answer |
| Metadata.MaskIsRemainder | crates/smdp/src/service.rs:94 | the mask `0x7f` on an octet is the remainder modulo 128 |
| MatchingId.Unbiased | crates/smdp/src/service.rs:44-54 | for every n each n-symbol string over the alphabet has exactly 8^n preimages, and no other string has any |
| MatchingId.EightOctetsPerSymbol | crates/smdp/src/service.rs:48-53 | each symbol is drawn by exactly eight octets |
| MatchingId.AlphabetIsDistinct | crates/smdp/src/service.rs:48 | 32 symbols, none twice |
| MatchingId.DrawnByMask | crates/smdp/src/service.rs:50-53 | the symbol drawn for an octet is the one at the place its bits masked with `0x1f` say |
| Migration.Connection.Migrate | crates/smdp/src/store/sqlite.rs:49-84 | statement by statement, `migrate` does what `Migrated` says |
| Migration.MigratesExactly | crates/smdp/src/store/sqlite.rs:49-84 | it reaches the schema exactly on the files described, keeps every row in order, changes nothing on failure and nothing the second time |
| Migration.LegacyRowIsKept | crates/smdp/src/store/sqlite.rs:68-75 | a row from before `verified` existed is kept field for field and counts as verified |
| Migration.MigratedIsThePlan | crates/smdp/src/store/sqlite.rs:54-83 | it is its statements run one after the other up to the first that fails |
| Migration.RecoversExactly | crates/smdp/src/store/sqlite.rs:54-83 | stopped between any two statements it has lost no row; opening again recovers unless a version-less file was stopped just before its version was written, and then never does |
| Migration.VerdictsStayVerified | crates/smdp/src/store/sqlite.rs:68-75 | from an opened old file on, a verdict is only ever stored with a verified notification |

## Where code and documentation differ

The model follows the code.

- `handle_notification` says in one comment that a rejection leaves nothing in
  the store and in another that everything that arrives is kept. What is kept is
  what verified or could be read (`NotificationLog.KeptIffLegible`); the rest is not
  (`Scenarios.NothingIsKept`).
- The repository's own README.md lists notifications as not there yet; the handler exists.
- `OrderState::Bound` promises EID and certificate. Under the two hypotheses that
  holds at every moment (`EvidenceUnderway.EvidenceAtEveryMoment`); without them it can
  fail (`Scenarios.TheEvidenceIsMissing`), exactly in the runs that
  `Evidence.PromiseHoldsExactly` describes.
- The store says that it records which eUICC was given which Profile. It records the
  eUICC that was accepted last for the order, which need not be the one served
  (`Scenarios.TheOtherEuiccIsRemembered`).
- `order reset` says that the order is available again. A package being served at that
  moment can make it Downloaded right after (`Scenarios.TheResetComesTooEarly`).
- A version-less database with notifications and no orders table is migrated
  without error but never given an orders table (`Migration.CanBecomeReady`).

## Left out

- The C library itself, its cryptography and its ASN.1 codec: arbitrary functions here. Dropping, zeroizing and the raw pointers are not modelled.
- `DpSession` is a value, not an object: its `&mut self` calls return the new state, which the session table stores. Aliasing of a session cannot be expressed, and the `&mut Entry` of `get_mut` becomes a read and a write back under one lock.
- HTTP, TLS, JSON and base64: requests arrive decoded, answers are values; the message texts of failures are dropped.
- SQL and SQLite: tables are sequences of rows, writes succeed, a statement is atomic between processes. The paths for database errors, for an unknown state text and for a stored ICCID that is not ten octets are therefore not there.
- Row ids are unbounded integers; the wrap of a 64-bit row id is not modelled.
- Poisoned mutexes: a handler that panics while holding one.
- Quality of the operating system's random source: nonces and raw octets are inputs, so nothing is claimed about collisions; a transactionId drawn twice replaces the session.
- Crash safety: `migrate` is stopped between statements only, and a server that dies in the middle of a handler is not a step; a restart is a new run from the tables as they are, with no session.
- Two processes that open one version-less file at the same time.
- `order list`, `activation_code`, argument parsing and file reading: they change nothing or hold no logic.
- OrderStore.OneByIccid: the lookup does not say which of several orders with one ICCID is found, because the query does not either.
