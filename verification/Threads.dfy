/** The server on a runtime with many threads, and commands in processes of
    their own, at the granularity of locks.

    Two mutexes exist inside the server: the one around the session table
    (crates/smdp/src/server/mod.rs) and the one around the store's connection
    (crates/smdp/src/store/sqlite.rs). Each handler of
    crates/smdp/src/server/es9.rs is cut where it takes or gives up one of them,
    and under the session lock also between lookup, library call and removal.
    A command has its own connection and contends for neither. */
module Threads {
  import opened Basics
  import opened Rsp
  import opened OrderStore
  import opened SessionTable
  import opened Protocol
  import opened Es9
  import opened OrderLife

  /** Where a thread is, and the local variables it still needs. */
  datatype Pc =
    | Prepare(initiate: InitiateRequest, nonceId: Bytes16, serverChallenge: Bytes16)
    | Insert(opening: Opening)
    | Choose(authenticate: AuthenticateRequest)
    | Ask(authenticate: AuthenticateRequest, order: Order)
    | CallAuthenticate(authenticate: AuthenticateRequest, order: Order, entry: Entry)
    | Remember(id: int, eid: string, euiccCert: Bytes, body: Answer)
    | BindOrder(id: int, body: Answer)
    | Lookup(package: PackageRequest, otskDp: Bytes)
    | ReadUpp(package: PackageRequest, otskDp: Bytes, entry: Entry, id: int)
    | CallPackage(package: PackageRequest, otskDp: Bytes, entry: Entry, id: int, upp: Bytes)
    | Spend(package: PackageRequest, id: int, bpp: Bytes)
    | MarkDownloaded(id: int, body: Answer)
    | ReadNotification(raw: Bytes)
    | FindOrder(raw: Bytes, iccid: Bytes10)
    | Record(row: NewNotification, move: Option<Move>)
    | MoveOrder(to: Move)
    | CommandAdd(add: AddCommand)
    | CommandReset(id: int)
    | CommandSet(id: int)
    | Finished(answer: Answer)

  datatype Need = NoLock | SessionLock | StoreLock

  /** The mutex a piece of work starts by taking. */
  function Needs(pc: Pc): Need {
    match pc
    case Insert(_) => SessionLock
    case Ask(_, _) => SessionLock
    case Lookup(_, _) => SessionLock
    case Choose(_) => StoreLock
    case Remember(_, _, _, _) => StoreLock
    case BindOrder(_, _) => StoreLock
    case ReadUpp(_, _, _, _) => StoreLock
    case MarkDownloaded(_, _) => StoreLock
    case FindOrder(_, _) => StoreLock
    case Record(_, _) => StoreLock
    case MoveOrder(_) => StoreLock
    case _ => NoLock
  }

  /** `locked`: the mutex the current piece of work needs has been taken. */
  datatype Thread = Thread(pc: Pc, locked: bool)

  /** AuthenticateClient keeps the session lock from its lookup to its library
      call, GetBoundProfilePackage from its lookup across its store access and
      its library call to the removal. In between the looked-up entry is in a
      local variable, and nothing looks it up again. */
  predicate KeepsSessions(pc: Pc) {
    pc.CallAuthenticate? || pc.ReadUpp? || pc.CallPackage? || pc.Spend?
  }

  predicate HoldsSessions(t: Thread) {
    (Needs(t.pc) == SessionLock && t.locked) || KeepsSessions(t.pc)
  }

  predicate HoldsStore(t: Thread) {
    Needs(t.pc) == StoreLock && t.locked
  }

  /** What a thread asks of the library for a session, and what it serves. */
  datatype Call =
    | Opened(id: Bytes, input: InitiateInput)
    | AskedAuthenticate(id: Bytes, authenticateServerResponse: Bytes, metadata: Bytes)
    | AskedPackage(id: Bytes, prepareDownloadResponse: Bytes, upp: Bytes, otskDp: Bytes)
    | Served(id: Bytes, order: int, package: Bytes)

  /** `trace[n]` was made by thread `callers[n]`. */
  datatype World = World(
    s: State, sessionLock: Option<nat>, storeLock: Option<nat>, threads: map<nat, Thread>,
    trace: seq<Call>, callers: seq<nat>)

  /** Clock readings and the row a query picks. */
  datatype Choice = Choice(sweepAt: int, bornAt: int, pick: nat)

  // ---- pieces of work

  function AfterLookup(lib: Library, raw: Bytes, order: Option<Order>): Pc {
    match RowToKeep(lib, raw, order)
    case None => Finished(NoContent)
    case Some(row) => Record(row, MoveToMake(lib, raw, order))
  }

  function AfterAsk(lib: Library, req: AuthenticateRequest, order: Order, granted: Result<Grant, Answer>): Pc {
    match granted
    case Err(a) => Finished(a)
    case Ok(g) =>
      match AuthenticateBody(lib, req, g)
      case Err(a) => Finished(a)
      case Ok(body) =>
        if g.eid.Some? && g.euiccCert.Some? then Remember(order.id, g.eid.value, g.euiccCert.value, body)
        else BindOrder(order.id, body)
  }

  /** One piece of work: the new shared state, the calls it made, and where the
      thread goes on. */
  function Work(env: Env, s: State, pc: Pc, c: Choice): (State, seq<Call>, Pc) {
    match pc
    case Prepare(req, id, challenge) =>
      (match OpenSession(env, req, id, challenge)
       case Err(a) => (s, [], Finished(a))
       case Ok(o) => (s, [], Insert(o)))
    case Insert(o) =>
      (s.(sessions := Inserted(s.sessions, o.input.transactionId, o.session, c.sweepAt, c.bornAt)),
       [Opened(o.input.transactionId, o.input)],
       Finished(o.body))
    case Choose(req) =>
      (match ChooseOrder(s.orders)
       case Err(a) => (s, [], Finished(a))
       case Ok(order) => (s, [], Ask(req, order)))
    case Ask(req, order) =>
      if req.transactionId !in s.sessions then (s, [], Finished(Unsuccessful(TransactionId, Unknown)))
      else (s, [], CallAuthenticate(req, order, s.sessions[req.transactionId]))
    case CallAuthenticate(req, order, entry) =>
      var (e, granted) := AuthenticateEntry(env.lib, entry, req, order);
      (s.(sessions := s.sessions[req.transactionId := e]),
       [AskedAuthenticate(req.transactionId, req.authenticateServerResponse, order.metadata)],
       AfterAsk(env.lib, req, order, granted))
    case Remember(id, eid, cert, body) =>
      (s.(orders := WithEuicc(s.orders, id, eid, cert)), [], BindOrder(id, body))
    case BindOrder(id, body) =>
      (s.(orders := WithState(s.orders, id, Bound)), [], Finished(body))
    case Lookup(req, otskDp) =>
      (match SessionOrder(s.sessions, req.transactionId)
       case Err(a) => (s, [], Finished(a))
       case Ok(id) => (s, [], ReadUpp(req, otskDp, s.sessions[req.transactionId], id)))
    case ReadUpp(req, otskDp, entry, id) =>
      (match UppOf(s.orders, id)
       case Err(a) => (s, [], Finished(a))
       case Ok(upp) => (s, [], CallPackage(req, otskDp, entry, id, upp)))
    case CallPackage(req, otskDp, entry, id, upp) =>
      var (e, r) := PackageEntry(env.lib, entry, req, upp, otskDp);
      (s.(sessions := s.sessions[req.transactionId := e]),
       [AskedPackage(req.transactionId, req.prepareDownloadResponse, upp, otskDp)],
       match r
       case Err(a) => Finished(a)
       case Ok(bpp) => Spend(req, id, bpp))
    case Spend(req, id, bpp) =>
      (s.(sessions := s.sessions - {req.transactionId}),
       [Served(req.transactionId, id, bpp)],
       MarkDownloaded(id, Package(req.transactionId, bpp)))
    case MarkDownloaded(id, body) =>
      (s.(orders := WithState(s.orders, id, Downloaded)), [], Finished(body))
    case ReadNotification(raw) =>
      (match ClaimedIccid(env.lib, raw)
       case None => (s, [], AfterLookup(env.lib, raw, None))
       case Some(iccid) => (s, [], FindOrder(raw, iccid)))
    case FindOrder(raw, iccid) =>
      (s, [], AfterLookup(env.lib, raw, OneByIccid(s.orders, iccid, c.pick)))
    case Record(row, move) =>
      (s.(notifications := WithNotification(s.notifications, row)), [],
       if move.Some? then MoveOrder(move.value) else Finished(NoContent))
    case MoveOrder(m) =>
      (s.(orders := WithState(s.orders, m.order, m.to)), [], Finished(NoContent))
    case CommandAdd(c) =>
      (match OrderToAdd(c)
       case None => (s, [], Finished(CommandError))
       case Some(added) =>
         if HasMatchingId(s.orders, added.matchingId) then (s, [], Finished(CommandError))
         else (s.(orders := WithOrder(s.orders, added)), [], Finished(OrderAdded(Row(NextId(s.orders), added)))))
    case CommandReset(id) =>
      (s, [], if Find(s.orders, id).None? then Finished(CommandError) else CommandSet(id))
    case CommandSet(id) =>
      (s.(orders := WithState(s.orders, id, Available)), [], Finished(OrderIsAvailable(id)))
    case Finished(a) => (s, [], Finished(a))
  }

  /** The pieces that change the session table or make a call. */
  predicate TouchesSessions(pc: Pc) {
    pc.Insert? || pc.CallAuthenticate? || pc.CallPackage? || pc.Spend?
  }

  lemma OtherWorkIsSilent(env: Env, s: State, pc: Pc, c: Choice)
    requires !TouchesSessions(pc)
    ensures Work(env, s, pc, c).0.sessions == s.sessions && Work(env, s, pc, c).1 == []
  {
  }

  /** What a piece of work writes to the order table. */
  datatype Write =
    | Nothing
    | PutState(id: int, state: OrderState)
    | PutEuicc(id: int, eid: string, euiccCert: Bytes)
    | PutOrder(added: NewOrder)

  function WriteOf(pc: Pc): Write {
    match pc
    case Remember(id, eid, cert, _) => PutEuicc(id, eid, cert)
    case BindOrder(id, _) => PutState(id, Bound)
    case MarkDownloaded(id, _) => PutState(id, Downloaded)
    case MoveOrder(m) => PutState(m.order, m.to)
    case CommandAdd(c) => if OrderToAdd(c).Some? then PutOrder(OrderToAdd(c).value) else Nothing
    case CommandSet(id) => PutState(id, Available)
    case _ => Nothing
  }

  function Written(t: Orders, w: Write): Orders {
    match w
    case Nothing => t
    case PutState(id, st) => WithState(t, id, st)
    case PutEuicc(id, eid, cert) => WithEuicc(t, id, eid, cert)
    case PutOrder(added) => WithOrder(t, added)
  }

  lemma WorkWrites(env: Env, s: State, pc: Pc, c: Choice)
    ensures Work(env, s, pc, c).0.orders == Written(s.orders, WriteOf(pc))
  {
  }

  lemma WriteKeepsKeys(t: Orders, w: Write)
    requires WellKeyed(t)
    ensures WellKeyed(Written(t, w))
  {
    match w
    case Nothing =>
    case PutState(id, st) => StateKeepsKeys(t, id, st);
    case PutEuicc(id, eid, cert) => EuiccKeepsKeys(t, id, eid, cert);
    case PutOrder(added) => OrderKeepsKeys(t, added);
  }

  /** A write never loses an order or changes its Profile, and only a write of a
      state to it changes its state. */
  lemma RowAfterWrite(t: Orders, w: Write, id: int)
    requires Ascending(t) && Find(t, id).Some?
    ensures var o := Find(Written(t, w), id);
            && o.Some? && SameProfile(Find(t, id).value, o.value)
            && o.value.state == if w.PutState? && w.id == id then w.state else Find(t, id).value.state
  {
    match w
    case Nothing =>
    case PutState(at, st) => FindAfterState(t, at, st, id);
    case PutEuicc(at, eid, cert) => FindAfterEuicc(t, at, eid, cert, id);
    case PutOrder(added) => FindAfterOrder(t, added, id);
  }

  // ---- actions

  datatype Action = Spawn(i: nat, job: Event) | Go(i: nat, choice: Choice)

  function StartOf(job: Event): Pc {
    match job
    case InitiateAuthentication(req, id, challenge, _, _) => Prepare(req, id, challenge)
    case AuthenticateClient(req) => Choose(req)
    case GetBoundProfilePackage(req, otskDp) => Lookup(req, otskDp)
    case HandleNotification(raw, _) => ReadNotification(raw)
    case OrderAdd(c) => CommandAdd(c)
    case OrderReset(id) => CommandReset(id)
  }

  /** The thread waits for a mutex it has not taken yet. */
  predicate Waits(t: Thread) {
    Needs(t.pc) != NoLock && !t.locked
  }

  predicate CanGo(w: World, i: nat) {
    && i in w.threads && !w.threads[i].pc.Finished?
    && (Waits(w.threads[i]) ==>
          if Needs(w.threads[i].pc) == SessionLock then w.sessionLock.None? else w.storeLock.None?)
  }

  /** The action is a piece of work, not a mutex taken or a request arriving. */
  predicate Works(w: World, a: Action) {
    a.Go? && CanGo(w, a.i) && !Waits(w.threads[a.i])
  }

  function Released(lock: Option<nat>, i: nat): Option<nat> {
    if lock == Some(i) then None else lock
  }

  /** Taking the mutex. */
  function Acquire(w: World, i: nat): World
    requires i in w.threads
  {
    var t := w.threads[i];
    w.(threads := w.threads[i := t.(locked := true)],
       sessionLock := if Needs(t.pc) == SessionLock then Some(i) else w.sessionLock,
       storeLock := if Needs(t.pc) == StoreLock then Some(i) else w.storeLock)
  }

  /** Doing the work and giving the mutex up, except that the session lock stays
      with a thread that goes on needing it. */
  function Perform(env: Env, w: World, i: nat, c: Choice): World
    requires i in w.threads
  {
    var (s, calls, pc) := Work(env, w.s, w.threads[i].pc, c);
    w.(s := s, trace := w.trace + calls, callers := w.callers + seq(|calls|, _ => i),
       threads := w.threads[i := Thread(pc, false)],
       sessionLock := if HoldsSessions(Thread(pc, false)) then w.sessionLock else Released(w.sessionLock, i),
       storeLock := Released(w.storeLock, i))
  }

  /** An action that is not enabled changes nothing. */
  function Exec(env: Env, w: World, a: Action): World {
    match a
    case Spawn(i, job) =>
      if i in w.threads then w else w.(threads := w.threads[i := Thread(StartOf(job), false)])
    case Go(i, c) =>
      if !CanGo(w, i) then w
      else if Waits(w.threads[i]) then Acquire(w, i)
      else Perform(env, w, i, c)
  }

  function RunAll(env: Env, w: World, acts: seq<Action>): World {
    if acts == [] then w else Exec(env, RunAll(env, w, acts[..|acts| - 1]), acts[|acts| - 1])
  }

  /** Where a request or command starts. */
  predicate IsStart(pc: Pc) {
    pc.Prepare? || pc.Choose? || pc.Lookup? || pc.ReadNotification? || pc.CommandAdd? || pc.CommandReset?
  }

  /** The shared state is as it was, and so is where every thread is, except
      that some may have just started. */
  ghost predicate Undisturbed(w: World, after: World) {
    && after.s == w.s && after.trace == w.trace && after.callers == w.callers
    && (forall i :: i in w.threads ==> i in after.threads && after.threads[i].pc == w.threads[i].pc)
    && (forall i :: i in after.threads && i !in w.threads ==> IsStart(after.threads[i].pc))
  }

  lemma OtherActionsAreIdle(env: Env, w: World, a: Action)
    requires !Works(w, a)
    ensures Undisturbed(w, Exec(env, w, a))
  {
  }

  /** Nothing in flight. */
  function Idle(s: State): World {
    World(s, None, None, map[], [], [])
  }

  lemma OneAction(env: Env, w: World, a: Action)
    ensures RunAll(env, w, [a]) == Exec(env, w, a)
  {
    assert [a][..0] == [];
  }

  lemma TwoActions(env: Env, w: World, a: Action)
    ensures RunAll(env, w, [a, a]) == Exec(env, Exec(env, w, a), a)
  {
    assert [a, a][..1] == [a];
    OneAction(env, w, a);
  }

  lemma {:induction false} RunAllTwice(env: Env, w: World, a: seq<Action>, b: seq<Action>)
    ensures RunAll(env, w, a + b) == RunAll(env, RunAll(env, w, a), b)
  {
    if b == [] {
      assert a + b == a;
    } else {
      RunAllTwice(env, w, a, b[..|b| - 1]);
      assert (a + b)[..|a + b| - 1] == a + b[..|b| - 1];
    }
  }

  // ---- what threads are for

  /** What thread `i` was started for. */
  function JobOf(acts: seq<Action>, i: nat): Option<Event> {
    if acts == [] then None
    else
      var before, a := JobOf(acts[..|acts| - 1], i), acts[|acts| - 1];
      if before.None? && a.Spawn? && a.i == i then Some(a.job) else before
  }

  lemma JobAfter(acts: seq<Action>, a: Action, i: nat)
    ensures JobOf(acts + [a], i)
         == if JobOf(acts, i).None? && a.Spawn? && a.i == i then Some(a.job) else JobOf(acts, i)
  {
    assert (acts + [a])[..|acts|] == acts;
  }

  lemma {:induction false} EveryThreadHasAJob(env: Env, s: State, acts: seq<Action>, i: nat)
    ensures i in RunAll(env, Idle(s), acts).threads <==> JobOf(acts, i).Some?
  {
    if acts == [] {
    } else {
      EveryThreadHasAJob(env, s, acts[..|acts| - 1], i);
    }
  }

  // ---- mutual exclusion

  /** Each mutex is held by exactly the thread it names. */
  ghost predicate LocksOk(w: World) {
    && (forall i :: i in w.threads ==> (w.threads[i].locked ==> Needs(w.threads[i].pc) != NoLock))
    && (forall i :: i in w.threads ==> (HoldsSessions(w.threads[i]) <==> w.sessionLock == Some(i)))
    && (forall i :: i in w.threads ==> (HoldsStore(w.threads[i]) <==> w.storeLock == Some(i)))
    && (w.sessionLock.Some? ==> w.sessionLock.value in w.threads)
    && (w.storeLock.Some? ==> w.storeLock.value in w.threads)
  }

  /** The session lock is only ever carried on by the one that has it. */
  lemma WorkKeepsHold(env: Env, s: State, pc: Pc, c: Choice)
    ensures var next := Thread(Work(env, s, pc, c).2, false);
            HoldsSessions(next) ==> HoldsSessions(Thread(pc, Needs(pc) != NoLock))
  {
  }

  lemma AcquireKeepsLocks(w: World, i: nat)
    requires LocksOk(w) && CanGo(w, i) && Waits(w.threads[i])
    ensures LocksOk(Acquire(w, i))
  {
  }

  lemma PerformKeepsLocks(env: Env, w: World, i: nat, c: Choice)
    requires LocksOk(w) && CanGo(w, i) && !Waits(w.threads[i])
    ensures LocksOk(Perform(env, w, i, c))
  {
    WorkKeepsHold(env, w.s, w.threads[i].pc, c);
  }

  lemma ExecKeepsLocks(env: Env, w: World, a: Action)
    requires LocksOk(w)
    ensures LocksOk(Exec(env, w, a))
  {
    if Works(w, a) {
      PerformKeepsLocks(env, w, a.i, a.choice);
    } else if a.Go? && CanGo(w, a.i) {
      AcquireKeepsLocks(w, a.i);
    }
  }

  lemma {:induction false} LocksAreExclusive(env: Env, s: State, acts: seq<Action>)
    ensures LocksOk(RunAll(env, Idle(s), acts))
  {
    if acts == [] {
    } else {
      LocksAreExclusive(env, s, acts[..|acts| - 1]);
      ExecKeepsLocks(env, RunAll(env, Idle(s), acts[..|acts| - 1]), acts[|acts| - 1]);
    }
  }

  /** While one thread works under the session lock, what another one does
      leaves the sessions and the calls alone. */
  lemma LockKeepsOthersSilent(env: Env, w: World, i: nat, j: nat, c: Choice)
    requires LocksOk(w) && Works(w, Go(i, c))
    requires j in w.threads && j != i && KeepsSessions(w.threads[j].pc)
    ensures !TouchesSessions(w.threads[i].pc)
    ensures Work(env, w.s, w.threads[i].pc, c).0.sessions == w.s.sessions && Work(env, w.s, w.threads[i].pc, c).1 == []
  {
    var t := w.threads[i];
    assert TouchesSessions(t.pc) ==> HoldsSessions(t);
    OtherWorkIsSilent(env, w.s, t.pc, c);
  }

  // ---- no deadlock, no livelock

  predicate AllFinished(w: World) {
    forall i :: i in w.threads ==> w.threads[i].pc.Finished?
  }

  /** As long as some thread is unfinished, some thread can move: the session
      lock may be held while waiting for the store, never the reverse. */
  lemma SomeThreadCanGo(w: World) returns (i: nat)
    requires LocksOk(w) && !AllFinished(w)
    ensures CanGo(w, i)
  {
    if w.storeLock.Some? {
      i := w.storeLock.value;
    } else if w.sessionLock.Some? {
      i := w.sessionLock.value;
    } else {
      i :| i in w.threads && !w.threads[i].pc.Finished?;
    }
  }

  /** Pieces of work left, at most. */
  function PiecesLeft(pc: Pc): nat {
    match pc
    case Finished(_) => 0
    case Insert(_) => 1
    case BindOrder(_, _) => 1
    case MarkDownloaded(_, _) => 1
    case MoveOrder(_) => 1
    case CommandAdd(_) => 1
    case CommandSet(_) => 1
    case Prepare(_, _, _) => 2
    case Remember(_, _, _, _) => 2
    case Spend(_, _, _) => 2
    case Record(_, _) => 2
    case CommandReset(_) => 2
    case CallAuthenticate(_, _, _) => 3
    case CallPackage(_, _, _, _, _) => 3
    case FindOrder(_, _) => 3
    case Ask(_, _) => 4
    case ReadUpp(_, _, _, _) => 4
    case ReadNotification(_) => 4
    case Choose(_) => 5
    case Lookup(_, _) => 5
  }

  function MovesLeft(t: Thread): nat {
    2 * PiecesLeft(t.pc) + (if t.locked || t.pc.Finished? then 0 else 1)
  }

  function Total(threads: map<nat, Thread>, n: nat): nat {
    if n == 0 then 0
    else Total(threads, n - 1) + (if n - 1 in threads then MovesLeft(threads[n - 1]) else 0)
  }

  lemma {:induction false} TotalAfter(threads: map<nat, Thread>, i: nat, t: Thread, n: nat)
    requires i in threads
    ensures Total(threads[i := t], n)
         == if i < n then Total(threads, n) - MovesLeft(threads[i]) + MovesLeft(t) else Total(threads, n)
  {
    if n == 0 {
    } else {
      TotalAfter(threads, i, t, n - 1);
    }
  }

  lemma CallIsProgress(env: Env, s: State, pc: Pc, c: Choice)
    requires pc.CallAuthenticate? || pc.CallPackage?
    ensures PiecesLeft(Work(env, s, pc, c).2) < 3
  {
  }

  lemma FoundIsProgress(lib: Library, raw: Bytes, order: Option<Order>)
    ensures PiecesLeft(AfterLookup(lib, raw, order)) < 3
  {
  }

  lemma StartIsProgress(env: Env, s: State, pc: Pc, c: Choice)
    requires pc.Prepare? || pc.Choose? || pc.Ask?
    ensures PiecesLeft(Work(env, s, pc, c).2) < PiecesLeft(pc)
  {
  }

  lemma LookupIsProgress(env: Env, s: State, pc: Pc, c: Choice)
    requires pc.Lookup? || pc.ReadUpp?
    ensures PiecesLeft(Work(env, s, pc, c).2) < PiecesLeft(pc)
  {
  }

  lemma CommandIsProgress(env: Env, s: State, pc: Pc, c: Choice)
    requires pc.CommandAdd? || pc.CommandReset? || pc.CommandSet?
    ensures PiecesLeft(Work(env, s, pc, c).2) < PiecesLeft(pc)
  {
  }

  lemma WorkIsProgress(env: Env, s: State, pc: Pc, c: Choice)
    requires !pc.Finished?
    ensures PiecesLeft(Work(env, s, pc, c).2) < PiecesLeft(pc)
  {
    if pc.Prepare? || pc.Choose? || pc.Ask? {
      StartIsProgress(env, s, pc, c);
    } else if pc.CallAuthenticate? || pc.CallPackage? {
      CallIsProgress(env, s, pc, c);
    } else if pc.Lookup? || pc.ReadUpp? {
      LookupIsProgress(env, s, pc, c);
    } else if pc.ReadNotification? {
      FoundIsProgress(env.lib, pc.raw, None);
    } else if pc.FindOrder? {
      FoundIsProgress(env.lib, pc.raw, OneByIccid(s.orders, pc.iccid, c.pick));
    } else if pc.CommandAdd? || pc.CommandReset? || pc.CommandSet? {
      CommandIsProgress(env, s, pc, c);
    }
  }

  lemma MoveIsProgress(env: Env, w: World, i: nat, c: Choice)
    requires LocksOk(w) && CanGo(w, i)
    ensures var after := Exec(env, w, Go(i, c)).threads;
            && after.Keys == w.threads.Keys
            && after == w.threads[i := after[i]]
            && MovesLeft(after[i]) < MovesLeft(w.threads[i])
  {
    WorkIsProgress(env, w.s, w.threads[i].pc, c);
  }

  /** Moves of a run that were enabled. */
  function Moves(env: Env, w: World, acts: seq<Action>): nat {
    if acts == [] then 0
    else
      var before, a := RunAll(env, w, acts[..|acts| - 1]), acts[|acts| - 1];
      Moves(env, w, acts[..|acts| - 1]) + (if a.Go? && CanGo(before, a.i) then 1 else 0)
  }

  /** No livelock: without new requests, no schedule makes more moves than were
      left, whoever is scheduled. */
  lemma {:induction false} MovesAreBounded(env: Env, w: World, acts: seq<Action>, n: nat)
    requires LocksOk(w)
    requires forall k :: 0 <= k < |acts| ==> acts[k].Go? && acts[k].i < n
    ensures LocksOk(RunAll(env, w, acts))
    ensures Moves(env, w, acts) + Total(RunAll(env, w, acts).threads, n) <= Total(w.threads, n)
  {
    if acts == [] {
    } else {
      var before, a := RunAll(env, w, acts[..|acts| - 1]), acts[|acts| - 1];
      MovesAreBounded(env, w, acts[..|acts| - 1], n);
      ExecKeepsLocks(env, before, a);
      if CanGo(before, a.i) {
        MoveIsProgress(env, before, a.i, a.choice);
        TotalAfter(before.threads, a.i, Exec(env, before, a).threads[a.i], n);
      }
    }
  }

  /** No deadlock: every state of every run drains, whatever happened before.
      `n` bounds the thread names in use. */
  lemma {:induction false} EveryStateDrains(env: Env, w: World, c: Choice, n: nat) returns (moves: seq<Action>)
    requires LocksOk(w) && forall i :: i in w.threads ==> i < n
    ensures AllFinished(RunAll(env, w, moves))
    ensures |moves| <= Total(w.threads, n)
    ensures forall k :: 0 <= k < |moves| ==> moves[k].Go?
    decreases Total(w.threads, n)
  {
    if AllFinished(w) {
      moves := [];
    } else {
      var i := SomeThreadCanGo(w);
      var a := Go(i, c);
      var next := Exec(env, w, a);
      MoveIsProgress(env, w, i, c);
      TotalAfter(w.threads, i, next.threads[i], n);
      ExecKeepsLocks(env, w, a);
      var rest := EveryStateDrains(env, next, c, n);
      moves := [a] + rest;
      OneAction(env, w, a);
      RunAllTwice(env, w, [a], rest);
    }
  }
}
