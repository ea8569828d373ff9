/** The atomic handlers of `Es9` are schedules of `Threads`: a thread that runs
    with nothing in between does exactly what `Step` says. So whatever holds
    under every schedule holds of every atomic run. */
module Simulation {
  import opened Basics
  import opened OrderStore
  import opened Protocol
  import opened Es9
  import opened Threads
  import opened ClosedRegion

  // ---- what an atomic step asks the library for a session, and what it serves

  function CallsBy(env: Env, s: State, e: Event): seq<Call> {
    match e
    case InitiateAuthentication(req, id, challenge, _, _) =>
      (match OpenSession(env, req, id, challenge)
       case Err(_) => []
       case Ok(o) => [Opened(id, o.input)])
    case AuthenticateClient(req) =>
      if ChooseOrder(s.orders).Err? || req.transactionId !in s.sessions then []
      else [AskedAuthenticate(req.transactionId, req.authenticateServerResponse, ChooseOrder(s.orders).value.metadata)]
    case GetBoundProfilePackage(req, otskDp) =>
      (match SessionOrder(s.sessions, req.transactionId)
       case Err(_) => []
       case Ok(id) =>
         match UppOf(s.orders, id)
         case Err(_) => []
         case Ok(upp) =>
           [AskedPackage(req.transactionId, req.prepareDownloadResponse, upp, otskDp)]
           + match Step(env, s, e).1
             case Package(_, bpp) => [Served(req.transactionId, id, bpp)]
             case _ => [])
    case _ => []
  }

  /** All calls of an atomic run, and the number of the request that made each. */
  function TraceOf(env: Env, s: State, es: seq<Event>): seq<Call> {
    if es == [] then []
    else
      var before := es[..|es| - 1];
      TraceOf(env, s, before) + CallsBy(env, Run(env, s, before), es[|es| - 1])
  }

  function CallersOf(env: Env, s: State, es: seq<Event>): seq<nat> {
    if es == [] then []
    else
      var n := |es| - 1;
      CallersOf(env, s, es[..n]) + seq(|CallsBy(env, Run(env, s, es[..n]), es[n])|, _ => n)
  }

  // ---- a thread on its own

  /** All the work from `pc` on, with nothing in between. */
  function WorkOut(env: Env, s: State, pc: Pc, c: Choice): (State, seq<Call>, Answer)
    decreases PiecesLeft(pc)
  {
    if pc.Finished? then (s, [], pc.answer)
    else
      WorkIsProgress(env, s, pc, c);
      var (s2, calls, next) := Work(env, s, pc, c);
      var (s3, more, a) := WorkOut(env, s2, next, c);
      (s3, calls + more, a)
  }

  function ChoiceOf(e: Event): Choice {
    match e
    case InitiateAuthentication(_, _, _, sweepAt, bornAt) => Choice(sweepAt, bornAt, 0)
    case HandleNotification(_, pick) => Choice(0, 0, pick)
    case _ => Choice(0, 0, 0)
  }

  /** The event that chooses so. */
  function WithChoice(e: Event, c: Choice): Event {
    match e
    case InitiateAuthentication(_, _, _, _, _) => e.(sweepAt := c.sweepAt, bornAt := c.bornAt)
    case HandleNotification(_, _) => e.(pick := c.pick)
    case _ => e
  }

  /** What `Step` and `CallsBy` say of a request together. */
  function Outcome(env: Env, s: State, e: Event): (State, seq<Call>, Answer) {
    var (s2, a) := Step(env, s, e);
    (s2, CallsBy(env, s, e), a)
  }

  lemma WorkOutOnce(env: Env, s: State, pc: Pc, c: Choice)
    requires !pc.Finished?
    ensures var (s2, calls, next) := Work(env, s, pc, c);
            var (s3, more, a) := WorkOut(env, s2, next, c);
            && WorkOut(env, s, pc, c) == (s3, calls + more, a)
            && (calls == [] ==> calls + more == more) && (more == [] ==> calls + more == calls)
            && (next.Finished? ==> WorkOut(env, s, pc, c) == (s2, calls, next.answer))
  {
    var (s2, calls, next) := Work(env, s, pc, c);
    WorkIsProgress(env, s, pc, c);
    assert calls + [] == calls;
    assert [] + WorkOut(env, s2, next, c).1 == WorkOut(env, s2, next, c).1;
  }

  lemma InitiateWorksOut(env: Env, s: State, e: Event, c: Choice)
    requires e.InitiateAuthentication?
    ensures WorkOut(env, s, StartOf(e), c) == Outcome(env, s, WithChoice(e, c))
  {
    var opening := OpenSession(env, e.initiate, e.nonceId, e.serverChallenge);
    WorkOutOnce(env, s, StartOf(e), c);
    if opening.Ok? {
      WorkOutOnce(env, s, Insert(opening.value), c);
    }
  }

  /** From the grant on. */
  lemma BindingWorksOut(env: Env, s: State, req: AuthenticateRequest, order: Order, g: Grant, c: Choice)
    ensures WorkOut(env, s, AfterAsk(env.lib, req, order, Ok(g)), c)
         == match AuthenticateBody(env.lib, req, g)
            case Err(a) => (s, [], a)
            case Ok(body) =>
              (s.(orders := WithState(Remembered(s.orders, order.id, g.eid, g.euiccCert), order.id, Bound)), [], body)
  {
    var pc := AfterAsk(env.lib, req, order, Ok(g));
    if pc.Remember? {
      WorkOutOnce(env, s, pc, c);
      WorkOutOnce(env, Work(env, s, pc, c).0, BindOrder(pc.id, pc.body), c);
    } else if pc.BindOrder? {
      WorkOutOnce(env, s, pc, c);
    }
  }

  lemma AuthenticateWorksOut(env: Env, s: State, e: Event, c: Choice)
    requires e.AuthenticateClient?
    ensures WorkOut(env, s, StartOf(e), c) == Outcome(env, s, WithChoice(e, c))
  {
    var id := e.authenticate.transactionId;
    WorkOutOnce(env, s, StartOf(e), c);
    if ChooseOrder(s.orders).Ok? {
      var order := ChooseOrder(s.orders).value;
      WorkOutOnce(env, s, Ask(e.authenticate, order), c);
      if id in s.sessions {
        var call := CallAuthenticate(e.authenticate, order, s.sessions[id]);
        var (entry, granted) := AuthenticateEntry(env.lib, s.sessions[id], e.authenticate, order);
        WorkOutOnce(env, s, call, c);
        if granted.Ok? {
          BindingWorksOut(env, s.(sessions := s.sessions[id := entry]), e.authenticate, order, granted.value, c);
        }
      }
    }
  }

  lemma ServingWorksOut(env: Env, s: State, req: PackageRequest, id: int, bpp: Bytes, c: Choice)
    ensures WorkOut(env, s, Spend(req, id, bpp), c)
         == (s.(sessions := s.sessions - {req.transactionId}, orders := WithState(s.orders, id, Downloaded)),
             [Served(req.transactionId, id, bpp)],
             Package(req.transactionId, bpp))
  {
    var spend := Spend(req, id, bpp);
    WorkOutOnce(env, s, spend, c);
    WorkOutOnce(env, Work(env, s, spend, c).0, MarkDownloaded(id, Package(req.transactionId, bpp)), c);
  }

  lemma PackageWorksOut(env: Env, s: State, e: Event, id: int, upp: Bytes, c: Choice)
    requires e.GetBoundProfilePackage?
    requires SessionOrder(s.sessions, e.package.transactionId) == Ok(id) && UppOf(s.orders, id) == Ok(upp)
    ensures var call := CallPackage(e.package, e.otskDp, s.sessions[e.package.transactionId], id, upp);
            WorkOut(env, s, call, c) == Outcome(env, s, e)
  {
    var tid := e.package.transactionId;
    var call := CallPackage(e.package, e.otskDp, s.sessions[tid], id, upp);
    var (s2, _, next) := Work(env, s, call, c);
    WorkOutOnce(env, s, call, c);
    if next.Spend? {
      ServingWorksOut(env, s2, e.package, id, next.bpp, c);
      assert s2.sessions - {tid} == s.sessions - {tid};
    }
  }

  lemma GetPackageWorksOut(env: Env, s: State, e: Event, c: Choice)
    requires e.GetBoundProfilePackage?
    ensures WorkOut(env, s, StartOf(e), c) == Outcome(env, s, WithChoice(e, c))
  {
    var held := SessionOrder(s.sessions, e.package.transactionId);
    WorkOutOnce(env, s, StartOf(e), c);
    if held.Ok? {
      WorkOutOnce(env, s, ReadUpp(e.package, e.otskDp, s.sessions[e.package.transactionId], held.value), c);
      if UppOf(s.orders, held.value).Ok? {
        PackageWorksOut(env, s, e, held.value, UppOf(s.orders, held.value).value, c);
      }
    }
  }

  /** A notification for which this order was found. */
  function Keeping(env: Env, s: State, raw: Bytes, order: Option<Order>): (State, seq<Call>, Answer) {
    (s.(notifications := Kept(s.notifications, RowToKeep(env.lib, raw, order)),
        orders := Moved(s.orders, MoveToMake(env.lib, raw, order))),
     [], NoContent)
  }

  lemma KeepingWorksOut(env: Env, s: State, raw: Bytes, order: Option<Order>, c: Choice)
    ensures WorkOut(env, s, AfterLookup(env.lib, raw, order), c) == Keeping(env, s, raw, order)
  {
    var next := AfterLookup(env.lib, raw, order);
    if next.Record? {
      var (s2, _, last) := Work(env, s, next, c);
      WorkOutOnce(env, s, next, c);
      if last.MoveOrder? {
        WorkOutOnce(env, s2, last, c);
      }
    }
  }

  lemma FindingWorksOut(env: Env, s: State, raw: Bytes, iccid: Bytes10, c: Choice)
    ensures WorkOut(env, s, FindOrder(raw, iccid), c) == Keeping(env, s, raw, OneByIccid(s.orders, iccid, c.pick))
  {
    WorkOutOnce(env, s, FindOrder(raw, iccid), c);
    KeepingWorksOut(env, s, raw, OneByIccid(s.orders, iccid, c.pick), c);
  }

  lemma ReadingWorksOut(env: Env, s: State, raw: Bytes, c: Choice)
    ensures WorkOut(env, s, ReadNotification(raw), c)
         == Keeping(env, s, raw, ClaimedOrder(env.lib, s.orders, raw, c.pick))
  {
    var iccid := ClaimedIccid(env.lib, raw);
    WorkOutOnce(env, s, ReadNotification(raw), c);
    if iccid.Some? {
      FindingWorksOut(env, s, raw, iccid.value, c);
    } else {
      KeepingWorksOut(env, s, raw, None, c);
    }
  }

  lemma NotificationWorksOut(env: Env, s: State, e: Event, c: Choice)
    requires e.HandleNotification?
    ensures WorkOut(env, s, StartOf(e), c) == Outcome(env, s, WithChoice(e, c))
  {
    ReadingWorksOut(env, s, e.raw, c);
    assert Keeping(env, s, e.raw, ClaimedOrder(env.lib, s.orders, e.raw, c.pick)) == Outcome(env, s, WithChoice(e, c));
  }

  lemma AddIsOnePiece(env: Env, s: State, e: Event, c: Choice)
    requires e.OrderAdd?
    ensures Work(env, s, StartOf(e), c) == (Step(env, s, e).0, [], Finished(Step(env, s, e).1))
  {
  }

  lemma AddWorksOut(env: Env, s: State, e: Event, c: Choice)
    requires e.OrderAdd?
    ensures WorkOut(env, s, StartOf(e), c) == Outcome(env, s, WithChoice(e, c))
  {
    AddIsOnePiece(env, s, e, c);
    WorkOutOnce(env, s, StartOf(e), c);
  }

  lemma ResetWorksOut(env: Env, s: State, e: Event, c: Choice)
    requires e.OrderReset?
    ensures WorkOut(env, s, StartOf(e), c) == Outcome(env, s, WithChoice(e, c))
  {
    WorkOutOnce(env, s, StartOf(e), c);
    if Find(s.orders, e.id).Some? {
      WorkOutOnce(env, s, CommandSet(e.id), c);
    }
  }

  /** A handler's pieces of work, run back to back, are the atomic step, whatever
      is chosen on the way. */
  lemma WorkedOutIsStep(env: Env, s: State, e: Event, c: Choice)
    ensures WorkOut(env, s, StartOf(e), c)
         == (Step(env, s, WithChoice(e, c)).0, CallsBy(env, s, WithChoice(e, c)), Step(env, s, WithChoice(e, c)).1)
  {
    match e
    case InitiateAuthentication(_, _, _, _, _) => InitiateWorksOut(env, s, e, c);
    case AuthenticateClient(_) => AuthenticateWorksOut(env, s, e, c);
    case GetBoundProfilePackage(_, _) => GetPackageWorksOut(env, s, e, c);
    case HandleNotification(_, _) => NotificationWorksOut(env, s, e, c);
    case OrderAdd(_) => AddWorksOut(env, s, e, c);
    case OrderReset(_) => ResetWorksOut(env, s, e, c);
  }

  // ---- as a schedule

  /** `w` with thread `i` at `pc` and nobody else holding a lock. */
  function At(w: World, i: nat, pc: Pc): World {
    var t := Thread(pc, false);
    w.(threads := w.threads[i := t], sessionLock := if HoldsSessions(t) then Some(i) else None, storeLock := None)
  }

  /** `w` after thread `i` made these calls and left the shared state `s`. */
  function Past(w: World, i: nat, s: State, calls: seq<Call>): World {
    w.(s := s, trace := w.trace + calls, callers := w.callers + seq(|calls|, _ => i))
  }

  lemma PastTwice(w: World, i: nat, s: State, calls: seq<Call>, s2: State, more: seq<Call>)
    ensures Past(Past(w, i, s, calls), i, s2, more) == Past(w, i, s2, calls + more)
  {
    assert w.trace + calls + more == w.trace + (calls + more);
    assert w.callers + seq(|calls|, _ => i) + seq(|more|, _ => i) == w.callers + seq(|calls + more|, _ => i);
  }

  predicate IsTurnOf(acts: seq<Action>, i: nat) {
    forall k :: 0 <= k < |acts| ==> acts[k].Go? && acts[k].i == i
  }

  /** The same, with the lock `pc` needs taken. */
  function Locked(w: World, i: nat, pc: Pc): World {
    w.(threads := w.threads[i := Thread(pc, true)],
       sessionLock := if Needs(pc) == SessionLock || KeepsSessions(pc) then Some(i) else None,
       storeLock := if Needs(pc) == StoreLock then Some(i) else None)
  }

  lemma TakingTheLock(env: Env, w: World, i: nat, pc: Pc, c: Choice)
    requires Needs(pc) != NoLock
    ensures Exec(env, At(w, i, pc), Go(i, c)) == Locked(w, i, pc)
  {
    var threads: map<nat, Thread> := w.threads;
    assert threads[i := Thread(pc, false)][i := Thread(pc, true)] == threads[i := Thread(pc, true)];
  }

  lemma DoingTheWork(env: Env, w: World, i: nat, pc: Pc, c: Choice)
    requires !pc.Finished?
    ensures var before := if Needs(pc) == NoLock then At(w, i, pc) else Locked(w, i, pc);
            var (s2, calls, next) := Work(env, w.s, pc, c);
            Exec(env, before, Go(i, c)) == At(Past(w, i, s2, calls), i, next)
  {
    var before := if Needs(pc) == NoLock then At(w, i, pc) else Locked(w, i, pc);
    var next := Work(env, w.s, pc, c).2;
    var threads: map<nat, Thread> := w.threads;
    WorkKeepsHold(env, w.s, pc, c);
    assert !Waits(before.threads[i]);
    assert threads[i := before.threads[i]][i := Thread(next, false)] == threads[i := Thread(next, false)];
  }

  /** One piece of work, as a schedule. */
  lemma Turn(env: Env, w: World, i: nat, pc: Pc, c: Choice) returns (acts: seq<Action>)
    requires !pc.Finished?
    ensures IsTurnOf(acts, i)
    ensures var (s2, calls, next) := Work(env, w.s, pc, c);
            RunAll(env, At(w, i, pc), acts) == At(Past(w, i, s2, calls), i, next)
  {
    var go := Go(i, c);
    DoingTheWork(env, w, i, pc, c);
    if Needs(pc) != NoLock {
      TakingTheLock(env, w, i, pc, c);
    }
    OneAction(env, At(w, i, pc), go);
    TwoActions(env, At(w, i, pc), go);
    acts := if Needs(pc) == NoLock then [go] else [go, go];
  }

  /** All the work from `pc` on, as a schedule. */
  lemma {:induction false} RunsAlone(env: Env, w: World, i: nat, pc: Pc, c: Choice) returns (acts: seq<Action>)
    ensures IsTurnOf(acts, i)
    ensures var (s2, calls, a) := WorkOut(env, w.s, pc, c);
            RunAll(env, At(w, i, pc), acts) == At(Past(w, i, s2, calls), i, Finished(a))
    decreases PiecesLeft(pc)
  {
    if pc.Finished? {
      acts := [];
      assert Past(w, i, w.s, []) == w;
    } else {
      WorkIsProgress(env, w.s, pc, c);
      WorkOutOnce(env, w.s, pc, c);
      var (s2, calls, next) := Work(env, w.s, pc, c);
      var (s3, more, a) := WorkOut(env, s2, next, c);
      var first := Turn(env, w, i, pc, c);
      var rest := RunsAlone(env, Past(w, i, s2, calls), i, next, c);
      acts := first + rest;
      RunAllTwice(env, At(w, i, pc), first, rest);
      PastTwice(w, i, s2, calls, s3, more);
    }
  }

  /** No lock is held. */
  predicate Quiet(w: World) {
    w.sessionLock.None? && w.storeLock.None?
  }

  lemma Starting(env: Env, w: World, i: nat, e: Event)
    requires Quiet(w) && i !in w.threads
    ensures RunAll(env, w, [Spawn(i, e)]) == At(w, i, StartOf(e))
    ensures NobodyBusy(w) || e.OrderAdd? || e.OrderReset? ==> SingleThreaded(env, w, [Spawn(i, e)])
  {
    OneAction(env, w, Spawn(i, e));
  }

  /** A turn brings no request. */
  lemma TurnsAreSingleThreaded(env: Env, w: World, acts: seq<Action>, turns: seq<Action>, i: nat)
    requires SingleThreaded(env, w, acts) && IsTurnOf(turns, i)
    ensures SingleThreaded(env, w, acts + turns)
  {
    SingleThreadedTwice(env, w, acts, turns);
  }

  /** An atomic step is a schedule: the request arrives, and its thread goes
      until it has answered. */
  lemma AtomicStepIsASchedule(env: Env, w: World, i: nat, e: Event) returns (acts: seq<Action>)
    requires Quiet(w) && i !in w.threads
    ensures var (s2, a) := Step(env, w.s, e);
            RunAll(env, w, acts) == At(Past(w, i, s2, CallsBy(env, w.s, e)), i, Finished(a))
    ensures acts != [] && acts[0] == Spawn(i, e) && IsTurnOf(acts[1..], i)
    ensures NobodyBusy(w) || e.OrderAdd? || e.OrderReset? ==> SingleThreaded(env, w, acts)
  {
    WorkedOutIsStep(env, w.s, e, ChoiceOf(e));
    assert WithChoice(e, ChoiceOf(e)) == e;
    Starting(env, w, i, e);
    var rest := RunsAlone(env, w, i, StartOf(e), ChoiceOf(e));
    RunAllTwice(env, w, [Spawn(i, e)], rest);
    if SingleThreaded(env, w, [Spawn(i, e)]) {
      TurnsAreSingleThreaded(env, w, [Spawn(i, e)], rest, i);
    }
    acts := [Spawn(i, e)] + rest;
  }

  /** The threads an atomic run leaves behind: one per request, answered. */
  function Answered(env: Env, s: State, es: seq<Event>): map<nat, Thread> {
    if es == [] then map[]
    else
      var n := |es| - 1;
      Answered(env, s, es[..n])[n := Thread(Finished(Step(env, Run(env, s, es[..n]), es[n]).1), false)]
  }

  lemma {:induction false} AnsweredAsTheStepsDo(env: Env, s: State, es: seq<Event>, k: nat)
    ensures k in Answered(env, s, es) <==> k < |es|
    ensures k < |es| ==> Answered(env, s, es)[k] == Thread(Finished(AnswerTo(env, s, es, k)), false)
  {
    if es == [] {
    } else {
      AnsweredAsTheStepsDo(env, s, es[..|es| - 1], k);
      if k < |es| - 1 {
        assert es[..|es| - 1][..k] == es[..k];
      }
    }
  }

  /** What an atomic run leaves behind. */
  function Ended(env: Env, s: State, es: seq<Event>): World {
    World(Run(env, s, es), None, None, Answered(env, s, es), TraceOf(env, s, es), CallersOf(env, s, es))
  }

  lemma AllAnswered(env: Env, s: State, es: seq<Event>)
    ensures NobodyBusy(Ended(env, s, es)) && Quiet(Ended(env, s, es))
  {
    forall k | k in Answered(env, s, es)
      ensures !Busy(Answered(env, s, es)[k])
    {
      AnsweredAsTheStepsDo(env, s, es, k);
    }
  }

  /** Every atomic run is a schedule of one server thread: same state, same
      calls, and every request answered as the atomic step answers it. */
  lemma {:induction false} AtomicRunIsASchedule(env: Env, s: State, es: seq<Event>) returns (acts: seq<Action>)
    ensures RunAll(env, Idle(s), acts) == Ended(env, s, es)
    ensures SingleThreaded(env, Idle(s), acts)
  {
    if es == [] {
      acts := [];
    } else {
      var n := |es| - 1;
      var w := Ended(env, s, es[..n]);
      var first := AtomicRunIsASchedule(env, s, es[..n]);
      AnsweredAsTheStepsDo(env, s, es[..n], n);
      AllAnswered(env, s, es[..n]);
      var next := AtomicStepIsASchedule(env, w, n, es[n]);
      RunAllTwice(env, Idle(s), first, next);
      SingleThreadedTwice(env, Idle(s), first, next);
      acts := first + next;
    }
  }
}
