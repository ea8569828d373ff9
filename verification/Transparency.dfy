/** Transparency, which the repository claims for one recorded session: what is
    served over the network is what the library returns when it is asked the
    same questions alone. Here for every schedule of any number of threads and
    commands, and every library. */
module Transparency {
  import opened Basics
  import opened Rsp
  import opened OrderStore
  import opened SessionTable
  import opened Protocol
  import opened OrderLife
  import opened Threads

  // ---- one session, replayed alone

  /** Every call on `id` since it was last opened. */
  function Since(trace: seq<Call>, id: Bytes): seq<Call> {
    if trace == [] then []
    else
      var before, e := trace[..|trace| - 1], trace[|trace| - 1];
      if e.id != id || e.Served? then Since(before, id)
      else if e.Opened? then [e]
      else Since(before, id) + [e]
  }

  /** A library session of its own: its state, the metadata of the latest
      accepted AuthenticateClient, and what the latest call returned. */
  datatype Solo = Solo(session: Session, metadata: Option<Bytes>, package: Option<Bytes>)

  /** The calls, made on a fresh library session with nothing else going on. */
  function Alone(lib: Library, calls: seq<Call>): Option<Solo> {
    if calls == [] then None
    else
      match calls[|calls| - 1]
      case Opened(_, input) =>
        (match Initiate(lib, input)
         case Err(_) => None
         case Ok((session, _)) => Some(Solo(session, None, None)))
      case AskedAuthenticate(_, resp, metadata) =>
        (match Alone(lib, calls[..|calls| - 1])
         case None => None
         case Some(x) =>
           var (session, r) := lib.authenticate(x.session, resp, metadata);
           Some(Solo(session, if r.code == 0 then Some(metadata) else x.metadata, None)))
      case AskedPackage(_, prepared, upp, otskDp) =>
        (match Alone(lib, calls[..|calls| - 1])
         case None => None
         case Some(x) =>
           var (session, r) := lib.boundPackage(x.session, prepared, upp, otskDp);
           Some(Solo(session, x.metadata, if r.code == 0 then Some(r.out) else None)))
      case Served(_, _, _) => Alone(lib, calls[..|calls| - 1])
  }

  lemma SinceAppended(trace: seq<Call>, e: Call, id: Bytes)
    ensures Since(trace + [e], id)
         == if e.id != id || e.Served? then Since(trace, id)
            else if e.Opened? then [e] else Since(trace, id) + [e]
  {
    assert (trace + [e])[..|trace|] == trace;
  }

  lemma {:induction false} SinceOfOthers(trace: seq<Call>, calls: seq<Call>, id: Bytes)
    requires forall n :: 0 <= n < |calls| ==> calls[n].id != id
    ensures Since(trace + calls, id) == Since(trace, id)
  {
    if calls == [] {
      assert trace + calls == trace;
    } else {
      SinceOfOthers(trace, calls[..|calls| - 1], id);
      SinceAppended(trace + calls[..|calls| - 1], calls[|calls| - 1], id);
      assert trace + calls == trace + calls[..|calls| - 1] + [calls[|calls| - 1]];
    }
  }

  /** One more question to a session that is being replayed. */
  lemma AskedOnceMore(trace: seq<Call>, e: Call, id: Bytes)
    requires e.id == id && (e.AskedAuthenticate? || e.AskedPackage?)
    ensures var calls := Since(trace + [e], id);
            calls != [] && calls[|calls| - 1] == e && calls[..|calls| - 1] == Since(trace, id)
  {
    SinceAppended(trace, e, id);
  }

  // ---- the claim

  /** `c`, served after `trace`: the octets are those of the replay, its last
      question was asked with the Profile of the order served, and the metadata
      it last accepted is that order's. */
  ghost predicate IsTransparent(lib: Library, orders: Orders, trace: seq<Call>, c: Call)
    requires c.Served?
  {
    var calls := Since(trace, c.id);
    var solo, order := Alone(lib, calls), Find(orders, c.order);
    && calls != [] && calls[|calls| - 1].AskedPackage?
    && solo.Some? && order.Some?
    && solo.value.package == Some(c.package)
    && calls[|calls| - 1].upp == order.value.upp
    && solo.value.metadata == Some(order.value.metadata)
  }

  ghost predicate AllTransparent(lib: Library, orders: Orders, trace: seq<Call>) {
    forall n :: 0 <= n < |trace| && trace[n].Served? ==> IsTransparent(lib, orders, trace[..n], trace[n])
  }

  // ---- the invariant

  /** A live session is what its own calls alone would have made of it. */
  ghost predicate Explained(lib: Library, s: State, trace: seq<Call>, id: Bytes)
    requires id in s.sessions
  {
    var solo, e := Alone(lib, Since(trace, id)), s.sessions[id];
    && solo.Some? && solo.value.session == e.session
    && match e.orderId
       case None => solo.value.metadata == None
       case Some(order) =>
         Find(s.orders, order).Some? && solo.value.metadata == Some(Find(s.orders, order).value.metadata)
  }

  ghost predicate AllExplained(lib: Library, s: State, trace: seq<Call>) {
    forall id :: id in s.sessions ==> Explained(lib, s, trace, id)
  }

  ghost predicate IsKnown(t: Orders, order: Order) {
    Find(t, order.id).Some? && SameProfile(order, Find(t, order.id).value)
  }

  ghost predicate IsHeld(t: Table, id: Bytes, e: Entry) {
    id in t && t[id] == e
  }

  /** What a thread carries in its local variables is still true. */
  ghost predicate LocalsOk(env: Env, s: State, trace: seq<Call>, pc: Pc) {
    match pc
    case Insert(o) => Initiate(env.lib, o.input).Ok? && Initiate(env.lib, o.input).value.0 == o.session
    case Ask(_, order) => IsKnown(s.orders, order)
    case CallAuthenticate(req, order, entry) =>
      IsKnown(s.orders, order) && IsHeld(s.sessions, req.transactionId, entry)
    case ReadUpp(req, _, entry, id) =>
      IsHeld(s.sessions, req.transactionId, entry) && entry.orderId == Some(id) && Find(s.orders, id).Some?
    case CallPackage(req, _, entry, id, upp) =>
      && IsHeld(s.sessions, req.transactionId, entry) && entry.orderId == Some(id)
      && Find(s.orders, id).Some? && Find(s.orders, id).value.upp == upp
    case Spend(req, id, bpp) =>
      && req.transactionId in s.sessions && s.sessions[req.transactionId].orderId == Some(id)
      && IsTransparent(env.lib, s.orders, trace, Served(req.transactionId, id, bpp))
    case MarkDownloaded(id, _) => Find(s.orders, id).Some?
    case Record(_, Some(m)) => Find(s.orders, m.order).Some?
    case MoveOrder(m) => Find(s.orders, m.order).Some?
    case _ => true
  }

  ghost predicate TransparencyOk(env: Env, w: World) {
    && WellKeyed(w.s.orders)
    && LocksOk(w)
    && (forall i :: i in w.threads ==> LocalsOk(env, w.s, w.trace, w.threads[i].pc))
    && AllExplained(env.lib, w.s, w.trace)
    && AllTransparent(env.lib, w.s.orders, w.trace)
  }

  // ---- pieces of work keep the Profiles

  lemma WorkKeepsKeys(env: Env, s: State, pc: Pc, c: Choice)
    requires WellKeyed(s.orders)
    ensures WellKeyed(Work(env, s, pc, c).0.orders)
  {
    WorkWrites(env, s, pc, c);
    WriteKeepsKeys(s.orders, WriteOf(pc));
  }

  ghost predicate KeepsProfiles(t: Orders, u: Orders) {
    forall id: int :: Find(t, id).Some? ==> Find(u, id).Some? && SameProfile(Find(t, id).value, Find(u, id).value)
  }

  lemma WorkKeepsProfiles(env: Env, s: State, pc: Pc, c: Choice)
    requires WellKeyed(s.orders)
    ensures KeepsProfiles(s.orders, Work(env, s, pc, c).0.orders)
  {
    WorkWrites(env, s, pc, c);
    forall id: int | Find(s.orders, id).Some?
      ensures Find(Written(s.orders, WriteOf(pc)), id).Some?
      ensures SameProfile(Find(s.orders, id).value, Find(Written(s.orders, WriteOf(pc)), id).value)
    {
      RowAfterWrite(s.orders, WriteOf(pc), id);
    }
  }

  // ---- pieces of work keep the sessions explained

  /** A session nobody touched. */
  lemma StaysExplained(lib: Library, s: State, trace: seq<Call>, s2: State, trace2: seq<Call>, id: Bytes)
    requires id in s.sessions && Explained(lib, s, trace, id)
    requires id in s2.sessions && s2.sessions[id] == s.sessions[id]
    requires Since(trace2, id) == Since(trace, id) && KeepsProfiles(s.orders, s2.orders)
    ensures Explained(lib, s2, trace2, id)
  {
  }

  lemma InsertExplains(env: Env, s: State, trace: seq<Call>, pc: Pc, c: Choice)
    requires pc.Insert? && LocalsOk(env, s, trace, pc) && AllExplained(env.lib, s, trace)
    ensures var (s2, calls, _) := Work(env, s, pc, c);
            AllExplained(env.lib, s2, trace + calls)
  {
    var (s2, calls, _) := Work(env, s, pc, c);
    forall id | id in s2.sessions
      ensures Explained(env.lib, s2, trace + calls, id)
    {
      SinceAppended(trace, calls[0], id);
    }
  }

  lemma CallAuthenticateExplainsItsOwn(env: Env, s: State, trace: seq<Call>, pc: Pc, c: Choice)
    requires pc.CallAuthenticate? && LocalsOk(env, s, trace, pc)
    requires Explained(env.lib, s, trace, pc.authenticate.transactionId)
    ensures var (s2, calls, _) := Work(env, s, pc, c);
            && |calls| == 1 && calls[0].id == pc.authenticate.transactionId && s2.orders == s.orders
            && s2.sessions == s.sessions[calls[0].id := s2.sessions[calls[0].id]]
            && Explained(env.lib, s2, trace + calls, calls[0].id)
  {
    AskedOnceMore(trace, Work(env, s, pc, c).1[0], pc.authenticate.transactionId);
  }

  lemma CallAuthenticateExplains(env: Env, s: State, trace: seq<Call>, pc: Pc, c: Choice)
    requires pc.CallAuthenticate? && LocalsOk(env, s, trace, pc) && AllExplained(env.lib, s, trace)
    ensures var (s2, calls, _) := Work(env, s, pc, c);
            AllExplained(env.lib, s2, trace + calls)
  {
    var (s2, calls, _) := Work(env, s, pc, c);
    CallAuthenticateExplainsItsOwn(env, s, trace, pc, c);
    OthersStayExplained(env, s, trace, s2, calls, calls[0].id);
  }

  /** The sessions a call on `k` did not touch. */
  lemma OthersStayExplained(env: Env, s: State, trace: seq<Call>, s2: State, calls: seq<Call>, k: Bytes)
    requires AllExplained(env.lib, s, trace) && s2.orders == s.orders
    requires forall n :: 0 <= n < |calls| ==> calls[n].id == k
    requires forall id :: id in s2.sessions && id != k ==> id in s.sessions && s2.sessions[id] == s.sessions[id]
    ensures forall id :: id in s2.sessions && id != k ==> Explained(env.lib, s2, trace + calls, id)
  {
    forall id | id in s2.sessions && id != k
      ensures Explained(env.lib, s2, trace + calls, id)
    {
      SinceOfOthers(trace, calls, id);
      StaysExplained(env.lib, s, trace, s2, trace + calls, id);
    }
  }

  /** The library call of GetBoundProfilePackage: made with the Profile of the
      order the session holds, and what it returns is what the replay returns. */
  lemma CallPackageServes(env: Env, s: State, trace: seq<Call>, pc: Pc, c: Choice)
    requires pc.CallPackage? && LocalsOk(env, s, trace, pc) && AllExplained(env.lib, s, trace)
    ensures var (s2, calls, next) := Work(env, s, pc, c);
            && calls == [AskedPackage(pc.package.transactionId, pc.package.prepareDownloadResponse, pc.upp, pc.otskDp)]
            && s2.orders == s.orders && pc.upp == Find(s.orders, pc.id).value.upp
            && pc.package.transactionId in s2.sessions
            && Explained(env.lib, s2, trace + calls, pc.package.transactionId)
            && LocalsOk(env, s2, trace + calls, next)
            && (next.Spend? ==>
                  && next.package == pc.package && next.id == pc.id
                  && IsTransparent(env.lib, s.orders, trace + calls,
                                   Served(pc.package.transactionId, pc.id, next.bpp)))
  {
    var k, calls := pc.package.transactionId, Work(env, s, pc, c).1;
    AskedOnceMore(trace, calls[0], k);
    assert Explained(env.lib, s, trace, k);
  }

  lemma CallPackageExplains(env: Env, s: State, trace: seq<Call>, pc: Pc, c: Choice)
    requires pc.CallPackage? && LocalsOk(env, s, trace, pc) && AllExplained(env.lib, s, trace)
    ensures var (s2, calls, _) := Work(env, s, pc, c);
            AllExplained(env.lib, s2, trace + calls)
  {
    var (s2, calls, _) := Work(env, s, pc, c);
    CallPackageServes(env, s, trace, pc, c);
    OthersStayExplained(env, s, trace, s2, calls, pc.package.transactionId);
  }

  lemma SpendExplains(env: Env, s: State, trace: seq<Call>, pc: Pc, c: Choice)
    requires pc.Spend? && AllExplained(env.lib, s, trace)
    ensures var (s2, calls, _) := Work(env, s, pc, c);
            AllExplained(env.lib, s2, trace + calls)
  {
    var (s2, calls, _) := Work(env, s, pc, c);
    OthersStayExplained(env, s, trace, s2, calls, pc.package.transactionId);
  }

  lemma WorkExplains(env: Env, s: State, trace: seq<Call>, pc: Pc, c: Choice)
    requires WellKeyed(s.orders) && LocalsOk(env, s, trace, pc) && AllExplained(env.lib, s, trace)
    ensures var (s2, calls, _) := Work(env, s, pc, c);
            AllExplained(env.lib, s2, trace + calls)
  {
    if pc.Insert? {
      InsertExplains(env, s, trace, pc, c);
    } else if pc.CallAuthenticate? {
      CallAuthenticateExplains(env, s, trace, pc, c);
    } else if pc.CallPackage? {
      CallPackageExplains(env, s, trace, pc, c);
    } else if pc.Spend? {
      SpendExplains(env, s, trace, pc, c);
    } else {
      var s2 := Work(env, s, pc, c).0;
      OtherWorkIsSilent(env, s, pc, c);
      WorkKeepsProfiles(env, s, pc, c);
      assert trace + [] == trace;
      forall id | id in s2.sessions
        ensures Explained(env.lib, s2, trace, id)
      {
        StaysExplained(env.lib, s, trace, s2, trace, id);
      }
    }
  }

  lemma OnlySpendServes(env: Env, s: State, pc: Pc, c: Choice)
    ensures |Work(env, s, pc, c).1| <= 1
    ensures forall n :: 0 <= n < |Work(env, s, pc, c).1| && Work(env, s, pc, c).1[n].Served? ==>
              && pc.Spend?
              && Work(env, s, pc, c).1[n] == Served(pc.package.transactionId, pc.id, pc.bpp)
  {
  }

  lemma OldOnesStayTransparent(lib: Library, t: Orders, u: Orders, trace: seq<Call>, calls: seq<Call>)
    requires AllTransparent(lib, t, trace) && KeepsProfiles(t, u)
    ensures forall n :: 0 <= n < |trace| && trace[n].Served? ==>
              IsTransparent(lib, u, (trace + calls)[..n], (trace + calls)[n])
  {
    forall n | 0 <= n < |trace| && trace[n].Served?
      ensures IsTransparent(lib, u, (trace + calls)[..n], (trace + calls)[n])
    {
      assert (trace + calls)[..n] == trace[..n];
      assert IsTransparent(lib, t, trace[..n], trace[n]);
    }
  }

  lemma WorkIsTransparent(env: Env, s: State, trace: seq<Call>, pc: Pc, c: Choice)
    requires WellKeyed(s.orders) && LocalsOk(env, s, trace, pc)
    requires AllTransparent(env.lib, s.orders, trace)
    ensures var (s2, calls, _) := Work(env, s, pc, c);
            AllTransparent(env.lib, s2.orders, trace + calls)
  {
    var (s2, calls, _) := Work(env, s, pc, c);
    WorkKeepsProfiles(env, s, pc, c);
    OldOnesStayTransparent(env.lib, s.orders, s2.orders, trace, calls);
    OnlySpendServes(env, s, pc, c);
    assert (trace + calls)[..|trace|] == trace;
  }

  // ---- pieces of work keep the local variables true

  /** Up to the library call of AuthenticateClient. */
  lemma AskSetsLocals(env: Env, s: State, trace: seq<Call>, pc: Pc, c: Choice)
    requires (pc.Choose? || pc.Ask? || pc.CallAuthenticate?) && Ascending(s.orders) && LocalsOk(env, s, trace, pc)
    ensures var (s2, calls, next) := Work(env, s, pc, c);
            LocalsOk(env, s2, trace + calls, next)
  {
    if pc.Choose? && ChooseOrder(s.orders).Ok? {
      ChosenOrderIsTheOnlyOffer(s.orders);
    }
  }

  lemma LookupSetsLocals(env: Env, s: State, trace: seq<Call>, pc: Pc, c: Choice)
    requires pc.Lookup? && AllExplained(env.lib, s, trace)
    ensures var (s2, calls, next) := Work(env, s, pc, c);
            LocalsOk(env, s2, trace + calls, next)
  {
    if SessionOrder(s.sessions, pc.package.transactionId).Ok? {
      assert Explained(env.lib, s, trace, pc.package.transactionId);
    }
  }

  lemma FindOrderSetsLocals(env: Env, s: State, trace: seq<Call>, pc: Pc, c: Choice)
    requires pc.FindOrder? && Ascending(s.orders)
    ensures var (s2, calls, next) := Work(env, s, pc, c);
            LocalsOk(env, s2, trace + calls, next)
  {
    var order := OneByIccid(s.orders, pc.iccid, c.pick);
    if order.Some? {
      FindsEveryRow(s.orders, order.value);
    }
  }

  lemma WorkSetsLocals(env: Env, s: State, trace: seq<Call>, pc: Pc, c: Choice)
    requires WellKeyed(s.orders) && LocalsOk(env, s, trace, pc) && AllExplained(env.lib, s, trace)
    ensures var (s2, calls, next) := Work(env, s, pc, c);
            LocalsOk(env, s2, trace + calls, next)
  {
    if pc.Choose? || pc.Ask? || pc.CallAuthenticate? {
      AskSetsLocals(env, s, trace, pc, c);
    } else if pc.Lookup? {
      LookupSetsLocals(env, s, trace, pc, c);
    } else if pc.CallPackage? {
      CallPackageServes(env, s, trace, pc, c);
    } else if pc.FindOrder? {
      FindOrderSetsLocals(env, s, trace, pc, c);
    }
  }

  /** The locals of another thread: either they are about Profiles only, or that
      thread has the session lock and nobody else touches the sessions. */
  lemma OthersKeepLocals(env: Env, s: State, trace: seq<Call>, pc: Pc, c: Choice, other: Pc)
    requires WellKeyed(s.orders) && LocalsOk(env, s, trace, other)
    requires KeepsSessions(other) ==> !TouchesSessions(pc)
    ensures LocalsOk(env, Work(env, s, pc, c).0, trace + Work(env, s, pc, c).1, other)
  {
    WorkKeepsProfiles(env, s, pc, c);
    if KeepsSessions(other) {
      OtherWorkIsSilent(env, s, pc, c);
      assert trace + [] == trace;
    }
  }

  lemma PerformKeepsTransparency(env: Env, w: World, i: nat, c: Choice)
    requires TransparencyOk(env, w) && Works(w, Go(i, c))
    ensures TransparencyOk(env, Perform(env, w, i, c))
  {
    var pc, after := w.threads[i].pc, Perform(env, w, i, c);
    ExecKeepsLocks(env, w, Go(i, c));
    WorkKeepsKeys(env, w.s, pc, c);
    WorkExplains(env, w.s, w.trace, pc, c);
    WorkIsTransparent(env, w.s, w.trace, pc, c);
    WorkSetsLocals(env, w.s, w.trace, pc, c);
    forall j | j in after.threads
      ensures LocalsOk(env, after.s, after.trace, after.threads[j].pc)
    {
      if j != i {
        if KeepsSessions(w.threads[j].pc) {
          LockKeepsOthersSilent(env, w, i, j, c);
        }
        OthersKeepLocals(env, w.s, w.trace, pc, c, w.threads[j].pc);
      }
    }
  }

  lemma UndisturbedKeepsTransparency(env: Env, w: World, after: World)
    requires TransparencyOk(env, w) && Undisturbed(w, after) && LocksOk(after)
    ensures TransparencyOk(env, after)
  {
  }

  lemma ExecKeepsTransparency(env: Env, w: World, a: Action)
    requires TransparencyOk(env, w)
    ensures TransparencyOk(env, Exec(env, w, a))
  {
    if Works(w, a) {
      PerformKeepsTransparency(env, w, a.i, a.choice);
    } else {
      ExecKeepsLocks(env, w, a);
      OtherActionsAreIdle(env, w, a);
      UndisturbedKeepsTransparency(env, w, Exec(env, w, a));
    }
  }

  lemma {:induction false} RunKeepsTransparency(env: Env, w: World, acts: seq<Action>)
    requires TransparencyOk(env, w)
    ensures TransparencyOk(env, RunAll(env, w, acts))
  {
    if acts == [] {
    } else {
      RunKeepsTransparency(env, w, acts[..|acts| - 1]);
      ExecKeepsTransparency(env, RunAll(env, w, acts[..|acts| - 1]), acts[|acts| - 1]);
    }
  }

  /** Every package any thread ever serves, under every schedule, is octet for
      octet what the same calls yield alone on a fresh library session; the
      Profile it was made from and the metadata the eUICC accepted belong to
      one order, the one served. */
  lemma EveryPackageIsTransparent(env: Env, s: State, acts: seq<Action>, n: nat)
    requires WellKeyed(s.orders) && s.sessions == map[]
    requires n < |RunAll(env, Idle(s), acts).trace| && RunAll(env, Idle(s), acts).trace[n].Served?
    ensures var w := RunAll(env, Idle(s), acts);
            IsTransparent(env.lib, w.s.orders, w.trace[..n], w.trace[n])
  {
    RunKeepsTransparency(env, Idle(s), acts);
  }

  /** And no order that existed was lost or given another Profile meanwhile. */
  lemma {:induction false} SchedulesKeepProfiles(env: Env, w: World, acts: seq<Action>, id: int)
    requires WellKeyed(w.s.orders) && Find(w.s.orders, id).Some?
    ensures WellKeyed(RunAll(env, w, acts).s.orders)
    ensures Find(RunAll(env, w, acts).s.orders, id).Some?
    ensures SameProfile(Find(w.s.orders, id).value, Find(RunAll(env, w, acts).s.orders, id).value)
  {
    if acts == [] {
    } else {
      var before, a := RunAll(env, w, acts[..|acts| - 1]), acts[|acts| - 1];
      SchedulesKeepProfiles(env, w, acts[..|acts| - 1], id);
      if Works(before, a) {
        WorkKeepsKeys(env, before.s, before.threads[a.i].pc, a.choice);
        WorkKeepsProfiles(env, before.s, before.threads[a.i].pc, a.choice);
      }
    }
  }
}
