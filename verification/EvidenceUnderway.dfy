/** The evidence of `Evidence`, with commands between the server's individual
    store operations (crates/smdp/src/server/es9.rs:203-228, 317-353). Between
    the library call of AuthenticateClient and the write that remembers the
    eUICC a session holds an order without evidence; the thread that will write
    it is the only one the server has. */
module EvidenceUnderway {
  import opened Basics
  import opened OrderStore
  import opened Protocol
  import opened Threads
  import opened Transparency
  import opened ClosedRegion
  import opened Evidence

  ghost predicate IsRemembered(t: Orders, id: int) {
    Find(t, id).Some? && HasEvidence(Find(t, id).value)
  }

  predicate WillRemember(pc: Pc, id: int) {
    pc.Remember? && pc.id == id
  }

  /** What a thread still works on has its evidence, unless this thread is the
      one to write it. */
  ghost predicate CarriesEvidence(t: Orders, pc: Pc) {
    match pc
    case BindOrder(id, _) => IsRemembered(t, id)
    case ReadUpp(_, _, _, id) => IsRemembered(t, id)
    case CallPackage(_, _, _, id, _) => IsRemembered(t, id)
    case Spend(_, id, _) => IsRemembered(t, id)
    case MarkDownloaded(id, _) => IsRemembered(t, id)
    case Record(_, Some(m)) => IsRemembered(t, m.order)
    case MoveOrder(m) => IsRemembered(t, m.order)
    case _ => true
  }

  /** The order is remembered, or some thread is just about to. */
  ghost predicate IsHeldRightly(w: World, id: int) {
    IsRemembered(w.s.orders, id) || exists i :: i in w.threads && WillRemember(w.threads[i].pc, id)
  }

  ghost predicate SessionsHoldRightly(w: World) {
    forall k :: k in w.s.sessions && w.s.sessions[k].orderId.Some? ==> IsHeldRightly(w, w.s.sessions[k].orderId.value)
  }

  ghost predicate UnderwayOk(w: World) {
    && RowsOk(w.s.orders)
    && (forall i :: i in w.threads ==> CarriesEvidence(w.s.orders, w.threads[i].pc))
    && SessionsHoldRightly(w)
  }

  // ---- writes

  lemma WriteKeepsRemembered(t: Orders, w: Write, id: int)
    requires Ascending(t) && IsRemembered(t, id)
    ensures IsRemembered(Written(t, w), id)
  {
    RowAfterWrite(t, w, id);
  }

  lemma WriteKeepsCarried(t: Orders, w: Write, pc: Pc)
    requires Ascending(t) && CarriesEvidence(t, pc)
    ensures CarriesEvidence(Written(t, w), pc)
  {
    match pc
    case BindOrder(id, _) => WriteKeepsRemembered(t, w, id);
    case ReadUpp(_, _, _, id) => WriteKeepsRemembered(t, w, id);
    case CallPackage(_, _, _, id, _) => WriteKeepsRemembered(t, w, id);
    case Spend(_, id, _) => WriteKeepsRemembered(t, w, id);
    case MarkDownloaded(id, _) => WriteKeepsRemembered(t, w, id);
    case Record(_, Some(m)) => WriteKeepsRemembered(t, w, m.order);
    case MoveOrder(m) => WriteKeepsRemembered(t, w, m.order);
    case _ =>
  }

  lemma RowOkAfterWrite(t: Orders, w: Write, id: int)
    requires Ascending(t) && RowsOk(t) && Find(Written(t, w), id).Some?
    requires w.PutState? && w.state != Available ==> IsRemembered(t, w.id)
    ensures RowOk(Find(Written(t, w), id).value)
  {
    assert Find(t, id).Some? ==> RowOk(Find(t, id).value);
    match w
    case Nothing =>
    case PutState(at, st) => FindAfterState(t, at, st, id);
    case PutEuicc(at, eid, cert) => FindAfterEuicc(t, at, eid, cert, id);
    case PutOrder(added) => FindAfterOrder(t, added, id);
  }

  lemma WorkKeepsRows(env: Env, s: State, pc: Pc, c: Choice)
    requires Ascending(s.orders) && RowsOk(s.orders) && CarriesEvidence(s.orders, pc)
    ensures RowsOk(Work(env, s, pc, c).0.orders)
  {
    WorkWrites(env, s, pc, c);
    forall id: int | Find(Written(s.orders, WriteOf(pc)), id).Some?
      ensures RowOk(Find(Written(s.orders, WriteOf(pc)), id).value)
    {
      RowOkAfterWrite(s.orders, WriteOf(pc), id);
    }
  }

  // ---- local variables

  lemma LookupCarries(env: Env, w: World, i: nat, c: Choice)
    requires RegionOk(w) && UnderwayOk(w) && i in w.threads && w.threads[i].pc.Lookup?
    ensures CarriesEvidence(w.s.orders, Work(env, w.s, w.threads[i].pc, c).2)
  {
    var id := SessionOrder(w.s.sessions, w.threads[i].pc.package.transactionId);
    if id.Ok? {
      assert IsHeldRightly(w, id.value);
      assert Busy(w.threads[i]);
      assert forall j :: j in w.threads && WillRemember(w.threads[j].pc, id.value) ==> Busy(w.threads[j]);
    }
  }

  lemma FindOrderCarries(env: Env, s: State, pc: Pc, c: Choice)
    requires pc.FindOrder? && Ascending(s.orders) && RowsOk(s.orders) && ResultsNeedACertificate(env.lib)
    ensures CarriesEvidence(s.orders, Work(env, s, pc, c).2)
  {
    var order := OneByIccid(s.orders, pc.iccid, c.pick);
    if order.Some? {
      FindsEveryRow(s.orders, order.value);
      assert RowOk(Find(s.orders, order.value.id).value);
    }
  }

  lemma RememberCarries(env: Env, s: State, pc: Pc, c: Choice)
    requires pc.Remember? && Find(s.orders, pc.id).Some?
    ensures IsRemembered(Work(env, s, pc, c).0.orders, pc.id)
    ensures CarriesEvidence(Work(env, s, pc, c).0.orders, Work(env, s, pc, c).2)
  {
    FindAfterEuicc(s.orders, pc.id, pc.eid, pc.euiccCert, pc.id);
  }

  /** An accepted AuthenticateClient goes on to remember its eUICC. */
  lemma GrantIsRemembered(env: Env, s: State, pc: Pc, c: Choice)
    requires pc.CallAuthenticate? && LearnsTheEuicc(env.lib)
    ensures var (s2, _, next) := Work(env, s, pc, c);
            var k := pc.authenticate.transactionId;
            && (next.Remember? ==> s2.sessions == s.sessions[k := s2.sessions[k]] && next.id == pc.order.id)
            && (next.Remember? ==> s2.sessions[k].orderId == Some(pc.order.id))
            && (!next.Remember? ==> next.Finished? && s2.sessions == s.sessions[k := s2.sessions[k]])
            && (!next.Remember? ==> s2.sessions[k].orderId == pc.entry.orderId)
  {
  }

  lemma PackageCarries(env: Env, s: State, pc: Pc, c: Choice)
    requires pc.ReadUpp? || pc.CallPackage? || pc.Spend? || pc.MarkDownloaded?
    requires CarriesEvidence(s.orders, pc)
    ensures CarriesEvidence(Work(env, s, pc, c).0.orders, Work(env, s, pc, c).2)
  {
  }

  lemma RecordCarries(env: Env, s: State, pc: Pc, c: Choice)
    requires pc.Record? && CarriesEvidence(s.orders, pc)
    ensures CarriesEvidence(Work(env, s, pc, c).0.orders, Work(env, s, pc, c).2)
  {
  }

  lemma OtherWorkCarriesNothing(env: Env, s: State, pc: Pc, c: Choice)
    requires pc.Prepare? || pc.Insert? || pc.Choose? || pc.Ask? || pc.BindOrder? || pc.ReadNotification?
             || pc.MoveOrder? || IsCommand(pc) || pc.Finished?
    ensures CarriesEvidence(Work(env, s, pc, c).0.orders, Work(env, s, pc, c).2)
  {
  }

  lemma WorkSetsCarried(env: Env, w: World, i: nat, c: Choice)
    requires TransparencyOk(env, w) && RegionOk(w) && UnderwayOk(w)
    requires LearnsTheEuicc(env.lib) && ResultsNeedACertificate(env.lib)
    requires i in w.threads
    ensures var (s2, _, next) := Work(env, w.s, w.threads[i].pc, c);
            CarriesEvidence(s2.orders, next)
  {
    var pc := w.threads[i].pc;
    assert CarriesEvidence(w.s.orders, pc);
    if pc.Lookup? {
      LookupCarries(env, w, i, c);
    } else if pc.FindOrder? {
      FindOrderCarries(env, w.s, pc, c);
    } else if pc.Remember? {
      assert OfferStands(w.s.orders, pc);
      RememberCarries(env, w.s, pc, c);
    } else if pc.CallAuthenticate? {
      GrantIsRemembered(env, w.s, pc, c);
    } else if pc.ReadUpp? || pc.CallPackage? || pc.Spend? || pc.MarkDownloaded? {
      PackageCarries(env, w.s, pc, c);
    } else if pc.Record? {
      RecordCarries(env, w.s, pc, c);
    } else {
      OtherWorkCarriesNothing(env, w.s, pc, c);
    }
  }

  // ---- sessions

  lemma StaysHeldRightly(env: Env, w: World, i: nat, c: Choice, id: int)
    requires RegionOk(w) && UnderwayOk(w) && Works(w, Go(i, c)) && IsHeldRightly(w, id)
    ensures IsHeldRightly(Perform(env, w, i, c), id)
  {
    var pc, after := w.threads[i].pc, Perform(env, w, i, c);
    WorkWrites(env, w.s, pc, c);
    if IsRemembered(w.s.orders, id) {
      WriteKeepsRemembered(w.s.orders, WriteOf(pc), id);
    } else if WillRemember(pc, id) {
      assert OfferStands(w.s.orders, pc);
      RememberCarries(env, w.s, pc, c);
    } else {
      var j :| j in w.threads && WillRemember(w.threads[j].pc, id);
      assert after.threads[j] == w.threads[j];
    }
  }

  /** The one place a session comes to hold another order than before. */
  lemma OrdersHeld(env: Env, s: State, trace: seq<Call>, pc: Pc, c: Choice, k: Bytes)
    requires LocalsOk(env, s, trace, pc) && LearnsTheEuicc(env.lib)
    requires k in Work(env, s, pc, c).0.sessions && Work(env, s, pc, c).0.sessions[k].orderId.Some?
    ensures var (s2, _, next) := Work(env, s, pc, c);
            || (k in s.sessions && s.sessions[k].orderId == s2.sessions[k].orderId)
            || WillRemember(next, s2.sessions[k].orderId.value)
  {
    if !TouchesSessions(pc) {
      OtherWorkIsSilent(env, s, pc, c);
    } else if pc.CallAuthenticate? {
      GrantIsRemembered(env, s, pc, c);
    }
  }

  lemma SessionsStayRight(env: Env, w: World, i: nat, c: Choice)
    requires TransparencyOk(env, w) && RegionOk(w) && UnderwayOk(w) && Works(w, Go(i, c))
    requires LearnsTheEuicc(env.lib)
    ensures SessionsHoldRightly(Perform(env, w, i, c))
  {
    var pc, after := w.threads[i].pc, Perform(env, w, i, c);
    forall k | k in after.s.sessions && after.s.sessions[k].orderId.Some?
      ensures IsHeldRightly(after, after.s.sessions[k].orderId.value)
    {
      OrdersHeld(env, w.s, w.trace, pc, c, k);
      if WillRemember(after.threads[i].pc, after.s.sessions[k].orderId.value) {
        assert i in after.threads;
      } else {
        StaysHeldRightly(env, w, i, c, after.s.sessions[k].orderId.value);
      }
    }
  }

  // ---- every schedule of one server thread

  lemma PerformKeepsEvidence(env: Env, w: World, i: nat, c: Choice)
    requires TransparencyOk(env, w) && RegionOk(w) && UnderwayOk(w) && Works(w, Go(i, c))
    requires LearnsTheEuicc(env.lib) && ResultsNeedACertificate(env.lib)
    ensures UnderwayOk(Perform(env, w, i, c))
  {
    var pc, after := w.threads[i].pc, Perform(env, w, i, c);
    WorkWrites(env, w.s, pc, c);
    WorkKeepsRows(env, w.s, pc, c);
    WorkSetsCarried(env, w, i, c);
    SessionsStayRight(env, w, i, c);
    forall j | j in after.threads && j != i
      ensures CarriesEvidence(after.s.orders, after.threads[j].pc)
    {
      WriteKeepsCarried(w.s.orders, WriteOf(pc), w.threads[j].pc);
    }
  }

  lemma UndisturbedKeepsEvidence(w: World, after: World)
    requires UnderwayOk(w) && Undisturbed(w, after)
    ensures UnderwayOk(after)
  {
    forall k | k in after.s.sessions && after.s.sessions[k].orderId.Some?
      ensures IsHeldRightly(after, after.s.sessions[k].orderId.value)
    {
      assert IsHeldRightly(w, w.s.sessions[k].orderId.value);
    }
  }

  lemma {:induction false} RunKeepsUnderway(env: Env, w: World, acts: seq<Action>)
    requires TransparencyOk(env, w) && RegionOk(w) && UnderwayOk(w) && SingleThreaded(env, w, acts)
    requires LearnsTheEuicc(env.lib) && ResultsNeedACertificate(env.lib)
    ensures UnderwayOk(RunAll(env, w, acts))
  {
    if acts == [] {
    } else {
      var before, a := RunAll(env, w, acts[..|acts| - 1]), acts[|acts| - 1];
      SingleThreadedBefore(env, w, acts);
      RunKeepsUnderway(env, w, acts[..|acts| - 1]);
      RunKeepsTransparency(env, w, acts[..|acts| - 1]);
      RunKeepsRegion(env, w, acts[..|acts| - 1]);
      if Works(before, a) {
        PerformKeepsEvidence(env, before, a.i, a.choice);
      } else {
        OtherActionsAreIdle(env, before, a);
        UndisturbedKeepsEvidence(before, Exec(env, before, a));
      }
    }
  }

  /** At every moment of every schedule of one server thread, wherever commands
      come in between: an order that is not Available has both its EID and its
      certificate, and an order some session holds has them too or is about to
      be given them by the thread at work. */
  lemma EvidenceAtEveryMoment(env: Env, s: State, acts: seq<Action>)
    requires WellKeyed(s.orders) && RowsOk(s.orders) && s.sessions == map[]
    requires SingleThreaded(env, Idle(s), acts)
    requires LearnsTheEuicc(env.lib) && ResultsNeedACertificate(env.lib)
    ensures var w := RunAll(env, Idle(s), acts);
            && RowsOk(w.s.orders)
            && forall k :: k in w.s.sessions && w.s.sessions[k].orderId.Some? ==>
                 IsHeldRightly(w, w.s.sessions[k].orderId.value)
  {
    RunKeepsUnderway(env, Idle(s), acts);
  }
}
