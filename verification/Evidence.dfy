/** The evidence a notification will be checked against: the EID and the
    certificate an order remembers (crates/smdp/src/store/mod.rs:13-14). */
module Evidence {
  import opened Basics
  import opened Rsp
  import opened OrderStore
  import opened SessionTable
  import opened Protocol
  import opened Es9
  import opened OrderLife

  predicate HasEvidence(o: Order) {
    o.eid.Some? && o.euiccCert.Some?
  }

  /** What a row must show: the two are remembered together, and an order that
      is not Available has them. */
  predicate RowOk(o: Order) {
    && (o.eid.Some? <==> o.euiccCert.Some?)
    && (o.state != Available ==> HasEvidence(o))
  }

  ghost predicate RowsOk(t: Orders) {
    forall id: int :: Find(t, id).Some? ==> RowOk(Find(t, id).value)
  }

  /** The strengthening that makes it inductive: an order some live session
      holds has its evidence, whatever its state. */
  ghost predicate SessionsOk(t: Orders, sessions: Table) {
    forall k :: k in sessions && sessions[k].orderId.Some? ==>
      Find(t, sessions[k].orderId.value).Some? && HasEvidence(Find(t, sessions[k].orderId.value).value)
  }

  ghost predicate EvidenceOk(s: State) {
    RowsOk(s.orders) && SessionsOk(s.orders, s.sessions)
  }

  /** The one way a step breaks it, read off the branch that fails: the library
      accepts an eUICC for an order without evidence, and the handler stops
      before remembering it or has nothing to remember; or a result verifies
      against an order for which no certificate is kept. */
  predicate LosesEvidence(env: Env, s: State, e: Event) {
    match e
    case AuthenticateClient(req) =>
      && ChooseOrder(s.orders).Ok?
      && var order := ChooseOrder(s.orders).value;
         var granted := AskAuthenticate(env.lib, s.sessions, req, order).1;
         && !HasEvidence(order)
         && granted.Ok?
         && (|| granted.value.eid.None? || granted.value.euiccCert.None?
             || AuthenticateBody(env.lib, req, granted.value).Err?)
    case HandleNotification(raw, pick) =>
      var order := ClaimedOrder(env.lib, s.orders, raw, pick);
      MoveToMake(env.lib, raw, order).Some? && !HasEvidence(order.value)
    case _ => false
  }

  lemma ReplacedRow(t: Orders, u: Orders, id: int, o: Order)
    requires RowsOk(t) && Replaces(t, u, id, o)
    ensures RowsOk(u) <==> RowOk(o)
  {
    assert Find(u, id) == Some(o);
  }

  lemma ReplacedUnderSessions(t: Orders, u: Orders, id: int, o: Order, sessions: Table)
    requires SessionsOk(t, sessions) && Replaces(t, u, id, o)
    requires HasEvidence(Find(t, id).value) ==> HasEvidence(o)
    ensures SessionsOk(u, sessions)
  {
  }

  lemma NewHolder(t: Orders, sessions: Table, k: Bytes, e: Entry)
    requires SessionsOk(t, sessions) && e.orderId.Some? && Find(t, e.orderId.value).Some?
    ensures SessionsOk(t, sessions[k := e]) <==> HasEvidence(Find(t, e.orderId.value).value)
  {
    assert sessions[k := e][k] == e;
  }

  lemma AuthenticateAndEvidence(env: Env, s: State, e: Event)
    requires Ascending(s.orders) && EvidenceOk(s) && e.AuthenticateClient?
    ensures EvidenceOk(Step(env, s, e).0) <==> !LosesEvidence(env, s, e)
  {
    if ChooseOrder(s.orders).Ok? {
      ChosenOrderIsTheOnlyOffer(s.orders);
      var req, order := e.authenticate, ChooseOrder(s.orders).value;
      var (sessions, granted) := AskAuthenticate(env.lib, s.sessions, req, order);
      if granted.Ok? {
        var g, k := granted.value, req.transactionId;
        assert RowOk(order);
        assert sessions == s.sessions[k := sessions[k]] && sessions[k].orderId == Some(order.id);
        if AuthenticateBody(env.lib, req, g).Ok? {
          var t := WithState(Remembered(s.orders, order.id, g.eid, g.euiccCert), order.id, Bound);
          var row := BoundRow(order, g.eid, g.euiccCert);
          BindingReplaces(s.orders, order.id, g.eid, g.euiccCert);
          ReplacedRow(s.orders, t, order.id, row);
          ReplacedUnderSessions(s.orders, t, order.id, row, s.sessions);
          NewHolder(t, s.sessions, k, sessions[k]);
        } else {
          NewHolder(s.orders, s.sessions, k, sessions[k]);
        }
      } else {
        assert SessionsOk(s.orders, sessions);
      }
    }
  }

  lemma StateOnRows(t: Orders, id: int, st: OrderState)
    requires RowsOk(t) && Find(t, id).Some?
    ensures RowsOk(WithState(t, id, st)) <==> (st != Available ==> HasEvidence(Find(t, id).value))
  {
    StateReplaces(t, id, st);
    ReplacedRow(t, WithState(t, id, st), id, Find(t, id).value.(state := st));
    assert RowOk(Find(t, id).value);
  }

  /** Setting a state on a row that keeps its evidence. */
  lemma StateAndEvidence(t: Orders, sessions: Table, id: int, st: OrderState)
    requires RowsOk(t) && SessionsOk(t, sessions) && Find(t, id).Some?
    ensures SessionsOk(WithState(t, id, st), sessions)
    ensures RowsOk(WithState(t, id, st)) <==> (st != Available ==> HasEvidence(Find(t, id).value))
  {
    var row := Find(t, id).value.(state := st);
    StateReplaces(t, id, st);
    StateOnRows(t, id, st);
    ReplacedUnderSessions(t, WithState(t, id, st), id, row, sessions);
  }

  lemma AddAndEvidence(t: Orders, sessions: Table, added: NewOrder)
    requires Ascending(t) && RowsOk(t) && SessionsOk(t, sessions)
    ensures RowsOk(WithOrder(t, added)) && SessionsOk(WithOrder(t, added), sessions)
  {
    forall at: int
      ensures Find(t, NextId(t)).None?
      ensures Find(WithOrder(t, added), at)
           == if at == NextId(t) && !HasMatchingId(t, added.matchingId) then Some(Row(at, added)) else Find(t, at)
    {
      FindAfterOrder(t, added, at);
    }
  }

  lemma GetPackageAndEvidence(env: Env, s: State, e: Event)
    requires EvidenceOk(s) && e.GetBoundProfilePackage?
    ensures EvidenceOk(Step(env, s, e).0)
  {
    var held := SessionOrder(s.sessions, e.package.transactionId);
    if held.Ok? && UppOf(s.orders, held.value).Ok? {
      StateAndEvidence(s.orders, s.sessions, held.value, Downloaded);
    }
  }

  lemma NotificationAndEvidence(env: Env, s: State, e: Event)
    requires Ascending(s.orders) && EvidenceOk(s) && e.HandleNotification?
    ensures EvidenceOk(Step(env, s, e).0) <==> !LosesEvidence(env, s, e)
  {
    var order := ClaimedOrder(env.lib, s.orders, e.raw, e.pick);
    var m := MoveToMake(env.lib, e.raw, order);
    if m.Some? {
      FindsEveryRow(s.orders, order.value);
      StateAndEvidence(s.orders, s.sessions, m.value.order, m.value.to);
    }
  }

  /** For every library: a step keeps the evidence invariant exactly when it is
      not of the losing kind. */
  lemma EvidenceKeptExactly(env: Env, s: State, e: Event)
    requires Ascending(s.orders) && EvidenceOk(s)
    ensures EvidenceOk(Step(env, s, e).0) <==> !LosesEvidence(env, s, e)
  {
    match e
    case InitiateAuthentication(_, _, _, _, _) =>
    case AuthenticateClient(_) => AuthenticateAndEvidence(env, s, e);
    case GetBoundProfilePackage(_, _) => GetPackageAndEvidence(env, s, e);
    case HandleNotification(_, _) => NotificationAndEvidence(env, s, e);
    case OrderAdd(c) =>
      if OrderToAdd(c).Some? {
        AddAndEvidence(s.orders, s.sessions, OrderToAdd(c).value);
      }
    case OrderReset(id) =>
      if Find(s.orders, id).Some? {
        StateAndEvidence(s.orders, s.sessions, id, Available);
      }
  }

  // ---- the rows alone, as documented

  /** The ways a step puts a state other than Available on a row that lacks the
      evidence: binding it with nothing to remember, serving it, or moving it. */
  predicate MarksWithoutEvidence(env: Env, s: State, e: Event) {
    match e
    case AuthenticateClient(req) =>
      && ChooseOrder(s.orders).Ok? && !HasEvidence(ChooseOrder(s.orders).value)
      && var granted := AskAuthenticate(env.lib, s.sessions, req, ChooseOrder(s.orders).value).1;
         && granted.Ok? && AuthenticateBody(env.lib, req, granted.value).Ok?
         && (granted.value.eid.None? || granted.value.euiccCert.None?)
    case GetBoundProfilePackage(req, otskDp) =>
      && SessionOrder(s.sessions, req.transactionId).Ok?
      && var order := Find(s.orders, SessionOrder(s.sessions, req.transactionId).value);
         && order.Some? && !HasEvidence(order.value)
         && AskPackage(env.lib, s.sessions, req, order.value.upp, otskDp).1.Ok?
    case HandleNotification(raw, pick) =>
      var order := ClaimedOrder(env.lib, s.orders, raw, pick);
      MoveToMake(env.lib, raw, order).Some? && !HasEvidence(order.value)
    case _ => false
  }

  lemma AuthenticateOnRows(env: Env, s: State, e: Event)
    requires Ascending(s.orders) && RowsOk(s.orders) && e.AuthenticateClient?
    ensures RowsOk(Step(env, s, e).0.orders) <==> !MarksWithoutEvidence(env, s, e)
  {
    if ChooseOrder(s.orders).Ok? {
      ChosenOrderIsTheOnlyOffer(s.orders);
      var order := ChooseOrder(s.orders).value;
      var granted := AskAuthenticate(env.lib, s.sessions, e.authenticate, order).1;
      if granted.Ok? {
        var g := granted.value;
        var t := WithState(Remembered(s.orders, order.id, g.eid, g.euiccCert), order.id, Bound);
        BindingReplaces(s.orders, order.id, g.eid, g.euiccCert);
        ReplacedRow(s.orders, t, order.id, BoundRow(order, g.eid, g.euiccCert));
        assert RowOk(order);
      }
    }
  }

  /** For every library and every state whose rows keep the promise: a step breaks
      it exactly when it marks a row that lacks the evidence. */
  lemma RowsKeptExactly(env: Env, s: State, e: Event)
    requires Ascending(s.orders) && RowsOk(s.orders)
    ensures RowsOk(Step(env, s, e).0.orders) <==> !MarksWithoutEvidence(env, s, e)
  {
    match e
    case InitiateAuthentication(_, _, _, _, _) =>
    case AuthenticateClient(_) => AuthenticateOnRows(env, s, e);
    case GetBoundProfilePackage(req, _) =>
      var held := SessionOrder(s.sessions, req.transactionId);
      if held.Ok? && Find(s.orders, held.value).Some? {
        StateOnRows(s.orders, held.value, Downloaded);
      }
    case HandleNotification(raw, pick) =>
      var order := ClaimedOrder(env.lib, s.orders, raw, pick);
      if MoveToMake(env.lib, raw, order).Some? {
        var m := MoveToMake(env.lib, raw, order).value;
        FindsEveryRow(s.orders, order.value);
        StateOnRows(s.orders, m.order, m.to);
      }
    case OrderAdd(c) =>
      if OrderToAdd(c).Some? {
        AddAndEvidence(s.orders, map[], OrderToAdd(c).value);
      }
    case OrderReset(id) =>
      if Find(s.orders, id).Some? {
        StateOnRows(s.orders, id, Available);
      }
  }

  /** The promise holds before and after every request of the run. */
  ghost predicate PromiseHolds(env: Env, s: State, es: seq<Event>) {
    RowsOk(Run(env, s, es).orders) && (es == [] || PromiseHolds(env, s, es[..|es| - 1]))
  }

  predicate NeverMarksWithoutEvidence(env: Env, s: State, es: seq<Event>) {
    es == [] ||
    var before := es[..|es| - 1];
    NeverMarksWithoutEvidence(env, s, before) && !MarksWithoutEvidence(env, Run(env, s, before), es[|es| - 1])
  }

  /** Over whole runs: the promise holds throughout exactly of the runs no step of
      which marks a row that lacks the evidence. */
  lemma {:induction false} PromiseHoldsExactly(env: Env, s: State, es: seq<Event>)
    requires WellKeyed(s.orders) && RowsOk(s.orders)
    ensures PromiseHolds(env, s, es) <==> NeverMarksWithoutEvidence(env, s, es)
  {
    if es == [] {
    } else {
      var before := es[..|es| - 1];
      PromiseHoldsExactly(env, s, before);
      RunKeepsKeys(env, s, before);
      if PromiseHolds(env, s, before) {
        RowsKeptExactly(env, Run(env, s, before), es[|es| - 1]);
      }
    }
  }

  // ---- under what the handlers count on

  /** An accepted AuthenticateClient has learned the EID and the certificate,
      and its response can be cut into fields. The library's documentation says
      the first, and nothing of the second. */
  ghost predicate LearnsTheEuicc(lib: Library) {
    forall session, resp, metadata ::
      var (after, r) := lib.authenticate(session, resp, metadata);
      r.code == 0 ==> Eid(lib, after).Some? && EuiccCert(lib, after).Some? && lib.authenticateFields(r.out).code == 0
  }

  /** A ProfileInstallationResult carries no certificate and never verifies
      without one, as the library's documentation promises. */
  ghost predicate ResultsNeedACertificate(lib: Library) {
    forall raw :: VerifyNotification(lib, None, raw).Some? ==>
                    !VerifyNotification(lib, None, raw).value.isInstallationResult
  }

  lemma PromisesKeepEvidence(env: Env, s: State, e: Event)
    requires Ascending(s.orders) && EvidenceOk(s)
    requires LearnsTheEuicc(env.lib) && ResultsNeedACertificate(env.lib)
    ensures !LosesEvidence(env, s, e)
  {
    if e.HandleNotification? {
      var order := ClaimedOrder(env.lib, s.orders, e.raw, e.pick);
      if order.Some? {
        FindsEveryRow(s.orders, order.value);
        assert RowOk(Find(s.orders, order.value.id).value);
      }
    }
  }

  /** Over every run: an order that is not Available has both its EID and its
      certificate, so its notifications can be checked. */
  lemma {:induction false} RunKeepsEvidence(env: Env, s: State, es: seq<Event>)
    requires WellKeyed(s.orders) && EvidenceOk(s)
    requires LearnsTheEuicc(env.lib) && ResultsNeedACertificate(env.lib)
    ensures EvidenceOk(Run(env, s, es))
  {
    if es == [] {
    } else {
      var before := es[..|es| - 1];
      RunKeepsKeys(env, s, before);
      RunKeepsEvidence(env, s, before);
      PromisesKeepEvidence(env, Run(env, s, before), es[|es| - 1]);
      EvidenceKeptExactly(env, Run(env, s, before), es[|es| - 1]);
    }
  }

  /** From an empty store, row by row. */
  lemma EvidenceFromTheStart(env: Env, es: seq<Event>, o: Order)
    requires LearnsTheEuicc(env.lib) && ResultsNeedACertificate(env.lib)
    requires o in Run(env, State([], [], map[]), es).orders
    ensures o.state != Available ==> HasEvidence(o)
  {
    var s := State([], [], map[]);
    RunKeepsKeys(env, s, es);
    RunKeepsEvidence(env, s, es);
    FindsEveryRow(Run(env, s, es).orders, o);
    assert RowOk(Find(Run(env, s, es).orders, o.id).value);
  }

  /** Without the first hypothesis it does fail: when the response of an accepted
      AuthenticateClient cannot be cut into fields, the answer is Failed but the
      session already holds the order, and its package is served without any
      eUICC being remembered. */
  lemma ServedWithoutEvidence(env: Env, s: State, auth: AuthenticateRequest, prepared: Bytes, otskDp: Bytes)
    requires Ascending(s.orders) && ChooseOrder(s.orders).Ok? && !HasEvidence(ChooseOrder(s.orders).value)
    requires auth.transactionId in s.sessions
    requires var order := ChooseOrder(s.orders).value;
             var (after, r) := env.lib.authenticate(
                                 s.sessions[auth.transactionId].session, auth.authenticateServerResponse,
                                 order.metadata);
             && r.code == 0 && env.lib.authenticateFields(r.out).code != 0
             && env.lib.boundPackage(after, prepared, order.upp, otskDp).1.code == 0
    ensures var order := ChooseOrder(s.orders).value;
            var (s1, a1) := Step(env, s, AuthenticateClient(auth));
            var get := GetBoundProfilePackage(PackageRequest(auth.transactionId, prepared), otskDp);
            var (s2, a2) := Step(env, s1, get);
            && a1.Unsuccessful? && a2.Package? && ServedFrom(env, s1, get) == Some(order.id)
            && Find(s2.orders, order.id) == Some(order.(state := Downloaded))
  {
    var order := ChooseOrder(s.orders).value;
    ChosenOrderIsTheOnlyOffer(s.orders);
    FindAfterState(s.orders, order.id, Downloaded, order.id);
  }
}
