/** The four ES9+ handlers and the two `order` commands, each as one atomic
    step: `serve` runs on a current-thread runtime and no handler awaits. A
    command is a process of its own, so that this is the server as long as none
    runs in the middle of a handler; `ClosedRegion` and the modules after it let
    commands come at any moment. */
module Es9 {
  import opened Basics
  import opened Rsp
  import opened OrderStore
  import opened SessionTable
  import opened Protocol

  /** One request or command, with everything the step draws rather than
      computes: nonces, clock readings, random octets, the row a query picks. */
  datatype Event =
    | InitiateAuthentication(initiate: InitiateRequest, nonceId: Bytes16, serverChallenge: Bytes16,
                             sweepAt: int, bornAt: int)
    | AuthenticateClient(authenticate: AuthenticateRequest)
    | GetBoundProfilePackage(package: PackageRequest, otskDp: Bytes)
    | HandleNotification(raw: Bytes, pick: nat)
    | OrderAdd(add: AddCommand)
    | OrderReset(id: int)

  function Step(env: Env, s: State, e: Event): (State, Answer) {
    match e
    case InitiateAuthentication(req, id, challenge, sweepAt, bornAt) =>
      (match OpenSession(env, req, id, challenge)
       case Err(a) => (s, a)
       case Ok(o) => (s.(sessions := Inserted(s.sessions, id, o.session, sweepAt, bornAt)), o.body))
    case AuthenticateClient(req) =>
      (match ChooseOrder(s.orders)
       case Err(a) => (s, a)
       case Ok(order) =>
         var (sessions, granted) := AskAuthenticate(env.lib, s.sessions, req, order);
         match granted
         case Err(a) => (s.(sessions := sessions), a)
         case Ok(g) =>
           match AuthenticateBody(env.lib, req, g)
           case Err(a) => (s.(sessions := sessions), a)
           case Ok(body) =>
             var orders := WithState(Remembered(s.orders, order.id, g.eid, g.euiccCert), order.id, Bound);
             (s.(sessions := sessions, orders := orders), body))
    case GetBoundProfilePackage(req, otskDp) =>
      (match SessionOrder(s.sessions, req.transactionId)
       case Err(a) => (s, a)
       case Ok(id) =>
         match UppOf(s.orders, id)
         case Err(a) => (s, a)
         case Ok(upp) =>
           var (sessions, r) := AskPackage(env.lib, s.sessions, req, upp, otskDp);
           match r
           case Err(a) => (s.(sessions := sessions), a)
           case Ok(bpp) =>
             (s.(sessions := sessions, orders := WithState(s.orders, id, Downloaded)),
              Package(req.transactionId, bpp)))
    case HandleNotification(raw, pick) =>
      var order := ClaimedOrder(env.lib, s.orders, raw, pick);
      (s.(notifications := Kept(s.notifications, RowToKeep(env.lib, raw, order)),
          orders := Moved(s.orders, MoveToMake(env.lib, raw, order))),
       NoContent)
    case OrderAdd(c) =>
      (match OrderToAdd(c)
       case None => (s, CommandError)
       case Some(added) =>
         if HasMatchingId(s.orders, added.matchingId) then (s, CommandError)
         else (s.(orders := WithOrder(s.orders, added)), OrderAdded(Row(NextId(s.orders), added))))
    case OrderReset(id) =>
      if Find(s.orders, id).None? then (s, CommandError)
      else (s.(orders := WithState(s.orders, id, Available)), OrderIsAvailable(id))
  }

  function Run(env: Env, s: State, es: seq<Event>): State {
    if es == [] then s else Step(env, Run(env, s, es[..|es| - 1]), es[|es| - 1]).0
  }

  /** The state event number `k` of a run meets, and its answer. */
  function Before(env: Env, s: State, es: seq<Event>, k: nat): State
    requires k <= |es|
  {
    Run(env, s, es[..k])
  }

  function AnswerTo(env: Env, s: State, es: seq<Event>, k: nat): Answer
    requires k < |es|
  {
    Step(env, Before(env, s, es, k), es[k]).1
  }

  // ---- the server object

  class AppState {
    const env: Env
    const store: SqliteStore
    const sessions: Sessions

    constructor (env: Env, store: SqliteStore)
      ensures this.env == env && this.store == store && fresh(this.sessions)
      ensures View() == State(store.orders, store.notifications, map[])
    {
      this.env := env;
      this.store := store;
      this.sessions := new Sessions();
    }

    ghost function View(): State
      reads store, sessions
    {
      State(store.orders, store.notifications, sessions.byTransaction)
    }

    method Initiate(req: InitiateRequest, id: Bytes16, challenge: Bytes16, sweepAt: int, bornAt: int)
      returns (a: Answer)
      modifies sessions
      ensures (View(), a) == Step(env, old(View()), InitiateAuthentication(req, id, challenge, sweepAt, bornAt))
    {
      if |req.euiccChallenge| != 16 {
        return Unsuccessful(Execution, Execution);
      }
      var input := InitiateInput(
        req.euiccChallenge, req.euiccInfo1, id, challenge, env.serverAddress, req.smdpAddress);
      var begun := Rsp.Initiate(env.lib, input);
      if begun.Err? {
        return FromRspError(begun.error, SmdpAddress);
      }
      var (session, resp) := begun.value;
      var f := Checked(env.lib.initiateFields(resp));
      if f.Err? {
        return FromRspError(f.error, Execution);
      }
      sessions.Insert(id, session, sweepAt, bornAt);
      a := Initiated(id, f.value);
    }

    method Authenticate(req: AuthenticateRequest) returns (a: Answer)
      modifies sessions, store
      ensures (View(), a) == Step(env, old(View()), AuthenticateClient(req))
    {
      var listed := store.ListOrders();
      var available := Offers(listed);
      if |available| != 1 {
        return Unsuccessful(Profile, Unknown);
      }
      var order := available[0];

      var id := req.transactionId;
      var entry := sessions.Get(id);
      if entry.None? {
        return Unsuccessful(TransactionId, Unknown);
      }
      var (session, r) :=
        env.lib.authenticate(entry.value.session, req.authenticateServerResponse, order.metadata);
      var resp := Checked(r);
      if resp.Err? {
        sessions.Update(id, session, entry.value.orderId);
        return FromRspError(resp.error, TransactionId);
      }
      var eid, cert := Eid(env.lib, session), EuiccCert(env.lib, session);
      sessions.Update(id, session, Some(order.id));

      var g := Checked(env.lib.authenticateFields(resp.value));
      if g.Err? {
        return FromRspError(g.error, Execution);
      }
      if eid.Some? && cert.Some? {
        store.BindEuicc(order.id, eid.value, cert.value);
      }
      store.SetState(order.id, Bound);
      a := Authenticated(id, g.value);
    }

    method GetPackage(req: PackageRequest, otskDp: Bytes) returns (a: Answer)
      modifies sessions, store
      ensures (View(), a) == Step(env, old(View()), GetBoundProfilePackage(req, otskDp))
    {
      var id := req.transactionId;
      var entry := sessions.Get(id);
      if entry.None? {
        return Unsuccessful(TransactionId, Unknown);
      }
      var orderId := entry.value.orderId;
      if orderId.None? {
        return Unsuccessful(Profile, Unknown);
      }
      var listed := store.ListOrders();
      var order := Find(listed, orderId.value);
      if order.None? {
        return Unsuccessful(Profile, Unknown);
      }
      var (session, r) :=
        env.lib.boundPackage(entry.value.session, req.prepareDownloadResponse, order.value.upp, otskDp);
      var bpp := Checked(r);
      if bpp.Err? {
        sessions.Update(id, session, orderId);
        return FromRspError(bpp.error, TransactionId);
      }
      sessions.Remove(id);
      store.SetState(orderId.value, Downloaded);
      a := Package(id, bpp.value);
    }

    method Notify(raw: Bytes, pick: nat) returns (a: Answer)
      modifies store
      ensures (View(), a) == Step(env, old(View()), HandleNotification(raw, pick))
    {
      var read := NotificationMetadata(env.lib, raw);
      var order: Option<Order> := None;
      if read.Some? && read.value.iccid.Some? {
        order := store.OrderByIccid(read.value.iccid.value, pick);
      }
      var cert := if order.Some? then order.value.euiccCert else None;
      var verified := VerifyNotification(env.lib, cert, raw);

      var meta := NotificationMetadata(env.lib, raw);
      var m := if verified.Some? then verified else meta;
      if m.Some? {
        store.RecordNotification(NewNotification(
          verified.Some?, if order.Some? then Some(order.value.id) else None,
          m.value.seqNumber, m.value.operation, m.value.iccid,
          if verified.Some? && m.value.isInstallationResult then Some(m.value.installed) else None,
          raw));
      }
      if verified.Some? && order.Some? && verified.value.isInstallationResult {
        store.SetState(order.value.id, if verified.value.installed then Downloaded else Failed);
      }
      a := NoContent;
    }
  }

  // ---- the commands, on a store of their own process

  method Add(store: SqliteStore, c: AddCommand) returns (a: Answer)
    modifies store
    ensures forall env, t :: var s := State(old(store.orders), old(store.notifications), t);
              (State(store.orders, store.notifications, t), a) == Step(env, s, OrderAdd(c))
  {
    var added := OrderToAdd(c);
    if added.None? {
      return CommandError;
    }
    var order := store.AddOrder(added.value);
    a := if order.None? then CommandError else OrderAdded(order.value);
  }

  method Reset(store: SqliteStore, id: int) returns (a: Answer)
    modifies store
    ensures forall env, t :: var s := State(old(store.orders), old(store.notifications), t);
              (State(store.orders, store.notifications, t), a) == Step(env, s, OrderReset(id))
  {
    var known := store.ListOrders();
    if Find(known, id).None? {
      return CommandError;
    }
    store.SetState(id, Available);
    a := OrderIsAvailable(id);
  }
}
