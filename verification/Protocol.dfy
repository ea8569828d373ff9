/** What the ES9+ handlers and the two `order` commands compute, phase by
    phase (crates/smdp/src/server/es9.rs and crates/smdp/src/bin/smdp.rs).

    A phase is a piece of a handler that runs under one hold of a lock, or
    under none. The handlers of `Es9` run their phases back to back; the
    threads of `Threads` run them with other threads in between. */
module Protocol {
  import opened Basics
  import opened Rsp
  import opened OrderStore
  import opened SessionTable
  import CommandLine
  import MatchingId
  import Metadata

  // ---- requests, answers, state

  datatype InitiateRequest = InitiateRequest(euiccChallenge: Bytes, euiccInfo1: Bytes, smdpAddress: string)

  datatype AuthenticateRequest = AuthenticateRequest(transactionId: Bytes, authenticateServerResponse: Bytes)

  datatype PackageRequest = PackageRequest(transactionId: Bytes, prepareDownloadResponse: Bytes)

  /** `order add`, with the files it names already read and the octets a
      MatchingID would be drawn from. */
  datatype AddCommand = AddCommand(
    upp: Bytes, metadata: Bytes, iccid: Option<string>, matchingId: Option<string>, raw: MatchingId.Raw)

  /** Subjects and reasons of SGP.22 sections 5.2.6.1 and 5.2.6.2. */
  datatype Code = SmdpAddress | TransactionId | Profile | Refusal | Unknown | Execution
  {
    function Oid(): string {
      match this
      case SmdpAddress => "8.1.1"
      case TransactionId => "8.10.1"
      case Profile => "8.2.5"
      case Refusal => "3.8"
      case Unknown => "3.9"
      case Execution => "4.2"
    }
  }

  datatype Answer =
    | Unsuccessful(subject: Code, reason: Code)
    | Initiated(transactionId: Bytes, initiateFields: InitiateFields)
    | Authenticated(transactionId: Bytes, authenticateFields: AuthenticateFields)
    | Package(transactionId: Bytes, boundProfilePackage: Bytes)
    | NoContent
    | OrderAdded(order: Order)
    | OrderIsAvailable(id: int)
    | CommandError

  datatype Env = Env(lib: Library, serverAddress: string)

  datatype State = State(orders: Orders, notifications: Notifications, sessions: Table)

  function FromRspError(e: RspError, subject: Code): Answer {
    match e
    case Refused => Unsuccessful(subject, Refusal)
    case NotReached => Unsuccessful(subject, Execution)
  }

  // ---- InitiateAuthentication

  datatype Opening = Opening(input: InitiateInput, session: Session, body: Answer)

  /** Everything up to the insert: no shared state is involved. */
  function OpenSession(env: Env, req: InitiateRequest, transactionId: Bytes16, serverChallenge: Bytes16)
    : Result<Opening, Answer>
  {
    if |req.euiccChallenge| != 16 then Err(Unsuccessful(Execution, Execution))
    else
      var input := InitiateInput(
        req.euiccChallenge, req.euiccInfo1, transactionId, serverChallenge, env.serverAddress, req.smdpAddress);
      match Initiate(env.lib, input)
      case Err(e) => Err(FromRspError(e, SmdpAddress))
      case Ok((session, resp)) =>
        match Checked(env.lib.initiateFields(resp))
        case Err(e) => Err(FromRspError(e, Execution))
        case Ok(f) => Ok(Opening(input, session, Initiated(transactionId, f)))
  }

  // ---- AuthenticateClient

  predicate Offerable(o: Order) {
    o.state == Available || o.state == Bound
  }

  function Offers(t: Orders): (r: Orders)
    ensures forall o :: o in r <==> o in t && Offerable(o)
  {
    if t == [] then []
    else (if Offerable(t[0]) then [t[0]] else []) + Offers(t[1..])
  }

  /** The one order that can be meant. */
  function ChooseOrder(t: Orders): Result<Order, Answer> {
    var available := Offers(t);
    if |available| == 1 then Ok(available[0]) else Err(Unsuccessful(Profile, Unknown))
  }

  /** What a successful `authenticate_client` leaves behind for the rest of the
      handler. */
  datatype Grant = Grant(eid: Option<string>, euiccCert: Option<Bytes>, resp: Bytes)

  /** The library call on a looked-up entry, and what it leaves in the entry. */
  function AuthenticateEntry(lib: Library, e: Entry, req: AuthenticateRequest, order: Order)
    : (Entry, Result<Grant, Answer>)
  {
    var (session, r) := lib.authenticate(e.session, req.authenticateServerResponse, order.metadata);
    match Checked(r)
    case Err(error) => (e.(session := session), Err(FromRspError(error, TransactionId)))
    case Ok(resp) =>
      (e.(session := session, orderId := Some(order.id)),
       Ok(Grant(Eid(lib, session), EuiccCert(lib, session), resp)))
  }

  /** One hold of the session lock: the lookup and the call. */
  function AskAuthenticate(lib: Library, t: Table, req: AuthenticateRequest, order: Order)
    : (Table, Result<Grant, Answer>)
  {
    var id := req.transactionId;
    if id !in t then (t, Err(Unsuccessful(TransactionId, Unknown)))
    else
      var (e, granted) := AuthenticateEntry(lib, t[id], req, order);
      (t[id := e], granted)
  }

  function AuthenticateBody(lib: Library, req: AuthenticateRequest, g: Grant): Result<Answer, Answer> {
    match Checked(lib.authenticateFields(g.resp))
    case Err(e) => Err(FromRspError(e, Execution))
    case Ok(f) => Ok(Authenticated(req.transactionId, f))
  }

  /** Both are known, or nothing is written. */
  function Remembered(t: Orders, id: int, eid: Option<string>, cert: Option<Bytes>): Orders {
    if eid.Some? && cert.Some? then WithEuicc(t, id, eid.value, cert.value) else t
  }

  // ---- GetBoundProfilePackage

  function SessionOrder(t: Table, id: Bytes): Result<int, Answer> {
    if id !in t then Err(Unsuccessful(TransactionId, Unknown))
    else match t[id].orderId
      case None => Err(Unsuccessful(Profile, Unknown))
      case Some(order) => Ok(order)
  }

  function UppOf(t: Orders, id: int): Result<Bytes, Answer> {
    match Find(t, id)
    case None => Err(Unsuccessful(Profile, Unknown))
    case Some(o) => Ok(o.upp)
  }

  /** The library call on a looked-up entry. */
  function PackageEntry(lib: Library, e: Entry, req: PackageRequest, upp: Bytes, otskDp: Bytes)
    : (Entry, Result<Bytes, Answer>)
  {
    var (session, r) := lib.boundPackage(e.session, req.prepareDownloadResponse, upp, otskDp);
    match Checked(r)
    case Err(error) => (e.(session := session), Err(FromRspError(error, TransactionId)))
    case Ok(bpp) => (e.(session := session), Ok(bpp))
  }

  /** One hold of the session lock: the call, and the removal of a session that
      yielded its package. */
  function AskPackage(lib: Library, t: Table, req: PackageRequest, upp: Bytes, otskDp: Bytes)
    : (Table, Result<Bytes, Answer>)
  {
    var id := req.transactionId;
    if id !in t then (t, Err(Unsuccessful(TransactionId, Unknown)))
    else
      var (e, r) := PackageEntry(lib, t[id], req, upp, otskDp);
      (if r.Ok? then t - {id} else t[id := e], r)
  }

  // ---- HandleNotification

  function ClaimedIccid(lib: Library, raw: Bytes): Option<Bytes10> {
    match NotificationMetadata(lib, raw)
    case None => None
    case Some(n) => n.iccid
  }

  function ClaimedOrder(lib: Library, t: Orders, raw: Bytes, pick: nat): Option<Order> {
    match ClaimedIccid(lib, raw)
    case None => None
    case Some(iccid) => OneByIccid(t, iccid, pick)
  }

  function Verified(lib: Library, raw: Bytes, order: Option<Order>): Option<Notification> {
    VerifyNotification(lib, if order.Some? then order.value.euiccCert else None, raw)
  }

  /** The row to keep, if there is anything to put in it. */
  function RowToKeep(lib: Library, raw: Bytes, order: Option<Order>): Option<NewNotification> {
    var verified := Verified(lib, raw, order);
    var m := if verified.Some? then verified else NotificationMetadata(lib, raw);
    match m
    case None => None
    case Some(n) =>
      Some(NewNotification(
        verified.Some?, if order.Some? then Some(order.value.id) else None,
        n.seqNumber, n.operation, n.iccid,
        if verified.Some? && n.isInstallationResult then Some(n.installed) else None,
        raw))
  }

  datatype Move = Move(order: int, to: OrderState)

  /** Only a verified installation result moves an order. */
  function MoveToMake(lib: Library, raw: Bytes, order: Option<Order>): Option<Move> {
    match Verified(lib, raw, order)
    case None => None
    case Some(v) =>
      if order.Some? && v.isInstallationResult
      then Some(Move(order.value.id, if v.installed then Downloaded else Failed))
      else None
  }

  function Kept(n: Notifications, row: Option<NewNotification>): Notifications {
    if row.Some? then WithNotification(n, row.value) else n
  }

  function Moved(t: Orders, m: Option<Move>): Orders {
    if m.Some? then WithState(t, m.value.order, m.value.to) else t
  }

  // ---- order add

  function GivenIccid(h: string): Option<Bytes10> {
    match CommandLine.ParseIccidOf(h)
    case Iccid(b) => CommandLine.ParsedArePairs(h, 10); Some(b)
    case _ => None
  }

  function OrderToAdd(c: AddCommand): Option<NewOrder> {
    var iccid := if c.iccid.Some? then GivenIccid(c.iccid.value) else Metadata.IccidOf(c.metadata);
    match iccid
    case None => None
    case Some(i) =>
      var m := if c.matchingId.Some? then c.matchingId.value else MatchingId.MatchingIdOf(c.raw);
      Some(NewOrder(m, i, c.upp, c.metadata))
  }

  // ---- laws of the choice and of the binding

  /** The row of an order that was just bound. */
  function BoundRow(o: Order, eid: Option<string>, cert: Option<Bytes>): Order {
    if eid.Some? && cert.Some? then o.(eid := eid, euiccCert := cert, state := Bound) else o.(state := Bound)
  }

  lemma BindingKeepsKeys(t: Orders, id: int, eid: Option<string>, cert: Option<Bytes>)
    requires WellKeyed(t)
    ensures WellKeyed(WithState(Remembered(t, id, eid, cert), id, Bound))
  {
    if eid.Some? && cert.Some? {
      EuiccKeepsKeys(t, id, eid.value, cert.value);
    }
    StateKeepsKeys(Remembered(t, id, eid, cert), id, Bound);
  }

  lemma FindAfterBinding(t: Orders, id: int, eid: Option<string>, cert: Option<Bytes>, at: int)
    ensures Find(WithState(Remembered(t, id, eid, cert), id, Bound), at)
         == match Find(t, at)
            case None => None
            case Some(o) => Some(if at == id then BoundRow(o, eid, cert) else o)
  {
    if eid.Some? && cert.Some? {
      FindAfterEuicc(t, id, eid.value, cert.value, at);
    }
    FindAfterState(Remembered(t, id, eid, cert), id, Bound, at);
  }

  lemma BindingReplaces(t: Orders, id: int, eid: Option<string>, cert: Option<Bytes>)
    requires Find(t, id).Some?
    ensures Replaces(t, WithState(Remembered(t, id, eid, cert), id, Bound), id, BoundRow(Find(t, id).value, eid, cert))
  {
    forall at: int
      ensures Find(WithState(Remembered(t, id, eid, cert), id, Bound), at)
           == if at == id then Some(BoundRow(Find(t, id).value, eid, cert)) else Find(t, at)
    {
      FindAfterBinding(t, id, eid, cert, at);
    }
  }

  /** The chosen order is a row of the table, and the only one on offer. */
  lemma ChosenOrderIsTheOnlyOffer(t: Orders)
    requires Ascending(t) && ChooseOrder(t).Ok?
    ensures Find(t, ChooseOrder(t).value.id) == Some(ChooseOrder(t).value)
    ensures forall o :: o in t && Offerable(o) <==> o == ChooseOrder(t).value
  {
    var o := Offers(t)[0];
    assert o in Offers(t);
    FindsEveryRow(t, o);
    assert forall x :: x in Offers(t) <==> x == o;
  }

  lemma {:induction false} OneOfferIsChosen(t: Orders, id: int)
    requires Ascending(t)
    requires Find(t, id).Some? && Offerable(Find(t, id).value)
    requires forall o :: o in t && o.id != id ==> !Offerable(o)
    ensures ChooseOrder(t) == Ok(Find(t, id).value)
  {
    if t[0].id == id {
      assert forall o :: o in t[1..] ==> o.id != id;
      var others := Offers(t[1..]);
      assert others != [] ==> others[0] in others;
    } else {
      OneOfferIsChosen(t[1..], id);
      assert t[0] in t;
      assert Offers(t) == Offers(t[1..]);
    }
  }
}
