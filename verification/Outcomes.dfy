/** What each request and command does, from the library's own answers to the
    rows, the session and the answer that result. Every intermediate value of the
    handlers is spelled out here, so that these lemmas stand beside the handlers
    as a second account of them (crates/smdp/src/server/es9.rs,
    crates/smdp/src/server/sessions.rs, crates/smdp/src/bin/smdp.rs). */
module Outcomes {
  import opened Basics
  import opened Rsp
  import opened OrderStore
  import opened SessionTable
  import opened Protocol
  import opened Es9
  import opened OrderLife
  import MatchingId

  // ---- vocabulary

  /** Answered as failed, with these codes of SGP.22. */
  predicate IsFailed(a: Answer, subject: string, reason: string) {
    a.Unsuccessful? && a.subject.Oid() == subject && a.reason.Oid() == reason
  }

  /** A return of -1 is a refusal, any other an execution error. */
  function ReasonOf(code: int): string {
    if code == -1 then "3.8" else "4.2"
  }

  /** Row `i` is on offer, and no other is. */
  predicate IsOnlyOffer(t: Orders, i: nat) {
    && i < |t| && t[i].state in {Available, Bound}
    && forall j :: 0 <= j < |t| && j != i ==> t[j].state in {Downloaded, Failed}
  }

  /** Row `i` is the first with the id. */
  predicate IsRowWithId(t: Orders, i: nat, id: int) {
    i < |t| && t[i].id == id && forall j :: 0 <= j < i ==> t[j].id != id
  }

  /** Row for row, `u` is `t` with every row under `id` replaced as given. */
  ghost predicate IsChanged(
    t: Orders, u: Orders, id: int, state: OrderState, eid: Option<string>, cert: Option<Bytes>)
  {
    && |u| == |t|
    && forall j :: 0 <= j < |t| ==>
         && (t[j].id != id ==> u[j] == t[j])
         && (t[j].id == id ==>
               u[j] == Order(id, t[j].matchingId, t[j].iccid, t[j].upp, t[j].metadata, state,
                             if eid.Some? then eid else t[j].eid, if cert.Some? then cert else t[j].euiccCert))
  }

  // ---- InitiateAuthentication

  lemma InitiateNotAsked(env: Env, s: State, e: Event)
    requires e.InitiateAuthentication?
    ensures |e.initiate.euiccChallenge| != 16 ==>
              Step(env, s, e).0 == s && IsFailed(Step(env, s, e).1, "4.2", "4.2")
    ensures |e.initiate.euiccChallenge| == 16 && ('\0' in env.serverAddress || '\0' in e.initiate.smdpAddress) ==>
              Step(env, s, e).0 == s && IsFailed(Step(env, s, e).1, "8.1.1", "4.2")
  {
  }

  /** The session is stored under its id, born at the second clock reading; every
      other entry younger than 600 s at the first stays as it is, and no other. */
  ghost predicate IsOpened(s: State, t: State, id: Bytes, session: Session, sweepAt: int, bornAt: int) {
    && t.orders == s.orders && t.notifications == s.notifications
    && id in t.sessions && t.sessions[id] == Entry(session, None, bornAt)
    && forall k :: k != id ==>
         && (k in t.sessions <==> k in s.sessions && sweepAt - s.sessions[k].born < 600 * 1_000_000_000)
         && (k in t.sessions ==> t.sessions[k] == s.sessions[k])
  }

  lemma InitiateAsked(env: Env, s: State, e: Event)
    requires e.InitiateAuthentication? && |e.initiate.euiccChallenge| == 16
    requires '\0' !in env.serverAddress && '\0' !in e.initiate.smdpAddress
    ensures var (t, a) := Step(env, s, e);
            var r := env.lib.initiate(InitiateInput(
              e.initiate.euiccChallenge, e.initiate.euiccInfo1, e.nonceId, e.serverChallenge,
              env.serverAddress, e.initiate.smdpAddress));
            var f := env.lib.initiateFields(r.out.1);
            && (r.code != 0 ==> t == s && IsFailed(a, "8.1.1", ReasonOf(r.code)))
            && (r.code == 0 && f.code != 0 ==> t == s && IsFailed(a, "4.2", ReasonOf(f.code)))
            && (r.code == 0 && f.code == 0 ==>
                  a == Initiated(e.nonceId, f.out) && IsOpened(s, t, e.nonceId, r.out.0, e.sweepAt, e.bornAt))
  {
  }

  // ---- AuthenticateClient

  lemma {:induction false} OnlyOfferIsChosen(t: Orders, i: nat)
    requires IsOnlyOffer(t, i)
    ensures ChooseOrder(t) == Ok(t[i])
  {
    if i == 0 {
      NoOffer(t[1..]);
    } else {
      assert t[1..][i - 1] == t[i];
      OnlyOfferIsChosen(t[1..], i - 1);
      assert Offers(t) == Offers(t[1..]);
    }
  }

  lemma {:induction false} NoOffer(t: Orders)
    requires forall j :: 0 <= j < |t| ==> t[j].state in {Downloaded, Failed}
    ensures Offers(t) == []
  {
    if t == [] {
    } else {
      NoOffer(t[1..]);
    }
  }

  lemma {:induction false} NoneOffered(t: Orders)
    requires Offers(t) == []
    ensures forall j :: 0 <= j < |t| ==> t[j].state in {Downloaded, Failed}
  {
    if t == [] {
    } else {
      NoneOffered(t[1..]);
      assert forall j :: 0 < j < |t| ==> t[1..][j - 1] == t[j];
    }
  }

  lemma {:induction false} ChosenIsTheOnlyOffer(t: Orders) returns (i: nat)
    requires ChooseOrder(t).Ok?
    ensures IsOnlyOffer(t, i)
  {
    if Offerable(t[0]) {
      i := 0;
      NoneOffered(t[1..]);
      assert forall j :: 0 < j < |t| ==> t[1..][j - 1] == t[j];
    } else {
      assert Offers(t) == Offers(t[1..]);
      i := ChosenIsTheOnlyOffer(t[1..]);
      i := i + 1;
      forall j | 0 <= j < |t| && j != i
        ensures t[j].state in {Downloaded, Failed}
      {
        if j > 0 {
          assert t[1..][j - 1] == t[j];
        }
      }
    }
  }

  lemma AuthenticateWithoutOrder(env: Env, s: State, req: AuthenticateRequest)
    requires forall i: nat :: !IsOnlyOffer(s.orders, i)
    ensures var (t, a) := Step(env, s, AuthenticateClient(req));
            t == s && IsFailed(a, "8.2.5", "3.9")
  {
    if ChooseOrder(s.orders).Ok? {
      var i := ChosenIsTheOnlyOffer(s.orders);
    }
  }

  /** What is known of the eUICC then: both, or nothing is remembered. */
  ghost predicate IsBound(lib: Library, session: Session, t: Orders, u: Orders, id: int) {
    var eid, cert := lib.eid(session), lib.euiccCert(session);
    if eid.code == 0 && eid.out.Some? && cert.code == 0
    then IsChanged(t, u, id, Bound, eid.out, Some(cert.out))
    else IsChanged(t, u, id, Bound, None, None)
  }

  lemma BoundRowForRow(lib: Library, session: Session, t: Orders, id: int)
    ensures IsBound(lib, session, t,
                    WithState(Remembered(t, id, Eid(lib, session), EuiccCert(lib, session)), id, Bound), id)
  {
  }

  lemma AuthenticateAsked(env: Env, s: State, req: AuthenticateRequest, i: nat)
    requires IsOnlyOffer(s.orders, i)
    ensures var (t, a) := Step(env, s, AuthenticateClient(req));
            && t.notifications == s.notifications
            && (req.transactionId !in s.sessions ==> t == s && IsFailed(a, "8.10.1", "3.9"))
            && (req.transactionId in s.sessions ==>
                  var entry, order := s.sessions[req.transactionId], s.orders[i];
                  var (session, r) := env.lib.authenticate(
                                        entry.session, req.authenticateServerResponse, order.metadata);
                  var g := env.lib.authenticateFields(r.out);
                  && t.sessions == s.sessions[req.transactionId := Entry(
                                     session, if r.code == 0 then Some(order.id) else entry.orderId, entry.born)]
                  && (r.code != 0 ==> t.orders == s.orders && IsFailed(a, "8.10.1", ReasonOf(r.code)))
                  && (r.code == 0 && g.code != 0 ==> t.orders == s.orders && IsFailed(a, "4.2", ReasonOf(g.code)))
                  && (r.code == 0 && g.code == 0 ==>
                        && a == Authenticated(req.transactionId, g.out)
                        && IsBound(env.lib, session, s.orders, t.orders, order.id)))
  {
    OnlyOfferIsChosen(s.orders, i);
    if req.transactionId in s.sessions {
      var session := env.lib.authenticate(
        s.sessions[req.transactionId].session, req.authenticateServerResponse, s.orders[i].metadata).0;
      BoundRowForRow(env.lib, session, s.orders, s.orders[i].id);
    }
  }

  // ---- GetBoundProfilePackage

  lemma {:induction false} FindsTheFirst(t: Orders, i: nat, id: int)
    requires IsRowWithId(t, i, id)
    ensures Find(t, id) == Some(t[i])
  {
    if i == 0 {
    } else {
      assert forall j :: 0 <= j < i - 1 ==> t[1..][j] == t[j + 1];
      FindsTheFirst(t[1..], i - 1, id);
    }
  }

  lemma {:induction false} FindsNone(t: Orders, id: int)
    requires forall j :: 0 <= j < |t| ==> t[j].id != id
    ensures Find(t, id).None?
  {
    if t == [] {
    } else {
      FindsNone(t[1..], id);
    }
  }

  lemma GetPackageWithoutOrder(env: Env, s: State, req: PackageRequest, otskDp: Bytes)
    ensures var (t, a) := Step(env, s, GetBoundProfilePackage(req, otskDp));
            && (req.transactionId !in s.sessions ==> t == s && IsFailed(a, "8.10.1", "3.9"))
            && (req.transactionId in s.sessions && s.sessions[req.transactionId].orderId.None? ==>
                  t == s && IsFailed(a, "8.2.5", "3.9"))
    ensures var (t, a) := Step(env, s, GetBoundProfilePackage(req, otskDp));
            req.transactionId in s.sessions && s.sessions[req.transactionId].orderId.Some?
            && (forall j :: 0 <= j < |s.orders| ==> s.orders[j].id != s.sessions[req.transactionId].orderId.value) ==>
              t == s && IsFailed(a, "8.2.5", "3.9")
  {
    if req.transactionId in s.sessions && s.sessions[req.transactionId].orderId.Some? {
      var id := s.sessions[req.transactionId].orderId.value;
      if forall j :: 0 <= j < |s.orders| ==> s.orders[j].id != id {
        FindsNone(s.orders, id);
      }
    }
  }

  lemma GetPackageAsked(env: Env, s: State, req: PackageRequest, otskDp: Bytes, i: nat)
    requires req.transactionId in s.sessions && s.sessions[req.transactionId].orderId.Some?
    requires IsRowWithId(s.orders, i, s.sessions[req.transactionId].orderId.value)
    ensures var (t, a) := Step(env, s, GetBoundProfilePackage(req, otskDp));
            var entry := s.sessions[req.transactionId];
            var (session, r) := env.lib.boundPackage(
                                  entry.session, req.prepareDownloadResponse, s.orders[i].upp, otskDp);
            && t.notifications == s.notifications
            && (r.code != 0 ==>
                  && t.orders == s.orders
                  && t.sessions == s.sessions[req.transactionId := Entry(session, entry.orderId, entry.born)]
                  && IsFailed(a, "8.10.1", ReasonOf(r.code)))
            && (r.code == 0 ==>
                  && a == Package(req.transactionId, r.out)
                  && t.sessions == s.sessions - {req.transactionId}
                  && IsChanged(s.orders, t.orders, entry.orderId.value, Downloaded, None, None))
  {
    FindsTheFirst(s.orders, i, s.sessions[req.transactionId].orderId.value);
  }

  // ---- HandleNotification

  /** An order of the ICCID that could be read, if the store has one. */
  ghost predicate IsMatch(lib: Library, t: Orders, raw: Bytes, order: Option<Order>) {
    var read := lib.notificationMetadata(raw);
    && (order.Some? ==> order.value in t && read.code == 0 && read.out.iccid == Some(order.value.iccid))
    && (order.None? ==> read.code != 0 || forall o :: o in t ==> read.out.iccid != Some(o.iccid))
  }

  /** The row kept of a notification: what verified is believed, else what could
      be read is kept as unverified, else there is nothing to keep. */
  ghost predicate IsKept(lib: Library, n: Notifications, after: Notifications, raw: Bytes, order: Option<Order>) {
    var read := lib.notificationMetadata(raw);
    var v := lib.verifyNotification(if order.Some? then order.value.euiccCert else None, raw);
    var orderId := if order.Some? then Some(order.value.id) else None;
    var rowId := if n == [] then 1 else n[|n| - 1].id + 1;
    if v.code == 0
    then after == n + [Stored(rowId, NewNotification(
                         true, orderId, v.out.seqNumber, v.out.operation, v.out.iccid,
                         if v.out.isInstallationResult then Some(v.out.installed) else None, raw))]
    else if read.code == 0
    then after == n + [Stored(rowId, NewNotification(
                         false, orderId, read.out.seqNumber, read.out.operation, read.out.iccid, None, raw))]
    else after == n
  }

  /** The order moved, if a result verified for it. */
  ghost predicate IsMoved(lib: Library, t: Orders, u: Orders, raw: Bytes, order: Option<Order>) {
    var v := lib.verifyNotification(if order.Some? then order.value.euiccCert else None, raw);
    if order.Some? && v.code == 0 && v.out.isInstallationResult
    then IsChanged(t, u, order.value.id, if v.out.installed then Downloaded else Failed, None, None)
    else u == t
  }

  lemma NotificationHandled(env: Env, s: State, raw: Bytes, pick: nat) returns (order: Option<Order>)
    ensures var (t, a) := Step(env, s, HandleNotification(raw, pick));
            && IsMatch(env.lib, s.orders, raw, order)
            && IsKept(env.lib, s.notifications, t.notifications, raw, order)
            && IsMoved(env.lib, s.orders, t.orders, raw, order)
            && t.sessions == s.sessions && a == NoContent
  {
    order := ClaimedOrder(env.lib, s.orders, raw, pick);
  }

  /** Of several orders of one ICCID any may be found. */
  lemma AnyMatchMayBeFound(t: Orders, iccid: Bytes10, o: Order) returns (pick: nat)
    requires o in t && o.iccid == iccid
    ensures OneByIccid(t, iccid, pick) == Some(o)
  {
    var found := ByIccid(t, iccid);
    pick :| pick < |found| && found[pick] == o;
    Small(pick, |found|);
  }

  lemma Small(n: nat, m: nat)
    requires n < m
    ensures n % m == n
  {
  }

  // ---- order add

  /** The MatchingID is the one given, or else drawn, octet for symbol. */
  ghost predicate IsMatchingIdFor(c: AddCommand, m: string) {
    if c.matchingId.Some? then m == c.matchingId.value else MatchingId.IsDrawnFrom(m, c.raw)
  }

  ghost predicate IsUsed(t: Orders, m: string) {
    exists i :: 0 <= i < |t| && t[i].matchingId == m
  }

  lemma WhatIsAdded(c: AddCommand, iccid: Bytes10) returns (m: string)
    requires AsksForIccid(c, iccid)
    ensures IsMatchingIdFor(c, m)
    ensures OrderToAdd(c) == Some(NewOrder(m, iccid, c.upp, c.metadata))
  {
    IccidAskedFor(c);
    MatchingId.DrawnFromRaw(c.raw);
    m := if c.matchingId.Some? then c.matchingId.value else MatchingId.MatchingIdOf(c.raw);
  }

  /** Without an ICCID nothing is added. */
  lemma AddWithoutIccid(env: Env, s: State, c: AddCommand)
    requires forall iccid: Bytes10 :: !AsksForIccid(c, iccid)
    ensures Step(env, s, OrderAdd(c)) == (s, CommandError)
  {
    IccidAskedFor(c);
  }

  /** With one, an order is added exactly if its MatchingID is in no row. */
  lemma AddWithIccid(env: Env, s: State, c: AddCommand, iccid: Bytes10) returns (m: string)
    requires AsksForIccid(c, iccid)
    ensures IsMatchingIdFor(c, m)
    ensures IsUsed(s.orders, m) ==> Step(env, s, OrderAdd(c)) == (s, CommandError)
    ensures !IsUsed(s.orders, m) ==>
              var id := if s.orders == [] then 1 else s.orders[|s.orders| - 1].id + 1;
              var o := Order(id, m, iccid, c.upp, c.metadata, Available, None, None);
              Step(env, s, OrderAdd(c)) == (s.(orders := s.orders + [o]), OrderAdded(o))
  {
    m := WhatIsAdded(c, iccid);
  }

  /** The plain command works: an order is added if and only if an ICCID can be had
      and the MatchingID is free. */
  lemma AddedIff(env: Env, s: State, c: AddCommand)
    ensures Step(env, s, OrderAdd(c)).1.OrderAdded?
       <==> (exists iccid: Bytes10 :: AsksForIccid(c, iccid))
            && exists m :: IsMatchingIdFor(c, m) && !IsUsed(s.orders, m)
  {
    if iccid: Bytes10 :| AsksForIccid(c, iccid) {
      var m := AddWithIccid(env, s, c, iccid);
      forall other | IsMatchingIdFor(c, other)
        ensures other == m
      {
        if c.matchingId.None? {
          MatchingId.DrawnIsUnique(m, other, c.raw);
        }
      }
    } else {
      AddWithoutIccid(env, s, c);
    }
  }

  // ---- order reset

  lemma ResetOutcome(env: Env, s: State, id: int)
    ensures var (t, a) := Step(env, s, OrderReset(id));
            && t.notifications == s.notifications && t.sessions == s.sessions
            && ((exists i :: 0 <= i < |s.orders| && s.orders[i].id == id) ==>
                  a == OrderIsAvailable(id) && IsChanged(s.orders, t.orders, id, Available, None, None))
            && ((forall i :: 0 <= i < |s.orders| ==> s.orders[i].id != id) ==> t == s && a == CommandError)
  {
    if i :| 0 <= i < |s.orders| && s.orders[i].id == id {
      FindsSome(s.orders, i);
    } else {
      FindsNone(s.orders, id);
    }
  }

  lemma {:induction false} FindsSome(t: Orders, i: nat)
    requires i < |t|
    ensures Find(t, t[i].id).Some?
  {
    if i == 0 {
    } else {
      FindsSome(t[1..], i - 1);
    }
  }
}
