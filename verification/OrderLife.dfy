/** The life of an order over whole runs of the server and its commands: what
    never changes, what moves it, how often it is served. */
module OrderLife {
  import opened Basics
  import opened Rsp
  import opened OrderStore
  import opened SessionTable
  import opened Protocol
  import opened Es9
  import CommandLine
  import MatchingId
  import Metadata

  // ---- observations on one step

  /** The order a step hands a package out of. */
  function ServedFrom(env: Env, s: State, e: Event): Option<int> {
    if e.GetBoundProfilePackage? && Step(env, s, e).1.Package?
    then s.sessions[e.package.transactionId].orderId
    else None
  }

  /** What a verified installation result, matched to an order, says. */
  function ResultFor(env: Env, s: State, e: Event): Option<Move> {
    if e.HandleNotification?
    then MoveToMake(env.lib, e.raw, ClaimedOrder(env.lib, s.orders, e.raw, e.pick))
    else None
  }

  /** A package was served from the order, or a verified result matched it. */
  predicate Settles(env: Env, s: State, e: Event, id: int) {
    ServedFrom(env, s, e) == Some(id) || (ResultFor(env, s, e).Some? && ResultFor(env, s, e).value.order == id)
  }

  predicate HandedOver(t: Orders, id: int) {
    Find(t, id).Some? && (Find(t, id).value.state == Downloaded || Find(t, id).value.state == Failed)
  }

  /** The same Profile for the same MatchingID; what is remembered of an eUICC
      may be replaced, never cleared. */
  predicate SameProfile(a: Order, b: Order) {
    && a.id == b.id && a.matchingId == b.matchingId && a.iccid == b.iccid
    && a.upp == b.upp && a.metadata == b.metadata
    && (a.eid.Some? ==> b.eid.Some?) && (a.euiccCert.Some? ==> b.euiccCert.Some?)
  }

  // ---- one step, seen from one order

  lemma StepKeepsKeys(env: Env, s: State, e: Event)
    requires WellKeyed(s.orders)
    ensures WellKeyed(Step(env, s, e).0.orders)
  {
    match e
    case InitiateAuthentication(_, _, _, _, _) =>
    case AuthenticateClient(req) =>
      if ChooseOrder(s.orders).Ok? {
        var order := ChooseOrder(s.orders).value;
        var granted := AskAuthenticate(env.lib, s.sessions, req, order).1;
        if granted.Ok? {
          BindingKeepsKeys(s.orders, order.id, granted.value.eid, granted.value.euiccCert);
        }
      }
    case GetBoundProfilePackage(req, _) =>
      if SessionOrder(s.sessions, req.transactionId).Ok? {
        StateKeepsKeys(s.orders, SessionOrder(s.sessions, req.transactionId).value, Downloaded);
      }
    case HandleNotification(raw, pick) =>
      var m := MoveToMake(env.lib, raw, ClaimedOrder(env.lib, s.orders, raw, pick));
      if m.Some? {
        StateKeepsKeys(s.orders, m.value.order, m.value.to);
      }
    case OrderAdd(c) =>
      if OrderToAdd(c).Some? {
        OrderKeepsKeys(s.orders, OrderToAdd(c).value);
      }
    case OrderReset(id) =>
      StateKeepsKeys(s.orders, id, Available);
  }

  /** The ways the row of one order can be treated, given what else is true of
      the step. */
  predicate Follows(
    before: Option<Order>, after: Option<Order>, settles: bool, adds: bool, resets: bool, binds: bool)
  {
    && (before.Some? ==> after.Some? && SameProfile(before.value, after.value))
    && (before.None? && after.Some? ==> adds && after.value.state == Available)
    && (settles ==> before.Some? && after.Some? && after.value.state in {Downloaded, Failed})
    && (resets && before.Some? ==> after.value.state == Available)
    && (before.Some? && after.value.state != before.value.state ==>
          || (settles && after.value.state in {Downloaded, Failed})
          || (resets && after.value.state == Available)
          || (binds && Offerable(before.value) && after.value.state == Bound))
  }

  /** A step treats the row of one order in one of these ways. */
  ghost predicate RowFollows(env: Env, s: State, e: Event, id: int) {
    var (t, a) := Step(env, s, e);
    Follows(Find(s.orders, id), Find(t.orders, id),
            Settles(env, s, e, id), e.OrderAdd?, e == OrderReset(id), a.Authenticated?)
  }

  lemma AuthenticateWrites(env: Env, s: State, e: Event)
    requires e.AuthenticateClient?
    ensures var (t, a) := Step(env, s, e);
            && (!a.Authenticated? ==> t.orders == s.orders)
            && (a.Authenticated? ==> ChooseOrder(s.orders).Ok?)
            && (a.Authenticated? ==>
                  var order := ChooseOrder(s.orders).value;
                  var granted := AskAuthenticate(env.lib, s.sessions, e.authenticate, order).1;
                  && granted.Ok?
                  && t.orders == WithState(Remembered(s.orders, order.id, granted.value.eid, granted.value.euiccCert),
                                           order.id, Bound))
  {
  }

  lemma BoundFollows(t: Orders, order: Order, eid: Option<string>, cert: Option<Bytes>, id: int)
    requires Find(t, order.id) == Some(order) && Offerable(order)
    ensures Follows(Find(t, id), Find(WithState(Remembered(t, order.id, eid, cert), order.id, Bound), id),
                    false, false, false, true)
  {
    FindAfterBinding(t, order.id, eid, cert, id);
  }

  lemma AuthenticateOnOrder(env: Env, s: State, e: Event, id: int)
    requires Ascending(s.orders) && e.AuthenticateClient?
    ensures RowFollows(env, s, e, id)
  {
    AuthenticateWrites(env, s, e);
    if Step(env, s, e).1.Authenticated? {
      ChosenOrderIsTheOnlyOffer(s.orders);
      var order := ChooseOrder(s.orders).value;
      var g := AskAuthenticate(env.lib, s.sessions, e.authenticate, order).1.value;
      BoundFollows(s.orders, order, g.eid, g.euiccCert, id);
    }
  }

  lemma GetPackageWrites(env: Env, s: State, e: Event)
    requires e.GetBoundProfilePackage?
    ensures var (t, served) := (Step(env, s, e).0, ServedFrom(env, s, e));
            && (served.None? ==> t.orders == s.orders)
            && (served.Some? ==> Find(s.orders, served.value).Some?)
            && t.orders == Moved(s.orders, if served.Some? then Some(Move(served.value, Downloaded)) else None)
  {
  }

  lemma GetPackageOnOrder(env: Env, s: State, e: Event, id: int)
    requires e.GetBoundProfilePackage?
    ensures RowFollows(env, s, e, id)
  {
    var served := ServedFrom(env, s, e);
    GetPackageWrites(env, s, e);
    MovedFollows(s.orders, if served.Some? then Some(Move(served.value, Downloaded)) else None, id);
  }

  lemma MovedFollows(t: Orders, m: Option<Move>, id: int)
    requires m.Some? ==> Find(t, m.value.order).Some? && m.value.to in {Downloaded, Failed}
    ensures Follows(Find(t, id), Find(Moved(t, m), id), m.Some? && m.value.order == id, false, false, false)
  {
    if m.Some? {
      FindAfterState(t, m.value.order, m.value.to, id);
    }
  }

  lemma ResultNamesARow(env: Env, s: State, e: Event)
    requires Ascending(s.orders) && e.HandleNotification?
    ensures var m := ResultFor(env, s, e);
            m.Some? ==> Find(s.orders, m.value.order).Some? && m.value.to in {Downloaded, Failed}
  {
    var order := ClaimedOrder(env.lib, s.orders, e.raw, e.pick);
    if order.Some? {
      FindsEveryRow(s.orders, order.value);
    }
  }

  lemma NotificationOnOrder(env: Env, s: State, e: Event, id: int)
    requires Ascending(s.orders) && e.HandleNotification?
    ensures RowFollows(env, s, e, id)
  {
    ResultNamesARow(env, s, e);
    MovedFollows(s.orders, ResultFor(env, s, e), id);
  }

  lemma AddOnOrder(env: Env, s: State, e: Event, id: int)
    requires Ascending(s.orders) && e.OrderAdd?
    ensures RowFollows(env, s, e, id)
  {
    if OrderToAdd(e.add).Some? {
      FindAfterOrder(s.orders, OrderToAdd(e.add).value, id);
    }
  }

  lemma ResetOnOrder(env: Env, s: State, e: Event, id: int)
    requires e.OrderReset?
    ensures RowFollows(env, s, e, id)
  {
    FindAfterState(s.orders, e.id, Available, id);
  }

  /** What a step does to the row of one order, whichever step it is. */
  lemma StepOnOrder(env: Env, s: State, e: Event, id: int)
    requires Ascending(s.orders)
    ensures RowFollows(env, s, e, id)
  {
    match e
    case InitiateAuthentication(_, _, _, _, _) =>
    case AuthenticateClient(_) => AuthenticateOnOrder(env, s, e, id);
    case GetBoundProfilePackage(_, _) => GetPackageOnOrder(env, s, e, id);
    case HandleNotification(_, _) => NotificationOnOrder(env, s, e, id);
    case OrderAdd(_) => AddOnOrder(env, s, e, id);
    case OrderReset(_) => ResetOnOrder(env, s, e, id);
  }

  // ---- runs

  lemma RunSplits(env: Env, s: State, es: seq<Event>)
    requires es != []
    ensures es == es[..|es| - 1] + [es[|es| - 1]]
    ensures Run(env, s, es) == Step(env, Run(env, s, es[..|es| - 1]), es[|es| - 1]).0
    ensures forall k :: 0 <= k < |es| ==> es[..|es| - 1][..k] == es[..k]
  {
  }

  lemma {:induction false} RunKeepsKeys(env: Env, s: State, es: seq<Event>)
    requires WellKeyed(s.orders)
    ensures WellKeyed(Run(env, s, es).orders)
  {
    if es == [] {
    } else {
      RunKeepsKeys(env, s, es[..|es| - 1]);
      StepKeepsKeys(env, Run(env, s, es[..|es| - 1]), es[|es| - 1]);
    }
  }

  /** An order is never lost, its Profile never changes, and neither the EID nor
      the certificate remembered for it is ever cleared. */
  lemma {:induction false} RunKeepsProfiles(env: Env, s: State, es: seq<Event>, id: int)
    requires WellKeyed(s.orders) && Find(s.orders, id).Some?
    ensures Find(Run(env, s, es).orders, id).Some?
    ensures SameProfile(Find(s.orders, id).value, Find(Run(env, s, es).orders, id).value)
  {
    if es == [] {
    } else {
      var before := es[..|es| - 1];
      RunKeepsProfiles(env, s, before, id);
      RunKeepsKeys(env, s, before);
      StepOnOrder(env, Run(env, s, before), es[|es| - 1], id);
    }
  }

  // ---- the closed region {Downloaded, Failed}

  /** Only `order reset` takes an order out of it. */
  lemma StaysHandedOver(env: Env, s: State, e: Event, id: int)
    requires Ascending(s.orders) && HandedOver(s.orders, id)
    ensures HandedOver(Step(env, s, e).0.orders, id) <==> e != OrderReset(id)
  {
    StepOnOrder(env, s, e, id);
  }

  /** Event `k` settled the order and no reset came after it. */
  predicate SettledAt(env: Env, s: State, es: seq<Event>, id: int, k: nat) {
    && k < |es|
    && Settles(env, Before(env, s, es, k), es[k], id)
    && forall j :: k < j < |es| ==> es[j] != OrderReset(id)
  }

  lemma SettledOn(env: Env, s: State, es: seq<Event>, e: Event, id: int, k: nat)
    requires k < |es|
    ensures SettledAt(env, s, es + [e], id, k) <==> SettledAt(env, s, es, id, k) && e != OrderReset(id)
  {
    var all := es + [e];
    assert all[..k] == es[..k] && all[|es|] == e;
    assert forall j :: 0 <= j < |es| ==> all[j] == es[j];
  }

  /** As long as no command runs in the middle of a handler, an order that was
      not handed over at the start is handed over at the end of a run if and only
      if, since its last reset, a package was served from it or a verified
      installation result matched it. (`Stranding` has commands at any moment.) */
  lemma {:induction false} HandedOverIffSettled(env: Env, s: State, es: seq<Event>, id: int)
    requires WellKeyed(s.orders) && !HandedOver(s.orders, id)
    ensures HandedOver(Run(env, s, es).orders, id) <==> exists k: nat :: SettledAt(env, s, es, id, k)
  {
    if es == [] {
    } else {
      var n := |es| - 1;
      var before, e := es[..n], es[n];
      var t := Run(env, s, before);
      RunSplits(env, s, es);
      RunKeepsKeys(env, s, before);
      HandedOverIffSettled(env, s, before, id);
      StepOnOrder(env, t, e, id);
      forall k: nat | k < n
        ensures SettledAt(env, s, es, id, k) <==> SettledAt(env, s, before, id, k) && e != OrderReset(id)
      {
        SettledOn(env, s, before, e, id, k);
      }
      assert SettledAt(env, s, es, id, n) <==> Settles(env, t, e, id);
      if HandedOver(Run(env, s, es).orders, id) && !Settles(env, t, e, id) {
        var k: nat :| SettledAt(env, s, before, id, k);
        assert SettledAt(env, s, es, id, k);
      }
      if HandedOver(t.orders, id) {
        StaysHandedOver(env, t, e, id);
      }
    }
  }

  // ---- bounded re-serving

  /** Live sessions that would be served from the order. */
  function Holders(t: Table, id: int): set<Bytes> {
    set k | k in t && t[k].orderId == Some(id)
  }

  function ServedBy(env: Env, s: State, e: Event, id: int): nat {
    if ServedFrom(env, s, e) == Some(id) then 1 else 0
  }

  /** Packages a run hands out from one order. */
  function TimesServed(env: Env, s: State, es: seq<Event>, id: int): nat {
    if es == [] then 0
    else
      var before := es[..|es| - 1];
      TimesServed(env, s, before, id) + ServedBy(env, Run(env, s, before), es[|es| - 1], id)
  }

  /** A handed-over order is never given to another session. */
  lemma NoNewHolders(env: Env, s: State, e: Event, id: int, k: Bytes)
    requires Ascending(s.orders) && HandedOver(s.orders, id)
    ensures k in Holders(Step(env, s, e).0.sessions, id) ==> k in Holders(s.sessions, id)
  {
    if e.AuthenticateClient? && ChooseOrder(s.orders).Ok? {
      ChosenOrderIsTheOnlyOffer(s.orders);
    }
  }

  lemma ServingSpendsTheSession(env: Env, s: State, e: Event, id: int)
    requires ServedFrom(env, s, e) == Some(id)
    ensures e.package.transactionId in Holders(s.sessions, id)
    ensures e.package.transactionId !in Step(env, s, e).0.sessions
  {
  }

  lemma StepSpendsHolders(env: Env, s: State, e: Event, id: int)
    requires Ascending(s.orders) && HandedOver(s.orders, id)
    ensures |Holders(Step(env, s, e).0.sessions, id)| + ServedBy(env, s, e, id) <= |Holders(s.sessions, id)|
  {
    var before, after := Holders(s.sessions, id), Holders(Step(env, s, e).0.sessions, id);
    forall k | k in after
      ensures k in before
    {
      NoNewHolders(env, s, e, id, k);
    }
    if ServedFrom(env, s, e) == Some(id) {
      ServingSpendsTheSession(env, s, e, id);
      assert after <= before - {e.package.transactionId};
      Subset(after, before - {e.package.transactionId});
    } else {
      Subset(after, before);
    }
  }

  /** Once an order is Downloaded or Failed, packages served from it plus live
      sessions holding it never grow until it is reset: what is served later is
      at most the sessions that held it then. (`Reserving` has commands at any
      moment.) */
  lemma {:induction false} ReservingIsBounded(env: Env, s: State, es: seq<Event>, id: int)
    requires WellKeyed(s.orders) && HandedOver(s.orders, id)
    requires OrderReset(id) !in es
    ensures HandedOver(Run(env, s, es).orders, id)
    ensures TimesServed(env, s, es, id) + |Holders(Run(env, s, es).sessions, id)| <= |Holders(s.sessions, id)|
  {
    if es == [] {
    } else {
      var before, e := es[..|es| - 1], es[|es| - 1];
      RunSplits(env, s, es);
      RunKeepsKeys(env, s, before);
      ReservingIsBounded(env, s, before, id);
      StaysHandedOver(env, Run(env, s, before), e, id);
      StepSpendsHolders(env, Run(env, s, before), e, id);
    }
  }

  /** The bound is reached, so nothing smaller is an invariant: a handed-over
      order is served again to every session that holds it and asks, if the
      library accepts. */
  lemma HeldSessionIsServed(env: Env, s: State, req: PackageRequest, otskDp: Bytes, id: int)
    requires req.transactionId in Holders(s.sessions, id) && Find(s.orders, id).Some?
    ensures ServedFrom(env, s, GetBoundProfilePackage(req, otskDp)) == Some(id)
       <==> env.lib.boundPackage(s.sessions[req.transactionId].session, req.prepareDownloadResponse,
                                 Find(s.orders, id).value.upp, otskDp).1.code == 0
  {
  }

  // ---- from an offer to a package

  /** The library accepts every call of a download for `order`. */
  ghost predicate Accepts(env: Env, init: Event, resp: Bytes, prepared: Bytes, otskDp: Bytes, order: Order)
    requires init.InitiateAuthentication?
  {
    var o := OpenSession(env, init.initiate, init.nonceId, init.serverChallenge);
    && o.Ok?
    && var (session, granted) := env.lib.authenticate(o.value.session, resp, order.metadata);
    && granted.code == 0
    && env.lib.authenticateFields(granted.out).code == 0
    && env.lib.boundPackage(session, prepared, order.upp, otskDp).1.code == 0
  }

  /** From every state with exactly one order on offer, a download the library
      accepts ends with that order's package served, the order Downloaded and
      the eUICC remembered: nothing that happened before can have stranded it. */
  lemma AcceptedDownloadSucceeds(env: Env, s: State, init: Event, resp: Bytes, prepared: Bytes, otskDp: Bytes)
    requires WellKeyed(s.orders) && ChooseOrder(s.orders).Ok? && init.InitiateAuthentication?
    requires Accepts(env, init, resp, prepared, otskDp, ChooseOrder(s.orders).value)
    ensures var tid, order := init.nonceId, ChooseOrder(s.orders).value;
            var opening := OpenSession(env, init.initiate, tid, init.serverChallenge).value;
            var (session, granted) := env.lib.authenticate(opening.session, resp, order.metadata);
            var auth := AuthenticateClient(AuthenticateRequest(tid, resp));
            var get := GetBoundProfilePackage(PackageRequest(tid, prepared), otskDp);
            var s1, s2 := Step(env, s, init).0, Step(env, Step(env, s, init).0, auth).0;
            var (s3, a3) := Step(env, s2, get);
            && Step(env, s, init).1 == opening.body
            && Step(env, s1, auth).1 == Authenticated(tid, env.lib.authenticateFields(granted.out).out)
            && a3 == Package(tid, env.lib.boundPackage(session, prepared, order.upp, otskDp).1.out)
            && ServedFrom(env, s2, get) == Some(order.id)
            && HandedOver(s3.orders, order.id) && Find(s3.orders, order.id).value.state == Downloaded
            && (Eid(env.lib, session).Some? && EuiccCert(env.lib, session).Some? ==>
                  && Find(s3.orders, order.id).value.eid == Eid(env.lib, session)
                  && Find(s3.orders, order.id).value.euiccCert == EuiccCert(env.lib, session))
            && tid !in s3.sessions
  {
    var tid, order := init.nonceId, ChooseOrder(s.orders).value;
    var auth := AuthenticateClient(AuthenticateRequest(tid, resp));
    var s1 := Step(env, s, init).0;
    var s2 := Step(env, s1, auth).0;
    ChosenOrderIsTheOnlyOffer(s.orders);
    var granted := AskAuthenticate(env.lib, s1.sessions, auth.authenticate, order).1.value;
    FindAfterBinding(s1.orders, order.id, granted.eid, granted.euiccCert, order.id);
    FindAfterState(s2.orders, order.id, Downloaded, order.id);
  }

  // ---- adding an order

  /** The ICCID a command asks for: the one given, or else the metadata's. */
  ghost predicate AsksForIccid(c: AddCommand, iccid: Bytes10) {
    if c.iccid.Some? then CommandLine.TenPairs(c.iccid.value, iccid) else Metadata.Carries(c.metadata, iccid)
  }

  /** It can be had exactly if there is something to add, and it is unique. */
  lemma IccidAskedFor(c: AddCommand)
    ensures OrderToAdd(c).Some? ==> AsksForIccid(c, OrderToAdd(c).value.iccid)
    ensures forall iccid: Bytes10 :: AsksForIccid(c, iccid) ==>
              OrderToAdd(c).Some? && OrderToAdd(c).value.iccid == iccid
  {
    if c.iccid.Some? {
      CommandLine.IccidIffTenPairs(c.iccid.value);
      if OrderToAdd(c).Some? {
        CommandLine.ParsedArePairs(c.iccid.value, 10);
      }
    } else {
      Metadata.IccidOfIsTheCarriedOne(c.metadata);
    }
  }

  /** `order add` adds an order exactly if an ICCID can be had and the MatchingID,
      given or drawn, is in no row. What it leaves in the table: the files as
      given, the MatchingID as given or 22 drawn symbols, the ICCID as given or as
      the metadata has it, nothing known of any eUICC, and every other order as it
      was. */
  lemma AddedOrderIsAsAsked(env: Env, s: State, c: AddCommand)
    requires WellKeyed(s.orders)
    ensures var m := if c.matchingId.Some? then c.matchingId.value else MatchingId.MatchingIdOf(c.raw);
            && (Step(env, s, OrderAdd(c)).1.OrderAdded?
                <==> (exists iccid: Bytes10 :: AsksForIccid(c, iccid)) && !HasMatchingId(s.orders, m))
            && (!Step(env, s, OrderAdd(c)).1.OrderAdded? ==> Step(env, s, OrderAdd(c)) == (s, CommandError))
    ensures var a, t := Step(env, s, OrderAdd(c)).1, Step(env, s, OrderAdd(c)).0.orders;
            a.OrderAdded? ==>
              && t == s.orders + [a.order] && Find(t, a.order.id) == Some(a.order) && Find(s.orders, a.order.id).None?
              && a.order.upp == c.upp && a.order.metadata == c.metadata
              && a.order.state == Available && a.order.eid.None? && a.order.euiccCert.None?
              && (if c.matchingId.Some? then a.order.matchingId == c.matchingId.value
                  else |a.order.matchingId| == 22 && MatchingId.IsDrawnFrom(a.order.matchingId, c.raw))
              && AsksForIccid(c, a.order.iccid)
  {
    IccidAskedFor(c);
    MatchingId.DrawnFromRaw(c.raw);
    if OrderToAdd(c).Some? {
      FindAfterOrder(s.orders, OrderToAdd(c).value, NextId(s.orders));
    }
  }

  // ---- the ICCID stated once

  /** An order added without `--iccid` agrees with its own metadata, then and
      for the rest of every run. */
  lemma AddedOrderAgreesWithMetadata(env: Env, s: State, c: AddCommand, es: seq<Event>)
    requires WellKeyed(s.orders) && c.iccid.None?
    requires Step(env, s, OrderAdd(c)).1.OrderAdded?
    ensures var id := NextId(s.orders);
            var o := Find(Run(env, Step(env, s, OrderAdd(c)).0, es).orders, id);
            && Find(s.orders, id).None?
            && o.Some? && o.value.metadata == c.metadata && o.value.upp == c.upp
            && Metadata.Carries(o.value.metadata, o.value.iccid)
  {
    var id, t := NextId(s.orders), Step(env, s, OrderAdd(c)).0;
    FindAfterOrder(s.orders, OrderToAdd(c).value, id);
    StepKeepsKeys(env, s, OrderAdd(c));
    RunKeepsProfiles(env, t, es, id);
    Metadata.IccidOfIsTheCarriedOne(c.metadata);
  }
}
