/** The notification table over whole runs
    (crates/smdp/src/server/es9.rs:304-353): what is kept, and that nothing kept
    is ever changed. */
module NotificationLog {
  import opened Basics
  import opened Rsp
  import opened OrderStore
  import opened Protocol
  import opened Es9
  import opened OrderLife

  /** A delivered notification, and what was made of it on arrival. */
  datatype Delivery = Delivery(
    raw: Bytes, order: Option<int>, read: Option<Notification>, verified: Option<Notification>)

  function Arrives(env: Env, s: State, e: Event): seq<Delivery> {
    if e.HandleNotification?
    then
      var order := ClaimedOrder(env.lib, s.orders, e.raw, e.pick);
      [Delivery(e.raw, if order.Some? then Some(order.value.id) else None,
                NotificationMetadata(env.lib, e.raw), Verified(env.lib, e.raw, order))]
    else []
  }

  /** Every notification delivered in a run, in order of arrival. */
  function Deliveries(env: Env, s: State, es: seq<Event>): seq<Delivery> {
    if es == [] then []
    else
      var before := es[..|es| - 1];
      Deliveries(env, s, before) + Arrives(env, Run(env, s, before), es[|es| - 1])
  }

  /** Something is known about it: it verified or could at least be read. */
  predicate Legible(d: Delivery) {
    d.verified.Some? || d.read.Some?
  }

  function Legibles(ds: seq<Delivery>): (r: seq<Delivery>)
    ensures forall d :: d in r <==> d in ds && Legible(d)
  {
    if ds == [] then []
    else Legibles(ds[..|ds| - 1]) + (if Legible(ds[|ds| - 1]) then [ds[|ds| - 1]] else [])
  }

  /** The row says of the delivery what there is to say: the octets as they
      came, whether they verified, and a verdict only from a verified result. */
  predicate Records(n: NewNotification, d: Delivery) {
    && n.raw == d.raw
    && n.orderId == d.order
    && (n.verified <==> d.verified.Some?)
    && (n.installed.Some? <==> d.verified.Some? && d.verified.value.isInstallationResult)
    && (n.installed.Some? ==> n.installed.value == d.verified.value.installed)
    && Legible(d)
    && var m := if d.verified.Some? then d.verified.value else d.read.value;
       n.seqNumber == m.seqNumber && n.operation == m.operation && n.iccid == m.iccid
  }

  /** `after` is `before` and one row for each delivery in `kept`. */
  ghost predicate Extends(before: Notifications, after: Notifications, kept: seq<Delivery>) {
    && |after| == |before| + |kept|
    && before <= after
    && forall i :: 0 <= i < |kept| ==> Records(after[|before| + i].content, kept[i])
  }

  lemma ExtendsTwice(a: Notifications, b: Notifications, c: Notifications, k: seq<Delivery>, l: seq<Delivery>)
    requires Extends(a, b, k) && Extends(b, c, l)
    ensures Extends(a, c, k + l)
  {
    forall i | 0 <= i < |k + l|
      ensures Records(c[|a| + i].content, (k + l)[i])
    {
      if i >= |k| {
        assert (k + l)[i] == l[i - |k|] && c[|a| + i] == c[|b| + (i - |k|)];
      }
    }
  }

  lemma StepExtends(env: Env, s: State, e: Event)
    ensures Extends(s.notifications, Step(env, s, e).0.notifications, Legibles(Arrives(env, s, e)))
  {
    if e.HandleNotification? {
      var order := ClaimedOrder(env.lib, s.orders, e.raw, e.pick);
      var d := Arrives(env, s, e)[0];
      var row := RowToKeep(env.lib, e.raw, order);
      assert Arrives(env, s, e)[..0] == [];
      assert Legibles(Arrives(env, s, e)) == if Legible(d) then [d] else [];
      assert row.Some? <==> Legible(d);
      assert row.Some? ==> Records(row.value, d);
    }
  }

  lemma {:induction false} LegiblesOfAppended(ds: seq<Delivery>, arrived: seq<Delivery>)
    requires |arrived| <= 1
    ensures Legibles(ds + arrived) == Legibles(ds) + Legibles(arrived)
  {
    if arrived == [] {
      assert ds + arrived == ds;
    } else {
      assert (ds + arrived)[..|ds|] == ds && arrived[..0] == [];
    }
  }

  /** Conservation: a run leaves every earlier row as it was and appends exactly
      one row per legible delivery, in order of arrival. */
  lemma {:induction false} LogIsConserved(env: Env, s: State, es: seq<Event>)
    ensures Extends(s.notifications, Run(env, s, es).notifications, Legibles(Deliveries(env, s, es)))
  {
    if es == [] {
    } else {
      var before, e := es[..|es| - 1], es[|es| - 1];
      var t := Run(env, s, before);
      LogIsConserved(env, s, before);
      StepExtends(env, t, e);
      LegiblesOfAppended(Deliveries(env, s, before), Arrives(env, t, e));
      ExtendsTwice(s.notifications, t.notifications, Run(env, s, es).notifications,
                   Legibles(Deliveries(env, s, before)), Legibles(Arrives(env, t, e)));
    }
  }

  /** Row ids ascend for ever, so reading in id order is reading in order of
      arrival. */
  ghost predicate IdsAscend(n: Notifications) {
    forall i, j :: 0 <= i < j < |n| ==> n[i].id < n[j].id
  }

  lemma StepKeepsIds(env: Env, s: State, e: Event)
    requires IdsAscend(s.notifications)
    ensures IdsAscend(Step(env, s, e).0.notifications)
  {
    if e.HandleNotification? {
      var row := RowToKeep(env.lib, e.raw, ClaimedOrder(env.lib, s.orders, e.raw, e.pick));
      assert IdsAscend(Kept(s.notifications, row));
    }
  }

  lemma {:induction false} LogIsInArrivalOrder(env: Env, s: State, es: seq<Event>)
    requires IdsAscend(s.notifications)
    ensures IdsAscend(Run(env, s, es).notifications)
  {
    if es == [] {
    } else {
      LogIsInArrivalOrder(env, s, es[..|es| - 1]);
      StepKeepsIds(env, Run(env, s, es[..|es| - 1]), es[|es| - 1]);
    }
  }

  /** An unverified notification moves nothing: it can only add its row. */
  lemma UnverifiedMovesNothing(env: Env, s: State, raw: Bytes, pick: nat)
    ensures var e := HandleNotification(raw, pick);
            Step(env, s, e).0.orders != s.orders ==> Arrives(env, s, e)[0].verified.Some?
    ensures Step(env, s, HandleNotification(raw, pick)).0.sessions == s.sessions
  {
  }

  /** Kept or not: a delivery adds its one row exactly when it verified or could
      be read. What is neither leaves nothing behind, although the handler's
      comment says that everything that arrives is kept. */
  lemma KeptIffLegible(env: Env, s: State, raw: Bytes, pick: nat)
    ensures var e := HandleNotification(raw, pick);
            && (Step(env, s, e).0.notifications != s.notifications <==> Legible(Arrives(env, s, e)[0]))
            && (Legible(Arrives(env, s, e)[0]) <==>
                  || env.lib.notificationMetadata(raw).code == 0
                  || env.lib.verifyNotification(
                       if ClaimedOrder(env.lib, s.orders, raw, pick).Some?
                       then ClaimedOrder(env.lib, s.orders, raw, pick).value.euiccCert else None, raw).code == 0)
  {
    StepExtends(env, s, HandleNotification(raw, pick));
    assert Arrives(env, s, HandleNotification(raw, pick))[..0] == [];
  }

  /** The order is the row a query for the ICCID that can be read finds. */
  predicate IsNamed(env: Env, s: State, raw: Bytes, pick: nat, order: Order) {
    var read := env.lib.notificationMetadata(raw);
    read.code == 0 && read.out.iccid.Some? && OneByIccid(s.orders, read.out.iccid.value, pick) == Some(order)
  }

  /** An order is moved exactly by an installation result that verified with the
      certificate remembered for an order of the ICCID it names, and to the
      state the result says. */
  lemma MovesIffVerifiedResult(env: Env, s: State, raw: Bytes, pick: nat, id: int, to: OrderState)
    ensures ResultFor(env, s, HandleNotification(raw, pick)) == Some(Move(id, to)) <==>
              exists order :: IsNamed(env, s, raw, pick, order) && order.id == id && order in s.orders
                && var r := env.lib.verifyNotification(order.euiccCert, raw);
                   r.code == 0 && r.out.isInstallationResult && to == if r.out.installed then Downloaded else Failed
  {
    var order := ClaimedOrder(env.lib, s.orders, raw, pick);
    assert order.Some? ==> IsNamed(env, s, raw, pick, order.value);
  }
}
