/** What outlives a process (crates/smdp/src/store/mod.rs and
    crates/smdp/src/store/sqlite.rs): the order table and the notification
    table, as rows in ascending id order. Every write succeeds. */
module OrderStore {
  import opened Basics

  datatype OrderState = Available | Bound | Downloaded | Failed

  datatype Order = Order(
    id: int, matchingId: string, iccid: Bytes10, upp: Bytes, metadata: Bytes,
    state: OrderState, eid: Option<string>, euiccCert: Option<Bytes>)

  datatype NewOrder = NewOrder(matchingId: string, iccid: Bytes10, upp: Bytes, metadata: Bytes)

  datatype NewNotification = NewNotification(
    verified: bool, orderId: Option<int>, seqNumber: int, operation: int,
    iccid: Option<Bytes10>, installed: Option<bool>, raw: Bytes)

  datatype StoredNotification = Stored(id: int, content: NewNotification)

  type Orders = seq<Order>

  type Notifications = seq<StoredNotification>

  // ---- the order table as a value

  /** Row ids ascend, as a primary key read in id order does. */
  ghost predicate Ascending(t: Orders) {
    forall i, j :: 0 <= i < j < |t| ==> t[i].id < t[j].id
  }

  ghost predicate UniqueMatchingIds(t: Orders) {
    forall i, j :: 0 <= i < j < |t| ==> t[i].matchingId != t[j].matchingId
  }

  ghost predicate WellKeyed(t: Orders) {
    Ascending(t) && UniqueMatchingIds(t)
  }

  /** The row with a given id. */
  function Find(t: Orders, id: int): (o: Option<Order>)
    ensures o.Some? ==> o.value in t && o.value.id == id
  {
    if t == [] then None else if t[0].id == id then Some(t[0]) else Find(t[1..], id)
  }

  /** One more than the largest row id. */
  function NextId(t: Orders): int {
    if t == [] then 1 else t[|t| - 1].id + 1
  }

  predicate HasMatchingId(t: Orders, m: string) {
    exists i :: 0 <= i < |t| && t[i].matchingId == m
  }

  function Row(id: int, added: NewOrder): Order {
    Order(id, added.matchingId, added.iccid, added.upp, added.metadata, Available, None, None)
  }

  function WithOrder(t: Orders, added: NewOrder): Orders {
    if HasMatchingId(t, added.matchingId) then t else t + [Row(NextId(t), added)]
  }

  function WithState(t: Orders, id: int, st: OrderState): Orders {
    seq(|t|, i requires 0 <= i < |t| => if t[i].id == id then t[i].(state := st) else t[i])
  }

  function WithEuicc(t: Orders, id: int, eid: string, cert: Bytes): Orders {
    seq(|t|, i requires 0 <= i < |t| =>
          if t[i].id == id then t[i].(eid := Some(eid), euiccCert := Some(cert)) else t[i])
  }

  /** Rows carrying an ICCID. Several may: it is indexed, not unique. */
  function ByIccid(t: Orders, iccid: Bytes10): (r: Orders)
    ensures forall o :: o in r <==> o in t && o.iccid == iccid
  {
    if t == [] then []
    else (if t[0].iccid == iccid then [t[0]] else []) + ByIccid(t[1..], iccid)
  }

  /** Which of several matching rows a query for one yields is the database's
      choice; `pick` stands for it. */
  function OneByIccid(t: Orders, iccid: Bytes10, pick: nat): (o: Option<Order>)
    ensures o.None? <==> forall r :: r in t ==> r.iccid != iccid
    ensures o.Some? ==> o.value in t && o.value.iccid == iccid
  {
    var m := ByIccid(t, iccid);
    assert m != [] ==> m[0] in t && m[0].iccid == iccid;
    if m == [] then None else Some(m[pick % |m|])
  }

  function NextNotificationId(n: Notifications): int {
    if n == [] then 1 else n[|n| - 1].id + 1
  }

  function WithNotification(n: Notifications, content: NewNotification): Notifications {
    n + [Stored(NextNotificationId(n), content)]
  }

  // ---- laws: what a lookup sees after an update

  lemma {:induction false} FindAfterState(t: Orders, id: int, st: OrderState, at: int)
    ensures Find(WithState(t, id, st), at)
         == match Find(t, at)
            case None => None
            case Some(o) => Some(if at == id then o.(state := st) else o)
  {
    if t == [] {
    } else {
      assert WithState(t, id, st)[1..] == WithState(t[1..], id, st);
      FindAfterState(t[1..], id, st, at);
    }
  }

  lemma {:induction false} FindAfterEuicc(t: Orders, id: int, eid: string, cert: Bytes, at: int)
    ensures Find(WithEuicc(t, id, eid, cert), at)
         == match Find(t, at)
            case None => None
            case Some(o) => Some(if at == id then o.(eid := Some(eid), euiccCert := Some(cert)) else o)
  {
    if t == [] {
    } else {
      assert WithEuicc(t, id, eid, cert)[1..] == WithEuicc(t[1..], id, eid, cert);
      FindAfterEuicc(t[1..], id, eid, cert, at);
    }
  }

  lemma FindAfterOrder(t: Orders, added: NewOrder, at: int)
    requires Ascending(t)
    ensures Find(t, NextId(t)).None?
    ensures Find(WithOrder(t, added), at)
         == if at == NextId(t) && !HasMatchingId(t, added.matchingId) then Some(Row(at, added)) else Find(t, at)
  {
    FindAppended(t, Row(NextId(t), added), at);
  }

  lemma {:induction false} FindAppended(t: Orders, row: Order, at: int)
    ensures Find(t + [row], at) == if Find(t, at).Some? then Find(t, at) else if row.id == at then Some(row) else None
  {
    if t == [] {
    } else {
      assert (t + [row])[1..] == t[1..] + [row];
      FindAppended(t[1..], row, at);
    }
  }

  /** `u` is `t` with the row under `id` replaced by `o`. */
  ghost predicate Replaces(t: Orders, u: Orders, id: int, o: Order) {
    && Find(t, id).Some?
    && forall at: int :: Find(u, at) == if at == id then Some(o) else Find(t, at)
  }

  lemma StateReplaces(t: Orders, id: int, st: OrderState)
    ensures Find(t, id).Some? ==> Replaces(t, WithState(t, id, st), id, Find(t, id).value.(state := st))
  {
    forall at: int
      ensures Find(WithState(t, id, st), at)
           == if at == id && Find(t, id).Some? then Some(Find(t, id).value.(state := st)) else Find(t, at)
    {
      FindAfterState(t, id, st, at);
    }
  }

  /** With ascending ids, the lookup finds every row. */
  lemma {:induction false} FindsEveryRow(t: Orders, o: Order)
    requires Ascending(t) && o in t
    ensures Find(t, o.id) == Some(o)
  {
    if t[0] == o {
    } else {
      assert o in t[1..];
      FindsEveryRow(t[1..], o);
    }
  }

  /** Every write keeps the keys. */
  lemma OrderKeepsKeys(t: Orders, added: NewOrder)
    requires WellKeyed(t)
    ensures WellKeyed(WithOrder(t, added))
  {
  }

  lemma StateKeepsKeys(t: Orders, id: int, st: OrderState)
    requires WellKeyed(t)
    ensures WellKeyed(WithState(t, id, st))
  {
  }

  lemma EuiccKeepsKeys(t: Orders, id: int, eid: string, cert: Bytes)
    requires WellKeyed(t)
    ensures WellKeyed(WithEuicc(t, id, eid, cert))
  {
  }

  // ---- the store itself

  class SqliteStore {
    var orders: Orders
    var notifications: Notifications

    constructor (orders: Orders, notifications: Notifications)
      ensures this.orders == orders && this.notifications == notifications
    {
      this.orders := orders;
      this.notifications := notifications;
    }

    /** A MatchingID already in use is the UNIQUE constraint speaking. */
    method AddOrder(added: NewOrder) returns (r: Option<Order>)
      modifies this`orders
      ensures orders == WithOrder(old(orders), added)
      ensures r == if HasMatchingId(old(orders), added.matchingId) then None
                   else Some(Row(NextId(old(orders)), added))
    {
      if HasMatchingId(orders, added.matchingId) {
        return None;
      }
      var o := Row(NextId(orders), added);
      orders := orders + [o];
      r := Some(o);
    }

    method ListOrders() returns (out: Orders)
      ensures out == orders
    {
      out := [];
      for i := 0 to |orders|
        invariant out == orders[..i]
      {
        out := out + [orders[i]];
      }
    }

    method OrderByIccid(iccid: Bytes10, pick: nat) returns (o: Option<Order>)
      ensures o == OneByIccid(orders, iccid, pick)
    {
      o := OneByIccid(orders, iccid, pick);
    }

    method BindEuicc(id: int, eid: string, cert: Bytes)
      modifies this`orders
      ensures orders == WithEuicc(old(orders), id, eid, cert)
    {
      orders := seq(|orders|, i requires 0 <= i < |orders| reads this =>
                      if orders[i].id == id then orders[i].(eid := Some(eid), euiccCert := Some(cert)) else orders[i]);
    }

    method SetState(id: int, st: OrderState)
      modifies this`orders
      ensures orders == WithState(old(orders), id, st)
    {
      orders := seq(|orders|, i requires 0 <= i < |orders| reads this =>
                      if orders[i].id == id then orders[i].(state := st) else orders[i]);
    }

    method RecordNotification(n: NewNotification)
      modifies this`notifications
      ensures notifications == WithNotification(old(notifications), n)
    {
      notifications := notifications + [Stored(NextNotificationId(notifications), n)];
    }
  }
}
