/** Which eUICC an order remembers (crates/smdp/src/store/mod.rs:1 and
    crates/smdp/src/server/es9.rs:221-228), under every schedule of any number of
    threads and commands. */
module RememberedEuicc {
  import opened Basics
  import opened OrderStore
  import opened Protocol
  import opened Threads
  import opened ClosedRegion

  datatype Euicc = Euicc(eid: string, cert: Bytes)

  predicate Remembers(o: Order, e: Euicc) {
    o.eid == Some(e.eid) && o.euiccCert == Some(e.cert)
  }

  /** The eUICC an action writes to the order. */
  function EuiccBy(w: World, a: Action, id: int): Option<Euicc> {
    match WriteBy(w, a)
    case PutEuicc(at, eid, cert) => if at == id then Some(Euicc(eid, cert)) else None
    case _ => None
  }

  /** The last one a schedule writes to it. */
  function LastEuicc(env: Env, w: World, acts: seq<Action>, id: int): Option<Euicc> {
    if acts == [] then None
    else
      var first, a := acts[..|acts| - 1], acts[|acts| - 1];
      var e := EuiccBy(RunAll(env, w, first), a, id);
      if e.Some? then e else LastEuicc(env, w, first, id)
  }

  lemma WriteOnEuicc(t: Orders, w: Write, id: int)
    requires Ascending(t) && Find(t, id).Some?
    ensures var o := Find(Written(t, w), id);
            && o.Some?
            && (w.PutEuicc? && w.id == id ==> Remembers(o.value, Euicc(w.eid, w.euiccCert)))
            && (!(w.PutEuicc? && w.id == id) ==>
                  o.value.eid == Find(t, id).value.eid && o.value.euiccCert == Find(t, id).value.euiccCert)
  {
    match w
    case Nothing =>
    case PutState(at, st) => FindAfterState(t, at, st, id);
    case PutEuicc(at, eid, cert) => FindAfterEuicc(t, at, eid, cert, id);
    case PutOrder(added) => FindAfterOrder(t, added, id);
  }

  lemma ExecOnEuicc(env: Env, w: World, a: Action, id: int)
    requires WellKeyed(w.s.orders) && Find(w.s.orders, id).Some?
    ensures var after := Exec(env, w, a);
            var o, e := Find(after.s.orders, id), EuiccBy(w, a, id);
            && WellKeyed(after.s.orders) && o.Some?
            && (e.Some? ==> Remembers(o.value, e.value))
            && (e.None? ==> o.value.eid == Find(w.s.orders, id).value.eid)
            && (e.None? ==> o.value.euiccCert == Find(w.s.orders, id).value.euiccCert)
  {
    if Works(w, a) {
      WorkWrites(env, w.s, w.threads[a.i].pc, a.choice);
      WriteKeepsKeys(w.s.orders, WriteBy(w, a));
      WriteOnEuicc(w.s.orders, WriteBy(w, a), id);
    } else {
      OtherActionsAreIdle(env, w, a);
    }
  }

  /** An order remembers the eUICC last written to it, whatever came in between. */
  lemma {:induction false} RemembersTheLast(env: Env, w: World, acts: seq<Action>, id: int)
    requires WellKeyed(w.s.orders) && Find(w.s.orders, id).Some?
    ensures var o, e := Find(RunAll(env, w, acts).s.orders, id), LastEuicc(env, w, acts, id);
            && WellKeyed(RunAll(env, w, acts).s.orders) && o.Some?
            && (e.Some? ==> Remembers(o.value, e.value))
            && (e.None? ==> o.value.eid == Find(w.s.orders, id).value.eid)
            && (e.None? ==> o.value.euiccCert == Find(w.s.orders, id).value.euiccCert)
  {
    if acts == [] {
    } else {
      RemembersTheLast(env, w, acts[..|acts| - 1], id);
      ExecOnEuicc(env, RunAll(env, w, acts[..|acts| - 1]), acts[|acts| - 1], id);
    }
  }

  /** What an accepted request will write is what the library says of the eUICC in
      that very session, as the call has left it; if it does not say both, nothing
      is written. */
  lemma WritesItsOwn(env: Env, s: State, pc: Pc, c: Choice)
    requires pc.CallAuthenticate?
    ensures var (s2, _, next) := Work(env, s, pc, c);
            var id := pc.authenticate.transactionId;
            var (session, r) := env.lib.authenticate(
                                  pc.entry.session, pc.authenticate.authenticateServerResponse, pc.order.metadata);
            var g := env.lib.authenticateFields(r.out);
            var eid, cert := env.lib.eid(session), env.lib.euiccCert(session);
            r.code == 0 && g.code == 0 ==>
              && id in s2.sessions && s2.sessions[id].session == session
              && s2.sessions[id].orderId == Some(pc.order.id)
              && next == if eid.code == 0 && eid.out.Some? && cert.code == 0
                         then Remember(pc.order.id, eid.out.value, cert.out, Authenticated(id, g.out))
                         else BindOrder(pc.order.id, Authenticated(id, g.out))
    ensures Work(env, s, pc, c).2.Remember? || Work(env, s, pc, c).2.BindOrder? <==>
              var r := env.lib.authenticate(
                pc.entry.session, pc.authenticate.authenticateServerResponse, pc.order.metadata).1;
              r.code == 0 && env.lib.authenticateFields(r.out).code == 0
  {
  }

  /** An order remembers the eUICC that a request wrote to it, at any later moment
      such as when that eUICC is served, if and only if no eUICC was written to it
      since or the last one written is the same. A second session may write another
      (`Scenarios.TheOtherEuiccIsRemembered`). */
  lemma RemembersItsOwnExactly(env: Env, w: World, a: Action, more: seq<Action>, id: int)
    requires WellKeyed(w.s.orders) && Find(w.s.orders, id).Some? && EuiccBy(w, a, id).Some?
    ensures var own := EuiccBy(w, a, id).value;
            var o, last := Find(RunAll(env, w, [a] + more).s.orders, id), LastEuicc(env, Exec(env, w, a), more, id);
            o.Some? && (Remembers(o.value, own) <==> last.None? || last == Some(own))
  {
    ExecOnEuicc(env, w, a, id);
    RemembersTheLast(env, Exec(env, w, a), more, id);
    OneAction(env, w, a);
    RunAllTwice(env, w, [a], more);
  }
}
