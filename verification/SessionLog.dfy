/** The session table under every schedule of any number of threads and commands
    (crates/smdp/src/server/sessions.rs under crates/smdp/src/server/es9.rs): it
    is what its own operations, in the order they were made, make of an empty one. */
module SessionLog {
  import opened Basics
  import OrderStore
  import opened SessionTable
  import opened Protocol
  import opened Threads
  import opened Transparency

  /** The operation of the table a piece of work makes. A write through `get_mut`
      is an update, of whatever the table then holds. */
  function OpsBy(env: Env, pc: Pc, c: Choice): seq<Op> {
    match pc
    case Insert(o) => [OpInsert(o.input.transactionId, o.session, c.sweepAt, c.bornAt)]
    case CallAuthenticate(req, order, entry) =>
      var e := AuthenticateEntry(env.lib, entry, req, order).0;
      [OpUpdate(req.transactionId, e.session, e.orderId)]
    case CallPackage(req, otskDp, entry, _, upp) =>
      var e := PackageEntry(env.lib, entry, req, upp, otskDp).0;
      [OpUpdate(req.transactionId, e.session, e.orderId)]
    case Spend(req, _, _) => [OpRemove(req.transactionId)]
    case _ => []
  }

  /** All operations of a schedule, in order. */
  function OpsOf(env: Env, w: World, acts: seq<Action>): seq<Op> {
    if acts == [] then []
    else
      var first, a := acts[..|acts| - 1], acts[|acts| - 1];
      var before := RunAll(env, w, first);
      OpsOf(env, w, first) + if Works(before, a) then OpsBy(env, before.threads[a.i].pc, a.choice) else []
  }

  lemma AfterOps(ops: seq<Op>, more: seq<Op>)
    requires |more| <= 1
    ensures After(ops + more) == if more == [] then After(ops) else Apply(After(ops), more[0])
  {
    if more == [] {
      assert ops + more == ops;
    } else {
      assert (ops + more)[..|ops|] == ops;
    }
  }

  /** A piece of work does to the table what its operation does: the entry written
      back is the one that is there, so that its birth stays. */
  lemma WorkIsItsOps(env: Env, s: State, trace: seq<Call>, pc: Pc, c: Choice)
    requires LocalsOk(env, s, trace, pc)
    ensures var ops := OpsBy(env, pc, c);
            && |ops| <= 1
            && Work(env, s, pc, c).0.sessions == if ops == [] then s.sessions else Apply(s.sessions, ops[0])
  {
    if !TouchesSessions(pc) {
      OtherWorkIsSilent(env, s, pc, c);
    }
  }

  /** The table of every schedule is its log, applied to an empty table. */
  lemma {:induction false} SessionsAreTheirLog(env: Env, w: World, acts: seq<Action>)
    requires TransparencyOk(env, w) && w.s.sessions == map[]
    ensures RunAll(env, w, acts).s.sessions == After(OpsOf(env, w, acts))
  {
    if acts == [] {
    } else {
      var first, a := acts[..|acts| - 1], acts[|acts| - 1];
      var before := RunAll(env, w, first);
      SessionsAreTheirLog(env, w, first);
      if Works(before, a) {
        var pc := before.threads[a.i].pc;
        RunKeepsTransparency(env, w, first);
        WorkIsItsOps(env, before.s, before.trace, pc, a.choice);
        AfterOps(OpsOf(env, w, first), OpsBy(env, pc, a.choice));
      } else {
        OtherActionsAreIdle(env, before, a);
        AfterOps(OpsOf(env, w, first), []);
      }
    }
  }

  /** Under every schedule, a transactionId has a session exactly if some insert of
      it was followed by no removal of it, no other insert of it, and no sweep 600 s
      after its birth; and the session then has that birth. */
  lemma KnownIffUnended(env: Env, s: State, acts: seq<Action>, id: Bytes)
    requires OrderStore.WellKeyed(s.orders) && s.sessions == map[]
    ensures var ops, t := OpsOf(env, Idle(s), acts), RunAll(env, Idle(s), acts).s.sessions;
            && (id in t <==> exists i: nat :: LivesFrom(ops, id, i))
            && (forall i: nat :: LivesFrom(ops, id, i) ==> id in t && t[id].born == ops[i].bornAt)
  {
    SessionsAreTheirLog(env, Idle(s), acts);
    PresentIffUnended(OpsOf(env, Idle(s), acts), id);
  }
}
