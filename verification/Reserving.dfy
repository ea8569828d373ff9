/** How often a handed-over order is served again, with commands between the
    server's individual store operations (crates/smdp/src/server/es9.rs:155-161,
    205, 250-287 and crates/smdp/src/server/sessions.rs:29-53). */
module Reserving {
  import opened OrderStore
  import opened SessionTable
  import opened Protocol
  import opened OrderLife
  import opened Threads
  import opened Transparency
  import opened ClosedRegion

  /** Packages served from the order. */
  function TimesServedFrom(trace: seq<Call>, id: int): nat {
    if trace == [] then 0
    else
      var e := trace[|trace| - 1];
      TimesServedFrom(trace[..|trace| - 1], id) + (if e.Served? && e.order == id then 1 else 0)
  }

  lemma ServedAppended(trace: seq<Call>, calls: seq<Call>, id: int)
    requires |calls| <= 1
    ensures TimesServedFrom(trace + calls, id) == TimesServedFrom(trace, id) + TimesServedFrom(calls, id)
  {
    if calls == [] {
      assert trace + calls == trace;
    } else {
      assert (trace + calls)[..|trace|] == trace;
    }
  }

  /** Every session that holds the order after a piece of work held it before:
      an order read as offerable is not this one. */
  lemma WorkAddsNoHolder(env: Env, s: State, trace: seq<Call>, pc: Pc, c: Choice, id: int)
    requires LocalsOk(env, s, trace, pc) && OfferStands(s.orders, pc) && HandedOver(s.orders, id)
    ensures Holders(Work(env, s, pc, c).0.sessions, id) <= Holders(s.sessions, id)
  {
    if !TouchesSessions(pc) {
      OtherWorkIsSilent(env, s, pc, c);
    }
  }

  lemma ServingSpendsAHolder(env: Env, s: State, trace: seq<Call>, pc: Pc, c: Choice)
    requires pc.Spend? && LocalsOk(env, s, trace, pc)
    ensures pc.package.transactionId in Holders(s.sessions, pc.id)
    ensures pc.package.transactionId !in Work(env, s, pc, c).0.sessions
  {
  }

  lemma WorkSpendsHolders(env: Env, s: State, trace: seq<Call>, pc: Pc, c: Choice, id: int)
    requires LocalsOk(env, s, trace, pc) && OfferStands(s.orders, pc) && HandedOver(s.orders, id)
    ensures var (s2, calls, _) := Work(env, s, pc, c);
            TimesServedFrom(calls, id) + |Holders(s2.sessions, id)| <= |Holders(s.sessions, id)|
  {
    var (s2, calls, _) := Work(env, s, pc, c);
    var before, after := Holders(s.sessions, id), Holders(s2.sessions, id);
    WorkAddsNoHolder(env, s, trace, pc, c, id);
    OnlySpendServes(env, s, pc, c);
    assert calls != [] ==> calls[..|calls| - 1] == [];
    if pc.Spend? && pc.id == id {
      ServingSpendsAHolder(env, s, trace, pc, c);
      Subset(after, before - {pc.package.transactionId});
    } else {
      Subset(after, before);
    }
  }

  lemma ExecSpendsHolders(env: Env, w: World, a: Action, id: int)
    requires TransparencyOk(env, w) && RegionOk(w) && HandedOver(w.s.orders, id)
    ensures var after := Exec(env, w, a);
            TimesServedFrom(after.trace, id) + |Holders(after.s.sessions, id)|
            <= TimesServedFrom(w.trace, id) + |Holders(w.s.sessions, id)|
  {
    if Works(w, a) {
      var pc := w.threads[a.i].pc;
      WorkSpendsHolders(env, w.s, w.trace, pc, a.choice, id);
      OnlySpendServes(env, w.s, pc, a.choice);
      ServedAppended(w.trace, Work(env, w.s, pc, a.choice).1, id);
    } else {
      OtherActionsAreIdle(env, w, a);
    }
  }

  lemma {:induction false} HoldersAreSpent(env: Env, w: World, acts: seq<Action>, id: int)
    requires TransparencyOk(env, w) && RegionOk(w) && HandedOver(w.s.orders, id)
    requires SingleThreaded(env, w, acts) && NoReset(env, w, acts, id)
    ensures var after := RunAll(env, w, acts);
            && HandedOver(after.s.orders, id)
            && TimesServedFrom(after.trace, id) + |Holders(after.s.sessions, id)|
               <= TimesServedFrom(w.trace, id) + |Holders(w.s.sessions, id)|
  {
    if acts == [] {
    } else {
      var first, a := acts[..|acts| - 1], acts[|acts| - 1];
      var before := RunAll(env, w, first);
      SingleThreadedBefore(env, w, acts);
      assert forall k :: 0 <= k < |first| ==> first[..k] == acts[..k];
      HoldersAreSpent(env, w, first, id);
      RunKeepsTransparency(env, w, first);
      RunKeepsRegion(env, w, first);
      ExecSpendsHolders(env, before, a, id);
      LeavesByReset(env, before, a, id);
    }
  }

  /** Once an order is Downloaded or Failed, packages served from it plus live
      sessions holding it never grow until it is reset, wherever commands come
      in between: what is served later is at most the sessions that held it. */
  lemma ReservingIsBounded(env: Env, s: State, acts: seq<Action>, more: seq<Action>, id: int)
    requires WellKeyed(s.orders) && s.sessions == map[]
    requires SingleThreaded(env, Idle(s), acts) && SingleThreaded(env, RunAll(env, Idle(s), acts), more)
    requires HandedOver(RunAll(env, Idle(s), acts).s.orders, id)
    requires NoReset(env, RunAll(env, Idle(s), acts), more, id)
    ensures var w, after := RunAll(env, Idle(s), acts), RunAll(env, Idle(s), acts + more);
            && HandedOver(after.s.orders, id)
            && TimesServedFrom(after.trace, id) + |Holders(after.s.sessions, id)|
               <= TimesServedFrom(w.trace, id) + |Holders(w.s.sessions, id)|
  {
    RunKeepsTransparency(env, Idle(s), acts);
    RunKeepsRegion(env, Idle(s), acts);
    HoldersAreSpent(env, RunAll(env, Idle(s), acts), more, id);
    RunAllTwice(env, Idle(s), acts, more);
  }
}
