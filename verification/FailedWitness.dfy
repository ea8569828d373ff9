/** Why an order was moved (crates/smdp/src/server/es9.rs:320-353): the row that
    says so is written before the order is, and rows are never changed. Under
    every schedule of any number of threads and commands. */
module FailedWitness {
  import opened Basics
  import opened OrderStore
  import opened Protocol
  import opened Threads
  import Rsp

  /** A verified installation result that says what the move does. */
  predicate Says(row: NewNotification, m: Move) {
    row.orderId == Some(m.order) && row.verified && row.installed == Some(m.to == Downloaded)
  }

  ghost predicate HasRow(n: Notifications, m: Move) {
    exists k :: 0 <= k < |n| && Says(n[k].content, m)
  }

  ghost predicate FailedHaveRows(s: State) {
    forall o :: o in s.orders && o.state == Failed ==> HasRow(s.notifications, Move(o.id, Failed))
  }

  /** A thread about to move an order has written the row, or is about to. */
  ghost predicate MoveOk(n: Notifications, pc: Pc) {
    match pc
    case Record(row, Some(m)) => m.to in {Downloaded, Failed} && Says(row, m)
    case MoveOrder(m) => m.to in {Downloaded, Failed} && HasRow(n, m)
    case _ => true
  }

  ghost predicate MovesOk(w: World) {
    forall i :: i in w.threads ==> MoveOk(w.s.notifications, w.threads[i].pc)
  }

  lemma MoveAgreesWithRow(lib: Rsp.Library, n: Notifications, raw: Bytes, order: Option<Order>)
    ensures MoveOk(n, AfterLookup(lib, raw, order))
  {
  }

  lemma RowStays(n: Notifications, content: NewNotification, m: Move)
    ensures HasRow(n, m) ==> HasRow(WithNotification(n, content), m)
    ensures Says(content, m) ==> HasRow(WithNotification(n, content), m)
  {
    var all := WithNotification(n, content);
    assert all[|n|].content == content;
    if HasRow(n, m) {
      var k :| 0 <= k < |n| && Says(n[k].content, m);
      assert all[k] == n[k];
    }
  }

  /** Rows only ever come to be added, so what a row says stays said. */
  lemma WorkKeepsRows(env: Env, s: State, pc: Pc, c: Choice, m: Move)
    requires HasRow(s.notifications, m)
    ensures HasRow(Work(env, s, pc, c).0.notifications, m)
  {
    if pc.Record? {
      RowStays(s.notifications, pc.row, m);
    }
  }

  lemma WorkSetsMove(env: Env, s: State, pc: Pc, c: Choice)
    requires MoveOk(s.notifications, pc)
    ensures var (s2, _, next) := Work(env, s, pc, c);
            MoveOk(s2.notifications, next)
  {
    match pc
    case ReadNotification(raw) => MoveAgreesWithRow(env.lib, s.notifications, raw, None);
    case FindOrder(raw, iccid) =>
      MoveAgreesWithRow(env.lib, s.notifications, raw, OneByIccid(s.orders, iccid, c.pick));
    case Record(row, move) =>
      if move.Some? {
        RowStays(s.notifications, row, move.value);
      }
    case _ =>
  }

  lemma ExecKeepsMoves(env: Env, w: World, a: Action)
    requires MovesOk(w)
    ensures MovesOk(Exec(env, w, a))
  {
    var after := Exec(env, w, a);
    if Works(w, a) {
      WorkSetsMove(env, w.s, w.threads[a.i].pc, a.choice);
      forall j | j in after.threads && j != a.i && w.threads[j].pc.MoveOrder?
        ensures MoveOk(after.s.notifications, after.threads[j].pc)
      {
        WorkKeepsRows(env, w.s, w.threads[a.i].pc, a.choice, w.threads[j].pc.to);
      }
    } else {
      OtherActionsAreIdle(env, w, a);
    }
  }

  lemma {:induction false} RunKeepsMoves(env: Env, w: World, acts: seq<Action>)
    requires MovesOk(w)
    ensures MovesOk(RunAll(env, w, acts))
  {
    if acts == [] {
    } else {
      RunKeepsMoves(env, w, acts[..|acts| - 1]);
      ExecKeepsMoves(env, RunAll(env, w, acts[..|acts| - 1]), acts[|acts| - 1]);
    }
  }

  /** A Failed row after a write was Failed before, or the write put Failed. */
  lemma FailedBefore(t: Orders, w: Write, o: Order)
    requires o in Written(t, w) && o.state == Failed
    ensures w == PutState(o.id, Failed) || exists p :: p in t && p.id == o.id && p.state == Failed
  {
    var k :| 0 <= k < |Written(t, w)| && Written(t, w)[k] == o;
    if k < |t| {
      assert t[k] in t;
    }
  }

  lemma WorkKeepsFailedRows(env: Env, s: State, pc: Pc, c: Choice)
    requires FailedHaveRows(s) && MoveOk(s.notifications, pc)
    ensures FailedHaveRows(Work(env, s, pc, c).0)
  {
    var s2 := Work(env, s, pc, c).0;
    WorkWrites(env, s, pc, c);
    forall o | o in s2.orders && o.state == Failed
      ensures HasRow(s2.notifications, Move(o.id, Failed))
    {
      if HasRow(s.notifications, Move(o.id, Failed)) {
        WorkKeepsRows(env, s, pc, c, Move(o.id, Failed));
      } else {
        FailedBefore(s.orders, WriteOf(pc), o);
      }
    }
  }

  lemma {:induction false} RunKeepsWitnesses(env: Env, w: World, acts: seq<Action>)
    requires MovesOk(w) && FailedHaveRows(w.s)
    ensures MovesOk(RunAll(env, w, acts)) && FailedHaveRows(RunAll(env, w, acts).s)
  {
    RunKeepsMoves(env, w, acts);
    if acts == [] {
    } else {
      var before, a := RunAll(env, w, acts[..|acts| - 1]), acts[|acts| - 1];
      RunKeepsWitnesses(env, w, acts[..|acts| - 1]);
      if Works(before, a) {
        WorkKeepsFailedRows(env, before.s, before.threads[a.i].pc, a.choice);
      }
    }
  }

  /** Starting from an empty store, every order in Failed has its reason in the
      notification table. */
  lemma FailedOrdersHaveAReason(env: Env, acts: seq<Action>, o: Order)
    requires o in RunAll(env, Idle(State([], [], map[])), acts).s.orders && o.state == Failed
    ensures HasRow(RunAll(env, Idle(State([], [], map[])), acts).s.notifications, Move(o.id, Failed))
  {
    RunKeepsWitnesses(env, Idle(State([], [], map[])), acts);
  }
}
