/** The notification table under every schedule of any number of threads and
    commands (crates/smdp/src/server/es9.rs:304-353): which request stored which
    row, and that none is stored twice, lost or changed. */
module KeptRows {
  import opened Basics
  import opened Rsp
  import opened OrderStore
  import opened Protocol
  import opened Threads
  import opened FailedWitness

  // ---- who was asked what, who stored what

  /** The notification it was started for, if it was for one. */
  function RawOf(acts: seq<Action>, i: nat): Option<Bytes> {
    match JobOf(acts, i)
    case Some(HandleNotification(raw, _)) => Some(raw)
    case _ => None
  }

  predicate Stores(w: World, a: Action) {
    Works(w, a) && w.threads[a.i].pc.Record?
  }

  /** The threads that stored the rows of a schedule, row by row. */
  function KeepersOf(env: Env, w: World, acts: seq<Action>): seq<nat> {
    if acts == [] then []
    else
      var first, a := acts[..|acts| - 1], acts[|acts| - 1];
      KeepersOf(env, w, first) + if Stores(RunAll(env, w, first), a) then [a.i] else []
  }

  // ---- what is kept of a notification

  /** It can be read, or it verifies without a certificate of the store's. */
  predicate IsLegible(lib: Library, raw: Bytes) {
    NotificationMetadata(lib, raw).Some? || VerifyNotification(lib, None, raw).Some?
  }

  /** The order was in the table at some moment of the schedule. */
  ghost predicate WasThere(env: Env, s: State, acts: seq<Action>, order: Order) {
    exists k :: 0 <= k <= |acts| && order in RunAll(env, Idle(s), acts[..k]).s.orders
  }

  /** What a lookup by the ICCID the octets name can have found. */
  ghost predicate MayBeFound(env: Env, s: State, acts: seq<Action>, raw: Bytes, order: Option<Order>) {
    order.Some? ==> ClaimedIccid(env.lib, raw) == Some(order.value.iccid) && WasThere(env, s, acts, order.value)
  }

  /** The row is what the handler keeps of these octets, having found an order of
      the ICCID they name as it then was, or none. */
  ghost predicate IsRowFor(env: Env, s: State, acts: seq<Action>, raw: Bytes, row: NewNotification) {
    exists order :: RowToKeep(env.lib, raw, order) == Some(row) && MayBeFound(env, s, acts, raw, order)
  }

  lemma WasThereStill(env: Env, s: State, acts: seq<Action>, a: Action, order: Order)
    requires WasThere(env, s, acts, order)
    ensures WasThere(env, s, acts + [a], order)
  {
    var k :| 0 <= k <= |acts| && order in RunAll(env, Idle(s), acts[..k]).s.orders;
    assert (acts + [a])[..k] == acts[..k];
  }

  lemma IsThereNow(env: Env, s: State, acts: seq<Action>, order: Order)
    requires order in RunAll(env, Idle(s), acts).s.orders
    ensures WasThere(env, s, acts, order)
  {
    assert acts[..|acts|] == acts;
  }

  lemma IsRowStill(env: Env, s: State, acts: seq<Action>, a: Action, raw: Bytes, row: NewNotification)
    requires IsRowFor(env, s, acts, raw, row)
    ensures IsRowFor(env, s, acts + [a], raw, row)
  {
    var order :| RowToKeep(env.lib, raw, order) == Some(row) && MayBeFound(env, s, acts, raw, order);
    if order.Some? {
      WasThereStill(env, s, acts, a, order.value);
    }
    assert MayBeFound(env, s, acts + [a], raw, order);
  }

  /** Whether anything is kept does not depend on what was found. */
  lemma KeptIfLegible(env: Env, s: State, acts: seq<Action>, raw: Bytes, order: Option<Order>)
    requires MayBeFound(env, s, acts, raw, order)
    ensures RowToKeep(env.lib, raw, order).Some? <==> IsLegible(env.lib, raw)
    ensures RowToKeep(env.lib, raw, order).Some? ==>
              IsRowFor(env, s, acts, raw, RowToKeep(env.lib, raw, order).value)
  {
  }

  // ---- the invariant

  /** How far a thread has come with the notification it was started for. */
  ghost predicate StageOk(env: Env, s: State, acts: seq<Action>, i: nat, pc: Pc, kept: bool) {
    var raw := RawOf(acts, i);
    match pc
    case ReadNotification(r) => raw == Some(r) && !kept
    case FindOrder(r, iccid) => raw == Some(r) && ClaimedIccid(env.lib, r) == Some(iccid) && !kept
    case Record(row, move) =>
      raw.Some? && IsRowFor(env, s, acts, raw.value, row) && (move.Some? ==> Says(row, move.value)) && !kept
    case MoveOrder(_) => raw.Some? && IsLegible(env.lib, raw.value) && kept
    case Finished(_) => kept <==> raw.Some? && IsLegible(env.lib, raw.value)
    case _ => raw.None? && !kept
  }

  /** The row a thread stored is what is kept of its notification, and says what
      the thread may still have to do. */
  ghost predicate RowOk(env: Env, s: State, acts: seq<Action>, i: nat, pc: Pc, row: NewNotification) {
    var raw := RawOf(acts, i);
    && raw.Some? && row.raw == raw.value && IsRowFor(env, s, acts, raw.value, row)
    && (pc.MoveOrder? ==> Says(row, pc.to))
  }

  ghost predicate StagesOk(env: Env, s: State, w: World, acts: seq<Action>, keepers: seq<nat>) {
    && (forall i :: i in w.threads ==> StageOk(env, s, acts, i, w.threads[i].pc, i in keepers))
    && (forall i :: i in w.threads <==> JobOf(acts, i).Some?)
  }

  /** One keeper for each new row, none twice. */
  ghost predicate LedgerOk(s: State, w: World, keepers: seq<nat>) {
    && |w.s.notifications| == |s.notifications| + |keepers| && s.notifications <= w.s.notifications
    && (forall m, n :: 0 <= m < n < |keepers| ==> keepers[m] != keepers[n])
    && (forall n :: 0 <= n < |keepers| ==> keepers[n] in w.threads)
  }

  ghost predicate RowsOk(env: Env, s: State, w: World, acts: seq<Action>, keepers: seq<nat>) {
    && LedgerOk(s, w, keepers)
    && (forall n :: 0 <= n < |keepers| ==>
          RowOk(env, s, acts, keepers[n], w.threads[keepers[n]].pc, w.s.notifications[|s.notifications| + n].content))
  }

  // ---- pieces of work

  lemma FoundStage(env: Env, s: State, acts: seq<Action>, i: nat, raw: Bytes, order: Option<Order>)
    requires MayBeFound(env, s, acts, raw, order) && RawOf(acts, i) == Some(raw)
    ensures StageOk(env, s, acts, i, AfterLookup(env.lib, raw, order), false)
  {
    KeptIfLegible(env, s, acts, raw, order);
  }

  lemma DeliveryStage(env: Env, s: State, acts: seq<Action>, i: nat, pc: Pc, c: Choice, kept: bool)
    requires pc.ReadNotification? || pc.FindOrder? || pc.Record? || pc.MoveOrder?
    requires StageOk(env, s, acts, i, pc, kept)
    ensures StageOk(env, s, acts, i, Work(env, RunAll(env, Idle(s), acts).s, pc, c).2, kept || pc.Record?)
  {
    match pc
    case ReadNotification(r) =>
      if ClaimedIccid(env.lib, r).None? {
        FoundStage(env, s, acts, i, r, None);
      }
    case FindOrder(r, iccid) =>
      var order := OneByIccid(RunAll(env, Idle(s), acts).s.orders, iccid, c.pick);
      if order.Some? {
        IsThereNow(env, s, acts, order.value);
      }
      FoundStage(env, s, acts, i, r, order);
    case Record(row, _) =>
      var raw := RawOf(acts, i).value;
      var order :| RowToKeep(env.lib, raw, order) == Some(row) && MayBeFound(env, s, acts, raw, order);
      KeptIfLegible(env, s, acts, raw, order);
    case MoveOrder(_) =>
  }

  /** No other function comes to handle a notification. */
  lemma OtherStage(env: Env, s: State, pc: Pc, c: Choice)
    requires !pc.ReadNotification? && !pc.FindOrder? && !pc.Record? && !pc.MoveOrder?
    ensures var next := Work(env, s, pc, c).2;
            !next.ReadNotification? && !next.FindOrder? && !next.Record? && !next.MoveOrder?
  {
  }

  lemma WorkKeepsStage(env: Env, s: State, acts: seq<Action>, i: nat, pc: Pc, c: Choice, kept: bool)
    requires !pc.Finished? && StageOk(env, s, acts, i, pc, kept)
    ensures StageOk(env, s, acts, i, Work(env, RunAll(env, Idle(s), acts).s, pc, c).2, kept || pc.Record?)
  {
    if pc.ReadNotification? || pc.FindOrder? || pc.Record? || pc.MoveOrder? {
      DeliveryStage(env, s, acts, i, pc, c, kept);
    } else {
      OtherStage(env, RunAll(env, Idle(s), acts).s, pc, c);
    }
  }

  /** Only `Record` writes a row, and only it leads to a move. */
  lemma WorkOnLog(env: Env, s: State, pc: Pc, c: Choice)
    ensures var (s2, _, next) := Work(env, s, pc, c);
            && s2.notifications == (if pc.Record? then WithNotification(s.notifications, pc.row) else s.notifications)
            && (next.MoveOrder? ==> pc.Record? && pc.move == Some(next.to))
  {
  }

  lemma RowIsOfItsOctets(env: Env, s: State, acts: seq<Action>, raw: Bytes, row: NewNotification)
    requires IsRowFor(env, s, acts, raw, row)
    ensures row.raw == raw
  {
  }

  // ---- one more action

  lemma StageStill(env: Env, s: State, acts: seq<Action>, a: Action, i: nat, pc: Pc, kept: bool)
    requires JobOf(acts, i).Some? && StageOk(env, s, acts, i, pc, kept)
    ensures StageOk(env, s, acts + [a], i, pc, kept)
  {
    JobAfter(acts, a, i);
    if pc.Record? {
      IsRowStill(env, s, acts, a, RawOf(acts, i).value, pc.row);
    }
  }

  lemma RowStill(env: Env, s: State, acts: seq<Action>, a: Action, i: nat, pc: Pc, next: Pc, row: NewNotification)
    requires JobOf(acts, i).Some? && RowOk(env, s, acts, i, pc, row) && (next.MoveOrder? ==> next == pc)
    ensures RowOk(env, s, acts + [a], i, next, row)
  {
    JobAfter(acts, a, i);
    IsRowStill(env, s, acts, a, RawOf(acts, i).value, row);
  }

  lemma StartedStage(env: Env, s: State, acts: seq<Action>, a: Action, i: nat)
    requires JobOf(acts, i).None? && a.Spawn? && a.i == i
    ensures StageOk(env, s, acts + [a], i, StartOf(a.job), false)
  {
    JobAfter(acts, a, i);
  }

  lemma WorkedStage(env: Env, s: State, acts: seq<Action>, a: Action, i: nat, pc: Pc, kept: bool)
    requires a.Go? && JobOf(acts, i).Some? && !pc.Finished? && StageOk(env, s, acts, i, pc, kept)
    ensures var next := Work(env, RunAll(env, Idle(s), acts).s, pc, a.choice).2;
            StageOk(env, s, acts + [a], i, next, kept || pc.Record?)
  {
    WorkKeepsStage(env, s, acts, i, pc, a.choice, kept);
    StageStill(env, s, acts, a, i, Work(env, RunAll(env, Idle(s), acts).s, pc, a.choice).2, kept || pc.Record?);
  }

  /** Where thread `i` is after one more action. */
  lemma StageAfter(env: Env, s: State, acts: seq<Action>, a: Action, keepers: seq<nat>, i: nat)
    requires var w := RunAll(env, Idle(s), acts);
             && StagesOk(env, s, w, acts, keepers) && i in Exec(env, w, a).threads
             && forall n :: 0 <= n < |keepers| ==> keepers[n] in w.threads
    ensures var w := RunAll(env, Idle(s), acts);
            var kept := i in keepers || (Stores(w, a) && a.i == i);
            StageOk(env, s, acts + [a], i, Exec(env, w, a).threads[i].pc, kept)
  {
    var w := RunAll(env, Idle(s), acts);
    if i !in w.threads {
      StartedStage(env, s, acts, a, i);
    } else if Works(w, a) && a.i == i {
      WorkedStage(env, s, acts, a, i, w.threads[i].pc, i in keepers);
    } else {
      StageStill(env, s, acts, a, i, w.threads[i].pc, i in keepers);
    }
  }

  lemma ExecKeepsStages(env: Env, s: State, acts: seq<Action>, a: Action, keepers: seq<nat>)
    requires var w := RunAll(env, Idle(s), acts);
             && StagesOk(env, s, w, acts, keepers)
             && forall n :: 0 <= n < |keepers| ==> keepers[n] in w.threads
    ensures var w := RunAll(env, Idle(s), acts);
            StagesOk(env, s, Exec(env, w, a), acts + [a], keepers + if Stores(w, a) then [a.i] else [])
  {
    var w := RunAll(env, Idle(s), acts);
    var after := Exec(env, w, a);
    var all := keepers + if Stores(w, a) then [a.i] else [];
    forall i: nat
      ensures i in after.threads <==> JobOf(acts + [a], i).Some?
    {
      JobAfter(acts, a, i);
    }
    forall i | i in after.threads
      ensures StageOk(env, s, acts + [a], i, after.threads[i].pc, i in all)
    {
      StageAfter(env, s, acts, a, keepers, i);
    }
  }

  /** The row just stored. */
  lemma NewRow(env: Env, s: State, acts: seq<Action>, a: Action, w: World)
    requires Stores(w, a) && JobOf(acts, a.i).Some?
    requires StageOk(env, s, acts, a.i, w.threads[a.i].pc, false)
    ensures RowOk(env, s, acts + [a], a.i, Exec(env, w, a).threads[a.i].pc, w.threads[a.i].pc.row)
  {
    var pc := w.threads[a.i].pc;
    JobAfter(acts, a, a.i);
    IsRowStill(env, s, acts, a, RawOf(acts, a.i).value, pc.row);
    RowIsOfItsOctets(env, s, acts, RawOf(acts, a.i).value, pc.row);
  }

  lemma OldRowAfterWork(env: Env, s: State, w: World, acts: seq<Action>, a: Action, keepers: seq<nat>, n: nat)
    requires StagesOk(env, s, w, acts, keepers) && RowsOk(env, s, w, acts, keepers) && Works(w, a) && n < |keepers|
    ensures var after := Exec(env, w, a);
            && keepers[n] in after.threads
            && RowOk(env, s, acts + [a], keepers[n], after.threads[keepers[n]].pc,
                     w.s.notifications[|s.notifications| + n].content)
  {
    var i, after := keepers[n], Exec(env, w, a);
    assert StageOk(env, s, acts, i, w.threads[i].pc, true);
    WorkOnLog(env, w.s, w.threads[a.i].pc, a.choice);
    RowStill(env, s, acts, a, i, w.threads[i].pc, after.threads[i].pc,
             w.s.notifications[|s.notifications| + n].content);
  }

  lemma PerformKeepsLedger(env: Env, s: State, w: World, a: Action, keepers: seq<nat>)
    requires LedgerOk(s, w, keepers) && Works(w, a) && (w.threads[a.i].pc.Record? ==> a.i !in keepers)
    ensures var after := Exec(env, w, a);
            && LedgerOk(s, after, keepers + if Stores(w, a) then [a.i] else [])
            && w.s.notifications <= after.s.notifications
            && (Stores(w, a) ==> after.s.notifications[|w.s.notifications|].content == w.threads[a.i].pc.row)
  {
    WorkOnLog(env, w.s, w.threads[a.i].pc, a.choice);
    assert Exec(env, w, a).s == Work(env, w.s, w.threads[a.i].pc, a.choice).0;
    assert Exec(env, w, a).threads.Keys == w.threads.Keys;
  }

  lemma PerformKeepsRows(env: Env, s: State, w: World, acts: seq<Action>, a: Action, keepers: seq<nat>)
    requires StagesOk(env, s, w, acts, keepers) && RowsOk(env, s, w, acts, keepers) && Works(w, a)
    ensures RowsOk(env, s, Exec(env, w, a), acts + [a], keepers + if Stores(w, a) then [a.i] else [])
  {
    var after := Exec(env, w, a);
    var all := keepers + if Stores(w, a) then [a.i] else [];
    assert StageOk(env, s, acts, a.i, w.threads[a.i].pc, a.i in keepers);
    PerformKeepsLedger(env, s, w, a, keepers);
    forall n | 0 <= n < |all|
      ensures RowOk(env, s, acts + [a], all[n], after.threads[all[n]].pc,
                    after.s.notifications[|s.notifications| + n].content)
    {
      if n < |keepers| {
        OldRowAfterWork(env, s, w, acts, a, keepers, n);
      } else {
        NewRow(env, s, acts, a, w);
      }
    }
  }

  lemma UndisturbedKeepsRows(env: Env, s: State, w: World, acts: seq<Action>, a: Action, after: World,
                             keepers: seq<nat>)
    requires StagesOk(env, s, w, acts, keepers) && RowsOk(env, s, w, acts, keepers) && Undisturbed(w, after)
    ensures RowsOk(env, s, after, acts + [a], keepers)
  {
    forall n | 0 <= n < |keepers|
      ensures RowOk(env, s, acts + [a], keepers[n], after.threads[keepers[n]].pc,
                    after.s.notifications[|s.notifications| + n].content)
    {
      RowStill(env, s, acts, a, keepers[n], w.threads[keepers[n]].pc, after.threads[keepers[n]].pc,
               w.s.notifications[|s.notifications| + n].content);
    }
  }

  // ---- every schedule

  lemma {:induction false} RunKeepsRows(env: Env, s: State, acts: seq<Action>)
    ensures StagesOk(env, s, RunAll(env, Idle(s), acts), acts, KeepersOf(env, Idle(s), acts))
    ensures RowsOk(env, s, RunAll(env, Idle(s), acts), acts, KeepersOf(env, Idle(s), acts))
  {
    if acts == [] {
    } else {
      var first, a := acts[..|acts| - 1], acts[|acts| - 1];
      var w, keepers := RunAll(env, Idle(s), first), KeepersOf(env, Idle(s), first);
      RunKeepsRows(env, s, first);
      assert acts == first + [a];
      ExecKeepsStages(env, s, first, a, keepers);
      if Works(w, a) {
        PerformKeepsRows(env, s, w, first, a, keepers);
      } else {
        OtherActionsAreIdle(env, w, a);
        UndisturbedKeepsRows(env, s, w, first, a, Exec(env, w, a), keepers);
        assert keepers + [] == keepers;
      }
    }
  }

  /** Row `n` of the new ones is what is kept of the notification that its keeper
      was started for. */
  ghost predicate IsKeptBy(env: Env, s: State, acts: seq<Action>, i: nat, row: NewNotification) {
    RawOf(acts, i).Some? && row.raw == RawOf(acts, i).value && IsRowFor(env, s, acts, row.raw, row)
  }

  /** Under every schedule: the earlier rows are as they were; every new one was
      stored by a HandleNotification of its own, from the octets delivered to it
      and an order as it was in the table; and a HandleNotification that has
      answered stored one exactly if its octets could be read, or verified without
      a certificate. */
  lemma OneRowPerDelivery(env: Env, s: State, acts: seq<Action>)
    ensures var w, keepers := RunAll(env, Idle(s), acts), KeepersOf(env, Idle(s), acts);
            && |w.s.notifications| == |s.notifications| + |keepers| && s.notifications <= w.s.notifications
            && (forall m, n :: 0 <= m < n < |keepers| ==> keepers[m] != keepers[n])
            && (forall n :: 0 <= n < |keepers| ==>
                  IsKeptBy(env, s, acts, keepers[n], w.s.notifications[|s.notifications| + n].content))
            && (forall i :: i in w.threads && w.threads[i].pc.Finished? ==>
                  (i in keepers <==> RawOf(acts, i).Some? && IsLegible(env.lib, RawOf(acts, i).value)))
  {
    RunKeepsRows(env, s, acts);
    EachIsKept(env, s, RunAll(env, Idle(s), acts), acts, KeepersOf(env, Idle(s), acts));
  }

  lemma EachIsKept(env: Env, s: State, w: World, acts: seq<Action>, keepers: seq<nat>)
    requires StagesOk(env, s, w, acts, keepers) && RowsOk(env, s, w, acts, keepers)
    ensures forall n :: 0 <= n < |keepers| ==>
              IsKeptBy(env, s, acts, keepers[n], w.s.notifications[|s.notifications| + n].content)
    ensures forall i :: i in w.threads && w.threads[i].pc.Finished? ==>
              (i in keepers <==> RawOf(acts, i).Some? && IsLegible(env.lib, RawOf(acts, i).value))
  {
    forall n | 0 <= n < |keepers|
      ensures IsKeptBy(env, s, acts, keepers[n], w.s.notifications[|s.notifications| + n].content)
    {
      assert RowOk(env, s, acts, keepers[n], w.threads[keepers[n]].pc,
                   w.s.notifications[|s.notifications| + n].content);
    }
    forall i | i in w.threads && w.threads[i].pc.Finished?
      ensures i in keepers <==> RawOf(acts, i).Some? && IsLegible(env.lib, RawOf(acts, i).value)
    {
      assert StageOk(env, s, acts, i, w.threads[i].pc, i in keepers);
    }
  }

  /** A thread about to move an order stored the row that says so itself. */
  lemma MoverStoredItsRow(env: Env, s: State, acts: seq<Action>, i: nat) returns (n: nat)
    requires var w := RunAll(env, Idle(s), acts);
             i in w.threads && w.threads[i].pc.MoveOrder?
    ensures var w, keepers := RunAll(env, Idle(s), acts), KeepersOf(env, Idle(s), acts);
            && n < |keepers| && keepers[n] == i && |w.s.notifications| == |s.notifications| + |keepers|
            && Says(w.s.notifications[|s.notifications| + n].content, w.threads[i].pc.to)
  {
    var w, keepers := RunAll(env, Idle(s), acts), KeepersOf(env, Idle(s), acts);
    RunKeepsRows(env, s, acts);
    assert StageOk(env, s, acts, i, w.threads[i].pc, i in keepers);
    n :| 0 <= n < |keepers| && keepers[n] == i;
    assert RowOk(env, s, acts, keepers[n], w.threads[keepers[n]].pc,
                 w.s.notifications[|s.notifications| + n].content);
  }
}
