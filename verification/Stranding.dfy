/** What puts an order among the Downloaded and the Failed, with commands between
    the server's individual store operations (crates/smdp/src/server/es9.rs:282-287,
    329-353 and crates/smdp/src/bin/smdp.rs:201-212): the write of a request
    that served its package or stored a verified result for it. That write can
    come after a reset that came after the serving. */
module Stranding {
  import opened Basics
  import opened OrderStore
  import opened Protocol
  import opened OrderLife
  import opened Threads
  import opened Transparency
  import opened Answers
  import opened ClosedRegion
  import opened FailedWitness
  import opened KeptRows

  // ---- the write that settles

  /** The action writes Downloaded or Failed to the order. */
  predicate Marks(w: World, a: Action, id: int) {
    WriteBy(w, a) == PutState(id, Downloaded) || WriteBy(w, a) == PutState(id, Failed)
  }

  /** Action `k` marked the order, and no reset of it was written since. */
  ghost predicate MarkedAt(env: Env, w: World, acts: seq<Action>, id: int, k: nat) {
    && k < |acts| && Marks(RunAll(env, w, acts[..k]), acts[k], id)
    && forall j :: k < j < |acts| ==> !Resets(RunAll(env, w, acts[..j]), acts[j], id)
  }

  lemma MarkedOn(env: Env, w: World, acts: seq<Action>, a: Action, id: int, k: nat)
    requires k < |acts|
    ensures MarkedAt(env, w, acts + [a], id, k)
       <==> MarkedAt(env, w, acts, id, k) && !Resets(RunAll(env, w, acts), a, id)
  {
    var all := acts + [a];
    assert all[..|acts|] == acts && all[|acts|] == a;
    assert forall j :: 0 <= j < |acts| ==> all[..j] == acts[..j] && all[j] == acts[j];
  }

  /** One action, seen from the region: into it by a mark, out of it by a reset. */
  lemma RegionAfter(env: Env, w: World, a: Action, id: int)
    requires TransparencyOk(env, w) && RegionOk(w)
    ensures HandedOver(Exec(env, w, a).s.orders, id)
       <==> Marks(w, a, id) || (HandedOver(w.s.orders, id) && !Resets(w, a, id))
  {
    if HandedOver(w.s.orders, id) {
      LeavesByReset(env, w, a, id);
    } else if Works(w, a) {
      EntersByAMark(env, w, a, id);
    } else {
      OtherActionsAreIdle(env, w, a);
    }
  }

  lemma EntersByAMark(env: Env, w: World, a: Action, id: int)
    requires TransparencyOk(env, w) && Works(w, a) && !HandedOver(w.s.orders, id)
    ensures HandedOver(Exec(env, w, a).s.orders, id) <==> Marks(w, a, id)
  {
    var write := WriteBy(w, a);
    WorkWrites(env, w.s, w.threads[a.i].pc, a.choice);
    assert LocalsOk(env, w.s, w.trace, w.threads[a.i].pc);
    if Find(w.s.orders, id).Some? {
      RowAfterWrite(w.s.orders, write, id);
    } else {
      NewRowAfterWrite(w.s.orders, write, id);
      assert !Marks(w, a, id);
    }
  }

  /** A row that comes to be is Available. */
  lemma NewRowAfterWrite(t: Orders, w: Write, id: int)
    requires Ascending(t) && Find(t, id).None?
    ensures !HandedOver(Written(t, w), id)
  {
    match w
    case Nothing =>
    case PutState(at, st) => FindAfterState(t, at, st, id);
    case PutEuicc(at, eid, cert) => FindAfterEuicc(t, at, eid, cert, id);
    case PutOrder(added) => FindAfterOrder(t, added, id);
  }

  lemma MarkedBefore(env: Env, w: World, acts: seq<Action>, id: int, k: nat)
    requires acts != []
    ensures var n := |acts| - 1;
            var before := RunAll(env, w, acts[..n]);
            MarkedAt(env, w, acts, id, k) <==>
              if k < n then MarkedAt(env, w, acts[..n], id, k) && !Resets(before, acts[n], id)
              else k == n && Marks(before, acts[n], id)
  {
    var n := |acts| - 1;
    if k < n {
      MarkedOn(env, w, acts[..n], acts[n], id, k);
      assert acts == acts[..n] + [acts[n]];
    }
  }

  ghost predicate IsMarked(env: Env, w: World, acts: seq<Action>, id: int) {
    exists k: nat :: MarkedAt(env, w, acts, id, k)
  }

  lemma IsMarkedAfter(env: Env, w: World, acts: seq<Action>, id: int)
    requires acts != []
    ensures var n := |acts| - 1;
            var before := RunAll(env, w, acts[..n]);
            IsMarked(env, w, acts, id) <==>
              Marks(before, acts[n], id) || (IsMarked(env, w, acts[..n], id) && !Resets(before, acts[n], id))
  {
    var n := |acts| - 1;
    MarkedBefore(env, w, acts, id, n);
    if k: nat :| MarkedAt(env, w, acts, id, k) {
      MarkedBefore(env, w, acts, id, k);
    }
    if k: nat :| MarkedAt(env, w, acts[..n], id, k) {
      MarkedBefore(env, w, acts, id, k);
    }
  }

  lemma {:induction false} RunIsMarked(env: Env, w: World, acts: seq<Action>, id: int)
    requires TransparencyOk(env, w) && RegionOk(w) && SingleThreaded(env, w, acts) && !HandedOver(w.s.orders, id)
    ensures HandedOver(RunAll(env, w, acts).s.orders, id) <==> IsMarked(env, w, acts, id)
  {
    if acts == [] {
    } else {
      var n := |acts| - 1;
      SingleThreadedBefore(env, w, acts);
      RunIsMarked(env, w, acts[..n], id);
      RunKeepsTransparency(env, w, acts[..n]);
      RunKeepsRegion(env, w, acts[..n]);
      RegionAfter(env, RunAll(env, w, acts[..n]), acts[n], id);
      IsMarkedAfter(env, w, acts, id);
    }
  }

  /** An order that was not handed over at the start is handed over at the end
      if and only if, since the last reset written to it, a request marked it. */
  lemma HandedOverIffMarked(env: Env, s: State, acts: seq<Action>, id: int)
    requires WellKeyed(s.orders) && s.sessions == map[] && !HandedOver(s.orders, id)
    requires SingleThreaded(env, Idle(s), acts)
    ensures HandedOver(RunAll(env, Idle(s), acts).s.orders, id)
       <==> exists k: nat :: MarkedAt(env, Idle(s), acts, id, k)
  {
    RunIsMarked(env, Idle(s), acts, id);
  }

  // ---- who makes it

  /** A stored, verified installation result for the order. */
  predicate IsResultFor(row: NewNotification, id: int) {
    row.orderId == Some(id) && row.verified && row.installed.Some?
  }

  /** Thread `i` served a package from the order. */
  ghost predicate ServedIt(w: World, i: nat, id: int) {
    exists n :: 0 <= n < |w.trace| && n < |w.callers| && w.callers[n] == i
                && w.trace[n].Served? && w.trace[n].order == id
  }

  /** Thread `i` stored a verified result that says what the move does. */
  ghost predicate StoredIt(env: Env, s: State, acts: seq<Action>, i: nat, m: Move) {
    var rows, keepers := RunAll(env, Idle(s), acts).s.notifications, KeepersOf(env, Idle(s), acts);
    exists n :: 0 <= n < |keepers| && |s.notifications| + n < |rows| && keepers[n] == i
                && Says(rows[|s.notifications| + n].content, m)
  }

  /** Under every schedule, whoever marks an order Downloaded has in this very
      request served it, or stored a verified result that says so; whoever marks
      it Failed has in this very request stored a verified result that says so. */
  lemma MarkHasACause(env: Env, s: State, acts: seq<Action>, a: Action, id: int)
    requires Marks(RunAll(env, Idle(s), acts), a, id)
    ensures var w := RunAll(env, Idle(s), acts);
            || (WriteBy(w, a) == PutState(id, Downloaded)
                && (ServedIt(w, a.i, id) || StoredIt(env, s, acts, a.i, Move(id, Downloaded))))
            || (WriteBy(w, a) == PutState(id, Failed) && StoredIt(env, s, acts, a.i, Move(id, Failed)))
  {
    var w := RunAll(env, Idle(s), acts);
    var pc := w.threads[a.i].pc;
    if pc.MarkDownloaded? {
      IdleAnswers(s);
      RunKeepsAnswers(env, Idle(s), acts);
      var n := ServedByItsThread(w, a.i);
      assert ServedIt(w, a.i, id);
    } else {
      var n := MoverStoredItsRow(env, s, acts, a.i);
      assert StoredIt(env, s, acts, a.i, pc.to);
    }
  }

  // ---- when the documented form holds

  /** The thread has served the order's package, or has stored a result for it,
      and has still to mark it. */
  predicate HasStillToMark(pc: Pc, id: int) {
    (pc.MarkDownloaded? && pc.id == id) || (pc.MoveOrder? && pc.to.order == id)
  }

  /** Between the two, a package was served from the order or a verified result
      for it was stored. */
  ghost predicate WasSettled(w: World, after: World, id: int) {
    || (exists n :: |w.trace| <= n < |after.trace| && after.trace[n].Served? && after.trace[n].order == id)
    || (exists k :: |w.s.notifications| <= k < |after.s.notifications|
                    && IsResultFor(after.s.notifications[k].content, id))
  }

  ghost predicate NobodyHasStillToMark(w: World, id: int) {
    forall i :: i in w.threads ==> !HasStillToMark(w.threads[i].pc, id)
  }

  lemma WorkOnlyAppends(env: Env, w: World, i: nat, c: Choice)
    requires i in w.threads
    ensures var after := Perform(env, w, i, c);
            w.trace <= after.trace && w.s.notifications <= after.s.notifications
  {
  }

  lemma SettledStays(w: World, mid: World, after: World, id: int)
    requires WasSettled(w, mid, id)
    requires mid.trace <= after.trace && mid.s.notifications <= after.s.notifications
    ensures WasSettled(w, after, id)
  {
    if n :| |w.trace| <= n < |mid.trace| && mid.trace[n].Served? && mid.trace[n].order == id {
      assert after.trace[n] == mid.trace[n];
    } else {
      var k :| |w.s.notifications| <= k < |mid.s.notifications| && IsResultFor(mid.s.notifications[k].content, id);
      assert after.s.notifications[k] == mid.s.notifications[k];
    }
  }

  /** A thread comes to have an order still to mark by serving it or by storing a
      verified result for it. */
  lemma ComesToMark(env: Env, s: State, pc: Pc, c: Choice, id: int)
    requires MoveOk(s.notifications, pc)
    requires HasStillToMark(Work(env, s, pc, c).2, id)
    ensures var (s2, calls, _) := Work(env, s, pc, c);
            || (|calls| == 1 && calls[0].Served? && calls[0].order == id)
            || (|s2.notifications| == |s.notifications| + 1
                && IsResultFor(s2.notifications[|s.notifications|].content, id))
  {
  }

  lemma MarkingIsSettled(env: Env, w: World, mid: World, i: nat, c: Choice, id: int)
    requires i in mid.threads && MoveOk(mid.s.notifications, mid.threads[i].pc)
    requires |w.trace| <= |mid.trace| && |w.s.notifications| <= |mid.s.notifications|
    requires HasStillToMark(Work(env, mid.s, mid.threads[i].pc, c).2, id)
    ensures WasSettled(w, Perform(env, mid, i, c), id)
  {
    var after := Perform(env, mid, i, c);
    var calls := Work(env, mid.s, mid.threads[i].pc, c).1;
    ComesToMark(env, mid.s, mid.threads[i].pc, c, id);
    if |calls| == 1 && calls[0].Served? && calls[0].order == id {
      assert after.trace[|mid.trace|] == calls[0];
    } else {
      assert IsResultFor(after.s.notifications[|mid.s.notifications|].content, id);
    }
  }

  /** What has to have happened since `w` for the order to be handed over. */
  ghost predicate SettledOrUntouched(w: World, after: World, id: int) {
    && |w.trace| <= |after.trace| && |w.s.notifications| <= |after.s.notifications|
    && (WasSettled(w, after, id) || (!HandedOver(after.s.orders, id) && NobodyHasStillToMark(after, id)))
  }

  lemma WorkKeepsUntouched(env: Env, w: World, mid: World, a: Action, id: int)
    requires TransparencyOk(env, mid) && MovesOk(mid) && Works(mid, a)
    requires |w.trace| <= |mid.trace| && |w.s.notifications| <= |mid.s.notifications|
    requires !HandedOver(mid.s.orders, id) && NobodyHasStillToMark(mid, id)
    ensures var after := Exec(env, mid, a);
            WasSettled(w, after, id) || (!HandedOver(after.s.orders, id) && NobodyHasStillToMark(after, id))
  {
    var pc := mid.threads[a.i].pc;
    EntersByAMark(env, mid, a, id);
    assert Marks(mid, a, id) ==> HasStillToMark(pc, id);
    if HasStillToMark(Exec(env, mid, a).threads[a.i].pc, id) {
      MarkingIsSettled(env, w, mid, a.i, a.choice, id);
    }
  }

  lemma ExecKeepsSettled(env: Env, w: World, mid: World, a: Action, id: int)
    requires TransparencyOk(env, mid) && MovesOk(mid) && SettledOrUntouched(w, mid, id)
    ensures SettledOrUntouched(w, Exec(env, mid, a), id)
  {
    if !Works(mid, a) {
      OtherActionsAreIdle(env, mid, a);
    } else {
      WorkOnlyAppends(env, mid, a.i, a.choice);
      if WasSettled(w, mid, id) {
        SettledStays(w, mid, Exec(env, mid, a), id);
      } else {
        WorkKeepsUntouched(env, w, mid, a, id);
      }
    }
  }

  lemma {:induction false} RunKeepsSettled(env: Env, w: World, acts: seq<Action>, id: int)
    requires TransparencyOk(env, w) && MovesOk(w) && !HandedOver(w.s.orders, id) && NobodyHasStillToMark(w, id)
    ensures SettledOrUntouched(w, RunAll(env, w, acts), id)
  {
    if acts == [] {
    } else {
      RunKeepsSettled(env, w, acts[..|acts| - 1], id);
      RunKeepsTransparency(env, w, acts[..|acts| - 1]);
      RunKeepsMoves(env, w, acts[..|acts| - 1]);
      ExecKeepsSettled(env, w, RunAll(env, w, acts[..|acts| - 1]), acts[|acts| - 1], id);
    }
  }

  /** The one request at work waits for nobody. */
  lemma HasStillToMarkCanGo(w: World, i: nat, id: int)
    requires LocksOk(w) && RegionOk(w)
    requires i in w.threads && HasStillToMark(w.threads[i].pc, id)
    ensures CanGo(w, i)
  {
    assert Busy(w.threads[i]);
    if w.storeLock.Some? {
      var t := w.threads[w.storeLock.value];
      assert HoldsStore(t) && Busy(t);
    }
  }

  /** A thread that has still to mark the order does, whatever became of the
      order meanwhile. */
  lemma MarksAnyway(env: Env, w: World, i: nat, id: int) returns (acts: seq<Action>)
    requires TransparencyOk(env, w) && RegionOk(w)
    requires i in w.threads && HasStillToMark(w.threads[i].pc, id)
    ensures SingleThreaded(env, w, acts) && |acts| <= 2
    ensures var after := RunAll(env, w, acts);
            HandedOver(after.s.orders, id) && after.trace == w.trace && after.s.notifications == w.s.notifications
  {
    var go := Go(i, Choice(0, 0, 0));
    assert LocalsOk(env, w.s, w.trace, w.threads[i].pc) && OfferStands(w.s.orders, w.threads[i].pc);
    HasStillToMarkCanGo(w, i, id);
    OneAction(env, w, go);
    TwoActions(env, w, go);
    if Waits(w.threads[i]) {
      acts := [go, go];
      MarksNow(env, Acquire(w, i), i, id);
    } else {
      acts := [go];
      MarksNow(env, w, i, id);
    }
  }

  lemma MarksNow(env: Env, w: World, i: nat, id: int)
    requires i in w.threads && HasStillToMark(w.threads[i].pc, id) && w.threads[i].locked
    requires Find(w.s.orders, id).Some? && OfferStands(w.s.orders, w.threads[i].pc)
    ensures var after := Exec(env, w, Go(i, Choice(0, 0, 0)));
            HandedOver(after.s.orders, id) && after.trace == w.trace && after.s.notifications == w.s.notifications
  {
    var pc := w.threads[i].pc;
    FindAfterState(w.s.orders, id, if pc.MarkDownloaded? then Downloaded else pc.to.to, id);
  }

  /** From `w` on, the order is handed over only after having been settled. */
  ghost predicate NeverStrands(env: Env, w: World, id: int) {
    forall more :: SingleThreaded(env, w, more) && HandedOver(RunAll(env, w, more).s.orders, id) ==>
      WasSettled(w, RunAll(env, w, more), id)
  }

  lemma NeverStrandsIff(env: Env, w: World, id: int)
    requires TransparencyOk(env, w) && RegionOk(w) && MovesOk(w) && !HandedOver(w.s.orders, id)
    ensures NeverStrands(env, w, id) <==> NobodyHasStillToMark(w, id)
  {
    if NobodyHasStillToMark(w, id) {
      forall more | HandedOver(RunAll(env, w, more).s.orders, id)
        ensures WasSettled(w, RunAll(env, w, more), id)
      {
        RunKeepsSettled(env, w, more, id);
      }
    } else {
      var i :| i in w.threads && HasStillToMark(w.threads[i].pc, id);
      var more := MarksAnyway(env, w, i, id);
      assert !WasSettled(w, RunAll(env, w, more), id);
    }
  }

  /** No stranding, exactly. Take any moment at which the order is not handed
      over, such as right after its creation or its last reset. From then on it
      is handed over only after a package was served from it or a verified result
      was stored for it, if and only if no request that did so before has still
      to mark it. */
  lemma NoStrandingExactly(env: Env, s: State, acts: seq<Action>, id: int)
    requires WellKeyed(s.orders) && s.sessions == map[] && SingleThreaded(env, Idle(s), acts)
    requires !HandedOver(RunAll(env, Idle(s), acts).s.orders, id)
    ensures NeverStrands(env, RunAll(env, Idle(s), acts), id)
       <==> NobodyHasStillToMark(RunAll(env, Idle(s), acts), id)
  {
    var w := RunAll(env, Idle(s), acts);
    RunKeepsTransparency(env, Idle(s), acts);
    RunKeepsRegion(env, Idle(s), acts);
    RunKeepsMoves(env, Idle(s), acts);
    NeverStrandsIff(env, w, id);
  }
}
