/** When a handed-over order stays so with any number of server threads
    (crates/smdp/src/server/es9.rs:155-182, 228): the handler that binds an order
    read it as offerable in a store operation of its own, earlier. */
module Reopening {
  import opened Rsp
  import opened OrderStore
  import opened Protocol
  import opened OrderLife
  import opened Threads
  import opened Transparency
  import opened ClosedRegion
  import opened FailedWitness

  predicate IsAboutToBind(pc: Pc, id: int) {
    (pc.Remember? && pc.id == id) || (pc.BindOrder? && pc.id == id)
  }

  /** The library accepts the request for the session the thread looked up. */
  predicate IsAccepted(lib: Library, pc: Pc)
    requires pc.CallAuthenticate?
  {
    var granted := AuthenticateEntry(lib, pc.entry, pc.authenticate, pc.order).1;
    granted.Ok? && AuthenticateBody(lib, pc.authenticate, granted.value).Ok?
  }

  /** The thread will bind the order: nothing that happens meanwhile is asked. */
  predicate WillBind(lib: Library, pc: Pc, id: int) {
    (pc.CallAuthenticate? && pc.order.id == id && IsAccepted(lib, pc)) || IsAboutToBind(pc, id)
  }

  /** The thread has read the order as offerable and has still to look its session
      up, or it will bind the order. */
  predicate MayBind(lib: Library, pc: Pc, id: int) {
    (pc.Ask? && pc.order.id == id) || WillBind(lib, pc, id)
  }

  ghost predicate NobodyMayBind(env: Env, w: World, id: int) {
    forall i :: i in w.threads ==> !MayBind(env.lib, w.threads[i].pc, id)
  }

  // ---- nobody may bind it

  /** A closed order is not read as offerable. */
  lemma ClosedIsNotChosen(env: Env, s: State, pc: Pc, c: Choice, id: int)
    requires Ascending(s.orders) && HandedOver(s.orders, id) && pc.Choose?
    ensures !MayBind(env.lib, Work(env, s, pc, c).2, id)
  {
    if ChooseOrder(s.orders).Ok? {
      ChosenOrderIsTheOnlyOffer(s.orders);
    }
  }

  lemma AcceptedWillBind(env: Env, s: State, pc: Pc, c: Choice, id: int)
    requires pc.CallAuthenticate?
    ensures MayBind(env.lib, Work(env, s, pc, c).2, id) <==> WillBind(env.lib, pc, id)
  {
  }

  /** What follows the work of the other functions. */
  lemma OtherWorkDoesNotBind(env: Env, s: State, pc: Pc, c: Choice, id: int)
    requires !pc.Choose? && !pc.Ask? && !pc.CallAuthenticate? && !pc.Remember?
    ensures !MayBind(env.lib, Work(env, s, pc, c).2, id)
  {
    var next := Work(env, s, pc, c).2;
    assert !next.Ask? && !next.CallAuthenticate? && !next.Remember? && !next.BindOrder?;
  }

  lemma WorkDoesNotBind(env: Env, s: State, pc: Pc, c: Choice, id: int)
    requires Ascending(s.orders) && HandedOver(s.orders, id) && !MayBind(env.lib, pc, id)
    ensures !MayBind(env.lib, Work(env, s, pc, c).2, id)
  {
    if pc.Choose? {
      ClosedIsNotChosen(env, s, pc, c, id);
    } else if pc.CallAuthenticate? {
      AcceptedWillBind(env, s, pc, c, id);
    } else if !pc.Ask? && !pc.Remember? {
      OtherWorkDoesNotBind(env, s, pc, c, id);
    }
  }

  lemma ExecKeepsClosed(env: Env, w: World, a: Action, id: int)
    requires WellKeyed(w.s.orders) && MovesOk(w) && HandedOver(w.s.orders, id) && NobodyMayBind(env, w, id)
    requires !Resets(w, a, id)
    ensures WellKeyed(Exec(env, w, a).s.orders)
    ensures HandedOver(Exec(env, w, a).s.orders, id) && NobodyMayBind(env, Exec(env, w, a), id)
  {
    LeavesByAWrite(env, w, a, id);
    if Works(w, a) {
      var pc := w.threads[a.i].pc;
      assert !MayBind(env.lib, pc, id) && MoveOk(w.s.notifications, pc);
      WorkKeepsKeys(env, w.s, pc, a.choice);
      WorkDoesNotBind(env, w.s, pc, a.choice, id);
    } else {
      OtherActionsAreIdle(env, w, a);
    }
  }

  lemma {:induction false} RunKeepsClosed(env: Env, w: World, acts: seq<Action>, id: int)
    requires WellKeyed(w.s.orders) && MovesOk(w) && HandedOver(w.s.orders, id) && NobodyMayBind(env, w, id)
    requires NoReset(env, w, acts, id)
    ensures WellKeyed(RunAll(env, w, acts).s.orders)
    ensures HandedOver(RunAll(env, w, acts).s.orders, id) && NobodyMayBind(env, RunAll(env, w, acts), id)
  {
    if acts == [] {
    } else {
      var first := acts[..|acts| - 1];
      assert forall k :: 0 <= k < |first| ==> first[..k] == acts[..k];
      RunKeepsClosed(env, w, first, id);
      RunKeepsMoves(env, w, first);
      ExecKeepsClosed(env, RunAll(env, w, first), acts[|acts| - 1], id);
    }
  }

  // ---- somebody will bind it

  lemma FirstThenRest(env: Env, w: World, a: Action, rest: seq<Action>, id: int)
    requires !Resets(w, a, id) && NoReset(env, Exec(env, w, a), rest, id)
    ensures RunAll(env, w, [a] + rest) == RunAll(env, Exec(env, w, a), rest)
    ensures NoReset(env, w, [a] + rest, id)
  {
    OneAction(env, w, a);
    RunAllTwice(env, w, [a], rest);
    forall k | 0 <= k < |[a] + rest|
      ensures !Resets(RunAll(env, w, ([a] + rest)[..k]), ([a] + rest)[k], id)
    {
      if k > 0 {
        assert ([a] + rest)[..k] == [a] + rest[..k - 1];
        RunAllTwice(env, w, [a], rest[..k - 1]);
      }
    }
  }

  /** Somebody else works on the store just now. */
  predicate StoreIsTaken(w: World, i: nat) {
    w.storeLock.Some? && w.storeLock.value != i
  }

  lemma WhoHasTheStoreCanGo(w: World)
    requires LocksOk(w) && w.storeLock.Some?
    ensures CanGo(w, w.storeLock.value) && !Waits(w.threads[w.storeLock.value])
    ensures !IsCommand(w.threads[w.storeLock.value].pc)
  {
    assert HoldsStore(w.threads[w.storeLock.value]);
  }

  /** The last piece of work. */
  lemma BindsNow(env: Env, w: World, i: nat, c: Choice, id: int)
    requires Works(w, Go(i, c)) && w.threads[i].pc.BindOrder? && w.threads[i].pc.id == id
    ensures !HandedOver(Exec(env, w, Go(i, c)).s.orders, id)
  {
    FindAfterState(w.s.orders, id, Bound, id);
  }

  /** One move towards the binding: whoever has the store goes first. */
  lemma OneMoveNearer(env: Env, w: World, i: nat, c: Choice, id: int) returns (a: Action)
    requires LocksOk(w) && i in w.threads && WillBind(env.lib, w.threads[i].pc, id)
    ensures a == if StoreIsTaken(w, i) then Go(w.storeLock.value, c) else Go(i, c)
    ensures !Resets(w, a, id)
    ensures LocksOk(Exec(env, w, a)) && i in Exec(env, w, a).threads
    ensures StoreIsTaken(w, i) ==>
              !StoreIsTaken(Exec(env, w, a), i) && Exec(env, w, a).threads[i] == w.threads[i]
    ensures !StoreIsTaken(w, i) ==>
              !StoreIsTaken(Exec(env, w, a), i) && MovesLeft(Exec(env, w, a).threads[i]) < MovesLeft(w.threads[i])
    ensures !StoreIsTaken(w, i) ==>
              || WillBind(env.lib, Exec(env, w, a).threads[i].pc, id)
              || (Works(w, a) && w.threads[i].pc.BindOrder?)
  {
    if StoreIsTaken(w, i) {
      WhoHasTheStoreCanGo(w);
      a := Go(w.storeLock.value, c);
    } else {
      a := Go(i, c);
      MoveIsProgress(env, w, i, c);
    }
    ExecKeepsLocks(env, w, a);
  }

  /** A thread that will bind the order does, whatever became of the order
      meanwhile and whoever else is at work. */
  lemma {:induction false} BindsAnyway(env: Env, w: World, i: nat, c: Choice, id: int) returns (acts: seq<Action>)
    requires LocksOk(w) && i in w.threads && WillBind(env.lib, w.threads[i].pc, id)
    ensures NoReset(env, w, acts, id) && !HandedOver(RunAll(env, w, acts).s.orders, id)
    decreases if StoreIsTaken(w, i) then 1 else 0, MovesLeft(w.threads[i])
  {
    var a := OneMoveNearer(env, w, i, c, id);
    var next := Exec(env, w, a);
    if !StoreIsTaken(w, i) && Works(w, a) && w.threads[i].pc.BindOrder? {
      BindsNow(env, w, i, c, id);
      OneAction(env, w, a);
      acts := [a];
    } else {
      var rest := BindsAnyway(env, next, i, c, id);
      FirstThenRest(env, w, a, rest, id);
      acts := [a] + rest;
    }
  }

  // ---- together

  /** From `w` on, no schedule without a reset of the order reopens it. */
  ghost predicate NeverReopens(env: Env, w: World, id: int) {
    forall more :: NoReset(env, w, more, id) ==> HandedOver(RunAll(env, w, more).s.orders, id)
  }

  /** Take any moment of any schedule of any number of threads at which an order is
      handed over. If no thread may bind it, it stays so until it is reset, whatever
      the schedule. If one will, some schedule without a reset reopens it. What
      lies between is a thread that has read it as offerable and not yet looked its
      session up. */
  lemma ReopensIfItWillBeBound(env: Env, s: State, acts: seq<Action>, id: int)
    requires WellKeyed(s.orders) && s.sessions == map[]
    requires HandedOver(RunAll(env, Idle(s), acts).s.orders, id)
    ensures var w := RunAll(env, Idle(s), acts);
            && (NobodyMayBind(env, w, id) ==> NeverReopens(env, w, id))
            && ((exists i :: i in w.threads && WillBind(env.lib, w.threads[i].pc, id)) ==> !NeverReopens(env, w, id))
  {
    var w := RunAll(env, Idle(s), acts);
    RunKeepsTransparency(env, Idle(s), acts);
    RunKeepsMoves(env, Idle(s), acts);
    if NobodyMayBind(env, w, id) {
      forall more | NoReset(env, w, more, id)
        ensures HandedOver(RunAll(env, w, more).s.orders, id)
      {
        RunKeepsClosed(env, w, more, id);
      }
    }
    if i :| i in w.threads && WillBind(env.lib, w.threads[i].pc, id) {
      var more := BindsAnyway(env, w, i, Choice(0, 0, 0), id);
      assert NoReset(env, w, more, id);
    }
  }
}
