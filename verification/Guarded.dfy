/** What the two mutexes guard (crates/smdp/src/server/es9.rs:131-134, 184-206,
    239-283 and crates/smdp/src/store/sqlite.rs:137-278): no piece of work of the
    server sees or changes the store or the session table without its mutex, and
    none waits for the session table while it has the store. */
module Guarded {
  import opened OrderStore
  import opened SessionTable
  import opened Protocol
  import opened Threads
  import opened ClosedRegion

  /** Without the store's mutex, the store is neither changed nor seen: whatever it
      holds, the piece of work does the same. */
  lemma StoreIsGuarded(env: Env, s: State, pc: Pc, c: Choice, orders: Orders, notifications: Notifications)
    requires !IsCommand(pc) && Needs(pc) != StoreLock
    ensures var (s2, calls, next) := Work(env, s, pc, c);
            && s2.orders == s.orders && s2.notifications == s.notifications
            && Work(env, s.(orders := orders, notifications := notifications), pc, c)
               == (s2.(orders := orders, notifications := notifications), calls, next)
  {
  }

  /** The same of the session table and its mutex. */
  lemma SessionsAreGuarded(env: Env, s: State, pc: Pc, c: Choice, sessions: Table)
    requires Needs(pc) != SessionLock && !KeepsSessions(pc)
    ensures var (s2, calls, next) := Work(env, s, pc, c);
            && s2.sessions == s.sessions
            && Work(env, s.(sessions := sessions), pc, c) == (s2.(sessions := sessions), calls, next)
  {
  }

  /** The session table is given up before anything is written to the store, and a
      command takes neither mutex. */
  lemma WritesAreMadeWithoutSessions(env: Env, s: State, pc: Pc, c: Choice)
    ensures Work(env, s, pc, c).0.orders != s.orders || Work(env, s, pc, c).0.notifications != s.notifications ==>
              Needs(pc) != SessionLock && !KeepsSessions(pc)
    ensures IsCommand(pc) ==> Needs(pc) == NoLock
  {
  }

  // ---- nothing else is waited for

  /** No thread has the mutex thread `i` asks for. */
  ghost predicate IsFree(w: World, need: Need) {
    forall j :: j in w.threads ==>
      && (need == SessionLock ==> !HoldsSessions(w.threads[j]))
      && (need == StoreLock ==> !HoldsStore(w.threads[j]))
  }

  /** In every reachable world an unfinished thread can go exactly if it has what it
      needs or no other thread has it: threads wait for mutexes and nothing else. */
  lemma OnlyMutexesAreWaitedFor(w: World, i: nat)
    requires LocksOk(w) && i in w.threads && !w.threads[i].pc.Finished?
    ensures CanGo(w, i) <==> w.threads[i].locked || IsFree(w, Needs(w.threads[i].pc))
  {
    var need := Needs(w.threads[i].pc);
    if !w.threads[i].locked && need == SessionLock && w.sessionLock.Some? {
      assert HoldsSessions(w.threads[w.sessionLock.value]);
    }
    if !w.threads[i].locked && need == StoreLock && w.storeLock.Some? {
      assert HoldsStore(w.threads[w.storeLock.value]);
    }
  }
}
