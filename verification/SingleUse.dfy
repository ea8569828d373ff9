/** Single use under real concurrency: an inserted session yields at most one
    package, because lookup, library call and removal share one hold of the
    session lock (crates/smdp/src/server/es9.rs:239-283). The removal does not
    look again whether the session is still there: that it is, is what the lock
    is for. */
module SingleUse {
  import opened Basics
  import opened SessionTable
  import opened Protocol
  import opened Threads

  /** Ids opened and not served since. */
  function LiveIds(trace: seq<Call>): set<Bytes> {
    if trace == [] then {}
    else
      var live, e := LiveIds(trace[..|trace| - 1]), trace[|trace| - 1];
      if e.Opened? then live + {e.id} else if e.Served? then live - {e.id} else live
  }

  function Openings(trace: seq<Call>): nat {
    if trace == [] then 0
    else Openings(trace[..|trace| - 1]) + (if trace[|trace| - 1].Opened? then 1 else 0)
  }

  function Servings(trace: seq<Call>): nat {
    if trace == [] then 0
    else Servings(trace[..|trace| - 1]) + (if trace[|trace| - 1].Served? then 1 else 0)
  }

  /** Whatever is served is live at that moment. */
  ghost predicate ServesLiveOnes(trace: seq<Call>) {
    forall n :: 0 <= n < |trace| && trace[n].Served? ==> trace[n].id in LiveIds(trace[..n])
  }

  ghost predicate LiveOk(s: State, trace: seq<Call>) {
    s.sessions.Keys <= LiveIds(trace) && ServesLiveOnes(trace)
  }

  /** The session a thread looked up under the lock it still has. */
  function OwnSession(pc: Pc): Bytes
    requires KeepsSessions(pc)
  {
    if pc.CallAuthenticate? then pc.authenticate.transactionId else pc.package.transactionId
  }

  predicate KeepsItsOwn(s: State, pc: Pc) {
    KeepsSessions(pc) ==> OwnSession(pc) in s.sessions
  }

  ghost predicate SingleUseOk(w: World) {
    LocksOk(w) && LiveOk(w.s, w.trace) && forall i :: i in w.threads ==> KeepsItsOwn(w.s, w.threads[i].pc)
  }

  lemma LiveAppended(trace: seq<Call>, e: Call)
    requires ServesLiveOnes(trace) && (e.Served? ==> e.id in LiveIds(trace))
    ensures ServesLiveOnes(trace + [e])
    ensures LiveIds(trace + [e])
         == if e.Opened? then LiveIds(trace) + {e.id} else if e.Served? then LiveIds(trace) - {e.id} else LiveIds(trace)
  {
    var all := trace + [e];
    assert all[..|trace|] == trace;
    forall n | 0 <= n < |all| && all[n].Served?
      ensures all[n].id in LiveIds(all[..n])
    {
      if n < |trace| {
        assert all[..n] == trace[..n];
      }
    }
  }

  lemma InsertKeepsLive(env: Env, s: State, trace: seq<Call>, pc: Pc, c: Choice)
    requires pc.Insert? && LiveOk(s, trace)
    ensures var (s2, calls, _) := Work(env, s, pc, c);
            LiveOk(s2, trace + calls)
  {
    LiveAppended(trace, Opened(pc.opening.input.transactionId, pc.opening.input));
  }

  /** The library calls: the entry written back is one that is there. */
  lemma CallKeepsLive(env: Env, s: State, trace: seq<Call>, pc: Pc, c: Choice)
    requires (pc.CallAuthenticate? || pc.CallPackage?) && KeepsItsOwn(s, pc) && LiveOk(s, trace)
    ensures var (s2, calls, next) := Work(env, s, pc, c);
            LiveOk(s2, trace + calls) && KeepsItsOwn(s2, next)
  {
    LiveAppended(trace, Work(env, s, pc, c).1[0]);
  }

  /** The removal: what is served is a session that is there. */
  lemma SpendKeepsLive(env: Env, s: State, trace: seq<Call>, pc: Pc, c: Choice)
    requires pc.Spend? && KeepsItsOwn(s, pc) && LiveOk(s, trace)
    ensures var (s2, calls, _) := Work(env, s, pc, c);
            LiveOk(s2, trace + calls)
  {
    LiveAppended(trace, Served(pc.package.transactionId, pc.id, pc.bpp));
  }

  lemma WorkKeepsSingleUse(env: Env, s: State, trace: seq<Call>, pc: Pc, c: Choice)
    requires KeepsItsOwn(s, pc) && LiveOk(s, trace)
    ensures var (s2, calls, next) := Work(env, s, pc, c);
            LiveOk(s2, trace + calls) && KeepsItsOwn(s2, next)
  {
    if pc.Insert? {
      InsertKeepsLive(env, s, trace, pc, c);
    } else if pc.CallAuthenticate? || pc.CallPackage? {
      CallKeepsLive(env, s, trace, pc, c);
    } else if pc.Spend? {
      SpendKeepsLive(env, s, trace, pc, c);
    } else {
      OtherWorkIsSilent(env, s, pc, c);
      assert trace + [] == trace;
    }
  }

  lemma ExecKeepsSingleUse(env: Env, w: World, a: Action)
    requires SingleUseOk(w)
    ensures SingleUseOk(Exec(env, w, a))
  {
    var after := Exec(env, w, a);
    ExecKeepsLocks(env, w, a);
    if Works(w, a) {
      WorkKeepsSingleUse(env, w.s, w.trace, w.threads[a.i].pc, a.choice);
      forall j | j in after.threads && j != a.i && KeepsSessions(w.threads[j].pc)
        ensures KeepsItsOwn(after.s, after.threads[j].pc)
      {
        LockKeepsOthersSilent(env, w, a.i, j, a.choice);
      }
    } else {
      OtherActionsAreIdle(env, w, a);
    }
  }

  lemma {:induction false} RunKeepsSingleUse(env: Env, w: World, acts: seq<Action>)
    requires SingleUseOk(w)
    ensures SingleUseOk(RunAll(env, w, acts))
  {
    if acts == [] {
    } else {
      RunKeepsSingleUse(env, w, acts[..|acts| - 1]);
      ExecKeepsSingleUse(env, RunAll(env, w, acts[..|acts| - 1]), acts[|acts| - 1]);
    }
  }

  lemma {:induction false} ServingsAreOpenings(trace: seq<Call>)
    requires ServesLiveOnes(trace)
    ensures Servings(trace) + |LiveIds(trace)| <= Openings(trace)
  {
    if trace == [] {
    } else {
      var before := trace[..|trace| - 1];
      assert forall n :: 0 <= n < |before| ==> before[..n] == trace[..n];
      ServingsAreOpenings(before);
    }
  }

  lemma {:induction false} DeadUntilOpened(trace: seq<Call>, id: Bytes, j: nat, n: nat)
    requires j < n <= |trace| && trace[j].Served? && trace[j].id == id
    requires forall m :: j < m < n ==> !(trace[m].Opened? && trace[m].id == id)
    ensures id !in LiveIds(trace[..n])
  {
    assert trace[..n][..n - 1] == trace[..n - 1];
    if n > j + 1 {
      DeadUntilOpened(trace, id, j, n - 1);
    }
  }

  /** Between two packages served on one transactionId, it was opened anew; so
      each opening yields at most one, and packages never outnumber successful
      InitiateAuthentications, nor do packages and live sessions together. */
  lemma EachSessionServesOnce(env: Env, s: State, acts: seq<Action>)
    requires s.sessions == map[]
    ensures var w := RunAll(env, Idle(s), acts);
            && (forall j, n :: 0 <= j < n < |w.trace| && w.trace[j].Served? && w.trace[n].Served?
                               && w.trace[j].id == w.trace[n].id ==>
                  exists m :: j < m < n && w.trace[m].Opened? && w.trace[m].id == w.trace[n].id)
            && Servings(w.trace) + |w.s.sessions| <= Openings(w.trace)
  {
    var w := RunAll(env, Idle(s), acts);
    RunKeepsSingleUse(env, Idle(s), acts);
    ServingsAreOpenings(w.trace);
    Subset(w.s.sessions.Keys, LiveIds(w.trace));
    assert |w.s.sessions| == |w.s.sessions.Keys|;
    forall j, n | 0 <= j < n < |w.trace| && w.trace[j].Served? && w.trace[n].Served? && w.trace[j].id == w.trace[n].id
      ensures exists m :: j < m < n && w.trace[m].Opened? && w.trace[m].id == w.trace[n].id
    {
      if forall m :: j < m < n ==> !(w.trace[m].Opened? && w.trace[m].id == w.trace[n].id) {
        DeadUntilOpened(w.trace, w.trace[n].id, j, n);
      }
    }
  }
}
