/** What a request that fails has done to what others see, under every schedule
    (crates/smdp/src/server/es9.rs:85-276): nothing. */
module FailedThreads {
  import opened Protocol
  import opened Threads
  import opened SingleUse
  import opened Answers

  /** More changed than the state of a session that is there before and after. */
  predicate LeavesAMark(s: State, after: State) {
    || after.orders != s.orders || after.notifications != s.notifications
    || after.sessions.Keys != s.sessions.Keys
  }

  /** From here on the request can only succeed. */
  predicate IsCommitted(pc: Pc) {
    || pc.BindOrder? || pc.MarkDownloaded? || pc.MoveOrder?
    || (pc.Finished? && !pc.answer.Unsuccessful?)
  }

  /** A piece of work of a request that can still fail leaves no mark, and no
      piece leads back. */
  lemma MarkedIsCommitted(env: Env, s: State, pc: Pc, c: Choice)
    requires BodyOk(pc) && KeepsItsOwn(s, pc)
    ensures var (s2, _, next) := Work(env, s, pc, c);
            LeavesAMark(s, s2) || IsCommitted(pc) ==> IsCommitted(next)
  {
  }

  lemma ExecKeepsCommitted(env: Env, w: World, a: Action, i: nat)
    requires AnswersOk(w) && SingleUseOk(w) && i in w.threads && IsCommitted(w.threads[i].pc)
    ensures i in Exec(env, w, a).threads && IsCommitted(Exec(env, w, a).threads[i].pc)
  {
    if Works(w, a) {
      MarkedIsCommitted(env, w.s, w.threads[a.i].pc, a.choice);
    } else {
      OtherActionsAreIdle(env, w, a);
    }
  }

  lemma {:induction false} StaysCommitted(env: Env, w: World, acts: seq<Action>, i: nat)
    requires AnswersOk(w) && SingleUseOk(w) && i in w.threads && IsCommitted(w.threads[i].pc)
    ensures i in RunAll(env, w, acts).threads && IsCommitted(RunAll(env, w, acts).threads[i].pc)
  {
    if acts == [] {
    } else {
      StaysCommitted(env, w, acts[..|acts| - 1], i);
      RunKeepsAnswers(env, w, acts[..|acts| - 1]);
      RunKeepsSingleUse(env, w, acts[..|acts| - 1]);
      ExecKeepsCommitted(env, RunAll(env, w, acts[..|acts| - 1]), acts[|acts| - 1], i);
    }
  }

  lemma ThenTheRest(env: Env, w: World, acts: seq<Action>, a: Action, more: seq<Action>)
    ensures RunAll(env, w, acts + [a] + more) == RunAll(env, Exec(env, RunAll(env, w, acts), a), more)
  {
    RunAllTwice(env, w, acts, [a]);
    RunAllTwice(env, w, acts + [a], more);
    OneAction(env, RunAll(env, w, acts), a);
  }

  lemma MarkCommits(env: Env, w: World, a: Action)
    requires AnswersOk(w) && SingleUseOk(w) && a.Go? && LeavesAMark(w.s, Exec(env, w, a).s)
    ensures var threads := Exec(env, w, a).threads;
            a.i in threads && IsCommitted(threads[a.i].pc)
  {
    if Works(w, a) {
      MarkedIsCommitted(env, w.s, w.threads[a.i].pc, a.choice);
    } else {
      OtherActionsAreIdle(env, w, a);
    }
  }

  /** Whatever leaves a mark commits its request for good. */
  lemma MarkedForGood(env: Env, w: World, a: Action, more: seq<Action>)
    requires AnswersOk(w) && SingleUseOk(w) && a.Go? && LeavesAMark(w.s, Exec(env, w, a).s)
    ensures var threads := RunAll(env, Exec(env, w, a), more).threads;
            a.i in threads && IsCommitted(threads[a.i].pc)
  {
    MarkCommits(env, w, a);
    ExecKeepsAnswers(env, w, a);
    ExecKeepsSingleUse(env, w, a);
    StaysCommitted(env, Exec(env, w, a), more, a.i);
  }

  /** Under every schedule: whatever a request did that ends up answered as
      failed, it wrote to neither table and made no session come or go. */
  lemma FailureLeavesNoMark(env: Env, s: State, acts: seq<Action>, a: Action, more: seq<Action>)
    requires s.sessions == map[] && a.Go?
    requires var threads := RunAll(env, Idle(s), acts + [a] + more).threads;
             a.i in threads && threads[a.i].pc.Finished? && threads[a.i].pc.answer.Unsuccessful?
    ensures !LeavesAMark(RunAll(env, Idle(s), acts).s, Exec(env, RunAll(env, Idle(s), acts), a).s)
  {
    var w := RunAll(env, Idle(s), acts);
    IdleAnswers(s);
    RunKeepsAnswers(env, Idle(s), acts);
    RunKeepsSingleUse(env, Idle(s), acts);
    ThenTheRest(env, Idle(s), acts, a, more);
    if LeavesAMark(w.s, Exec(env, w, a).s) {
      MarkedForGood(env, w, a, more);
    }
  }
}
