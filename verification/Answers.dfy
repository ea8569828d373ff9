/** What the calls of a schedule have to do with what its clients are answered
    (crates/smdp/src/server/es9.rs:131-135, 277-288): every session opened and
    every package served is answered by the thread that did it, and by no other.
    So transparency and single use are statements about answers. */
module Answers {
  import opened Basics
  import opened OrderStore
  import opened Protocol
  import opened Es9
  import opened Threads
  import opened Transparency
  import opened SingleUse
  import opened Simulation

  /** The answer a thread carries is of the kind its function gives. */
  predicate BodyOk(pc: Pc) {
    match pc
    case Insert(o) => o.body.Initiated? && o.body.transactionId == o.input.transactionId
    case Remember(_, _, _, body) => body.Authenticated?
    case BindOrder(_, body) => body.Authenticated?
    case MarkDownloaded(_, body) => body.Package?
    case _ => true
  }

  /** The thread has answered, or is about to answer, with a package. */
  predicate GivesPackage(pc: Pc) {
    pc.MarkDownloaded? || (pc.Finished? && pc.answer.Package?)
  }

  predicate GaveSession(pc: Pc) {
    pc.Finished? && pc.answer.Initiated?
  }

  function PackageGiven(pc: Pc): Answer
    requires GivesPackage(pc)
  {
    if pc.MarkDownloaded? then pc.body else pc.answer
  }

  /** The call is the one the thread's answer is about. */
  predicate Tells(pc: Pc, call: Call) {
    match call
    case Opened(id, _) => GaveSession(pc) && pc.answer.transactionId == id
    case Served(id, order, package) =>
      GivesPackage(pc) && PackageGiven(pc) == Package(id, package) && (pc.MarkDownloaded? ==> pc.id == order)
    case _ => true
  }

  predicate Answerable(call: Call) {
    call.Opened? || call.Served?
  }

  ghost predicate HasCall(w: World, i: nat) {
    exists n :: 0 <= n < |w.trace| && n < |w.callers| && w.callers[n] == i && Answerable(w.trace[n])
  }

  function SessionsGiven(threads: map<nat, Thread>): set<nat> {
    set i | i in threads && GaveSession(threads[i].pc)
  }

  function PackagesGiven(threads: map<nat, Thread>): set<nat> {
    set i | i in threads && GivesPackage(threads[i].pc)
  }

  ghost predicate AnswersOk(w: World) {
    && |w.callers| == |w.trace|
    && (forall i :: i in w.threads ==> BodyOk(w.threads[i].pc))
    && (forall n :: 0 <= n < |w.trace| && Answerable(w.trace[n]) ==>
          w.callers[n] in w.threads && Tells(w.threads[w.callers[n]].pc, w.trace[n]))
    && (forall i :: i in w.threads && (GaveSession(w.threads[i].pc) || GivesPackage(w.threads[i].pc)) ==> HasCall(w, i))
    && |SessionsGiven(w.threads)| == Openings(w.trace)
    && |PackagesGiven(w.threads)| == Servings(w.trace)
  }

  // ---- pieces of work

  lemma WorkKeepsBody(env: Env, s: State, pc: Pc, c: Choice)
    requires BodyOk(pc)
    ensures BodyOk(Work(env, s, pc, c).2)
  {
  }

  /** A session is given by `Insert`, a package by `Spend`, and by nothing else;
      what is told is not taken back. */
  lemma WorkTells(env: Env, s: State, pc: Pc, c: Choice)
    requires BodyOk(pc) && !pc.Finished?
    ensures var (_, calls, next) := Work(env, s, pc, c);
            && |calls| <= 1
            && (GaveSession(next) <==> |calls| == 1 && calls[0].Opened?)
            && (GivesPackage(next) <==> pc.MarkDownloaded? || (|calls| == 1 && calls[0].Served?))
            && (|calls| == 1 ==> Tells(next, calls[0]))
            && (pc.MarkDownloaded? ==> calls == [] && next == Finished(pc.body))
  {
  }

  lemma CountsAppended(trace: seq<Call>, calls: seq<Call>)
    requires |calls| <= 1
    ensures Openings(trace + calls) == Openings(trace) + (if |calls| == 1 && calls[0].Opened? then 1 else 0)
    ensures Servings(trace + calls) == Servings(trace) + (if |calls| == 1 && calls[0].Served? then 1 else 0)
  {
    if calls == [] {
      assert trace + calls == trace;
    } else {
      assert (trace + calls)[..|trace|] == trace;
    }
  }

  lemma SessionsGivenAfter(threads: map<nat, Thread>, i: nat, t: Thread)
    requires i in threads && !GaveSession(threads[i].pc)
    ensures |SessionsGiven(threads[i := t])| == |SessionsGiven(threads)| + (if GaveSession(t.pc) then 1 else 0)
  {
    assert i !in SessionsGiven(threads);
    assert SessionsGiven(threads[i := t]) == SessionsGiven(threads) + if GaveSession(t.pc) then {i} else {};
  }

  lemma PackagesGivenAfter(threads: map<nat, Thread>, i: nat, t: Thread)
    requires i in threads && (GivesPackage(threads[i].pc) ==> GivesPackage(t.pc))
    ensures |PackagesGiven(threads[i := t])|
         == |PackagesGiven(threads)| + (if GivesPackage(t.pc) && !GivesPackage(threads[i].pc) then 1 else 0)
  {
    var before, after := PackagesGiven(threads), PackagesGiven(threads[i := t]);
    if !GivesPackage(threads[i].pc) && GivesPackage(t.pc) {
      assert i !in before;
      assert after == before + {i};
    } else {
      assert after == before;
    }
  }

  // ---- every schedule

  /** The calls up to here are still told by whoever made them. */
  lemma StillTold(w: World, after: World, i: nat, n: nat)
    requires AnswersOk(w) && i in w.threads && !w.threads[i].pc.Finished?
    requires i in after.threads && after.threads == w.threads[i := after.threads[i]]
    requires w.threads[i].pc.MarkDownloaded? ==> after.threads[i].pc == Finished(w.threads[i].pc.body)
    requires n < |w.trace| && Answerable(w.trace[n])
    ensures w.callers[n] in after.threads && Tells(after.threads[w.callers[n]].pc, w.trace[n])
  {
    assert Tells(w.threads[w.callers[n]].pc, w.trace[n]);
  }

  lemma CallStays(w: World, after: World, i: nat)
    requires |w.callers| == |w.trace| && w.trace <= after.trace && w.callers <= after.callers && HasCall(w, i)
    ensures HasCall(after, i)
  {
    var n :| 0 <= n < |w.trace| && n < |w.callers| && w.callers[n] == i && Answerable(w.trace[n]);
    assert after.callers[n] == i && after.trace[n] == w.trace[n];
  }

  lemma PerformKeepsAnswers(env: Env, w: World, i: nat, c: Choice)
    requires AnswersOk(w) && Works(w, Go(i, c))
    ensures AnswersOk(Perform(env, w, i, c))
  {
    var pc, after := w.threads[i].pc, Perform(env, w, i, c);
    var (_, calls, next) := Work(env, w.s, pc, c);
    WorkKeepsBody(env, w.s, pc, c);
    WorkTells(env, w.s, pc, c);
    CountsAppended(w.trace, calls);
    SessionsGivenAfter(w.threads, i, Thread(next, false));
    PackagesGivenAfter(w.threads, i, Thread(next, false));
    forall n | 0 <= n < |after.trace| && Answerable(after.trace[n])
      ensures after.callers[n] in after.threads && Tells(after.threads[after.callers[n]].pc, after.trace[n])
    {
      if n < |w.trace| {
        StillTold(w, after, i, n);
      }
    }
    forall j | j in after.threads && (GaveSession(after.threads[j].pc) || GivesPackage(after.threads[j].pc))
      ensures HasCall(after, j)
    {
      if j == i && |calls| == 1 {
        assert after.callers[|w.trace|] == i && after.trace[|w.trace|] == calls[0];
      } else {
        CallStays(w, after, j);
      }
    }
  }

  lemma UndisturbedGivesNothing(w: World, after: World)
    requires Undisturbed(w, after)
    ensures SessionsGiven(after.threads) == SessionsGiven(w.threads)
    ensures PackagesGiven(after.threads) == PackagesGiven(w.threads)
  {
  }

  lemma UndisturbedKeepsAnswers(w: World, after: World)
    requires AnswersOk(w) && Undisturbed(w, after)
    ensures AnswersOk(after)
  {
    UndisturbedGivesNothing(w, after);
    forall j | j in after.threads && (GaveSession(after.threads[j].pc) || GivesPackage(after.threads[j].pc))
      ensures HasCall(after, j)
    {
      CallStays(w, after, j);
    }
  }

  lemma ExecKeepsAnswers(env: Env, w: World, a: Action)
    requires AnswersOk(w)
    ensures AnswersOk(Exec(env, w, a))
  {
    if Works(w, a) {
      PerformKeepsAnswers(env, w, a.i, a.choice);
    } else {
      OtherActionsAreIdle(env, w, a);
      UndisturbedKeepsAnswers(w, Exec(env, w, a));
    }
  }

  lemma {:induction false} RunKeepsAnswers(env: Env, w: World, acts: seq<Action>)
    requires AnswersOk(w)
    ensures AnswersOk(RunAll(env, w, acts))
  {
    if acts == [] {
    } else {
      RunKeepsAnswers(env, w, acts[..|acts| - 1]);
      ExecKeepsAnswers(env, RunAll(env, w, acts[..|acts| - 1]), acts[|acts| - 1]);
    }
  }

  lemma IdleAnswers(s: State)
    ensures AnswersOk(Idle(s))
  {
    assert SessionsGiven(Idle(s).threads) == {} && PackagesGiven(Idle(s).threads) == {};
  }

  // ---- transparency of answers

  /** The call behind a thread's package. */
  lemma ServedByItsThread(w: World, i: nat) returns (n: nat)
    requires AnswersOk(w) && i in w.threads && GivesPackage(w.threads[i].pc)
    ensures n < |w.trace| && n < |w.callers| && w.callers[n] == i && w.trace[n].Served?
    ensures PackageGiven(w.threads[i].pc) == Package(w.trace[n].id, w.trace[n].package)
    ensures w.threads[i].pc.MarkDownloaded? ==> w.trace[n].order == w.threads[i].pc.id
  {
    assert HasCall(w, i);
    n :| 0 <= n < |w.trace| && n < |w.callers| && w.callers[n] == i && Answerable(w.trace[n]);
    assert Tells(w.threads[w.callers[n]].pc, w.trace[n]);
  }

  /** Every package a client is answered, under every schedule, was served in
      its own thread, and is what the calls on its transactionId up to then
      yield alone on a fresh library session, made from the Profile of the order
      served. */
  lemma EveryPackageAnswerIsTransparent(env: Env, s: State, acts: seq<Action>, i: nat) returns (n: nat)
    requires WellKeyed(s.orders) && s.sessions == map[]
    requires var threads := RunAll(env, Idle(s), acts).threads;
             i in threads && threads[i].pc.Finished? && threads[i].pc.answer.Package?
    ensures var w := RunAll(env, Idle(s), acts);
            && n < |w.trace| && n < |w.callers| && w.callers[n] == i && w.trace[n].Served?
            && w.threads[i].pc.answer == Package(w.trace[n].id, w.trace[n].package)
            && IsTransparent(env.lib, w.s.orders, w.trace[..n], w.trace[n])
  {
    IdleAnswers(s);
    RunKeepsAnswers(env, Idle(s), acts);
    n := ServedByItsThread(RunAll(env, Idle(s), acts), i);
    EveryPackageIsTransparent(env, s, acts, n);
  }

  // ---- single use, of answers

  ghost predicate AnsweredPackage(w: World, i: nat, id: Bytes) {
    i in w.threads && w.threads[i].pc.Finished? && w.threads[i].pc.answer.Package?
    && w.threads[i].pc.answer.transactionId == id
  }

  ghost predicate AnsweredSession(w: World, i: nat, id: Bytes) {
    i in w.threads && GaveSession(w.threads[i].pc) && w.threads[i].pc.answer.transactionId == id
  }

  lemma OpenedByItsThread(w: World, n: nat)
    requires AnswersOk(w) && n < |w.trace| && w.trace[n].Opened?
    ensures AnsweredSession(w, w.callers[n], w.trace[n].id)
  {
    assert Answerable(w.trace[n]);
    assert Tells(w.threads[w.callers[n]].pc, w.trace[n]);
  }

  lemma TwoServings(w: World, i: nat, j: nat, id: Bytes) returns (first: nat, second: nat)
    requires AnswersOk(w) && i != j && AnsweredPackage(w, i, id) && AnsweredPackage(w, j, id)
    ensures first < second < |w.trace| == |w.callers| && {w.callers[first], w.callers[second]} == {i, j}
    ensures w.trace[first].Served? && w.trace[second].Served? && w.trace[first].id == w.trace[second].id == id
  {
    var m := ServedByItsThread(w, i);
    var n := ServedByItsThread(w, j);
    first, second := if m < n then m else n, if m < n then n else m;
  }

  /** Two clients answered with packages of one transactionId: between the two
      servings a client was answered with that transactionId anew. */
  lemma TwoPackagesTwoSessions(env: Env, s: State, acts: seq<Action>, i: nat, j: nat, id: Bytes)
    returns (first: nat, opening: nat, second: nat)
    requires s.sessions == map[] && i != j
    requires AnsweredPackage(RunAll(env, Idle(s), acts), i, id) && AnsweredPackage(RunAll(env, Idle(s), acts), j, id)
    ensures var w := RunAll(env, Idle(s), acts);
            && first < opening < second < |w.trace| == |w.callers|
            && {w.callers[first], w.callers[second]} == {i, j}
            && w.trace[first].Served? && w.trace[second].Served?
            && AnsweredSession(w, w.callers[opening], id)
  {
    var w := RunAll(env, Idle(s), acts);
    IdleAnswers(s);
    RunKeepsAnswers(env, Idle(s), acts);
    EachSessionServesOnce(env, s, acts);
    first, second := TwoServings(w, i, j, id);
    opening :| first < opening < second && w.trace[opening].Opened? && w.trace[opening].id == w.trace[second].id;
    OpenedByItsThread(w, opening);
  }

  /** Under every schedule, packages answered or about to be, and live sessions,
      together never exceed the transactionIds answered. */
  lemma PackagesNeverExceedSessions(env: Env, s: State, acts: seq<Action>)
    requires s.sessions == map[]
    ensures var w := RunAll(env, Idle(s), acts);
            |PackagesGiven(w.threads)| + |w.s.sessions| <= |SessionsGiven(w.threads)|
  {
    IdleAnswers(s);
    RunKeepsAnswers(env, Idle(s), acts);
    EachSessionServesOnce(env, s, acts);
  }

  // ---- and of the atomic server

  /** The requests of an atomic run that were answered with a package, and those
      that were answered with a transactionId. */
  function PackageAnswers(env: Env, s: State, es: seq<Event>): set<nat> {
    set k: nat | k < |es| && AnswerTo(env, s, es, k).Package?
  }

  function SessionAnswers(env: Env, s: State, es: seq<Event>): set<nat> {
    set k: nat | k < |es| && AnswerTo(env, s, es, k).Initiated?
  }

  lemma AnsweredSets(env: Env, s: State, es: seq<Event>)
    ensures PackagesGiven(Answered(env, s, es)) == PackageAnswers(env, s, es)
    ensures SessionsGiven(Answered(env, s, es)) == SessionAnswers(env, s, es)
  {
    forall k: nat
      ensures k in Answered(env, s, es) <==> k < |es|
      ensures k < |es| ==> Answered(env, s, es)[k] == Thread(Finished(AnswerTo(env, s, es, k)), false)
    {
      AnsweredAsTheStepsDo(env, s, es, k);
    }
  }

  /** Transparency of the server as shipped: each package request `k` is answered
      with is what the run's calls on that transactionId so far yield alone. */
  lemma AtomicPackageIsTransparent(env: Env, s: State, es: seq<Event>, k: nat) returns (n: nat)
    requires WellKeyed(s.orders) && s.sessions == map[]
    requires k < |es| && AnswerTo(env, s, es, k).Package?
    ensures var trace := TraceOf(env, s, es);
            && n < |trace| && n < |CallersOf(env, s, es)| && CallersOf(env, s, es)[n] == k && trace[n].Served?
            && AnswerTo(env, s, es, k) == Package(trace[n].id, trace[n].package)
            && IsTransparent(env.lib, Run(env, s, es).orders, trace[..n], trace[n])
  {
    var acts := AtomicRunIsASchedule(env, s, es);
    AnsweredAsTheStepsDo(env, s, es, k);
    n := EveryPackageAnswerIsTransparent(env, s, acts, k);
  }

  lemma AtomicPackagesNeverExceedSessions(env: Env, s: State, es: seq<Event>)
    requires s.sessions == map[]
    ensures |PackageAnswers(env, s, es)| + |Run(env, s, es).sessions| <= |SessionAnswers(env, s, es)|
  {
    var acts := AtomicRunIsASchedule(env, s, es);
    AnsweredSets(env, s, es);
    PackagesNeverExceedSessions(env, s, acts);
  }
}
