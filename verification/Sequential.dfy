/** The converse of `Simulation`: a schedule in which nothing starts before
    everything else is answered is an atomic run. What is proved of atomic runs
    holds of the server as long as no command runs in the middle of a handler. */
module Sequential {
  import opened Basics
  import opened Protocol
  import opened Es9
  import opened Threads
  import opened Simulation

  /** Requests and commands alike start when all before them are answered. */
  ghost predicate OneAfterAnother(env: Env, w: World, acts: seq<Action>) {
    forall k :: 0 <= k < |acts| && acts[k].Spawn? ==> AllFinished(RunAll(env, w, acts[..k]))
  }

  // ---- which piece of work chooses

  predicate Chooses(pc: Pc) {
    pc.Insert? || pc.FindOrder?
  }

  /** There is a choice still to come. */
  predicate MayChoose(pc: Pc) {
    Chooses(pc) || pc.Prepare? || pc.ReadNotification?
  }

  lemma WorkIgnoresChoice(env: Env, s: State, pc: Pc, c: Choice, other: Choice)
    requires !Chooses(pc)
    ensures Work(env, s, pc, c) == Work(env, s, pc, other)
    ensures !MayChoose(pc) ==> !MayChoose(Work(env, s, pc, c).2)
  {
  }

  lemma ChoosesOnce(env: Env, s: State, pc: Pc, c: Choice)
    requires Chooses(pc)
    ensures !MayChoose(Work(env, s, pc, c).2)
  {
  }

  lemma {:induction false} RestIgnoresChoice(env: Env, s: State, pc: Pc, c: Choice, other: Choice)
    requires !MayChoose(pc)
    ensures WorkOut(env, s, pc, c) == WorkOut(env, s, pc, other)
    decreases PiecesLeft(pc)
  {
    if pc.Finished? {
    } else {
      var (s2, _, next) := Work(env, s, pc, c);
      WorkIsProgress(env, s, pc, c);
      WorkIgnoresChoice(env, s, pc, c, other);
      RestIgnoresChoice(env, s2, next, c, other);
    }
  }

  /** One choice does for this piece of work and the rest. */
  lemma OneChoice(env: Env, s: State, pc: Pc, now: Choice, later: Choice) returns (c: Choice)
    ensures Work(env, s, pc, c) == Work(env, s, pc, now)
    ensures var (s2, _, next) := Work(env, s, pc, now);
            WorkOut(env, s2, next, c) == WorkOut(env, s2, next, later)
  {
    if Chooses(pc) {
      c := now;
      ChoosesOnce(env, s, pc, now);
      RestIgnoresChoice(env, Work(env, s, pc, now).0, Work(env, s, pc, now).2, now, later);
    } else {
      c := later;
      WorkIgnoresChoice(env, s, pc, now, later);
    }
  }

  // ---- where such a schedule is

  /** The requests answered so far, the threads that answered them and how; the
      state and the calls of the atomic run of them; and the thread at work, with
      what it was started for. */
  datatype Progress = Progress(
    es: seq<Event>, order: seq<nat>, answers: seq<Answer>, s: State, trace: seq<Call>,
    current: Option<nat>, job: Event)

  /** A state, the calls made up to it, and the answer that led there. */
  datatype End = End(s: State, trace: seq<Call>, answer: Answer)

  /** Where one more atomic step ends. */
  function EndOf(env: Env, p: Progress, e: Event): End {
    End(Step(env, p.s, e).0, p.trace + CallsBy(env, p.s, e), Step(env, p.s, e).1)
  }

  /** Where going on from `pc` ends. */
  function Rest(env: Env, w: World, pc: Pc, c: Choice): End {
    var (s2, more, a) := WorkOut(env, w.s, pc, c);
    End(s2, w.trace + more, a)
  }

  /** That is where the atomic step of the request at work ends. */
  ghost predicate CanComplete(env: Env, w: World, pc: Pc, p: Progress, c: Choice) {
    exists chosen :: Rest(env, w, pc, c) == EndOf(env, p, WithChoice(p.job, chosen))
  }

  /** The threads of `order` answered so. */
  ghost predicate Answered(w: World, order: seq<nat>, answers: seq<Answer>) {
    && |order| == |answers|
    && forall k :: 0 <= k < |order| ==> order[k] in w.threads && w.threads[order[k]].pc == Finished(answers[k])
  }

  ghost predicate IsAt(env: Env, w: World, p: Progress) {
    && Answered(w, p.order, p.answers)
    && (forall i :: i in w.threads && !w.threads[i].pc.Finished? ==> p.current == Some(i))
    && (forall i :: i in w.threads ==> i in p.order || p.current == Some(i))
    && match p.current
       case None => w.s == p.s && w.trace == p.trace
       case Some(i) =>
         && i in w.threads && !w.threads[i].pc.Finished?
         && forall c :: CanComplete(env, w, w.threads[i].pc, p, c)
  }

  /** The request at work is answered by thread `i`. */
  function Answering(env: Env, p: Progress, i: nat, chosen: Choice): Progress {
    var e := WithChoice(p.job, chosen);
    var end := EndOf(env, p, e);
    p.(es := p.es + [e], order := p.order + [i], answers := p.answers + [end.answer],
       s := end.s, trace := end.trace, current := None)
  }

  // ---- one action

  lemma StartCompletes(env: Env, w: World, p: Progress, c: Choice)
    requires w.s == p.s && w.trace == p.trace
    ensures CanComplete(env, w, StartOf(p.job), p, c)
  {
    WorkedOutIsStep(env, w.s, p.job, c);
    assert Rest(env, w, StartOf(p.job), c) == EndOf(env, p, WithChoice(p.job, c));
  }

  lemma RestAfterWork(env: Env, w: World, after: World, pc: Pc, c: Choice, calls: seq<Call>, next: Pc)
    requires !pc.Finished?
    requires Work(env, w.s, pc, c) == (after.s, calls, next) && after.trace == w.trace + calls
    ensures Rest(env, after, next, c) == Rest(env, w, pc, c)
  {
    WorkOutOnce(env, w.s, pc, c);
    Appended(w.trace, calls, WorkOut(env, after.s, next, c).1);
  }

  lemma Appended(a: seq<Call>, b: seq<Call>, c: seq<Call>)
    ensures a + (b + c) == a + b + c
  {
  }

  lemma WorkStillCompletes(env: Env, w: World, after: World, pc: Pc, p: Progress, now: Choice, later: Choice)
    requires !pc.Finished? && forall c :: CanComplete(env, w, pc, p, c)
    requires after.s == Work(env, w.s, pc, now).0 && after.trace == w.trace + Work(env, w.s, pc, now).1
    ensures CanComplete(env, after, Work(env, w.s, pc, now).2, p, later)
  {
    var c := OneChoice(env, w.s, pc, now, later);
    assert CanComplete(env, w, pc, p, c);
    RestAfterWork(env, w, after, pc, c, Work(env, w.s, pc, now).1, Work(env, w.s, pc, now).2);
  }

  lemma StartedAt(env: Env, w: World, i: nat, job: Event, p: Progress)
    requires IsAt(env, w, p) && AllFinished(w) && i !in w.threads
    ensures IsAt(env, Exec(env, w, Spawn(i, job)), p.(current := Some(i), job := job))
  {
    var after := Exec(env, w, Spawn(i, job));
    forall c
      ensures CanComplete(env, after, StartOf(job), p.(current := Some(i), job := job), c)
    {
      StartCompletes(env, after, p.(current := Some(i), job := job), c);
    }
  }

  lemma UndisturbedIsAt(env: Env, w: World, after: World, p: Progress)
    requires IsAt(env, w, p) && Undisturbed(w, after) && after.threads.Keys == w.threads.Keys
    ensures IsAt(env, after, p)
  {
    if p.current.Some? {
      var pc := w.threads[p.current.value].pc;
      forall c
        ensures CanComplete(env, after, pc, p, c)
      {
        assert CanComplete(env, w, pc, p, c);
        assert Rest(env, after, pc, c) == Rest(env, w, pc, c);
      }
    }
  }

  lemma WorkedAt(env: Env, w: World, a: Action, p: Progress)
    requires IsAt(env, w, p) && Works(w, a)
    requires !Work(env, w.s, w.threads[a.i].pc, a.choice).2.Finished?
    ensures IsAt(env, Exec(env, w, a), p)
  {
    var pc, after := w.threads[a.i].pc, Exec(env, w, a);
    forall c
      ensures CanComplete(env, after, after.threads[a.i].pc, p, c)
    {
      WorkStillCompletes(env, w, after, pc, p, a.choice, c);
    }
  }

  lemma AnsweredAt(env: Env, w: World, a: Action, p: Progress) returns (chosen: Choice)
    requires IsAt(env, w, p) && Works(w, a)
    requires Work(env, w.s, w.threads[a.i].pc, a.choice).2.Finished?
    ensures IsAt(env, Exec(env, w, a), Answering(env, p, a.i, chosen))
  {
    var pc, after := w.threads[a.i].pc, Exec(env, w, a);
    var next := after.threads[a.i].pc;
    WorkStillCompletes(env, w, after, pc, p, a.choice, a.choice);
    chosen :| Rest(env, after, next, a.choice) == EndOf(env, p, WithChoice(p.job, chosen));
    assert Rest(env, after, next, a.choice) == End(after.s, after.trace + [], next.answer);
    assert after.trace + [] == after.trace;
  }

  lemma WorkIsAt(env: Env, w: World, a: Action, before: Progress) returns (p: Progress, chosen: Choice)
    requires IsAt(env, w, before) && Works(w, a)
    ensures IsAt(env, Exec(env, w, a), p) && before.current == Some(a.i)
    ensures p == before || p == Answering(env, before, a.i, chosen)
  {
    p, chosen := before, a.choice;
    if Work(env, w.s, w.threads[a.i].pc, a.choice).2.Finished? {
      chosen := AnsweredAt(env, w, a, before);
      p := Answering(env, before, a.i, chosen);
    } else {
      WorkedAt(env, w, a, before);
    }
  }

  lemma OtherwiseIsAt(env: Env, w: World, a: Action, p: Progress)
    requires IsAt(env, w, p) && !Works(w, a) && (a.Spawn? ==> a.i in w.threads)
    ensures IsAt(env, Exec(env, w, a), p)
  {
    OtherActionsAreIdle(env, w, a);
    assert Exec(env, w, a).threads.Keys == w.threads.Keys;
    UndisturbedIsAt(env, w, Exec(env, w, a), p);
  }

  // ---- the atomic run that goes with it

  /** The answers of an atomic run. */
  function AnswersOf(env: Env, s: State, es: seq<Event>): seq<Answer> {
    if es == [] then []
    else
      var before := es[..|es| - 1];
      AnswersOf(env, s, before) + [Step(env, Run(env, s, before), es[|es| - 1]).1]
  }

  lemma {:induction false} AnswersAreAnswers(env: Env, s: State, es: seq<Event>, k: nat)
    requires k < |es|
    ensures |AnswersOf(env, s, es)| == |es| && AnswersOf(env, s, es)[k] == AnswerTo(env, s, es, k)
  {
    var before := es[..|es| - 1];
    if k < |es| - 1 {
      AnswersAreAnswers(env, s, before, k);
      assert before[..k] == es[..k];
    } else if before != [] {
      AnswersAreAnswers(env, s, before, 0);
    }
  }

  ghost predicate IsAtomic(env: Env, s: State, p: Progress) {
    p.s == Run(env, s, p.es) && p.trace == TraceOf(env, s, p.es) && p.answers == AnswersOf(env, s, p.es)
  }

  lemma AnsweringIsAtomic(env: Env, s: State, p: Progress, i: nat, chosen: Choice)
    requires IsAtomic(env, s, p)
    ensures IsAtomic(env, s, Answering(env, p, i, chosen))
  {
    assert (p.es + [WithChoice(p.job, chosen)])[..|p.es|] == p.es;
  }

  /** The event is what thread `i` was started for, with its choices made. */
  ghost predicate IsFor(acts: seq<Action>, i: nat, e: Event) {
    JobOf(acts, i).Some? && exists c :: e == WithChoice(JobOf(acts, i).value, c)
  }

  ghost predicate JobsAre(acts: seq<Action>, p: Progress) {
    && |p.order| == |p.es|
    && (forall k :: 0 <= k < |p.es| ==> IsFor(acts, p.order[k], p.es[k]))
    && (p.current.Some? ==> JobOf(acts, p.current.value) == Some(p.job))
  }

  lemma JobsStay(acts: seq<Action>, a: Action, p: Progress)
    requires JobsAre(acts, p)
    ensures JobsAre(acts + [a], p)
  {
    forall k | 0 <= k < |p.es|
      ensures IsFor(acts + [a], p.order[k], p.es[k])
    {
      assert IsFor(acts, p.order[k], p.es[k]);
      JobAfter(acts, a, p.order[k]);
    }
    if p.current.Some? {
      JobAfter(acts, a, p.current.value);
    }
  }

  lemma AnsweringItsJob(env: Env, acts: seq<Action>, p: Progress, i: nat, chosen: Choice)
    requires JobsAre(acts, p) && p.current == Some(i)
    ensures JobsAre(acts, Answering(env, p, i, chosen))
  {
    assert IsFor(acts, i, WithChoice(p.job, chosen));
  }

  lemma StartingItsJob(env: Env, s: State, acts: seq<Action>, a: Action, p: Progress)
    requires JobsAre(acts, p) && a.Spawn? && a.i !in RunAll(env, Idle(s), acts).threads
    ensures JobsAre(acts + [a], p.(current := Some(a.i), job := a.job))
  {
    EveryThreadHasAJob(env, s, acts, a.i);
    JobsStay(acts, a, p);
    JobAfter(acts, a, a.i);
  }

  // ---- whole schedules

  ghost predicate Describes(env: Env, s: State, w: World, acts: seq<Action>, p: Progress) {
    IsAt(env, w, p) && JobsAre(acts, p) && IsAtomic(env, s, p)
  }

  lemma WorkDescribes(env: Env, s: State, w: World, acts: seq<Action>, a: Action, before: Progress)
    returns (p: Progress)
    requires Describes(env, s, w, acts, before) && Works(w, a)
    ensures Describes(env, s, Exec(env, w, a), acts + [a], p)
  {
    var chosen;
    p, chosen := WorkIsAt(env, w, a, before);
    JobsStay(acts, a, before);
    AnsweringItsJob(env, acts + [a], before, a.i, chosen);
    AnsweringIsAtomic(env, s, before, a.i, chosen);
  }

  lemma StartDescribes(env: Env, s: State, acts: seq<Action>, a: Action, before: Progress)
    requires Describes(env, s, RunAll(env, Idle(s), acts), acts, before) && AllFinished(RunAll(env, Idle(s), acts))
    requires a.Spawn? && a.i !in RunAll(env, Idle(s), acts).threads
    ensures var p := before.(current := Some(a.i), job := a.job);
            Describes(env, s, Exec(env, RunAll(env, Idle(s), acts), a), acts + [a], p)
  {
    StartedAt(env, RunAll(env, Idle(s), acts), a.i, a.job, before);
    StartingItsJob(env, s, acts, a, before);
  }

  lemma OtherwiseDescribes(env: Env, s: State, w: World, acts: seq<Action>, a: Action, p: Progress)
    requires Describes(env, s, w, acts, p) && !Works(w, a) && (a.Spawn? ==> a.i in w.threads)
    ensures Describes(env, s, Exec(env, w, a), acts + [a], p)
  {
    OtherwiseIsAt(env, w, a, p);
    JobsStay(acts, a, p);
  }

  lemma ExecDescribes(env: Env, s: State, acts: seq<Action>, a: Action, before: Progress) returns (p: Progress)
    requires Describes(env, s, RunAll(env, Idle(s), acts), acts, before)
    requires a.Spawn? ==> AllFinished(RunAll(env, Idle(s), acts))
    ensures Describes(env, s, Exec(env, RunAll(env, Idle(s), acts), a), acts + [a], p)
  {
    var w := RunAll(env, Idle(s), acts);
    if Works(w, a) {
      p := WorkDescribes(env, s, w, acts, a, before);
    } else if a.Spawn? && a.i !in w.threads {
      StartDescribes(env, s, acts, a, before);
      p := before.(current := Some(a.i), job := a.job);
    } else {
      OtherwiseDescribes(env, s, w, acts, a, before);
      p := before;
    }
  }

  lemma SequentialBefore(env: Env, w: World, acts: seq<Action>)
    requires acts != [] && OneAfterAnother(env, w, acts)
    ensures OneAfterAnother(env, w, acts[..|acts| - 1])
    ensures acts[|acts| - 1].Spawn? ==> AllFinished(RunAll(env, w, acts[..|acts| - 1]))
    ensures acts == acts[..|acts| - 1] + [acts[|acts| - 1]]
    ensures RunAll(env, w, acts) == Exec(env, RunAll(env, w, acts[..|acts| - 1]), acts[|acts| - 1])
  {
    assert forall k :: 0 <= k < |acts| - 1 ==> acts[..|acts| - 1][..k] == acts[..k];
  }

  lemma {:induction false} RunDescribes(env: Env, s: State, acts: seq<Action>) returns (p: Progress)
    requires OneAfterAnother(env, Idle(s), acts)
    ensures Describes(env, s, RunAll(env, Idle(s), acts), acts, p)
  {
    if acts == [] {
      p := Progress([], [], [], s, [], None, OrderReset(0));
    } else {
      SequentialBefore(env, Idle(s), acts);
      var before := RunDescribes(env, s, acts[..|acts| - 1]);
      p := ExecDescribes(env, s, acts[..|acts| - 1], acts[|acts| - 1], before);
    }
  }

  /** A schedule in which nothing starts before everything else is answered, and in
      which everything is answered in the end, is an atomic run of the same requests
      and commands: same state, same calls, and the threads, in the order they
      answered, with its answers. */
  lemma SequentialScheduleIsAtomic(env: Env, s: State, acts: seq<Action>) returns (es: seq<Event>, order: seq<nat>)
    requires OneAfterAnother(env, Idle(s), acts) && AllFinished(RunAll(env, Idle(s), acts))
    ensures var w := RunAll(env, Idle(s), acts);
            && w.s == Run(env, s, es) && w.trace == TraceOf(env, s, es)
            && |order| == |es|
            && (forall k :: 0 <= k < |es| ==> IsFor(acts, order[k], es[k]))
            && (forall k :: 0 <= k < |es| ==>
                  order[k] in w.threads && w.threads[order[k]].pc == Finished(AnswerTo(env, s, es, k)))
            && (forall i :: i in w.threads ==> i in order)
  {
    var p := RunDescribes(env, s, acts);
    es, order := p.es, p.order;
    forall k | 0 <= k < |es|
      ensures p.answers[k] == AnswerTo(env, s, es, k)
    {
      AnswersAreAnswers(env, s, es, k);
    }
  }
}
