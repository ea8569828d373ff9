/** What the reason code of an answer says about the library, under every schedule
    (crates/smdp/src/server/es9.rs:55-83, 102-120, 196-211, 269-276 and
    crates/smdp/src/rsp/error.rs:34-40). */
module ReasonCodes {
  import opened Basics
  import opened Rsp
  import opened Protocol
  import opened Threads
  import opened Answers

  /** What the last library call for a session that the piece of work makes
      returns, if it makes one. */
  function LastCode(env: Env, pc: Pc): Option<int> {
    match pc
    case Prepare(req, id, challenge) =>
      if |req.euiccChallenge| != 16 || '\0' in env.serverAddress || '\0' in req.smdpAddress then None
      else
        var r := env.lib.initiate(InitiateInput(
          req.euiccChallenge, req.euiccInfo1, id, challenge, env.serverAddress, req.smdpAddress));
        Some(if r.code != 0 then r.code else env.lib.initiateFields(r.out.1).code)
    case CallAuthenticate(req, order, entry) =>
      var r := env.lib.authenticate(entry.session, req.authenticateServerResponse, order.metadata).1;
      Some(if r.code != 0 then r.code else env.lib.authenticateFields(r.out).code)
    case CallPackage(req, otskDp, entry, _, upp) =>
      Some(env.lib.boundPackage(entry.session, req.prepareDownloadResponse, upp, otskDp).1.code)
    case _ => None
  }

  /** The same of all the work thread `i` has done. */
  function LastCodeOf(env: Env, w: World, acts: seq<Action>, i: nat): Option<int> {
    if acts == [] then None
    else
      var first, a := acts[..|acts| - 1], acts[|acts| - 1];
      var before := RunAll(env, w, first);
      if Works(before, a) && a.i == i && LastCode(env, before.threads[i].pc).Some?
      then LastCode(env, before.threads[i].pc)
      else LastCodeOf(env, w, first, i)
  }

  /** 3.8 exactly for a return of -1, 4.2 for any other that is not 0; and if there
      was no call, 3.9 for a missing session or order and 4.2 for a question that
      could not be put. */
  predicate ReasonFits(a: Answer, code: Option<int>)
    requires a.Unsuccessful?
  {
    && (a.reason.Oid() == "3.8" <==> code == Some(-1))
    && (code.Some? && code != Some(-1) ==> code != Some(0) && a.reason.Oid() == "4.2")
    && (code.None? ==> a.reason.Oid() == if a.subject in {TransactionId, Profile} then "3.9" else "4.2")
  }

  predicate AnswerFits(a: Answer, code: Option<int>) {
    match a
    case Unsuccessful(_, _) => ReasonFits(a, code)
    case Initiated(_, _) => code == Some(0)
    case Authenticated(_, _) => code == Some(0)
    case Package(_, _) => code == Some(0)
    case _ => code.None?
  }

  predicate CodeOk(pc: Pc, code: Option<int>) {
    match pc
    case Finished(a) => AnswerFits(a, code)
    case Insert(_) => code == Some(0)
    case Remember(_, _, _, _) => code == Some(0)
    case BindOrder(_, _) => code == Some(0)
    case Spend(_, _, _) => code == Some(0)
    case MarkDownloaded(_, _) => code == Some(0)
    case _ => code.None?
  }

  lemma CallKeepsCode(env: Env, s: State, pc: Pc, c: Choice)
    requires pc.Prepare? || pc.CallAuthenticate? || pc.CallPackage?
    ensures CodeOk(Work(env, s, pc, c).2, LastCode(env, pc))
  {
  }

  lemma LookupKeepsCode(env: Env, s: State, pc: Pc, c: Choice)
    requires pc.Choose? || pc.Ask? || pc.Lookup? || pc.ReadUpp?
    ensures CodeOk(Work(env, s, pc, c).2, None)
  {
  }

  lemma OtherWorkKeepsCode(env: Env, s: State, pc: Pc, c: Choice, code: Option<int>)
    requires pc.Insert? || pc.Remember? || pc.BindOrder? || pc.Spend? || pc.MarkDownloaded?
             || pc.ReadNotification? || pc.FindOrder? || pc.Record? || pc.MoveOrder?
             || pc.CommandAdd? || pc.CommandReset? || pc.CommandSet?
    requires BodyOk(pc) && CodeOk(pc, code)
    ensures CodeOk(Work(env, s, pc, c).2, code)
  {
  }

  lemma WorkKeepsCode(env: Env, s: State, pc: Pc, c: Choice, code: Option<int>)
    requires !pc.Finished? && BodyOk(pc) && CodeOk(pc, code)
    ensures CodeOk(Work(env, s, pc, c).2, if LastCode(env, pc).Some? then LastCode(env, pc) else code)
  {
    if pc.Prepare? || pc.CallAuthenticate? || pc.CallPackage? {
      CallKeepsCode(env, s, pc, c);
    } else if pc.Choose? || pc.Ask? || pc.Lookup? || pc.ReadUpp? {
      LookupKeepsCode(env, s, pc, c);
    } else {
      OtherWorkKeepsCode(env, s, pc, c, code);
    }
  }

  lemma {:induction false} NoCodeBeforeStart(env: Env, w: World, acts: seq<Action>, i: nat)
    requires i !in RunAll(env, w, acts).threads
    ensures LastCodeOf(env, w, acts, i).None?
  {
    if acts == [] {
    } else {
      NoCodeBeforeStart(env, w, acts[..|acts| - 1], i);
    }
  }

  lemma ExecKeepsCode(env: Env, w: World, a: Action, i: nat, code: Option<int>)
    requires i in w.threads && BodyOk(w.threads[i].pc) && CodeOk(w.threads[i].pc, code)
    ensures var last := LastCode(env, w.threads[i].pc);
            CodeOk(Exec(env, w, a).threads[i].pc, if Works(w, a) && a.i == i && last.Some? then last else code)
  {
    if Works(w, a) {
      if a.i == i {
        WorkKeepsCode(env, w.s, w.threads[i].pc, a.choice, code);
      }
    } else {
      OtherActionsAreIdle(env, w, a);
    }
  }

  lemma StartHasNoCode(env: Env, w: World, a: Action, i: nat)
    requires i !in w.threads && i in Exec(env, w, a).threads
    ensures CodeOk(Exec(env, w, a).threads[i].pc, None) && !(Works(w, a) && a.i == i)
  {
  }

  lemma {:induction false} RunKeepsCode(env: Env, s: State, acts: seq<Action>, i: nat)
    requires i in RunAll(env, Idle(s), acts).threads
    ensures CodeOk(RunAll(env, Idle(s), acts).threads[i].pc, LastCodeOf(env, Idle(s), acts, i))
  {
    if acts == [] {
    } else {
      var first, a := acts[..|acts| - 1], acts[|acts| - 1];
      var w := RunAll(env, Idle(s), first);
      if i !in w.threads {
        NoCodeBeforeStart(env, Idle(s), first, i);
        StartHasNoCode(env, w, a, i);
      } else {
        RunKeepsCode(env, s, first, i);
        IdleAnswers(s);
        RunKeepsAnswers(env, Idle(s), first);
        ExecKeepsCode(env, w, a, i, LastCodeOf(env, Idle(s), first, i));
      }
    }
  }

  /** Under every schedule: what a client is answered tells what the last library
      call made for it returned. */
  lemma AnswerTellsTheLastCode(env: Env, s: State, acts: seq<Action>, i: nat)
    requires i in RunAll(env, Idle(s), acts).threads && RunAll(env, Idle(s), acts).threads[i].pc.Finished?
    ensures AnswerFits(RunAll(env, Idle(s), acts).threads[i].pc.answer, LastCodeOf(env, Idle(s), acts, i))
  {
    RunKeepsCode(env, s, acts, i);
  }
}
