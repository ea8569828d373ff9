/** What a Failed answer leaves behind, and what its reason code means
    (crates/smdp/src/server/es9.rs:72-83 and crates/smdp/src/rsp/error.rs). */
module Failures {
  import opened Basics
  import opened Rsp
  import opened OrderStore
  import opened Protocol
  import opened Es9

  /** A code other than 0, or what the next call returns. */
  function FirstBad(code: int, next: Option<int>): Option<int> {
    if code != 0 then Some(code) else next
  }

  function BadOnly(code: int): Option<int> {
    FirstBad(code, None)
  }

  /** The code of the library call that stopped a function, when one did. */
  function StoppingCode(env: Env, s: State, e: Event): Option<int> {
    match e
    case InitiateAuthentication(req, id, challenge, _, _) =>
      if |req.euiccChallenge| != 16 || '\0' in env.serverAddress || '\0' in req.smdpAddress then None
      else
        var r := env.lib.initiate(InitiateInput(
          req.euiccChallenge, req.euiccInfo1, id, challenge, env.serverAddress, req.smdpAddress));
        FirstBad(r.code, if r.code == 0 then BadOnly(env.lib.initiateFields(r.out.1).code) else None)
    case AuthenticateClient(req) =>
      if |Offers(s.orders)| != 1 || req.transactionId !in s.sessions then None
      else
        var r := env.lib.authenticate(
          s.sessions[req.transactionId].session, req.authenticateServerResponse, Offers(s.orders)[0].metadata).1;
        FirstBad(r.code, if r.code == 0 then BadOnly(env.lib.authenticateFields(r.out).code) else None)
    case GetBoundProfilePackage(req, otskDp) =>
      if req.transactionId !in s.sessions || s.sessions[req.transactionId].orderId.None? then None
      else
        (match Find(s.orders, s.sessions[req.transactionId].orderId.value)
         case None => None
         case Some(o) =>
           BadOnly(env.lib.boundPackage(
             s.sessions[req.transactionId].session, req.prepareDownloadResponse, o.upp, otskDp).1.code))
    case _ => None
  }

  /** The reasons a function has to fail before the library is asked. */
  predicate NotAskable(env: Env, s: State, e: Event) {
    match e
    case InitiateAuthentication(req, _, _, _, _) =>
      |req.euiccChallenge| != 16 || '\0' in env.serverAddress || '\0' in req.smdpAddress
    case AuthenticateClient(req) =>
      |Offers(s.orders)| != 1 || req.transactionId !in s.sessions
    case GetBoundProfilePackage(req, _) =>
      || req.transactionId !in s.sessions || s.sessions[req.transactionId].orderId.None?
      || Find(s.orders, s.sessions[req.transactionId].orderId.value).None?
    case _ => false
  }

  predicate IsSynchronous(e: Event) {
    e.InitiateAuthentication? || e.AuthenticateClient? || e.GetBoundProfilePackage?
  }

  /** A Failed answer is atomic: tables as they were, no session gained or lost,
      and no session but the one asked about touched at all. */
  lemma FailureIsAtomic(env: Env, s: State, e: Event)
    requires IsSynchronous(e) && Step(env, s, e).1.Unsuccessful?
    ensures Step(env, s, e).0.orders == s.orders
    ensures Step(env, s, e).0.notifications == s.notifications
    ensures Step(env, s, e).0.sessions.Keys == s.sessions.Keys
    ensures e.InitiateAuthentication? ==> Step(env, s, e).0 == s
    ensures e.GetBoundProfilePackage? ==>
              forall k :: k in s.sessions ==> Step(env, s, e).0.sessions[k].orderId == s.sessions[k].orderId
  {
  }

  /** A function fails exactly when it cannot ask or a call stops it; "refused"
      (3.8) is answered exactly when the stopping call returned -1, every other
      stopping code is an execution error (4.2), and what cannot be asked about
      for want of a session or an order is unknown (3.9). */
  lemma ReasonTellsTheCode(env: Env, s: State, e: Event)
    requires IsSynchronous(e)
    ensures var a, code := Step(env, s, e).1, StoppingCode(env, s, e);
            && (a.Unsuccessful? <==> NotAskable(env, s, e) || code.Some?)
            && (a.Unsuccessful? && a.reason.Oid() == "3.8" <==> code == Some(-1))
            && (code.Some? && code != Some(-1) ==> a.Unsuccessful? && a.reason.Oid() == "4.2")
            && (NotAskable(env, s, e) ==> a.reason.Oid() == if e.InitiateAuthentication? then "4.2" else "3.9")
  {
    if e.AuthenticateClient? && |Offers(s.orders)| == 1 {
      assert ChooseOrder(s.orders) == Ok(Offers(s.orders)[0]);
    }
  }

  /** The subject tells what was wrong: the address the library was asked about,
      the transactionId, or the Profile; and which of the two is missing is told
      apart. */
  lemma SubjectTellsTheCause(env: Env, s: State, e: Event)
    requires IsSynchronous(e) && Step(env, s, e).1.Unsuccessful?
    ensures var a := Step(env, s, e).1;
            match e
            case InitiateAuthentication(req, id, challenge, _, _) =>
              && a.subject in {SmdpAddress, Execution}
              && (a.subject == SmdpAddress <==>
                    && |req.euiccChallenge| == 16
                    && Initiate(env.lib, InitiateInput(
                         req.euiccChallenge, req.euiccInfo1, id, challenge, env.serverAddress, req.smdpAddress)).Err?)
            case AuthenticateClient(req) =>
              && a.subject in {Profile, TransactionId, Execution}
              && (a.subject == Execution <==>
                    && |Offers(s.orders)| == 1 && req.transactionId in s.sessions
                    && env.lib.authenticate(s.sessions[req.transactionId].session, req.authenticateServerResponse,
                                            Offers(s.orders)[0].metadata).1.code == 0)
              && (a.subject == Profile <==> |Offers(s.orders)| != 1)
              && (a == Unsuccessful(TransactionId, Unknown) <==>
                    |Offers(s.orders)| == 1 && req.transactionId !in s.sessions)
            case GetBoundProfilePackage(req, _) =>
              && a.subject in {Profile, TransactionId}
              && (a == Unsuccessful(TransactionId, Unknown) <==> req.transactionId !in s.sessions)
              && (a.subject == Profile <==>
                    && req.transactionId in s.sessions
                    && (s.sessions[req.transactionId].orderId.Some? ==>
                          Find(s.orders, s.sessions[req.transactionId].orderId.value).None?))
            case _ => true
  {
  }
}
