/** How long a transactionId is known to the server, in terms of the requests it
    answered (crates/smdp/src/server/sessions.rs under
    crates/smdp/src/server/es9.rs). */
module SessionLife {
  import opened Basics
  import opened SessionTable
  import opened Protocol
  import opened Es9
  import opened OrderLife

  /** A successful InitiateAuthentication for `id`. */
  predicate Opens(env: Env, s: State, e: Event, id: Bytes) {
    e.InitiateAuthentication? && e.nonceId == id && Step(env, s, e).1.Initiated?
  }

  /** What ends a session born at `born`: its package, its transactionId drawn
      again, or any successful InitiateAuthentication 600 s after its birth. */
  predicate Closes(env: Env, s: State, e: Event, id: Bytes, born: int) {
    || (e.GetBoundProfilePackage? && e.package.transactionId == id && Step(env, s, e).1.Package?)
    || (e.InitiateAuthentication? && Step(env, s, e).1.Initiated? && (e.nonceId == id || e.sweepAt >= born + MAX_AGE))
  }

  lemma StepOnSession(env: Env, s: State, e: Event, id: Bytes)
    ensures id in Step(env, s, e).0.sessions <==>
              Opens(env, s, e, id) || (id in s.sessions && !Closes(env, s, e, id, s.sessions[id].born))
    ensures id in Step(env, s, e).0.sessions ==>
              Step(env, s, e).0.sessions[id].born == if Opens(env, s, e, id) then e.bornAt else s.sessions[id].born
  {
  }

  /** Request `i` opened a session for `id` that nothing has closed since. */
  predicate OpenSince(env: Env, s: State, es: seq<Event>, id: Bytes, i: nat) {
    && i < |es| && Opens(env, Before(env, s, es, i), es[i], id)
    && forall j :: i < j < |es| ==> !Closes(env, Before(env, s, es, j), es[j], id, es[i].bornAt)
  }

  lemma OpenOn(env: Env, s: State, es: seq<Event>, e: Event, id: Bytes, i: nat)
    requires i < |es| && es[i].InitiateAuthentication?
    ensures OpenSince(env, s, es + [e], id, i)
       <==> OpenSince(env, s, es, id, i) && !Closes(env, Run(env, s, es), e, id, es[i].bornAt)
  {
    var all := es + [e];
    assert all[|es|] == e && all[..|es|] == es;
    assert forall j :: 0 <= j < |es| ==> all[j] == es[j] && all[..j] == es[..j];
  }

  /** A transactionId has a session at the end of a run exactly if some request
      opened it and none since has closed it: no clock, no failure and no other
      session ends it. */
  lemma {:induction false} KnownIffOpen(env: Env, s: State, es: seq<Event>, id: Bytes)
    requires s.sessions == map[]
    ensures id in Run(env, s, es).sessions <==> exists i: nat :: OpenSince(env, s, es, id, i)
    ensures forall i: nat :: OpenSince(env, s, es, id, i) ==>
              id in Run(env, s, es).sessions && Run(env, s, es).sessions[id].born == es[i].bornAt
  {
    if es == [] {
    } else {
      var n := |es| - 1;
      var before, e := es[..n], es[n];
      var t := Run(env, s, before);
      RunSplits(env, s, es);
      KnownIffOpen(env, s, before, id);
      StepOnSession(env, t, e, id);
      forall i: nat | i < n && es[i].InitiateAuthentication?
        ensures OpenSince(env, s, es, id, i)
           <==> OpenSince(env, s, before, id, i) && !Closes(env, t, e, id, es[i].bornAt)
      {
        OpenOn(env, s, before, e, id, i);
      }
      assert OpenSince(env, s, es, id, n) <==> Opens(env, t, e, id);
      if id in Run(env, s, es).sessions && !Opens(env, t, e, id) {
        var i: nat :| OpenSince(env, s, before, id, i);
        assert OpenSince(env, s, es, id, i);
      }
    }
  }

  // ---- single use of the atomic server

  /** The request was answered with a package of `id`. */
  predicate Yields(env: Env, s: State, e: Event, id: Bytes) {
    Step(env, s, e).1.Package? && Step(env, s, e).1.transactionId == id
  }

  lemma YieldingSpendsTheSession(env: Env, s: State, e: Event, id: Bytes)
    requires Yields(env, s, e, id)
    ensures id in s.sessions && id !in Step(env, s, e).0.sessions
  {
  }

  /** After a package, its transactionId is unknown until it is opened anew. */
  lemma {:induction false} UnknownUntilOpened(env: Env, s: State, es: seq<Event>, id: Bytes, j: nat, n: nat)
    requires j < n <= |es| && Yields(env, Before(env, s, es, j), es[j], id)
    requires forall m :: j < m < n ==> !Opens(env, Before(env, s, es, m), es[m], id)
    ensures id !in Before(env, s, es, n).sessions
  {
    var before, e := Before(env, s, es, n - 1), es[n - 1];
    assert es[..n][..n - 1] == es[..n - 1];
    if j == n - 1 {
      YieldingSpendsTheSession(env, before, e, id);
    } else {
      UnknownUntilOpened(env, s, es, id, j, n - 1);
      StepOnSession(env, before, e, id);
    }
  }

  /** Between two packages answered on one transactionId, it was answered to an
      InitiateAuthentication. */
  lemma PackagesNeedAnOpening(env: Env, s: State, es: seq<Event>, id: Bytes, j: nat, n: nat) returns (m: nat)
    requires j < n < |es|
    requires Yields(env, Before(env, s, es, j), es[j], id) && Yields(env, Before(env, s, es, n), es[n], id)
    ensures j < m < n && Opens(env, Before(env, s, es, m), es[m], id)
  {
    YieldingSpendsTheSession(env, Before(env, s, es, n), es[n], id);
    if forall m :: j < m < n ==> !Opens(env, Before(env, s, es, m), es[m], id) {
      UnknownUntilOpened(env, s, es, id, j, n);
    }
    m :| j < m < n && Opens(env, Before(env, s, es, m), es[m], id);
  }
}
