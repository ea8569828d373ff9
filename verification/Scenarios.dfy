/** The counterexamples, run from an empty store with one obliging library: the
    hypotheses of `Races` and of `Evidence.ServedWithoutEvidence` are met by
    states the server reaches. */
module Scenarios {
  import opened Basics
  import opened Rsp
  import opened OrderStore
  import opened SessionTable
  import opened Protocol
  import opened Es9
  import opened OrderLife
  import opened Threads
  import opened ClosedRegion
  import opened Simulation
  import opened Races
  import opened Reopening
  import opened Evidence
  import CommandLine
  import MatchingId
  import Wire

  /** A function that gives the same whatever it is given. */
  function Always<A, B>(b: B): A -> B {
    a => b
  }

  const NEW_SESSION: Session := Session([])

  /** What the library has learned of an eUICC is what it answered last. */
  function EidOf(session: Session): string {
    if session.state == [] then "" else "another"
  }

  /** A library that accepts everything it is asked, and whose sessions hold the
      eUICC's last response to AuthenticateClient; only cutting its own response
      into fields returns `fields`. No notification verifies. */
  function Obliging(fields: int): Library {
    var nothing := Notification(false, 0, 0, None, false);
    Library(
      Always(Returned(0, (NEW_SESSION, []))),
      Always(Returned(0, InitiateFields([], [], [], []))),
      (s, resp, metadata) => (Session(resp), Returned(0, [])),
      Always(Returned(fields, AuthenticateFields([], [], [], []))),
      (s, prepared, upp, otskDp) => (s, Returned(0, [])),
      (s: Session) => Returned(0, s.state),
      (s: Session) => Returned(0, Some(EidOf(s))),
      Always(Returned(0, nothing)),
      (cert, raw) => Returned(-1, nothing))
  }

  function ServerOf(fields: int): Env {
    Env(Obliging(fields), "")
  }

  const NOTHING_YET: State := State([], [], map[])

  /** What the runs draw: two transactionIds, an ICCID, and the octets of a
      MatchingID that is not asked for. */
  datatype Draw = Draw(first: Bytes16, second: Bytes16, iccid: Bytes10, raw: MatchingId.Raw)

  function Adding(d: Draw): Event {
    OrderAdd(AddCommand([], [], Some(Wire.ToHexLower(d.iccid)), Some(""), d.raw))
  }

  function Initiating(id: Bytes16): Event {
    InitiateAuthentication(InitiateRequest(id, [], ""), id, id, 0, 0)
  }

  function Authenticating1(d: Draw): Event {
    AuthenticateClient(AuthenticateRequest(d.first, []))
  }

  function Getting(d: Draw): PackageRequest {
    PackageRequest(d.first, [])
  }

  function AddedOrder(d: Draw): Order {
    Row(1, NewOrder("", d.iccid, [], []))
  }

  function BoundOrder(d: Draw): Order {
    AddedOrder(d).(eid := Some(""), euiccCert := Some([]), state := Bound)
  }

  // ---- the steps

  lemma AddingAdds(env: Env, d: Draw)
    ensures Step(env, NOTHING_YET, Adding(d)).0 == State([AddedOrder(d)], [], map[])
  {
    CommandLine.ParseOfPrinted(d.iccid);
    assert OrderToAdd(Adding(d).add) == Some(NewOrder("", d.iccid, [], []));
  }

  lemma InitiatingOpens(fields: int, s: State, id: Bytes16)
    requires forall k :: k in s.sessions ==> s.sessions[k].born == 0
    ensures Step(ServerOf(fields), s, Initiating(id)).0 == s.(sessions := s.sessions[id := Entry(NEW_SESSION, None, 0)])
  {
    assert Swept(s.sessions, 0) == s.sessions;
  }

  lemma TwoSteps(env: Env, s: State, a: Event, b: Event)
    ensures Run(env, s, [a, b]) == Step(env, Step(env, s, a).0, b).0
  {
    assert [a, b][..1] == [a] && [a][..0] == [];
    assert Run(env, s, [a]) == Step(env, Run(env, s, []), a).0;
  }

  lemma FourSteps(env: Env, s: State, a: Event, b: Event, c: Event, e: Event)
    ensures Run(env, s, [a, b, c, e]) == Step(env, Step(env, Run(env, s, [a, b]), c).0, e).0
  {
    assert [a, b, c, e][..3] == [a, b, c] && [a, b, c][..2] == [a, b];
    assert Run(env, s, [a, b, c]) == Step(env, Run(env, s, [a, b]), c).0;
  }

  /** One order on offer, one session that knows nothing of it. */
  lemma OneSession(d: Draw, fields: int)
    ensures Run(ServerOf(fields), NOTHING_YET, [Adding(d), Initiating(d.first)])
         == State([AddedOrder(d)], [], map[d.first := Entry(NEW_SESSION, None, 0)])
  {
    TwoSteps(ServerOf(fields), NOTHING_YET, Adding(d), Initiating(d.first));
    AddingAdds(ServerOf(fields), d);
    InitiatingOpens(fields, State([AddedOrder(d)], [], map[]), d.first);
  }

  lemma OneRowIsChosen(o: Order)
    requires Offerable(o)
    ensures ChooseOrder([o]) == Ok(o) && Find([o], o.id) == Some(o)
  {
    assert Offers([o][1..]) == [];
  }

  lemma AuthenticatingBinds(d: Draw, s: State)
    requires s.orders == [AddedOrder(d)] && d.first in s.sessions && s.sessions[d.first] == Entry(NEW_SESSION, None, 0)
    ensures Step(ServerOf(0), s, Authenticating1(d)).0
         == s.(orders := [BoundOrder(d)], sessions := s.sessions[d.first := Entry(NEW_SESSION, Some(1), 0)])
  {
    OneRowIsChosen(AddedOrder(d));
  }

  function Racing(d: Draw): seq<Event> {
    [Adding(d), Initiating(d.first), Initiating(d.second), Authenticating1(d)]
  }

  function RacingState(d: Draw): State {
    State([BoundOrder(d)], [], map[d.first := Entry(NEW_SESSION, Some(1), 0), d.second := Entry(NEW_SESSION, None, 0)])
  }

  /** Two sessions, the first of which holds the order. */
  lemma TwoSessions(d: Draw)
    requires d.first != d.second
    ensures Run(ServerOf(0), NOTHING_YET, Racing(d)) == RacingState(d)
  {
    var env := ServerOf(0);
    var one := map[d.first := Entry(NEW_SESSION, None, 0)];
    var two := one[d.second := Entry(NEW_SESSION, None, 0)];
    OneSession(d, 0);
    FourSteps(env, NOTHING_YET, Adding(d), Initiating(d.first), Initiating(d.second), Authenticating1(d));
    InitiatingOpens(0, State([AddedOrder(d)], [], one), d.second);
    AuthenticatingBinds(d, State([AddedOrder(d)], [], two));
    assert two[d.first := Entry(NEW_SESSION, Some(1), 0)] == RacingState(d).sessions;
  }

  /** The same as a schedule. */
  lemma TwoSessionsReached(d: Draw) returns (acts: seq<Action>)
    requires d.first != d.second
    ensures SingleThreaded(ServerOf(0), Idle(NOTHING_YET), acts)
    ensures var w := RunAll(ServerOf(0), Idle(NOTHING_YET), acts);
            w.s == RacingState(d) && Quiet(w) && NobodyBusy(w) && 4 !in w.threads && 5 !in w.threads
  {
    var env := ServerOf(0);
    acts := AtomicRunIsASchedule(env, NOTHING_YET, Racing(d));
    TwoSessions(d);
    AllAnswered(env, NOTHING_YET, Racing(d));
    AnsweredAsTheStepsDo(env, NOTHING_YET, Racing(d), 4);
    AnsweredAsTheStepsDo(env, NOTHING_YET, Racing(d), 5);
  }

  lemma RaceCanBegin(d: Draw)
    requires d.first != d.second
    ensures CanRace(ServerOf(0), RacingState(d), AuthenticateRequest(d.second, []), Getting(d), [])
    ensures ChooseOrder(RacingState(d).orders) == Ok(BoundOrder(d))
    ensures CanServe(ServerOf(0), RacingState(d), Getting(d), [], 1)
  {
    OneRowIsChosen(BoundOrder(d));
  }

  // ---- the runs

  /** Two threads: an order goes from Downloaded back on offer without a reset. */
  lemma TheRaceHappens(d: Draw) returns (toServed: seq<Action>, toBound: seq<Action>)
    requires d.first != d.second
    ensures var mid := RunAll(ServerOf(0), Idle(NOTHING_YET), toServed);
            && HandedOver(mid.s.orders, 1)
            && 4 in mid.threads && IsAboutToBind(mid.threads[4].pc, 1) && IsTurnOf(toBound, 4)
            && !HandedOver(RunAll(ServerOf(0), mid, toBound).s.orders, 1)
  {
    var env := ServerOf(0);
    var before := TwoSessionsReached(d);
    var w := RunAll(env, Idle(NOTHING_YET), before);
    RaceCanBegin(d);
    var serving, binding := TwoThreadsReopenAnOrder(env, w, 4, 5, AuthenticateRequest(d.second, []), Getting(d), []);
    RunAllTwice(env, Idle(NOTHING_YET), before, serving);
    toServed, toBound := before + serving, binding;
  }

  /** One server thread and one command: the order is reset, nothing is served
      from it and no notification stored after that, and it ends Downloaded. */
  lemma TheResetComesTooEarly(d: Draw) returns (toReset: seq<Action>, toMarked: seq<Action>)
    requires d.first != d.second
    ensures SingleThreaded(ServerOf(0), Idle(NOTHING_YET), toReset + toMarked)
    ensures var reset := RunAll(ServerOf(0), Idle(NOTHING_YET), toReset);
            var marked := RunAll(ServerOf(0), reset, toMarked);
            && Find(reset.s.orders, 1).Some? && Find(reset.s.orders, 1).value.state == Available
            && Find(marked.s.orders, 1).Some? && Find(marked.s.orders, 1).value.state == Downloaded
            && marked.trace == reset.trace && marked.s.notifications == reset.s.notifications
  {
    var env := ServerOf(0);
    var before := TwoSessionsReached(d);
    RaceCanBegin(d);
    toReset, toMarked := ResetBeforeTheMarkAfter(env, Idle(NOTHING_YET), before, 4, 5, Getting(d), [], 1);
  }

  /** A library whose response to AuthenticateClient cannot be cut into fields:
      the client is told that it failed, and is served the package all the same;
      the order is Downloaded and no eUICC is remembered for it. */
  lemma TheEvidenceIsMissing(d: Draw)
    ensures var env := ServerOf(1);
            var es := [Adding(d), Initiating(d.first), Authenticating1(d), GetBoundProfilePackage(Getting(d), [])];
            && AnswerTo(env, NOTHING_YET, es, 2).Unsuccessful?
            && AnswerTo(env, NOTHING_YET, es, 3).Package?
            && Find(Run(env, NOTHING_YET, es).orders, 1) == Some(AddedOrder(d).(state := Downloaded))
            && !HasEvidence(AddedOrder(d))
  {
    var env, get := ServerOf(1), GetBoundProfilePackage(Getting(d), []);
    var es := [Adding(d), Initiating(d.first), Authenticating1(d), get];
    var s := State([AddedOrder(d)], [], map[d.first := Entry(NEW_SESSION, None, 0)]);
    OneSession(d, 1);
    OneRowIsChosen(AddedOrder(d));
    FourSteps(env, NOTHING_YET, Adding(d), Initiating(d.first), Authenticating1(d), get);
    assert es[..2] == [Adding(d), Initiating(d.first)] && es[..3][..2] == es[..2];
    ServedWithoutEvidence(env, s, AuthenticateRequest(d.first, []), [], []);
  }

  // ---- the eUICC that is remembered

  /** Another eUICC, authenticating on the second transactionId. */
  function Authenticating2(d: Draw): Event {
    AuthenticateClient(AuthenticateRequest(d.second, [7]))
  }

  function ReboundOrder(d: Draw): Order {
    BoundOrder(d).(eid := Some("another"), euiccCert := Some([7]))
  }

  lemma AuthenticatingRebinds(d: Draw)
    requires d.first != d.second
    ensures Step(ServerOf(0), RacingState(d), Authenticating2(d)).0
         == State([ReboundOrder(d)], [], map[d.first := Entry(NEW_SESSION, Some(1), 0),
                                             d.second := Entry(Session([7]), Some(1), 0)])
  {
    OneRowIsChosen(BoundOrder(d));
  }

  lemma SixSteps(env: Env, s: State, es: seq<Event>, a: Event, b: Event)
    ensures Run(env, s, es + [a, b]) == Step(env, Step(env, Run(env, s, es), a).0, b).0
    ensures AnswerTo(env, s, es + [a, b], |es| + 1) == Step(env, Step(env, Run(env, s, es), a).0, b).1
  {
    assert (es + [a, b])[..|es| + 1] == es + [a] && (es + [a])[..|es|] == es;
  }

  /** Two eUICCs authenticate, each in a session of its own, for the one order on
      offer; the first is served. The order remembers the second. */
  lemma TheOtherEuiccIsRemembered(d: Draw)
    requires d.first != d.second
    ensures var env, es := ServerOf(0), Racing(d) + [Authenticating2(d), GetBoundProfilePackage(Getting(d), [])];
            && Run(env, NOTHING_YET, Racing(d)) == RacingState(d)
            && RacingState(d).orders == [BoundOrder(d)]
            && BoundOrder(d).eid == Some(EidOf(RacingState(d).sessions[d.first].session))
            && AnswerTo(env, NOTHING_YET, es, 5) == Package(d.first, [])
            && Find(Run(env, NOTHING_YET, es).orders, 1) == Some(ReboundOrder(d).(state := Downloaded))
            && ReboundOrder(d).eid == Some("another") && ReboundOrder(d).euiccCert == Some([7])
  {
    var get := GetBoundProfilePackage(Getting(d), []);
    TwoSessions(d);
    AuthenticatingRebinds(d);
    SixSteps(ServerOf(0), NOTHING_YET, Racing(d), Authenticating2(d), get);
    OneRowIsChosen(ReboundOrder(d));
    OneRowIsChosen(BoundOrder(d));
    FindAfterState([ReboundOrder(d)], 1, Downloaded, 1);
  }

  // ---- a notification that is not kept

  /** The same library, which cannot read a notification either. */
  function Unreading(): Library {
    Obliging(0).(notificationMetadata := Always(Returned(-1, Notification(false, 0, 0, None, false))))
  }

  /** What arrives is answered and leaves nothing behind, whatever it is. */
  lemma NothingIsKept(raw: Bytes, pick: nat)
    ensures Step(Env(Unreading(), ""), NOTHING_YET, HandleNotification(raw, pick)) == (NOTHING_YET, NoContent)
  {
  }
}
