/** Two schedules that show why the laws of `ClosedRegion` and `Stranding` are
    not stronger: each ends in a state the law would forbid. */
module Races {
  import opened Basics
  import opened OrderStore
  import opened Protocol
  import opened Es9
  import opened OrderLife
  import opened Threads
  import opened ClosedRegion
  import opened Simulation
  import opened Reopening

  const ANY: Choice := Choice(0, 0, 0)

  /** Nothing was called and nothing changed. */
  lemma PastNothing(w: World, i: nat)
    ensures Past(w, i, w.s, []) == w
  {
  }

  /** A request arrives and its thread reaches its second piece of work. */
  lemma StartAndTurn(env: Env, w: World, i: nat, e: Event) returns (acts: seq<Action>)
    requires Quiet(w) && i !in w.threads
    requires Work(env, w.s, StartOf(e), ANY).0 == w.s && Work(env, w.s, StartOf(e), ANY).1 == []
    ensures RunAll(env, w, acts) == At(w, i, Work(env, w.s, StartOf(e), ANY).2)
    ensures NobodyBusy(w) ==> SingleThreaded(env, w, acts)
  {
    Starting(env, w, i, e);
    var turn := Turn(env, w, i, StartOf(e), ANY);
    PastNothing(w, i);
    RunAllTwice(env, w, [Spawn(i, e)], turn);
    if NobodyBusy(w) {
      TurnsAreSingleThreaded(env, w, [Spawn(i, e)], turn, i);
    }
    acts := [Spawn(i, e)] + turn;
  }

  /** One more piece of work for the thread that is not done. */
  lemma OneMoreTurn(env: Env, from: World, acts: seq<Action>, w: World, i: nat, pc: Pc) returns (more: seq<Action>)
    requires RunAll(env, from, acts) == At(w, i, pc) && !pc.Finished?
    ensures var (s2, calls, next) := Work(env, w.s, pc, ANY);
            RunAll(env, from, more) == At(Past(w, i, s2, calls), i, next)
    ensures SingleThreaded(env, from, acts) ==> SingleThreaded(env, from, more)
  {
    var turn := Turn(env, w, i, pc, ANY);
    RunAllTwice(env, from, acts, turn);
    if SingleThreaded(env, from, acts) {
      TurnsAreSingleThreaded(env, from, acts, turn, i);
    }
    more := acts + turn;
  }

  // ---- the closed region needs one server thread

  /** What the race needs: an order on offer, a session that holds it, another
      that does not, and a library that accepts both. */
  ghost predicate CanRace(env: Env, s: State, auth: AuthenticateRequest, get: PackageRequest, otskDp: Bytes) {
    && Ascending(s.orders) && ChooseOrder(s.orders).Ok?
    && auth.transactionId != get.transactionId
    && auth.transactionId in s.sessions && get.transactionId in s.sessions
    && var order := ChooseOrder(s.orders).value;
       var (_, granted) := env.lib.authenticate(
                             s.sessions[auth.transactionId].session, auth.authenticateServerResponse, order.metadata);
       && s.sessions[get.transactionId].orderId == Some(order.id)
       && granted.code == 0 && env.lib.authenticateFields(granted.out).code == 0
       && env.lib.boundPackage(
            s.sessions[get.transactionId].session, get.prepareDownloadResponse, order.upp, otskDp).1.code == 0
  }

  /** The library call of an AuthenticateClient whose order and session were just
      looked up. */
  function Authenticating(env: Env, s: State, auth: AuthenticateRequest): (State, seq<Call>, Pc)
    requires ChooseOrder(s.orders).Ok? && auth.transactionId in s.sessions
  {
    Work(env, s, CallAuthenticate(auth, ChooseOrder(s.orders).value, s.sessions[auth.transactionId]), ANY)
  }

  /** The first thread, up to the point where it would remember the eUICC. */
  lemma ParkBeforeBinding(env: Env, w: World, i: nat, auth: AuthenticateRequest) returns (acts: seq<Action>)
    requires Quiet(w) && i !in w.threads && ChooseOrder(w.s.orders).Ok? && auth.transactionId in w.s.sessions
    ensures var (s1, calls, waiting) := Authenticating(env, w.s, auth);
            RunAll(env, w, acts) == At(Past(w, i, s1, calls), i, waiting)
  {
    var order, entry := ChooseOrder(w.s.orders).value, w.s.sessions[auth.transactionId];
    var chosen := StartAndTurn(env, w, i, AuthenticateClient(auth));
    var asked := OneMoreTurn(env, w, chosen, w, i, Ask(auth, order));
    PastNothing(w, i);
    acts := OneMoreTurn(env, w, asked, w, i, CallAuthenticate(auth, order, entry));
  }

  /** A session that holds an order, and a library that serves it. */
  ghost predicate CanServe(env: Env, s: State, get: PackageRequest, otskDp: Bytes, id: int) {
    && get.transactionId in s.sessions && s.sessions[get.transactionId].orderId == Some(id)
    && Find(s.orders, id).Some?
    && env.lib.boundPackage(s.sessions[get.transactionId].session, get.prepareDownloadResponse,
                            Find(s.orders, id).value.upp, otskDp).1.code == 0
  }

  /** What is left to do for the first thread. */
  lemma WaitingToBind(env: Env, s: State, auth: AuthenticateRequest, get: PackageRequest, otskDp: Bytes)
    requires CanRace(env, s, auth, get, otskDp)
    ensures var id, (s1, _, waiting) := ChooseOrder(s.orders).value.id, Authenticating(env, s, auth);
            IsAboutToBind(waiting, id) && s1.orders == s.orders && CanServe(env, s1, get, otskDp, id)
  {
    ChosenOrderIsTheOnlyOffer(s.orders);
  }

  lemma ServedIsHandedOver(env: Env, s: State, get: PackageRequest, otskDp: Bytes, id: int)
    requires CanServe(env, s, get, otskDp, id)
    ensures HandedOver(Step(env, s, GetBoundProfilePackage(get, otskDp)).0.orders, id)
  {
    FindAfterState(s.orders, id, Downloaded, id);
  }

  /** However it got there, a thread that is about to bind an order binds it. */
  lemma BindingAnyway(env: Env, s: State, pc: Pc, id: int)
    requires IsAboutToBind(pc, id)
    ensures !HandedOver(WorkOut(env, s, pc, ANY).0.orders, id)
  {
    WorkOutOnce(env, s, pc, ANY);
    if pc.Remember? {
      var s2 := Work(env, s, pc, ANY).0;
      FindAfterState(s2.orders, id, Bound, id);
      WorkOutOnce(env, s2, BindOrder(id, pc.body), ANY);
    } else {
      FindAfterState(s.orders, id, Bound, id);
    }
  }

  /** While thread `i` waits, thread `j` does all of `job`; then `i` goes on. */
  lemma ServeThenResume(env: Env, w: World, i: nat, waiting: Pc, j: nat, job: Event)
    returns (serving: seq<Action>, resuming: seq<Action>)
    requires Quiet(w) && !KeepsSessions(waiting)
    requires i in w.threads && w.threads[i] == Thread(waiting, false) && j !in w.threads
    ensures var mid := RunAll(env, w, serving);
            && mid.s == Step(env, w.s, job).0 && mid.trace == w.trace + CallsBy(env, w.s, job)
            && i in mid.threads && mid.threads[i].pc == waiting
            && (job.OrderAdd? || job.OrderReset? ==> SingleThreaded(env, w, serving))
            && IsTurnOf(resuming, i)
            && RunAll(env, mid, resuming).s == WorkOut(env, mid.s, waiting, ANY).0
            && RunAll(env, mid, resuming).trace == mid.trace + WorkOut(env, mid.s, waiting, ANY).1
  {
    serving := AtomicStepIsASchedule(env, w, j, job);
    var mid := RunAll(env, w, serving);
    assert mid == At(mid, i, waiting);
    resuming := RunsAlone(env, mid, i, waiting, ANY);
  }

  /** Two threads, no reset: one reads the order as offerable, the other serves
      it and marks it Downloaded, the first then goes on and marks it Bound, and
      it is on offer again. On the current-thread runtime of `serve` this cannot
      happen (`ClosedRegion.OnlyResetReopens`). */
  lemma TwoThreadsReopenAnOrder(
    env: Env, w: World, i: nat, j: nat, auth: AuthenticateRequest, get: PackageRequest, otskDp: Bytes)
    returns (toServed: seq<Action>, toBound: seq<Action>)
    requires Quiet(w) && i !in w.threads && j !in w.threads && i != j && CanRace(env, w.s, auth, get, otskDp)
    ensures var id, mid := ChooseOrder(w.s.orders).value.id, RunAll(env, w, toServed);
            && HandedOver(mid.s.orders, id)
            && i in mid.threads && IsAboutToBind(mid.threads[i].pc, id) && IsTurnOf(toBound, i)
            && !HandedOver(RunAll(env, mid, toBound).s.orders, id)
  {
    var (s1, calls, waiting) := Authenticating(env, w.s, auth);
    var parked := At(Past(w, i, s1, calls), i, waiting);
    WaitingToBind(env, w.s, auth, get, otskDp);
    var parking := ParkBeforeBinding(env, w, i, auth);
    var job := GetBoundProfilePackage(get, otskDp);
    var serving, resuming := ServeThenResume(env, parked, i, waiting, j, job);
    ServedIsHandedOver(env, s1, get, otskDp, ChooseOrder(w.s.orders).value.id);
    BindingAnyway(env, Step(env, s1, job).0, waiting, ChooseOrder(w.s.orders).value.id);
    RunAllTwice(env, w, parking, serving);
    toServed, toBound := parking + serving, resuming;
  }

  // ---- a reset between the serving and the mark

  /** The package was served, the order is not marked yet. */
  ghost predicate ServedNotMarked(before: World, w: World, i: nat, id: int) {
    && Quiet(w) && w.threads.Keys == before.threads.Keys + {i}
    && w.threads[i].pc.MarkDownloaded? && w.threads[i].pc.id == id && !w.threads[i].locked
    && w.s.orders == before.s.orders && w.s.notifications == before.s.notifications
    && |w.trace| == |before.trace| + 2 && w.trace[|before.trace| + 1].Served?
    && w.trace[|before.trace| + 1].order == id
  }

  /** The library call of a GetBoundProfilePackage whose session and order were
      just looked up. */
  function Packaging(env: Env, s: State, get: PackageRequest, otskDp: Bytes, id: int): (State, seq<Call>, Pc)
    requires get.transactionId in s.sessions && Find(s.orders, id).Some?
  {
    Work(env, s, CallPackage(get, otskDp, s.sessions[get.transactionId], id, Find(s.orders, id).value.upp), ANY)
  }

  lemma PackagingServes(env: Env, w: World, i: nat, get: PackageRequest, otskDp: Bytes, id: int)
    requires Quiet(w) && CanServe(env, w.s, get, otskDp, id)
    ensures var (s1, calls, spend) := Packaging(env, w.s, get, otskDp, id);
            var (s2, served, next) := Work(env, s1, spend, ANY);
            && spend.Spend?
            && ServedNotMarked(w, At(Past(Past(w, i, s1, calls), i, s2, served), i, next), i, id)
  {
  }

  /** What the two lookups find. */
  lemma PackageIsFound(env: Env, s: State, get: PackageRequest, otskDp: Bytes, id: int)
    requires CanServe(env, s, get, otskDp, id)
    ensures var entry := s.sessions[get.transactionId];
            && Work(env, s, Lookup(get, otskDp), ANY) == (s, [], ReadUpp(get, otskDp, entry, id))
            && Work(env, s, ReadUpp(get, otskDp, entry, id), ANY)
               == (s, [], CallPackage(get, otskDp, entry, id, Find(s.orders, id).value.upp))
  {
  }

  /** Up to the library call: the session and the order were looked up. */
  lemma ReadThePackage(env: Env, w: World, i: nat, get: PackageRequest, otskDp: Bytes, id: int)
    returns (acts: seq<Action>, call: Pc)
    requires Quiet(w) && i !in w.threads && CanServe(env, w.s, get, otskDp, id)
    ensures call == CallPackage(get, otskDp, w.s.sessions[get.transactionId], id, Find(w.s.orders, id).value.upp)
    ensures RunAll(env, w, acts) == At(w, i, call)
    ensures NobodyBusy(w) ==> SingleThreaded(env, w, acts)
  {
    var entry := w.s.sessions[get.transactionId];
    PackageIsFound(env, w.s, get, otskDp, id);
    var found := StartAndTurn(env, w, i, GetBoundProfilePackage(get, otskDp));
    acts := OneMoreTurn(env, w, found, w, i, ReadUpp(get, otskDp, entry, id));
    PastNothing(w, i);
    call := CallPackage(get, otskDp, entry, id, Find(w.s.orders, id).value.upp);
  }

  lemma ParkBeforeMarking(env: Env, w: World, i: nat, get: PackageRequest, otskDp: Bytes, id: int)
    returns (acts: seq<Action>)
    requires Quiet(w) && NobodyBusy(w) && i !in w.threads && CanServe(env, w.s, get, otskDp, id)
    ensures SingleThreaded(env, w, acts) && ServedNotMarked(w, RunAll(env, w, acts), i, id)
  {
    var (s1, calls, spend) := Packaging(env, w.s, get, otskDp, id);
    PackagingServes(env, w, i, get, otskDp, id);
    var read, call := ReadThePackage(env, w, i, get, otskDp, id);
    var called := OneMoreTurn(env, w, read, w, i, call);
    acts := OneMoreTurn(env, w, called, Past(w, i, s1, calls), i, spend);
  }

  /** What the command and the rest of the request do to the order. */
  lemma ResetThenMark(env: Env, s: State, pc: Pc, id: int)
    requires pc.MarkDownloaded? && pc.id == id && Find(s.orders, id).Some?
    ensures var reset := Step(env, s, OrderReset(id)).0;
            var (marked, calls, _) := WorkOut(env, reset, pc, ANY);
            && Find(reset.orders, id).Some? && Find(reset.orders, id).value.state == Available
            && Find(marked.orders, id).Some? && Find(marked.orders, id).value.state == Downloaded
            && calls == [] && marked.notifications == reset.notifications
  {
    var reset := Step(env, s, OrderReset(id)).0;
    WorkOutOnce(env, reset, pc, ANY);
    FindAfterState(s.orders, id, Available, id);
    FindAfterState(reset.orders, id, Downloaded, id);
  }

  lemma ThreeParts(env: Env, w: World, a: seq<Action>, b: seq<Action>, c: seq<Action>, i: nat)
    requires SingleThreaded(env, w, a) && SingleThreaded(env, RunAll(env, w, a), b) && IsTurnOf(c, i)
    ensures RunAll(env, w, a + b + c) == RunAll(env, RunAll(env, RunAll(env, w, a), b), c)
    ensures SingleThreaded(env, w, a + b + c)
  {
    RunAllTwice(env, w, a, b);
    RunAllTwice(env, w, a + b, c);
    SingleThreadedTwice(env, w, a, b);
    TurnsAreSingleThreaded(env, w, a + b, c, i);
  }

  /** One server thread, one command: the package is served and the session gone,
      `order reset` writes Available and is answered so, and only then does the
      server write Downloaded. Nothing was served and no notification stored
      since the reset. */
  lemma ResetBeforeTheMark(env: Env, w: World, i: nat, j: nat, get: PackageRequest, otskDp: Bytes, id: int)
    returns (toServed: seq<Action>, toReset: seq<Action>, toMarked: seq<Action>)
    requires Quiet(w) && NobodyBusy(w) && i !in w.threads && j !in w.threads && i != j
    requires CanServe(env, w.s, get, otskDp, id)
    ensures SingleThreaded(env, w, toServed + toReset + toMarked)
    ensures var served := RunAll(env, w, toServed);
            var reset := RunAll(env, served, toReset);
            var marked := RunAll(env, reset, toMarked);
            && ServedNotMarked(w, served, i, id)
            && Find(reset.s.orders, id).Some? && Find(reset.s.orders, id).value.state == Available
            && Find(marked.s.orders, id).Some? && Find(marked.s.orders, id).value.state == Downloaded
            && marked.trace == reset.trace && marked.s.notifications == reset.s.notifications
            && RunAll(env, w, toServed + toReset + toMarked) == marked
  {
    toServed := ParkBeforeMarking(env, w, i, get, otskDp, id);
    var served := RunAll(env, w, toServed);
    var pc := served.threads[i].pc;
    toReset, toMarked := ServeThenResume(env, served, i, pc, j, OrderReset(id));
    ResetThenMark(env, served.s, pc, id);
    ThreeParts(env, w, toServed, toReset, toMarked, i);
  }

  lemma Regrouped(before: seq<Action>, a: seq<Action>, b: seq<Action>, c: seq<Action>)
    ensures before + (a + b + c) == before + a + b + c
  {
  }

  lemma RunAllThrice(env: Env, from: World, before: seq<Action>, a: seq<Action>, b: seq<Action>)
    ensures RunAll(env, from, before + a + b) == RunAll(env, RunAll(env, RunAll(env, from, before), a), b)
  {
    RunAllTwice(env, from, before, a);
    RunAllTwice(env, from, before + a, b);
  }

  /** The same, when the session came to be in a run of its own. */
  lemma ResetBeforeTheMarkAfter(env: Env, from: World, before: seq<Action>, i: nat, j: nat,
                                get: PackageRequest, otskDp: Bytes, id: int)
    returns (toReset: seq<Action>, toMarked: seq<Action>)
    requires SingleThreaded(env, from, before)
    requires var w := RunAll(env, from, before);
             Quiet(w) && NobodyBusy(w) && i !in w.threads && j !in w.threads && CanServe(env, w.s, get, otskDp, id)
    requires i != j
    ensures SingleThreaded(env, from, toReset + toMarked)
    ensures var reset := RunAll(env, from, toReset);
            var marked := RunAll(env, reset, toMarked);
            && Find(reset.s.orders, id).Some? && Find(reset.s.orders, id).value.state == Available
            && Find(marked.s.orders, id).Some? && Find(marked.s.orders, id).value.state == Downloaded
            && marked.trace == reset.trace && marked.s.notifications == reset.s.notifications
  {
    var w := RunAll(env, from, before);
    var serving, resetting, marking := ResetBeforeTheMark(env, w, i, j, get, otskDp, id);
    RunAllThrice(env, from, before, serving, resetting);
    SingleThreadedTwice(env, from, before, serving + resetting + marking);
    Regrouped(before, serving, resetting, marking);
    toReset, toMarked := before + serving + resetting, marking;
  }
}
