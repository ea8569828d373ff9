/** Which orders can be offered again, with commands interleaving between the
    server's individual store operations
    (crates/smdp/src/server/es9.rs:155-182, 228, 286, 342-353). */
module ClosedRegion {
  import opened OrderStore
  import opened Protocol
  import opened Es9
  import opened OrderLife
  import opened Threads

  predicate IsCommand(pc: Pc) {
    pc.CommandAdd? || pc.CommandReset? || pc.CommandSet?
  }

  /** A request the server is working on. */
  predicate Busy(t: Thread) {
    !t.pc.Finished? && !IsCommand(t.pc)
  }

  /** One thread serves all requests: the next is taken up when the last is
      answered. Commands come at any time. */
  ghost predicate OneAtATime(w: World, a: Action) {
    BringsNoRequest(a) || NobodyBusy(w)
  }

  predicate BringsNoRequest(a: Action) {
    a.Spawn? ==> a.job.OrderAdd? || a.job.OrderReset?
  }

  ghost predicate NobodyBusy(w: World) {
    forall j :: j in w.threads ==> !Busy(w.threads[j])
  }

  ghost predicate SingleThreaded(env: Env, w: World, acts: seq<Action>) {
    forall k :: 0 <= k < |acts| ==> OneAtATime(RunAll(env, w, acts[..k]), acts[k])
  }

  ghost predicate IsOnOffer(t: Orders, id: int) {
    Find(t, id).Some? && Offerable(Find(t, id).value)
  }

  /** What was on offer when it was read still is; and a notification only ever
      moves an order into the region. */
  ghost predicate OfferStands(t: Orders, pc: Pc) {
    match pc
    case Ask(_, order) => IsOnOffer(t, order.id)
    case CallAuthenticate(_, order, _) => IsOnOffer(t, order.id)
    case Remember(id, _, _, _) => IsOnOffer(t, id)
    case BindOrder(id, _) => IsOnOffer(t, id)
    case Record(_, Some(m)) => m.to in {Downloaded, Failed}
    case MoveOrder(m) => m.to in {Downloaded, Failed}
    case _ => true
  }

  ghost predicate RegionOk(w: World) {
    && WellKeyed(w.s.orders)
    && (forall i, j :: i in w.threads && j in w.threads && Busy(w.threads[i]) && Busy(w.threads[j]) ==> i == j)
    && (forall i :: i in w.threads ==> OfferStands(w.s.orders, w.threads[i].pc))
  }

  lemma OfferAfterWrite(t: Orders, w: Write, id: int)
    requires Ascending(t) && IsOnOffer(t, id)
    requires w.PutState? ==> w.state == Available
    ensures IsOnOffer(Written(t, w), id)
  {
    RowAfterWrite(t, w, id);
  }

  lemma WorkSetsOffer(env: Env, s: State, pc: Pc, c: Choice)
    requires Ascending(s.orders) && OfferStands(s.orders, pc)
    ensures OfferStands(Work(env, s, pc, c).0.orders, Work(env, s, pc, c).2)
  {
    if pc.Choose? && ChooseOrder(s.orders).Ok? {
      ChosenOrderIsTheOnlyOffer(s.orders);
    }
    if pc.Remember? {
      OfferAfterWrite(s.orders, WriteOf(pc), pc.id);
    }
  }

  lemma CommandKeepsOffer(env: Env, s: State, pc: Pc, c: Choice, other: Pc)
    requires Ascending(s.orders) && IsCommand(pc) && OfferStands(s.orders, other)
    ensures OfferStands(Work(env, s, pc, c).0.orders, other)
  {
    WorkWrites(env, s, pc, c);
    match other
    case Ask(_, order) => OfferAfterWrite(s.orders, WriteOf(pc), order.id);
    case CallAuthenticate(_, order, _) => OfferAfterWrite(s.orders, WriteOf(pc), order.id);
    case Remember(id, _, _, _) => OfferAfterWrite(s.orders, WriteOf(pc), id);
    case BindOrder(id, _) => OfferAfterWrite(s.orders, WriteOf(pc), id);
    case _ =>
  }

  lemma OthersKeepOffer(env: Env, w: World, i: nat, c: Choice, j: nat)
    requires RegionOk(w) && CanGo(w, i) && j in w.threads && j != i
    ensures OfferStands(Work(env, w.s, w.threads[i].pc, c).0.orders, w.threads[j].pc)
  {
    if Busy(w.threads[j]) {
      var t := w.threads[i];
      assert IsCommand(t.pc) || !Busy(t);
      CommandKeepsOffer(env, w.s, t.pc, c, w.threads[j].pc);
    }
  }

  lemma CommandsStayCommands(env: Env, s: State, pc: Pc, c: Choice)
    requires IsCommand(pc)
    ensures IsCommand(Work(env, s, pc, c).2) || Work(env, s, pc, c).2.Finished?
  {
  }

  lemma PerformKeepsRegion(env: Env, w: World, i: nat, c: Choice)
    requires RegionOk(w) && CanGo(w, i)
    ensures RegionOk(Perform(env, w, i, c))
  {
    var pc, after := w.threads[i].pc, Perform(env, w, i, c);
    WorkWrites(env, w.s, pc, c);
    WriteKeepsKeys(w.s.orders, WriteOf(pc));
    WorkSetsOffer(env, w.s, pc, c);
    if IsCommand(pc) {
      CommandsStayCommands(env, w.s, pc, c);
    }
    forall j | j in after.threads && j != i
      ensures OfferStands(after.s.orders, after.threads[j].pc)
    {
      OthersKeepOffer(env, w, i, c, j);
    }
  }

  lemma SpawnKeepsRegion(w: World, i: nat, job: Event)
    requires RegionOk(w) && OneAtATime(w, Spawn(i, job)) && i !in w.threads
    ensures RegionOk(w.(threads := w.threads[i := Thread(StartOf(job), false)]))
  {
    assert OfferStands(w.s.orders, StartOf(job));
    assert IsCommand(StartOf(job)) <==> job.OrderAdd? || job.OrderReset?;
  }

  lemma ExecKeepsRegion(env: Env, w: World, a: Action)
    requires RegionOk(w) && OneAtATime(w, a)
    ensures RegionOk(Exec(env, w, a))
  {
    match a
    case Spawn(i, job) =>
      if i !in w.threads {
        SpawnKeepsRegion(w, i, job);
      }
    case Go(i, c) =>
      if CanGo(w, i) {
        if Waits(w.threads[i]) {
          assert Acquire(w, i).threads[i].pc == w.threads[i].pc;
        } else {
          PerformKeepsRegion(env, w, i, c);
        }
      }
  }

  lemma SingleThreadedBefore(env: Env, w: World, acts: seq<Action>)
    requires acts != [] && SingleThreaded(env, w, acts)
    ensures SingleThreaded(env, w, acts[..|acts| - 1])
    ensures OneAtATime(RunAll(env, w, acts[..|acts| - 1]), acts[|acts| - 1])
  {
    assert forall k :: 0 <= k < |acts| - 1 ==> acts[..|acts| - 1][..k] == acts[..k];
  }

  lemma SingleThreadedTwice(env: Env, w: World, a: seq<Action>, b: seq<Action>)
    requires SingleThreaded(env, w, a) && SingleThreaded(env, RunAll(env, w, a), b)
    ensures SingleThreaded(env, w, a + b)
  {
    forall k | 0 <= k < |a + b|
      ensures OneAtATime(RunAll(env, w, (a + b)[..k]), (a + b)[k])
    {
      if k < |a| {
        assert (a + b)[..k] == a[..k];
      } else {
        assert (a + b)[..k] == a + b[..k - |a|];
        RunAllTwice(env, w, a, b[..k - |a|]);
      }
    }
  }

  lemma {:induction false} RunKeepsRegion(env: Env, w: World, acts: seq<Action>)
    requires RegionOk(w) && SingleThreaded(env, w, acts)
    ensures RegionOk(RunAll(env, w, acts))
  {
    if acts == [] {
    } else {
      SingleThreadedBefore(env, w, acts);
      RunKeepsRegion(env, w, acts[..|acts| - 1]);
      ExecKeepsRegion(env, RunAll(env, w, acts[..|acts| - 1]), acts[|acts| - 1]);
    }
  }

  /** The write an action makes. */
  function WriteBy(w: World, a: Action): Write {
    if Works(w, a) then WriteOf(w.threads[a.i].pc) else Nothing
  }

  /** The action is the write of `order reset` for this order. */
  predicate Resets(w: World, a: Action, id: int) {
    Works(w, a) && w.threads[a.i].pc == CommandSet(id)
  }

  ghost predicate NoReset(env: Env, w: World, acts: seq<Action>, id: int) {
    forall k :: 0 <= k < |acts| ==> !Resets(RunAll(env, w, acts[..k]), acts[k], id)
  }

  /** In any world, an order leaves {Downloaded, Failed} exactly by a write of
      Available or Bound to it. */
  lemma LeavesByAWrite(env: Env, w: World, a: Action, id: int)
    requires Ascending(w.s.orders) && HandedOver(w.s.orders, id)
    ensures HandedOver(Exec(env, w, a).s.orders, id)
       <==> WriteBy(w, a) != PutState(id, Available) && WriteBy(w, a) != PutState(id, Bound)
  {
    if Works(w, a) {
      WorkWrites(env, w.s, w.threads[a.i].pc, a.choice);
    }
    assert Exec(env, w, a).s.orders == Written(w.s.orders, WriteBy(w, a));
    RowAfterWrite(w.s.orders, WriteBy(w, a), id);
  }

  /** With one server thread, only `order reset` of that order takes it out of
      {Downloaded, Failed}, wherever commands come in between: an order read as
      offerable still is when it is bound. */
  lemma OnlyResetReopens(env: Env, s: State, acts: seq<Action>, a: Action, id: int)
    requires WellKeyed(s.orders) && SingleThreaded(env, Idle(s), acts)
    requires HandedOver(RunAll(env, Idle(s), acts).s.orders, id)
    ensures var w := RunAll(env, Idle(s), acts);
            HandedOver(Exec(env, w, a).s.orders, id) <==> !Resets(w, a, id)
  {
    RunKeepsRegion(env, Idle(s), acts);
    LeavesByReset(env, RunAll(env, Idle(s), acts), a, id);
  }

  lemma LeavesByReset(env: Env, w: World, a: Action, id: int)
    requires RegionOk(w) && HandedOver(w.s.orders, id)
    ensures HandedOver(Exec(env, w, a).s.orders, id) <==> !Resets(w, a, id)
  {
    LeavesByAWrite(env, w, a, id);
    if Works(w, a) {
      assert OfferStands(w.s.orders, w.threads[a.i].pc);
    }
  }
}
