/** The in-memory session table (crates/smdp/src/server/sessions.rs). */
module SessionTable {
  import opened Basics
  import opened Rsp

  /** 600 s, in nanoseconds, the resolution of the clock. */
  const MAX_AGE: int := 600_000_000_000

  datatype Entry = Entry(session: Session, orderId: Option<int>, born: int)

  type Table = map<Bytes, Entry>

  /** `Instant::duration_since`, which saturates at zero. */
  function DurationSince(now: int, earlier: int): nat {
    if now <= earlier then 0 else now - earlier
  }

  predicate IsFresh(e: Entry, now: int) {
    DurationSince(now, e.born) < MAX_AGE
  }

  function Swept(t: Table, now: int): Table {
    map k | k in t && IsFresh(t[k], now) :: t[k]
  }

  /** The clock is read twice: once by the sweep, once for the new entry. */
  function Inserted(t: Table, id: Bytes, session: Session, sweepAt: int, bornAt: int): Table {
    Swept(t, sweepAt)[id := Entry(session, None, bornAt)]
  }

  class Sessions {
    var byTransaction: Table

    constructor ()
      ensures byTransaction == map[]
    {
      byTransaction := map[];
    }

    method Insert(id: Bytes, session: Session, sweepAt: int, bornAt: int)
      modifies this
      ensures byTransaction == Inserted(old(byTransaction), id, session, sweepAt, bornAt)
    {
      Sweep(sweepAt);
      byTransaction := byTransaction[id := Entry(session, None, bornAt)];
    }

    /** Age is not looked at: an entry is found until a sweep takes it. */
    method Get(id: Bytes) returns (e: Option<Entry>)
      ensures e == if id in byTransaction then Some(byTransaction[id]) else None
    {
      e := if id in byTransaction then Some(byTransaction[id]) else None;
    }

    /** What the source does through the `&mut Entry` of `get_mut`. The birth
        of an entry is private to the table and stays. */
    method Update(id: Bytes, session: Session, orderId: Option<int>)
      requires id in byTransaction
      modifies this
      ensures byTransaction
           == old(byTransaction)[id := Entry(session, orderId, old(byTransaction)[id].born)]
    {
      byTransaction := byTransaction[id := Entry(session, orderId, byTransaction[id].born)];
    }

    method Remove(id: Bytes)
      modifies this
      ensures byTransaction == old(byTransaction) - {id}
    {
      byTransaction := byTransaction - {id};
    }

    method Sweep(now: int)
      modifies this
      ensures byTransaction == Swept(old(byTransaction), now)
    {
      byTransaction := map k | k in byTransaction && DurationSince(now, byTransaction[k].born) < MAX_AGE
                           :: byTransaction[k];
    }
  }

  // ---- the table as a log of operations

  datatype Op =
    | OpInsert(id: Bytes, session: Session, sweepAt: int, bornAt: int)
    | OpUpdate(id: Bytes, session: Session, orderId: Option<int>)
    | OpRemove(id: Bytes)

  function Apply(t: Table, op: Op): Table {
    match op
    case OpInsert(id, session, sweepAt, bornAt) => Inserted(t, id, session, sweepAt, bornAt)
    case OpUpdate(id, session, orderId) => if id in t then t[id := Entry(session, orderId, t[id].born)] else t
    case OpRemove(id) => t - {id}
  }

  function After(ops: seq<Op>): Table {
    if ops == [] then map[] else Apply(After(ops[..|ops| - 1]), ops[|ops| - 1])
  }

  /** Operation `op` ends the life of an entry stored under `id` at `born`. */
  predicate Ends(op: Op, id: Bytes, born: int) {
    match op
    case OpInsert(other, _, sweepAt, _) => other == id || sweepAt >= born + MAX_AGE
    case OpUpdate(_, _, _) => false
    case OpRemove(other) => other == id
  }

  /** Insert number `i` put an entry under `id` that nothing has ended since. */
  predicate LivesFrom(ops: seq<Op>, id: Bytes, i: nat) {
    && i < |ops| && ops[i].OpInsert? && ops[i].id == id
    && forall j :: i < j < |ops| ==> !Ends(ops[j], id, ops[i].bornAt)
  }

  lemma LivesOn(ops: seq<Op>, op: Op, id: Bytes, i: nat)
    requires i < |ops|
    ensures LivesFrom(ops + [op], id, i) <==> LivesFrom(ops, id, i) && !Ends(op, id, ops[i].bornAt)
  {
    var all := ops + [op];
    assert all[|ops|] == op;
    assert forall j :: 0 <= j < |ops| ==> all[j] == ops[j];
  }

  /** A transactionId is present exactly when its last insert was followed by
      no remove of it and by no insert whose sweep came 600 s or more after its
      birth; and the entry then carries that birth. No assumption on the clock. */
  lemma {:induction false} PresentIffUnended(ops: seq<Op>, id: Bytes)
    ensures id in After(ops) <==> exists i: nat :: LivesFrom(ops, id, i)
    ensures forall i: nat :: LivesFrom(ops, id, i) ==> id in After(ops) && After(ops)[id].born == ops[i].bornAt
  {
    if ops == [] {
    } else {
      var n := |ops| - 1;
      var before, op := ops[..n], ops[n];
      assert ops == before + [op];
      PresentIffUnended(before, id);
      forall i: nat | i < n
        ensures LivesFrom(ops, id, i) <==> LivesFrom(before, id, i) && !Ends(op, id, before[i].bornAt)
      {
        LivesOn(before, op, id, i);
      }
      if id in After(ops) {
        if op.OpInsert? && op.id == id {
          assert LivesFrom(ops, id, n);
        } else {
          var i: nat :| LivesFrom(before, id, i);
          assert LivesFrom(ops, id, i);
        }
      }
    }
  }

  /** Inserts whose entry would still be fresh at `now`. */
  function FreshInserts(ops: seq<Op>, now: int): nat {
    if ops == [] then 0
    else
      var op := ops[|ops| - 1];
      FreshInserts(ops[..|ops| - 1], now) + (if op.OpInsert? && now < op.bornAt + MAX_AGE then 1 else 0)
  }

  function FreshIds(t: Table, now: int): set<Bytes> {
    set id | id in t && now < t[id].born + MAX_AGE
  }

  lemma {:induction false} FreshIdsAreFewerThanInserts(ops: seq<Op>, now: int)
    ensures |FreshIds(After(ops), now)| <= FreshInserts(ops, now)
  {
    if ops == [] {
    } else {
      var before, op := ops[..|ops| - 1], ops[|ops| - 1];
      FreshIdsAreFewerThanInserts(before, now);
      var had, has := FreshIds(After(before), now), FreshIds(After(ops), now);
      if op.OpInsert? && now < op.bornAt + MAX_AGE {
        Subset(has, had + {op.id});
      } else {
        Subset(has, had);
      }
    }
  }

  lemma {:induction false} Subset<T>(a: set<T>, b: set<T>)
    requires a <= b
    ensures |a| <= |b|
  {
    if a == {} {
    } else {
      var x :| x in a;
      Subset(a - {x}, b - {x});
    }
  }

  /** Memory is bounded: right after an insert the table holds no more entries
      than inserts were made less than 600 s before its sweep, that insert
      counted in. */
  lemma SizeAfterInsert(ops: seq<Op>, id: Bytes, session: Session, sweepAt: int, bornAt: int)
    ensures |After(ops + [OpInsert(id, session, sweepAt, bornAt)])| <= FreshInserts(ops, sweepAt) + 1
  {
    var op := OpInsert(id, session, sweepAt, bornAt);
    var all := ops + [op];
    assert all[..|ops|] == ops;
    FreshIdsAreFewerThanInserts(ops, sweepAt);
    assert After(all).Keys == FreshIds(After(ops), sweepAt) + {id};
    Subset(After(all).Keys, FreshIds(After(ops), sweepAt) + {id});
  }
}
