/** A call that meets no competitor, as a trace of the concurrent system. */
module Alone {
  import opened Domain
  import opened Store
  import opened Plans
  import opened Operations
  import opened Runs
  import opened Locks
  import opened Snapshots
  import opened Interleavings

  lemma TraceGoesOn(trace: seq<Sys>, e: Event, after: Sys) returns (more: seq<Sys>)
    requires Trace(trace) && Follows(trace[|trace| - 1], e, after)
    ensures Trace(more) && |more| == |trace| + 1 && more[0] == trace[0] && more[|trace|] == after
  {
    hide Follows, Good;
    more := trace + [after];
    forall i | 0 <= i < |more| - 1 ensures AdvancesAt(more, i) {
      if i < |trace| - 1 { assert AdvancesAt(trace, i); } else { assert Advanced(more[i], after); }
    }
  }

  /** The only transaction, with `held` of its rows locked, in tables nobody has changed since it
      began. */
  ghost predicate Holding(start: Sys, op: Op, id: nat, held: nat, sys: Sys) {
    held <= |LockPlan(start.db, op)|
    && sys == start.(active := map[id := Txn(op, start.db, start.versions, LockPlan(start.db, op), held)])
  }

  lemma {:induction false} LocksAlone(start: Sys, op: Op, id: nat, held: nat) returns (trace: seq<Sys>)
    requires Good(start.db) && start.active == map[] && held <= |LockPlan(start.db, op)|
    ensures Trace(trace) && trace[0] == start && Holding(start, op, id, held, trace[|trace| - 1])
  {
    hide Good, LockPlan;
    if held == 0 {
      trace := TraceGoesOn([start], Began(id, op), start.(active := map[id := Txn(op, start.db, start.versions, LockPlan(start.db, op), 0)]));
    } else {
      trace := LocksAlone(start, op, id, held - 1);
      var sys := trace[|trace| - 1];
      trace := TraceGoesOn(trace, Locked(id), sys.(active := sys.active[id := sys.active[id].(held := held)]));
    }
  }

  /** Begun, locked row by row and committed with nobody else about, an operation has exactly the
      effect its service call has on the tables. */
  lemma AloneIsAtomic(start: Sys, op: Op)
    requires Good(start.db) && start.active == map[] && Fresh(start.db, op) && Plan(start.db, op).Commit?
    ensures exists trace: seq<Sys> :: Trace(trace) && trace[0] == start
              && trace[|trace| - 1].db == Apply(start.db, Plan(start.db, op).writes) && trace[|trace| - 1].active == map[]
  {
    hide Good, LockPlan, Fresh, Apply;
    var trace := LocksAlone(start, op, 0, |LockPlan(start.db, op)|);
    var sys := trace[|trace| - 1];
    var w := Plan(start.db, op).writes;
    NewIntentsAreFirst(start.db, op);
    trace := TraceGoesOn(trace, Committed(0), Sys(Apply(sys.db, w), Bump(sys.versions, w), sys.active - {0}));
  }

  lemma NewIntentsAreFirst(db: Db, op: Op)
    ensures op.Intend? && Plan(db, op).Commit? && Plan(db, op).writes != NOTHING ==> KnownPayment(db, op.user, op.key).None?
  {}
}
