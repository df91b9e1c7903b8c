/** Concurrent transactions over snapshots. A serializable transaction reads the snapshot it
    began with; it takes row locks one by one, and a row changed by someone else since the
    snapshot aborts it (first updater wins; for unique keys, a duplicate). Closing a wallet runs
    at READ COMMITTED: its locks never abort and it reads what is committed once it holds them.
    Every interleaving commits a run of atomic steps. */
module Snapshots {
  import opened Domain
  import opened Store
  import opened Posting
  import opened Plans
  import opened Ledger
  import opened Business
  import opened Operations
  import opened PaymentSteps
  import opened WalletSteps
  import opened Runs
  import opened Safety
  import opened Locks
  import opened Frames

  type Versions = Row -> nat

  /** `needs` are the rows the transaction takes, of which it holds the first `held`. */
  datatype Txn = Txn(op: Op, snapshot: Db, versions: Versions, needs: seq<Row>, held: nat)
  datatype Sys = Sys(db: Db, versions: Versions, active: map<nat, Txn>)

  datatype Event = Began(id: nat, op: Op) | Locked(id: nat) | Committed(id: nat) | Aborted(id: nat)
                 | Edited(list: map<Uuid, Beneficiary>)

  predicate Serializable(op: Op) {
    op.Send? || op.Undo? || op.Settle?
  }

  ghost predicate Holds(t: Txn, r: Row) {
    exists i :: 0 <= i < t.held && i < |t.needs| && t.needs[i] == r
  }

  ghost predicate Free(sys: Sys, id: nat, r: Row) {
    forall u :: u in sys.active && u != id ==> !Holds(sys.active[u], r)
  }

  ghost function Bump(v: Versions, w: Db): Versions {
    r => if Written(w, r) then v(r) + 1 else v(r)
  }

  /** What a transaction holding all its locks commits: serializable transactions and intents
      decide on their snapshot, the others on the committed tables (unless a wallet to close
      was not found to begin with). */
  ghost function Decision(sys: Sys, t: Txn): Outcome {
    if Serializable(t.op) || t.op.Intend? || (t.op.Close? && t.needs == [])
    then Plan(t.snapshot, t.op) else Plan(sys.db, t.op)
  }

  /** Drawn UUIDs are unused, and a new intent's key is (a unique index checks it at commit). */
  ghost predicate MayCommit(sys: Sys, t: Txn) {
    && t.held == |t.needs|
    && Decision(sys, t).Commit?
    && Fresh(sys.db, t.op)
    && (t.op.Intend? && Decision(sys, t).writes != NOTHING ==> KnownPayment(sys.db, t.op.user, t.op.key).None?)
  }

  ghost predicate Follows(sys: Sys, e: Event, after: Sys) {
    match e
    case Began(id, op) =>
      id !in sys.active && after == sys.(active := sys.active[id := Txn(op, sys.db, sys.versions, LockPlan(sys.db, op), 0)])
    case Locked(id) =>
      && id in sys.active
      && var t := sys.active[id];
      && t.held < |t.needs|
      && Free(sys, id, t.needs[t.held])
      && (Serializable(t.op) ==> t.versions(t.needs[t.held]) == sys.versions(t.needs[t.held]))
      && after == sys.(active := sys.active[id := t.(held := t.held + 1)])
    case Committed(id) =>
      && id in sys.active
      && MayCommit(sys, sys.active[id])
      && var w := Decision(sys, sys.active[id]).writes;
         after == Sys(Apply(sys.db, w), Bump(sys.versions, w), sys.active - {id})
    case Aborted(id) => id in sys.active && after == sys.(active := sys.active - {id})
    case Edited(list) =>
      && ListKept(sys.db.beneficiaries, list) && (forall b :: b in list && b !in sys.db.beneficiaries ==> list[b].wallet in sys.db.books.wallets)
      && after == sys.(db := sys.db.(beneficiaries := list))
  }

  // ---------------------------------------------------------------- the invariant

  /** It began from a good state and takes the rows its operation needs there. */
  ghost predicate Sane(t: Txn) {
    Good(t.snapshot) && t.needs == LockPlan(t.snapshot, t.op)
  }

  /** Rows at the version of the snapshot are as the snapshot saw them. */
  ghost predicate SnapshotTrue(sys: Sys, t: Txn) {
    && Grows(t.snapshot, sys.db)
    && (forall r :: t.versions(r) <= sys.versions(r))
    && (forall r :: t.versions(r) == sys.versions(r) ==> SameRow(t.snapshot, sys.db, r))
  }

  /** Rows a serializable transaction holds are at the version of its snapshot. */
  ghost predicate LocksCurrent(sys: Sys, t: Txn) {
    && t.held <= |t.needs|
    && (Serializable(t.op) ==> forall i :: 0 <= i < t.held ==> t.versions(t.needs[i]) == sys.versions(t.needs[i]))
  }

  ghost predicate Exclusive(sys: Sys) {
    forall t, u, r :: t in sys.active && u in sys.active && Holds(sys.active[t], r) && Holds(sys.active[u], r) ==> t == u
  }

  ghost predicate Coherent(sys: Sys, t: Txn) {
    Sane(t) && SnapshotTrue(sys, t) && LocksCurrent(sys, t)
  }

  ghost predicate AllCoherent(sys: Sys) {
    forall t :: t in sys.active ==> Coherent(sys, sys.active[t])
  }

  ghost predicate Consistent(sys: Sys) {
    Good(sys.db) && Exclusive(sys) && AllCoherent(sys)
  }

  /** A serializable transaction holding all its locks sees every locked row as committed. */
  lemma ReadyMeansCurrent(sys: Sys, t: Txn)
    requires SnapshotTrue(sys, t) && LocksCurrent(sys, t) && Serializable(t.op) && t.held == |t.needs|
    ensures Agree(t.snapshot, sys.db, t.needs)
  {}
}
