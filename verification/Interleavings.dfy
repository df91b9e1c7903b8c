/** Every interleaving of transactions over snapshots commits a run of atomic steps, so what
    `Safety` proves of runs holds of every reachable state of the concurrent system. */
module Interleavings {
  import opened Domain
  import opened Amounts
  import opened Store
  import opened Posting
  import opened Plans
  import opened Ledger
  import opened Business
  import opened Operations
  import opened PaymentSteps
  import opened Runs
  import opened Safety
  import opened Locks
  import opened Frames
  import opened Snapshots
  import opened Decisions

  // ---------------------------------------------------------------- rows to lock exist

  ghost predicate AllExisting(db: Db, rows: seq<Row>) {
    forall i :: 0 <= i < |rows| ==> Existing(db, rows[i])
  }

  lemma SendRowsExist(db: Db, op: Op)
    requires Paired(db.books) && op.Send?
    ensures AllExisting(db, SendLocks(db, op))
  {
    hide TransferBody;
  }

  lemma UndoRowsExist(db: Db, op: Op)
    requires Paired(db.books) && op.Undo?
    ensures AllExisting(db, UndoLocks(db, op))
  {
    hide WrittenWallets, ReversalPosting;
  }

  lemma SettleRowsExist(db: Db, op: Op)
    requires Paired(db.books) && op.Settle?
    ensures AllExisting(db, SettleLocks(db, op))
  {}

  lemma PlannedRowsExist(db: Db, op: Op)
    requires Paired(db.books)
    ensures AllExisting(db, LockPlan(db, op))
  {
    match op
    case Send(_, _, _, _) => SendRowsExist(db, op);
    case Undo(_, _, _, _, _) => UndoRowsExist(db, op);
    case Settle(_, _, _) => SettleRowsExist(db, op);
    case Close(_, _) =>
    case Intend(_, _, _, _, _, _) =>
    case Open(_, _, _) =>
  }

  lemma HeldRowsExist(sys: Sys, t: Txn, r: Row)
    requires Sane(t) && SnapshotTrue(sys, t) && Holds(t, r)
    ensures Existing(sys.db, r)
  {
    PlannedRowsExist(t.snapshot, t.op);
    ExistingRowsStay(t.snapshot, sys.db, r);
  }

  // ---------------------------------------------------------------- written rows are held or new

  lemma RefusalCovered(c: Db, rows: seq<Row>, k: RecordKey, digest: Digest, reason: Reason)
    requires |rows| > 0 && rows[0] == RecordRow(k)
    ensures Covered(c, NOTHING.(records := map[k := Record(digest, Refused(reason))]), rows)
  {}

  lemma SendPlanCovered(s: Db, c: Db, op: Op)
    requires Paired(s.books) && op.Send? && Plan(s, op).Commit? && op.ids.row !in c.transfers
    ensures Covered(c, Plan(s, op).writes, SendLocks(s, op))
  {
    var k := RecordKey(op.user, InternalTransfer, op.key);
    var body := TransferBody(s, op.user, op.request, op.ids);
    if k !in s.records {
      if body.Ok? { SendCovered(s, c, op); }
      else {
        SendLocksItsKey(s, op);
        RefusalCovered(c, SendLocks(s, op), k, TransferDigestOf(op.request), body.reason);
      }
    }
  }

  lemma UndoPlanCovered(s: Db, c: Db, op: Op)
    requires Paired(s.books) && op.Undo? && Plan(s, op).Commit?
    ensures Covered(c, Plan(s, op).writes, UndoLocks(s, op))
  {
    var k := RecordKey(op.user, TransferReversal, op.key);
    var body := ReversalBody(s, op.user, op.transfer, op.reason, op.ids);
    if k !in s.records {
      if body.Ok? { UndoCovered(s, c, op); }
      else {
        UndoLocksItsKey(s, op);
        RefusalCovered(c, UndoLocks(s, op), k, ReversalDigest(op.transfer, op.reason), body.reason);
      }
    }
  }

  lemma SettlePlanCovered(s: Db, c: Db, op: Op)
    requires Paired(s.books) && ClearingsAreSystem(s.books) && op.Settle? && Plan(s, op).Commit?
    ensures Covered(c, Plan(s, op).writes, SettleLocks(s, op))
  {
    if FirstSuccess(s, op) { SuccessCovered(s, c, op); } else { OtherCallbackCovered(s, c, op); }
  }

  lemma CloseCovered(s: Db, c: Db, op: Op)
    requires op.Close? && Grows(s, c) && CloseLocks(s, op) != [] && Plan(c, op).Commit?
    ensures Covered(c, Plan(c, op).writes, CloseLocks(s, op))
  {
    assert CloseLocks(s, op)[1] == WalletRow(op.wallet);
  }

  lemma IntentCovered(s: Db, c: Db, op: Op)
    requires op.Intend? && Plan(s, op).Commit? && op.id !in c.payments
    ensures Covered(c, Plan(s, op).writes, [])
  {}

  lemma OpenCovered(c: Db, op: Op)
    requires op.Open? && Plan(c, op).Commit? && Fresh(c, op)
    ensures Covered(c, Plan(c, op).writes, [])
  {}

  lemma SerializableCovered(s: Db, c: Db, op: Op)
    requires Paired(s.books) && ClearingsAreSystem(s.books) && Plan(s, op).Commit? && Fresh(c, op) && Serializable(op)
    ensures Covered(c, Plan(s, op).writes, LockPlan(s, op))
  {
    match op
    case Send(_, _, _, _) => SendPlanCovered(s, c, op);
    case Undo(_, _, _, _, _) => UndoPlanCovered(s, c, op);
    case Settle(_, _, _) => SettlePlanCovered(s, c, op);
  }

  /** Whatever a transaction commits, it writes only rows it holds and rows no one has seen. */
  lemma DecisionCovered(sys: Sys, t: Txn)
    requires Sane(t) && SnapshotTrue(sys, t) && MayCommit(sys, t)
    ensures Covered(sys.db, Decision(sys, t).writes, t.needs)
  {
    if Serializable(t.op) {
      SystemClearings(t.snapshot.books);
      SerializableCovered(t.snapshot, sys.db, t.op);
    }
    else if t.op.Intend? { IntentCovered(t.snapshot, sys.db, t.op); }
    else if t.op.Open? { OpenCovered(sys.db, t.op); }
    else { CloseCovered(t.snapshot, sys.db, t.op); }
  }

  // ---------------------------------------------------------------- a commit is an atomic step

  /** What transactions have read: the committed tables, or the snapshot of one under way. */
  ghost predicate Known(sys: Sys, read: Db) {
    read == sys.db || exists u :: u in sys.active && sys.active[u].snapshot == read
  }

  ghost predicate StepFrom(sys: Sys, s: Step, after: Db) {
    (s.EditBeneficiaries? || Known(sys, s.read)) && Enabled(sys.db, s) && after == Next(sys.db, s)
  }

  /** An atomic step of the committed tables. */
  ghost predicate Steps(sys: Sys, after: Db) {
    exists s :: StepFrom(sys, s, after)
  }

  lemma NothingIsAStep(sys: Sys)
    ensures Steps(sys, sys.db) && Apply(sys.db, NOTHING) == sys.db
  {
    Untouched(sys.db, NOTHING);
    assert StepFrom(sys, EditBeneficiaries(sys.db.beneficiaries), sys.db);
  }

  lemma RefusalIsAStep(sys: Sys, read: Db, op: Op)
    requires Known(sys, read) && Refuses(read, op) && ClaimOf(op) !in sys.db.records
    ensures Steps(sys, Apply(sys.db, Plan(read, op).writes))
  {
    hide Plan;
    assert StepFrom(sys, Refuse(op, read), Apply(sys.db, Plan(read, op).writes));
  }

  lemma ActIsAStep(sys: Sys, read: Db, op: Op)
    requires Known(sys, read) && ListKept(read.beneficiaries, sys.db.beneficiaries)
    requires !op.Intend? && Fresh(sys.db, op) && Plan(View(sys.db, read), op).Commit?
    ensures Steps(sys, Apply(sys.db, Plan(View(sys.db, read), op).writes))
  {
    hide Fresh, Plan;
    assert StepFrom(sys, Act(op, read), Apply(sys.db, Plan(View(sys.db, read), op).writes));
  }

  lemma IntentIsAStep(sys: Sys, read: Db, op: Op)
    requires Known(sys, read) && NewlyIntends(read, op) && Grows(read, sys.db)
    requires op.id !in sys.db.payments && KnownPayment(sys.db, op.user, op.key).None?
    ensures Steps(sys, Apply(sys.db, Plan(read, op).writes))
  {
    hide Plan;
    assert StepFrom(sys, NewIntent(op, read), Apply(sys.db, Plan(read, op).writes));
  }

  lemma SerializableCommitIsAStep(sys: Sys, t: Txn)
    requires Good(sys.db) && Coherent(sys, t) && MayCommit(sys, t) && Serializable(t.op) && Known(sys, t.snapshot)
    ensures Steps(sys, Apply(sys.db, Decision(sys, t).writes))
  {
    ReadyMeansCurrent(sys, t);
    LockedDecisionsAreCurrent(t.snapshot, sys.db, t.op);
    if Plan(t.snapshot, t.op).writes == NOTHING { NothingIsAStep(sys); }
    else if Refuses(t.snapshot, t.op) && ClaimOf(t.op) !in sys.db.records { RefusalIsAStep(sys, t.snapshot, t.op); }
    else { ActIsAStep(sys, t.snapshot, t.op); }
  }

  lemma OwnView(sys: Sys)
    ensures View(sys.db, sys.db) == sys.db && Known(sys, sys.db)
  {
    assert sys.db.beneficiaries + sys.db.beneficiaries == sys.db.beneficiaries;
  }

  /** Committing has the effect of one atomic step on the committed tables, however old the
      snapshot behind the decision: for a posting, the effect of posting atomically. */
  lemma CommitIsAStep(sys: Sys, t: Txn)
    requires Good(sys.db) && Coherent(sys, t) && MayCommit(sys, t) && Known(sys, t.snapshot)
    ensures Steps(sys, Apply(sys.db, Decision(sys, t).writes))
  {
    hide Known, Intact;
    if Serializable(t.op) { SerializableCommitIsAStep(sys, t); }
    else if t.op.Intend? {
      if Decision(sys, t).writes == NOTHING { NothingIsAStep(sys); }
      else { IntentIsAStep(sys, t.snapshot, t.op); }
    } else {
      OwnView(sys);
      ActIsAStep(sys, sys.db, t.op);
    }
  }

  lemma SteppingIsGood(sys: Sys, after: Db)
    requires Good(sys.db) && Steps(sys, after)
    ensures Good(after) && Grows(sys.db, after)
  {
    var s :| StepFrom(sys, s, after);
    StepKeepsGood(sys.db, s);
  }

  // ---------------------------------------------------------------- every event keeps the invariant

  lemma SameRowTransitively(a: Db, b: Db, c: Db, r: Row)
    requires SameRow(a, b, r) && SameRow(b, c, r)
    ensures SameRow(a, c, r)
  {}

  /** The committed tables move on; a transaction that began earlier still has a true snapshot. */
  lemma CommitKeepsSnapshots(sys: Sys, w: Db, u: Txn)
    requires SnapshotTrue(sys, u) && Grows(sys.db, Apply(sys.db, w))
    ensures forall active :: SnapshotTrue(Sys(Apply(sys.db, w), Bump(sys.versions, w), active), u)
  {
    var db := Apply(sys.db, w);
    var versions := Bump(sys.versions, w);
    GrowsTransitively(u.snapshot, sys.db, db);
    forall r: Row ensures u.versions(r) <= versions(r) { assert u.versions(r) <= sys.versions(r); }
    forall r: Row | u.versions(r) == versions(r) ensures SameRow(u.snapshot, db, r) {
      assert u.versions(r) <= sys.versions(r);
      UnwrittenRowsStay(sys.db, w, r);
      SameRowTransitively(u.snapshot, sys.db, db, r);
    }
  }

  /** No one else's held row is written. */
  lemma HeldRowsAreNotWritten(sys: Sys, w: Db, id: nat, other: nat, r: Row)
    requires Exclusive(sys) && id in sys.active && other in sys.active && other != id
    requires sys.active[id].held == |sys.active[id].needs| && Covered(sys.db, w, sys.active[id].needs)
    requires Sane(sys.active[other]) && SnapshotTrue(sys, sys.active[other]) && Holds(sys.active[other], r)
    ensures !Written(w, r)
  {
    HeldRowsExist(sys, sys.active[other], r);
    assert !Holds(sys.active[id], r);
    assert !Takes(sys.active[id].needs, r);
  }

  lemma CommitKeepsLocks(sys: Sys, w: Db, id: nat, other: nat)
    requires Exclusive(sys) && id in sys.active && other in sys.active && other != id
    requires sys.active[id].held == |sys.active[id].needs| && Covered(sys.db, w, sys.active[id].needs)
    requires Coherent(sys, sys.active[other])
    ensures LocksCurrent(Sys(Apply(sys.db, w), Bump(sys.versions, w), sys.active - {id}), sys.active[other])
  {
    var u := sys.active[other];
    forall i | 0 <= i < u.held && Serializable(u.op)
      ensures u.versions(u.needs[i]) == Bump(sys.versions, w)(u.needs[i])
    {
      assert Holds(u, u.needs[i]);
      HeldRowsAreNotWritten(sys, w, id, other, u.needs[i]);
    }
  }

  lemma CommittedKeepsConsistent(sys: Sys, id: nat, after: Sys)
    requires Consistent(sys) && Follows(sys, Committed(id), after)
    ensures Consistent(after) && Steps(sys, after.db)
  {
    hide Intact;
    var t := sys.active[id];
    var w := Decision(sys, t).writes;
    CommitIsAStep(sys, t);
    SteppingIsGood(sys, after.db);
    DecisionCovered(sys, t);
    CommitKeepsOthersCoherent(sys, w, id, after);
    FewerStayExclusive(sys, id, after);
  }

  lemma CommitKeepsOthersCoherent(sys: Sys, w: Db, id: nat, after: Sys)
    requires Exclusive(sys) && AllCoherent(sys) && id in sys.active
    requires sys.active[id].held == |sys.active[id].needs| && Covered(sys.db, w, sys.active[id].needs)
    requires Grows(sys.db, Apply(sys.db, w)) && after == Sys(Apply(sys.db, w), Bump(sys.versions, w), sys.active - {id})
    ensures AllCoherent(after)
  {
    forall u | u in after.active ensures Coherent(after, after.active[u]) {
      assert Coherent(sys, sys.active[u]);
      CommitKeepsSnapshots(sys, w, sys.active[u]);
      CommitKeepsLocks(sys, w, id, u);
    }
  }

  lemma FewerStayExclusive(sys: Sys, id: nat, after: Sys)
    requires Exclusive(sys) && after.active == sys.active - {id}
    ensures Exclusive(after)
  {}

  /** Coherence does not depend on the other transactions. */
  lemma OnlyTablesMatter(sys: Sys, after: Sys, t: Txn)
    requires SnapshotTrue(sys, t) && LocksCurrent(sys, t) && after.db == sys.db && after.versions == sys.versions
    ensures SnapshotTrue(after, t) && LocksCurrent(after, t)
  {}

  lemma OthersStayCoherent(sys: Sys, after: Sys, but: nat)
    requires AllCoherent(sys) && after.db == sys.db && after.versions == sys.versions
    ensures forall u :: u in sys.active && u != but ==> Coherent(after, sys.active[u])
  {
    forall u | u in sys.active && u != but ensures Coherent(after, sys.active[u]) {
      assert Coherent(sys, sys.active[u]);
      OnlyTablesMatter(sys, after, sys.active[u]);
    }
  }

  lemma NewSnapshotIsTrue(sys: Sys, op: Op)
    ensures SnapshotTrue(sys, Txn(op, sys.db, sys.versions, LockPlan(sys.db, op), 0))
  {
    GrowsFromItself(sys.db);
    forall r: Row ensures SameRow(sys.db, sys.db, r) {}
  }

  lemma BeginningStaysExclusive(sys: Sys, id: nat, op: Op, after: Sys)
    requires Exclusive(sys) && Follows(sys, Began(id, op), after)
    ensures Exclusive(after)
  {
    assert forall r :: !Holds(after.active[id], r);
    forall a, b, r | a in after.active && b in after.active && Holds(after.active[a], r) && Holds(after.active[b], r) ensures a == b {
      assert a != id && b != id;
    }
  }

  lemma BeganKeepsConsistent(sys: Sys, id: nat, op: Op, after: Sys)
    requires Consistent(sys) && Follows(sys, Began(id, op), after)
    ensures Consistent(after)
  {
    hide Good, LockPlan, Decision;
    BeginningStaysExclusive(sys, id, op, after);
    NewSnapshotIsTrue(sys, op);
    OnlyTablesMatter(sys, after, after.active[id]);
    OthersStayCoherent(sys, after, id);
  }

  lemma HoldsOneMore(t: Txn, r: Row)
    requires t.held < |t.needs|
    ensures Holds(t.(held := t.held + 1), r) <==> (Holds(t, r) || r == t.needs[t.held])
  {
    var u := t.(held := t.held + 1);
    if r == t.needs[t.held] { assert u.needs[t.held] == r; }
    if Holds(t, r) {
      var i :| 0 <= i < t.held && i < |t.needs| && t.needs[i] == r;
      assert u.needs[i] == r;
    }
  }

  lemma LockingStaysExclusive(sys: Sys, id: nat, after: Sys)
    requires Exclusive(sys) && Follows(sys, Locked(id), after)
    ensures Exclusive(after)
  {
    var t := sys.active[id];
    forall a, b, r | a in after.active && b in after.active && Holds(after.active[a], r) && Holds(after.active[b], r) ensures a == b {
      HoldsOneMore(t, r);
      if a != id { assert Holds(sys.active[a], r); }
      if b != id { assert Holds(sys.active[b], r); }
    }
  }

  lemma OneMoreLockIsCurrent(sys: Sys, t: Txn)
    requires LocksCurrent(sys, t) && t.held < |t.needs|
    requires Serializable(t.op) ==> t.versions(t.needs[t.held]) == sys.versions(t.needs[t.held])
    ensures LocksCurrent(sys, t.(held := t.held + 1))
  {}

  lemma LockedKeepsConsistent(sys: Sys, id: nat, after: Sys)
    requires Consistent(sys) && Follows(sys, Locked(id), after)
    ensures Consistent(after)
  {
    hide Good, LockPlan, Decision;
    LockingStaysExclusive(sys, id, after);
    assert Coherent(sys, sys.active[id]);
    OneMoreLockIsCurrent(sys, sys.active[id]);
    OnlyTablesMatter(sys, after, after.active[id]);
    OthersStayCoherent(sys, after, id);
  }

  lemma EditedKeepsConsistent(sys: Sys, list: map<Uuid, Beneficiary>, after: Sys)
    requires Consistent(sys) && Follows(sys, Edited(list), after)
    ensures Consistent(after) && Steps(sys, after.db)
  {
    hide Good, ListKept, Coherent;
    assert StepFrom(sys, EditBeneficiaries(list), after.db);
    SteppingIsGood(sys, after.db);
    forall u | u in after.active ensures Coherent(after, after.active[u]) {
      EditedStaysCoherent(sys, list, after, sys.active[u]);
    }
  }

  lemma EditedStaysCoherent(sys: Sys, list: map<Uuid, Beneficiary>, after: Sys, t: Txn)
    requires Coherent(sys, t) && Grows(sys.db, after.db)
    requires after == sys.(db := sys.db.(beneficiaries := list))
    ensures Coherent(after, t)
  {
    hide Sane, Good;
    GrowsTransitively(t.snapshot, sys.db, after.db);
    hide Grows;
    forall r: Row | t.versions(r) == after.versions(r) ensures SameRow(t.snapshot, after.db, r) {
      assert SameRow(sys.db, after.db, r);
      SameRowTransitively(t.snapshot, sys.db, after.db, r);
    }
  }

  /** Every event keeps the invariant, and changes the committed tables by an atomic step. */
  lemma EventsKeepConsistent(sys: Sys, e: Event, after: Sys)
    requires Consistent(sys) && Follows(sys, e, after)
    ensures Consistent(after) && Steps(sys, after.db)
  {
    hide Decision, StepFrom, Intact, Coherent;
    if !e.Committed? && !e.Edited? {
      assert after.db == sys.db;
      NothingIsAStep(sys);
    }
    match e
    case Began(id, op) => BeganKeepsConsistent(sys, id, op, after);
    case Locked(id) => LockedKeepsConsistent(sys, id, after);
    case Committed(id) => CommittedKeepsConsistent(sys, id, after);
    case Aborted(id) =>
      FewerStayExclusive(sys, id, after);
      OthersStayCoherent(sys, after, id);
    case Edited(list) => EditedKeepsConsistent(sys, list, after);
  }

  // ---------------------------------------------------------------- whole traces

  ghost predicate Advanced(sys: Sys, after: Sys) {
    exists e :: Follows(sys, e, after)
  }

  ghost predicate AdvancesAt(trace: seq<Sys>, i: nat)
    requires i + 1 < |trace|
  {
    Advanced(trace[i], trace[i + 1])
  }

  /** States of the concurrent system, from idle good tables. */
  ghost predicate Trace(trace: seq<Sys>) {
    && |trace| > 0 && Good(trace[0].db) && trace[0].active == map[]
    && (forall i :: 0 <= i < |trace| - 1 ==> AdvancesAt(trace, i))
  }

  function Tables(trace: seq<Sys>): (states: seq<Db>)
    ensures |states| == |trace| && forall i :: 0 <= i < |trace| ==> states[i] == trace[i].db
  {
    seq(|trace|, i requires 0 <= i < |trace| => trace[i].db)
  }

  /** Every snapshot in use is a state the trace went through. */
  ghost predicate Remembers(past: seq<Db>, sys: Sys) {
    forall u :: u in sys.active ==> sys.active[u].snapshot in past
  }

  lemma SnapshotsAreRemembered(past: seq<Db>, sys: Sys, e: Event, after: Sys)
    requires Remembers(past, sys) && sys.db in past && Follows(sys, e, after)
    ensures Remembers(past + [after.db], after)
  {
    forall u | u in after.active ensures after.active[u].snapshot in past + [after.db] {
      assert after.active[u].snapshot == if u in sys.active then sys.active[u].snapshot else sys.db;
    }
  }

  function Past(trace: seq<Sys>, n: nat): (past: seq<Db>)
    requires n < |trace|
    ensures |past| == n + 1 && past[n] == trace[n].db
  {
    Tables(trace)[..n + 1]
  }

  lemma {:induction false} TraceIsConsistent(trace: seq<Sys>, n: nat)
    requires Trace(trace) && n < |trace|
    ensures Consistent(trace[n]) && Remembers(Past(trace, n), trace[n])
  {
    hide Trace, Consistent, Remembers;
    if n == 0 { TraceStarts(trace); }
    else {
      TraceIsConsistent(trace, n - 1);
      TraceStays(trace, n - 1, trace[n]);
    }
  }

  lemma TraceStarts(trace: seq<Sys>)
    requires Trace(trace)
    ensures Consistent(trace[0]) && Remembers(Past(trace, 0), trace[0])
  {
    hide Good, Consistent;
    IdleIsConsistent(trace[0]);
  }

  lemma TraceStays(trace: seq<Sys>, n: nat, after: Sys)
    requires Trace(trace) && n < |trace| - 1 && after == trace[n + 1]
    requires Consistent(trace[n]) && Remembers(Past(trace, n), trace[n])
    ensures Consistent(after) && Remembers(Past(trace, n + 1), after)
  {
    hide Good;
    assert AdvancesAt(trace, n);
    var e :| Follows(trace[n], e, after);
    EventsKeepConsistent(trace[n], e, after);
    assert trace[n].db in Past(trace, n);
    SnapshotsAreRemembered(Past(trace, n), trace[n], e, after);
    assert Past(trace, n + 1) == Past(trace, n) + [after.db];
  }

  lemma IdleIsConsistent(sys: Sys)
    requires Good(sys.db) && sys.active == map[]
    ensures Consistent(sys)
  {
    assert AllCoherent(sys) && Exclusive(sys);
  }

  lemma TraceSteps(trace: seq<Sys>, n: nat)
    requires Trace(trace) && n < |trace| - 1 && Consistent(trace[n])
    ensures Steps(trace[n], trace[n + 1].db)
  {
    assert AdvancesAt(trace, n);
    var e :| Follows(trace[n], e, trace[n + 1]);
    EventsKeepConsistent(trace[n], e, trace[n + 1]);
  }

  /** What a step reads was committed before, so it is a step of the run of tables. */
  lemma StepOfTables(past: seq<Db>, sys: Sys, after: Db)
    requires |past| > 0 && past[|past| - 1] == sys.db && Remembers(past, sys) && Steps(sys, after)
    ensures Stepped(past, after)
  {
    var s :| StepFrom(sys, s, after);
    if !s.EditBeneficiaries? {
      assert s.read in past;
    }
    assert Recalls(past, s);
  }

  /** Concurrency adds nothing: the committed tables of any interleaving are a run of atomic
      steps. Every theorem about runs is a theorem about interleavings. */
  lemma InterleavingsAreRuns(trace: seq<Sys>)
    requires Trace(trace)
    ensures Run(Tables(trace))
  {
    hide Consistent, Remembers, Steps, Good;
    forall i | 0 <= i < |trace| - 1 ensures StepsAt(Tables(trace), i) {
      TraceIsConsistent(trace, i);
      TraceSteps(trace, i);
      StepOfTables(Past(trace, i), trace[i], trace[i + 1].db);
    }
  }
}
