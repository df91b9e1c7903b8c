/** How a fresh attempt can end, and why a reader of stale rows never commits. */
module Outcomes {
  import opened Domain
  import opened Amounts
  import opened Store
  import opened Posting
  import opened Plans
  import opened Ledger
  import opened Business
  import opened Operations
  import opened TransferSteps
  import opened ReversalSteps
  import opened Runs
  import opened Safety
  import opened Locks
  import opened Frames
  import opened Snapshots
  import opened Interleavings
  import opened TransferVerdicts
  import opened ReversalVerdicts

  // ---------------------------------------------------------------- complete bundle, refusal, or nothing

  /** Only the record is new, and it stores the client error that was answered. */
  ghost predicate OnlyRefused(db: Db, after: Db, k: RecordKey, digest: Digest, reason: Reason) {
    IsClientError(reason) && k !in db.records && after == db.(records := db.records[k := Record(digest, Refused(reason))])
  }

  /** A fresh transfer commits its complete bundle, which then passes the integrity checks; or
      only the stored refusal, all money as before, and for a proper request that refusal names the
      condition that fails. A proper request never rolls back. */
  lemma TransferEndsOneOfThreeWays(db: Db, user: Uuid, key: string, r: TransferRequest, ids: Ids)
    requires Intact(db) && Fresh(db, Send(user, key, r, ids)) && RecordKey(user, InternalTransfer, key) !in db.records
    ensures match PlanTransfer(db, user, key, r, ids)
            case Commit(Sent(id), w) =>
              id == ids.row && id in Apply(db, w).transfers && TransferIntact(Apply(db, w), id)
              && exists source, target :: TransferCommitted(db, Apply(db, w), user, key, r, source, target, ids)
            case Commit(Failure(reason), w) =>
              OnlyRefused(db, Apply(db, w), RecordKey(user, InternalTransfer, key), TransferDigestOf(r), reason)
              && (Proper(r) ==> Fails(db, user, r, reason))
            case Commit(_, _) => false
            case Rollback(reason) => !IsClientError(reason) && !Proper(r)
  {
    hide TransferIntact, TransferCommitted, TransferBody, Fails, Intact;
    if TransferBody(db, user, r, ids).Ok? { CompleteTransfer(db, user, key, r, ids); }
    else {
      if Proper(r) { ProperRefusal(db, user, r, ids); }
      RefusalWritesOnlyTheRecord(db, RecordKey(user, InternalTransfer, key), Record(TransferDigestOf(r), Refused(TransferBody(db, user, r, ids).reason)));
    }
  }

  lemma CompleteTransfer(db: Db, user: Uuid, key: string, r: TransferRequest, ids: Ids)
    requires Intact(db) && Fresh(db, Send(user, key, r, ids)) && RecordKey(user, InternalTransfer, key) !in db.records
    requires TransferBody(db, user, r, ids).Ok?
    ensures var after := Apply(db, PlanTransfer(db, user, key, r, ids).writes);
            && ids.row in after.transfers && TransferIntact(after, ids.row)
            && exists source, target :: TransferCommitted(db, after, user, key, r, source, target, ids)
  {
    hide TransferIntact, TransferBody;
    TransferKeepsIntact(db, user, key, r, ids);
    TransferCommits(db, user, key, r, ids);
  }

  lemma ProperRefusal(db: Db, user: Uuid, r: TransferRequest, ids: Ids)
    requires Intact(db) && ids.row !in db.transfers && Proper(r) && TransferBody(db, user, r, ids).Err?
    ensures Fails(db, user, r, TransferBody(db, user, r, ids).reason) && IsClientError(TransferBody(db, user, r, ids).reason)
  {
    hide Intact, TransferBody, SourceReady, Owns, Ready, NamesNone, Connects;
    RefusalOfTransfer(db, user, r, ids);
  }

  /** A fresh reversal commits its complete bundle, or the stored refusal that names the condition
      that fails. It never rolls back. */
  lemma ReversalEndsOneOfTwoWays(db: Db, actor: Uuid, key: string, transfer: Uuid, reason: Option<string>, ids: Ids)
    requires Intact(db) && Fresh(db, Undo(actor, key, transfer, reason, ids)) && RecordKey(actor, TransferReversal, key) !in db.records
    ensures match PlanReversal(db, actor, key, transfer, reason, ids)
            case Commit(Undone(id), w) =>
              id == transfer && transfer !in db.reversals && ReversalCommitted(db, Apply(db, w), actor, key, transfer, reason, ids)
              && ReversalIntact(Apply(db, w), transfer)
            case Commit(Failure(why), w) =>
              OnlyRefused(db, Apply(db, w), RecordKey(actor, TransferReversal, key), ReversalDigest(transfer, reason), why)
              && CannotReverse(db, actor, transfer, why)
            case Commit(_, _) => false
            case Rollback(_) => false
  {
    hide ReversalCommitted, ReversalBody, FreshReversal, MoneyMoved, Settled, CannotReverse, Intact, ReversalIntact;
    if ReversalBody(db, actor, transfer, reason, ids).Ok? { CompleteReversal(db, actor, key, transfer, reason, ids); }
    else { ReversalRefused(db, actor, key, transfer, reason, ids); }
  }

  lemma CompleteReversal(db: Db, actor: Uuid, key: string, transfer: Uuid, reason: Option<string>, ids: Ids)
    requires Intact(db) && Fresh(db, Undo(actor, key, transfer, reason, ids)) && RecordKey(actor, TransferReversal, key) !in db.records
    requires ReversalBody(db, actor, transfer, reason, ids).Ok?
    ensures var after := Apply(db, PlanReversal(db, actor, key, transfer, reason, ids).writes);
            && transfer !in db.reversals && ReversalCommitted(db, after, actor, key, transfer, reason, ids)
            && transfer in after.reversals && ReversalIntact(after, transfer)
  {
    hide ReversalCommitted, ReversalBody, FreshReversal, MoneyMoved, Settled;
    ReversalAccepted(db, actor, transfer, reason, ids);
    ReversalCommits(db, actor, key, transfer, reason, ids);
    ReversalKeepsIntact(db, actor, key, transfer, reason, ids);
  }

  lemma ReversalRefused(db: Db, actor: Uuid, key: string, transfer: Uuid, reason: Option<string>, ids: Ids)
    requires Intact(db) && FreshReversal(db, ids.row) && RecordKey(actor, TransferReversal, key) !in db.records
    requires ReversalBody(db, actor, transfer, reason, ids).Err?
    ensures var outcome := PlanReversal(db, actor, key, transfer, reason, ids);
            && outcome.Commit? && outcome.reply.Failure? && CannotReverse(db, actor, transfer, outcome.reply.reason)
            && OnlyRefused(db, Apply(db, outcome.writes), RecordKey(actor, TransferReversal, key), ReversalDigest(transfer, reason), outcome.reply.reason)
  {
    hide Sound, RowsIntact, ReversalBody, CannotReverse, TransferIntact, FreshReversal, OneKeyEach, OneIntentPerKey, ReferenceUsed;
    RecordedTransfer(db, transfer);
    UnusedReversalReference(db, ids.row);
    RefusalOfReversal(db, actor, transfer, reason, ids);
    ReversalRefusalAnswered(db, actor, key, transfer, reason, ids);
    RefusalsAreClientErrors(db, actor, transfer, ReversalBody(db, actor, transfer, reason, ids).reason);
  }

  lemma RefusalsAreClientErrors(db: Db, actor: Uuid, transfer: Uuid, why: Reason)
    requires CannotReverse(db, actor, transfer, why)
    ensures IsClientError(why)
  {}

  // ---------------------------------------------------------------- stale reads

  ghost predicate NeedsRow(t: Txn, r: Row) {
    exists i :: 0 <= i < |t.needs| && t.needs[i] == r
  }

  /** Transaction `t` is to lock row `r`, which was written since its snapshot. */
  ghost predicate ReadStale(sys: Sys, t: Txn, r: Row) {
    Serializable(t.op) && NeedsRow(t, r) && t.versions(r) < sys.versions(r)
  }

  /** A changed row is a written row. */
  lemma ChangedSinceRead(sys: Sys, t: Txn, r: Row)
    requires Coherent(sys, t) && Serializable(t.op) && NeedsRow(t, r) && !SameRow(t.snapshot, sys.db, r)
    ensures ReadStale(sys, t, r)
  {
    assert t.versions(r) <= sys.versions(r);
  }

  /** A transaction that validated against a row which was written since can neither take the
      row nor commit. A post that read a wallet as ACTIVE which was then closed is the case in
      point. */
  lemma StaleReadersCannotCommit(sys: Sys, id: nat, r: Row)
    requires Consistent(sys) && id in sys.active && ReadStale(sys, sys.active[id], r)
    ensures !Holds(sys.active[id], r) && !MayCommit(sys, sys.active[id])
    ensures forall after :: Follows(sys, Locked(id), after) ==> sys.active[id].needs[sys.active[id].held] != r
  {
    var t := sys.active[id];
    assert Coherent(sys, t);
    forall i | 0 <= i < t.held ensures t.needs[i] != r {
      assert t.versions(t.needs[i]) == sys.versions(t.needs[i]);
    }
  }

  /** A post that read a wallet as ACTIVE which is closed by now can only abort. */
  lemma StaleActiveCannotCommit(sys: Sys, id: nat, w: Uuid)
    requires Consistent(sys) && id in sys.active && Serializable(sys.active[id].op) && NeedsRow(sys.active[id], WalletRow(w))
    requires w in sys.active[id].snapshot.books.wallets && sys.active[id].snapshot.books.wallets[w].status == ACTIVE
    requires w in sys.db.books.wallets && sys.db.books.wallets[w].status == CLOSED
    ensures ReadStale(sys, sys.active[id], WalletRow(w)) && !MayCommit(sys, sys.active[id])
  {
    hide Good, Sane, SnapshotTrue, Intact, Plan;
    assert Coherent(sys, sys.active[id]);
    ChangedSinceRead(sys, sys.active[id], WalletRow(w));
    StaleReadersCannotCommit(sys, id, WalletRow(w));
  }

  /** Nothing that happens afterwards helps it: all it can do is abort. */
  lemma StaleReadersStayStale(sys: Sys, e: Event, after: Sys, id: nat, r: Row)
    requires Consistent(sys) && Follows(sys, e, after) && id in sys.active && ReadStale(sys, sys.active[id], r)
    ensures e != Committed(id)
    ensures e != Aborted(id) ==> id in after.active && ReadStale(after, after.active[id], r)
  {
    StaleReadersCannotCommit(sys, id, r);
    if e != Aborted(id) { OnesOwnReadsStay(sys, e, after, id, r); }
  }

  /** Other events change nothing a transaction read or needs, and no version goes back. */
  lemma OnesOwnReadsStay(sys: Sys, e: Event, after: Sys, id: nat, r: Row)
    requires Follows(sys, e, after) && id in sys.active && e != Aborted(id) && e != Committed(id)
    ensures id in after.active && after.active[id] == sys.active[id].(held := after.active[id].held)
    ensures sys.versions(r) <= after.versions(r)
  {}

  /** Competing reversals of a transfer share its row lock, but a reversal does not write that row:
      whoever waited for it goes on, with a snapshot in which the transfer is still unreversed.
      What stops a second reversal is that the first wrote both accounts and the reversal's
      unique key, all of which the second needs. */
  lemma SecondReversalsStopAtTheAccounts(db: Db, op: Op)
    requires Paired(db.books) && op.Undo? && RecordKey(op.user, TransferReversal, op.key) !in db.records
    requires ReversalBody(db, op.user, op.transfer, op.reason, op.ids).Ok?
    ensures op.transfer in db.transfers
    ensures var t, w := db.transfers[op.transfer], Plan(db, op).writes;
            && t.source in db.books.wallets && t.destination in db.books.wallets
            && !Written(w, TransferRow(op.transfer)) && Written(w, ReversalRow(op.transfer))
            && Written(w, AccountRow(db.books.wallets[t.source].account)) && Written(w, AccountRow(db.books.wallets[t.destination].account))
  {
    UndoWrites(db, op);
  }

  /** Across any interleaving a closed wallet stays closed and empty, and no posting to its
      account commits afterwards. */
  lemma ClosedWalletsStayClosed(trace: seq<Sys>, i: nat, j: nat, w: Uuid)
    requires Trace(trace) && i <= j < |trace|
    requires w in trace[i].db.books.wallets && trace[i].db.books.wallets[w].status == CLOSED
    ensures var was := trace[i].db.books.wallets[w];
            && was.balance == 0
            && w in trace[j].db.books.wallets && trace[j].db.books.wallets[w] == was
            && forall t :: t in trace[j].db.books.transactions && was.account in trace[j].db.books.transactions[t].postings
                 ==> t in trace[i].db.books.transactions
  {
    InterleavingsAreRuns(trace);
    ClosedWalletsAreFinal(Tables(trace), i, j, w);
  }
}
