/** What a transaction holding all its locks decided on its snapshot is what it would decide on
    the committed tables. */
module Decisions {
  import opened Domain
  import opened Store
  import opened Posting
  import opened Plans
  import opened Ledger
  import opened Business
  import opened Operations
  import opened PaymentSteps
  import opened Runs
  import opened Locks
  import opened Frames
  import opened Snapshots

  /** The decision of `op` on `s` is a replay, a client error under a key still unused, or the
      decision on `c`. */
  ghost predicate Current(s: Db, c: Db, op: Op)
    requires Plan(s, op).Commit?
  {
    || Plan(s, op).writes == NOTHING
    || (Refuses(s, op) && ClaimOf(op) !in c.records)
    || Plan(View(c, s), op) == Plan(s, op)
  }

  ghost predicate AllExplained(db: Db) {
    forall x :: x in db.books.transactions ==> Explained(db, x)
  }

  lemma ViewAgrees(s: Db, c: Db, rows: seq<Row>)
    requires Agree(s, c, rows)
    ensures Agree(s, View(c, s), rows)
  {
    forall i | 0 <= i < |rows| ensures SameRow(s, View(c, s), rows[i]) { assert SameRow(s, c, rows[i]); }
  }

  lemma KeyStillFree(s: Db, c: Db, rows: seq<Row>, k: RecordKey)
    requires Agree(s, c, rows) && |rows| > 0 && rows[0] == RecordRow(k) && k !in s.records
    ensures k !in c.records
  {
    assert SameRow(s, c, rows[0]);
  }

  // ---------------------------------------------------------------- transfers

  lemma SentStillSends(s: Db, c: Db, op: Op)
    requires Paired(s.books) && AllExplained(c)
    requires op.Send? && RecordKey(op.user, InternalTransfer, op.key) !in s.records && op.ids.row !in c.transfers
    requires TransferBody(s, op.user, op.request, op.ids).Ok? && Agree(s, c, SendLocks(s, op))
    ensures Plan(View(c, s), op) == Plan(s, op)
  {
    ViewAgrees(s, c, SendLocks(s, op));
    UnusedTransferReference(c, op.ids.row);
    SendFrame(s, View(c, s), op);
  }

  lemma SendLocksItsKey(s: Db, op: Op)
    requires op.Send? && RecordKey(op.user, InternalTransfer, op.key) !in s.records
    ensures |SendLocks(s, op)| > 0 && SendLocks(s, op)[0] == RecordRow(RecordKey(op.user, InternalTransfer, op.key))
  {}

  lemma SendIsCurrent(s: Db, c: Db, op: Op)
    requires Paired(s.books) && AllExplained(c) && op.Send? && op.ids.row !in c.transfers
    requires Plan(s, op).Commit? && Agree(s, c, SendLocks(s, op))
    ensures Current(s, c, op)
  {
    var k := RecordKey(op.user, InternalTransfer, op.key);
    if k !in s.records {
      if TransferBody(s, op.user, op.request, op.ids).Ok? { SentStillSends(s, c, op); }
      else {
        SendLocksItsKey(s, op);
        KeyStillFree(s, c, SendLocks(s, op), k);
      }
    }
  }

  // ---------------------------------------------------------------- reversals

  lemma UndoneStillUndoes(s: Db, c: Db, op: Op)
    requires Paired(s.books) && AllExplained(c)
    requires op.Undo? && RecordKey(op.user, TransferReversal, op.key) !in s.records && FreshReversal(c, op.ids.row)
    requires ReversalBody(s, op.user, op.transfer, op.reason, op.ids).Ok? && Agree(s, c, UndoLocks(s, op))
    ensures Plan(View(c, s), op) == Plan(s, op)
  {
    ViewAgrees(s, c, UndoLocks(s, op));
    UnusedReversalReference(c, op.ids.row);
    UndoFrame(s, View(c, s), op);
  }

  lemma UndoLocksItsKey(s: Db, op: Op)
    requires op.Undo? && RecordKey(op.user, TransferReversal, op.key) !in s.records
    ensures |UndoLocks(s, op)| > 0 && UndoLocks(s, op)[0] == RecordRow(RecordKey(op.user, TransferReversal, op.key))
  {}

  lemma UndoIsCurrent(s: Db, c: Db, op: Op)
    requires Paired(s.books) && AllExplained(c) && op.Undo? && FreshReversal(c, op.ids.row)
    requires Plan(s, op).Commit? && Agree(s, c, UndoLocks(s, op))
    ensures Current(s, c, op)
  {
    var k := RecordKey(op.user, TransferReversal, op.key);
    if k !in s.records {
      if ReversalBody(s, op.user, op.transfer, op.reason, op.ids).Ok? { UndoneStillUndoes(s, c, op); }
      else {
        UndoLocksItsKey(s, op);
        KeyStillFree(s, c, UndoLocks(s, op), k);
      }
    }
  }

  // ---------------------------------------------------------------- settlements

  ghost predicate ClearingsAreSystem(b: Books) {
    forall k :: Clearing(k) in b.accounts ==> b.accounts[Clearing(k)].kind == SYSTEM
  }

  lemma StillUncredited(s: Db, c: Db, op: Op)
    requires Paired(s.books) && FirstSuccess(s, op) && PaymentIntact(s, op.evidence.reference) && Agree(s, c, SettleLocks(s, op))
    ensures op.evidence.reference in c.payments && c.payments[op.evidence.reference].transaction.None?
  {
    SuccessTakes(s, op);
    Agreeing(s, c, SettleLocks(s, op), PaymentRow(op.evidence.reference));
  }

  lemma SettleIsCurrent(s: Db, c: Db, op: Op)
    requires Paired(s.books) && ClearingsAreSystem(s.books) && AllExplained(c) && Grows(s, c) && op.Settle?
    requires forall p :: p in s.payments ==> PaymentIntact(s, p)
    requires Plan(s, op).Commit? && Agree(s, c, SettleLocks(s, op))
    ensures Current(s, c, op)
  {
    var view := View(c, s);
    ViewAgrees(s, c, SettleLocks(s, op));
    if FirstSuccess(s, op) {
      StillUncredited(s, c, op);
      UnusedPaymentReference(c, op.evidence.reference);
      SuccessFrame(s, view, op);
    } else {
      OtherCallbackFrame(s, view, op);
    }
  }

  lemma SystemClearings(b: Books)
    requires Sound(b)
    ensures ClearingsAreSystem(b)
  {
    forall k | Clearing(k) in b.accounts ensures b.accounts[Clearing(k)].kind == SYSTEM { assert ClearingSound(b, k); }
  }

  /** Every serializable decision taken with all locks held is current, although the snapshot
      it was taken on may be arbitrarily old. */
  lemma LockedDecisionsAreCurrent(s: Db, c: Db, op: Op)
    requires Good(s) && Good(c) && Grows(s, c) && Fresh(c, op) && Serializable(op)
    requires Plan(s, op).Commit? && Agree(s, c, LockPlan(s, op))
    ensures Current(s, c, op)
  {
    SystemClearings(s.books);
    match op
    case Send(_, _, _, _) => SendIsCurrent(s, c, op);
    case Undo(_, _, _, _, _) => UndoIsCurrent(s, c, op);
    case Settle(_, _, _) => SettleIsCurrent(s, c, op);
  }
}
