/** A reversal that commits keeps the business invariant and only adds rows. */
module ReversalSteps {
  import opened Domain
  import opened Amounts
  import opened Store
  import opened Posting
  import opened Ledger
  import opened Plans
  import opened Business
  import opened Operations

  /** The committed bundle of a reversal. */
  ghost predicate ReversalCommitted(db: Db, after: Db, actor: Uuid, key: string, transfer: Uuid, reason: Option<string>, ids: Ids) {
    && transfer in db.transfers
    && var t := db.transfers[transfer];
    && t.source in db.books.wallets && t.destination in db.books.wallets
    && MoneyMoved(db.books, after.books, ReversalRef(ids.row), t.currency,
                  db.books.wallets[t.source].account, db.books.wallets[t.destination].account, -(t.amount as int), ids.transaction)
    && after == db.(
         books := after.books,
         reversals := db.reversals[transfer := Reversal(ids.row, actor, ids.transaction, t.currency, t.amount, reason)],
         audits := db.audits[AuditKey(TRANSFER_REVERSED, transfer) := Audit(actor, Some(ids.row))],
         outbox := db.outbox[OutboxKey(TRANSFER_WAS_REVERSED, ids.row) := actor],
         records := db.records[RecordKey(actor, TransferReversal, key) := Record(ReversalDigest(transfer, reason), Completed(transfer))])
  }

  lemma ReversalAccepted(db: Db, actor: Uuid, transfer: Uuid, reason: Option<string>, ids: Ids)
    requires Sound(db.books) && ids.transaction !in db.books.transactions
    requires ReversalBody(db, actor, transfer, reason, ids).Ok?
    ensures transfer in db.transfers && transfer !in db.reversals && db.transfers[transfer].sender == actor
    ensures var t := db.transfers[transfer];
            && t.source in db.books.wallets && t.destination in db.books.wallets
            && var w := ReversalBody(db, actor, transfer, reason, ids).value;
               var after := ApplyBooks(db.books, w.books);
               && w == ReversalRows(actor, transfer, t, reason, ids, w.books)
               && Sound(after)
               && MoneyMoved(db.books, after, ReversalRef(ids.row), t.currency,
                             db.books.wallets[t.source].account, db.books.wallets[t.destination].account,
                             -(t.amount as int), ids.transaction)
  {
    var t := db.transfers[transfer];
    TwoPostingsMoveMoney(db.books, ReversalPosting(db, t, ids.row),
                         db.books.wallets[t.source].account, db.books.wallets[t.destination].account,
                         -(t.amount as int), ids.transaction);
  }

  lemma ReversalCommits(db: Db, actor: Uuid, key: string, transfer: Uuid, reason: Option<string>, ids: Ids)
    requires Sound(db.books) && ids.transaction !in db.books.transactions
    requires ReversalBody(db, actor, transfer, reason, ids).Ok?
    ensures var w := ReversalBody(db, actor, transfer, reason, ids).value;
            var after := Apply(db, w.(records := map[RecordKey(actor, TransferReversal, key) := Record(ReversalDigest(transfer, reason), Completed(transfer))]));
            ReversalCommitted(db, after, actor, key, transfer, reason, ids) && Sound(after.books)
  {
    ReversalAccepted(db, actor, transfer, reason, ids);
    var k, record := RecordKey(actor, TransferReversal, key), Record(ReversalDigest(transfer, reason), Completed(transfer));
    var w := ReversalBody(db, actor, transfer, reason, ids).value.(records := map[k := record]);
    Untouched(db, w);
    AddOne(db.reversals, transfer, w.reversals[transfer]);
    AddOne(db.audits, AuditKey(TRANSFER_REVERSED, transfer), Audit(actor, Some(ids.row)));
    AddOne(db.outbox, OutboxKey(TRANSFER_WAS_REVERSED, ids.row), actor);
    AddOne(db.records, k, record);
  }

  lemma ReversalGrows(db: Db, after: Db, actor: Uuid, key: string, transfer: Uuid, reason: Option<string>, ids: Ids)
    requires ReversalCommitted(db, after, actor, key, transfer, reason, ids)
    requires ids.transaction !in db.books.transactions && FreshReversal(db, ids.row) && transfer !in db.reversals
    requires RecordKey(actor, TransferReversal, key) !in db.records
    requires forall k :: k in db.audits ==> AuditIntact(db, k)
    requires forall k :: k in db.outbox ==> EventReported(db, k)
    ensures Grows(db, after)
  {
    hide MoneyMoved, SameWallet;
    var t := db.transfers[transfer];
    MovingGrows(db.books, after.books, ReversalRef(ids.row), t.currency,
                db.books.wallets[t.source].account, db.books.wallets[t.destination].account, -(t.amount as int), ids.transaction);
    ReversalRowsAreNew(db, transfer, ids.row);
    KeptByAdding(db.reversals, transfer, after.reversals[transfer]);
    KeptByAdding(db.audits, AuditKey(TRANSFER_REVERSED, transfer), Audit(actor, Some(ids.row)));
    KeptByAdding(db.outbox, OutboxKey(TRANSFER_WAS_REVERSED, ids.row), actor);
    KeptByAdding(db.records, RecordKey(actor, TransferReversal, key), after.records[RecordKey(actor, TransferReversal, key)]);
  }

  lemma ReversalRowsAreNew(db: Db, transfer: Uuid, id: Uuid)
    requires FreshReversal(db, id) && transfer !in db.reversals
    requires forall k :: k in db.audits ==> AuditIntact(db, k)
    requires forall k :: k in db.outbox ==> EventReported(db, k)
    ensures AuditKey(TRANSFER_REVERSED, transfer) !in db.audits && OutboxKey(TRANSFER_WAS_REVERSED, id) !in db.outbox
  {
    assert AuditKey(TRANSFER_REVERSED, transfer) in db.audits ==> AuditIntact(db, AuditKey(TRANSFER_REVERSED, transfer));
    assert OutboxKey(TRANSFER_WAS_REVERSED, id) in db.outbox ==> EventReported(db, OutboxKey(TRANSFER_WAS_REVERSED, id));
  }

  lemma NewReversalIntact(db: Db, after: Db, actor: Uuid, key: string, transfer: Uuid, reason: Option<string>, ids: Ids)
    requires ReversalCommitted(db, after, actor, key, transfer, reason, ids)
    requires db.transfers[transfer].sender == actor
    ensures ReversalIntact(after, transfer)
    ensures RecordIntact(after, RecordKey(actor, TransferReversal, key))
    ensures AuditIntact(after, AuditKey(TRANSFER_REVERSED, transfer))
  {}

  lemma NewReversalReported(db: Db, after: Db, actor: Uuid, key: string, transfer: Uuid, reason: Option<string>, ids: Ids)
    requires ReversalCommitted(db, after, actor, key, transfer, reason, ids)
    ensures Explained(after, ids.transaction)
    ensures EventReported(after, OutboxKey(TRANSFER_WAS_REVERSED, ids.row))
  {
    assert after.reversals[transfer].id == ids.row && after.reversals[transfer].transaction == ids.transaction;
  }

  lemma ReversalKeepsRows(db: Db, after: Db, actor: Uuid, key: string, transfer: Uuid, reason: Option<string>, ids: Ids)
    requires RowsIntact(db) && Grows(db, after)
    requires ReversalCommitted(db, after, actor, key, transfer, reason, ids)
    requires ids.transaction !in db.books.transactions && db.transfers[transfer].sender == actor
    ensures RowsIntact(after)
  {
    hide RowsIntact, Grows;
    NewReversalIntact(db, after, actor, key, transfer, reason, ids);
    NewReversalReported(db, after, actor, key, transfer, reason, ids);
    GrowingKeepsRowsIntact(db, after);
  }

  lemma ReversalKeepsKeys(db: Db, after: Db, actor: Uuid, key: string, transfer: Uuid, reason: Option<string>, ids: Ids)
    requires OneKeyEach(db) && (forall j :: j in db.records ==> RecordIntact(db, j))
    requires ReversalCommitted(db, after, actor, key, transfer, reason, ids)
    requires transfer !in db.reversals && RecordKey(actor, TransferReversal, key) !in db.records
    ensures OneKeyEach(after)
  {
    hide CompletedBy, MoneyMoved;
    var k, record := RecordKey(actor, TransferReversal, key), Record(ReversalDigest(transfer, reason), Completed(transfer));
    AddOne(db.records, k, record);
    KeysStayUnique(db, after, k, record);
  }

  /** A reversal that passes all checks keeps the invariant and only adds rows. */
  lemma ReversalKeepsIntact(db: Db, actor: Uuid, key: string, transfer: Uuid, reason: Option<string>, ids: Ids)
    requires Intact(db) && Fresh(db, Undo(actor, key, transfer, reason, ids))
    requires RecordKey(actor, TransferReversal, key) !in db.records && ReversalBody(db, actor, transfer, reason, ids).Ok?
    ensures var w := ReversalBody(db, actor, transfer, reason, ids).value;
            var after := Apply(db, w.(records := map[RecordKey(actor, TransferReversal, key) := Record(ReversalDigest(transfer, reason), Completed(transfer))]));
            Intact(after) && Grows(db, after)
  {
    hide ReversalBody;
    ReversalAccepted(db, actor, transfer, reason, ids);
    ReversalCommits(db, actor, key, transfer, reason, ids);
    var w := ReversalBody(db, actor, transfer, reason, ids).value;
    var after := Apply(db, w.(records := map[RecordKey(actor, TransferReversal, key) := Record(ReversalDigest(transfer, reason), Completed(transfer))]));
    ReversalGrows(db, after, actor, key, transfer, reason, ids);
    ReversalKeepsRows(db, after, actor, key, transfer, reason, ids);
    ReversalKeepsKeys(db, after, actor, key, transfer, reason, ids);
  }
}
