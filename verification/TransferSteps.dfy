/** A transfer that commits keeps the business invariant and only adds rows. */
module TransferSteps {
  import opened Domain
  import opened Amounts
  import opened Store
  import opened Posting
  import opened Ledger
  import opened Plans
  import opened Business
  import opened Operations

  /** What a successful transfer body found and wrote. */
  lemma TransferAccepted(db: Db, user: Uuid, r: TransferRequest, ids: Ids)
    requires Intact(db) && ids.transaction !in db.books.transactions
    requires TransferBody(db, user, r, ids).Ok?
    ensures Route(db, user, r).Ok?
    ensures var (source, target) := Route(db, user, r).value;
            && source in db.books.wallets && target in db.books.wallets && source != target
            && db.books.wallets[source].user == user
            && db.books.wallets[source].currency == db.books.wallets[target].currency
            && 1 <= r.amount <= MAX_MINOR_UNITS && NamesBeneficiary(db, user, target, r.beneficiary)
            && var w := TransferBody(db, user, r, ids).value;
               var after := ApplyBooks(db.books, w.books);
               && w == TransferRows(db, user, r, source, target, ids, w.books)
               && Sound(after)
               && MoneyMoved(db.books, after, TransferRef(ids.row), db.books.wallets[source].currency,
                             db.books.wallets[source].account, db.books.wallets[target].account, r.amount, ids.transaction)
  {
    hide Sound, MoneyMoved, PlanPost;
    var (source, target) := Route(db, user, r).value;
    TwoPostingsMoveMoney(db.books, TransferPosting(db, source, target, r.amount, ids.row),
                         db.books.wallets[source].account, db.books.wallets[target].account, r.amount, ids.transaction);
  }

  /** The committed bundle of a transfer: money, business row, audit row, outbox row, record. */
  ghost predicate TransferCommitted(db: Db, after: Db, user: Uuid, key: string, r: TransferRequest, source: Uuid, target: Uuid, ids: Ids) {
    && source in db.books.wallets && target in db.books.wallets
    && var c := db.books.wallets[source].currency;
    && MoneyMoved(db.books, after.books, TransferRef(ids.row), c,
                  db.books.wallets[source].account, db.books.wallets[target].account, r.amount, ids.transaction)
    && after == db.(
         books := after.books,
         transfers := db.transfers[ids.row := Transfer(user, source, target, r.beneficiary, ids.transaction, c, r.amount, true)],
         audits := db.audits[AuditKey(TRANSFER_CREATED, ids.row) := Audit(user, None)],
         outbox := db.outbox[OutboxKey(TRANSFER_COMPLETED, ids.row) := user],
         records := db.records[RecordKey(user, InternalTransfer, key) := Record(TransferDigestOf(r), Completed(ids.row))])
  }

  lemma TransferCommits(db: Db, user: Uuid, key: string, r: TransferRequest, ids: Ids)
    requires Intact(db) && ids.transaction !in db.books.transactions
    requires TransferBody(db, user, r, ids).Ok?
    ensures Route(db, user, r).Ok?
    ensures var (source, target) := Route(db, user, r).value;
            var w := TransferBody(db, user, r, ids).value;
            var after := Apply(db, w.(records := map[RecordKey(user, InternalTransfer, key) := Record(TransferDigestOf(r), Completed(ids.row))]));
            TransferCommitted(db, after, user, key, r, source, target, ids) && Sound(after.books)
  {
    TransferAccepted(db, user, r, ids);
    var (source, target) := Route(db, user, r).value;
    var w := TransferBody(db, user, r, ids).value.(records := map[RecordKey(user, InternalTransfer, key) := Record(TransferDigestOf(r), Completed(ids.row))]);
    Untouched(db, w);
    AddOne(db.transfers, ids.row, w.transfers[ids.row]);
    AddOne(db.audits, AuditKey(TRANSFER_CREATED, ids.row), Audit(user, None));
    AddOne(db.outbox, OutboxKey(TRANSFER_COMPLETED, ids.row), user);
    AddOne(db.records, RecordKey(user, InternalTransfer, key), Record(TransferDigestOf(r), Completed(ids.row)));
  }

  lemma TransferGrows(db: Db, after: Db, user: Uuid, key: string, r: TransferRequest, source: Uuid, target: Uuid, ids: Ids)
    requires TransferCommitted(db, after, user, key, r, source, target, ids)
    requires ids.transaction !in db.books.transactions && ids.row !in db.transfers
    requires RecordKey(user, InternalTransfer, key) !in db.records
    requires forall k :: k in db.audits ==> AuditIntact(db, k)
    requires forall k :: k in db.outbox ==> EventReported(db, k)
    ensures Grows(db, after)
  {
    hide MoneyMoved;
    MovingGrows(db.books, after.books, TransferRef(ids.row), db.books.wallets[source].currency,
                db.books.wallets[source].account, db.books.wallets[target].account, r.amount, ids.transaction);
    TransferRowsAreNew(db, ids.row);
    KeptByAdding(db.transfers, ids.row, after.transfers[ids.row]);
    KeptByAdding(db.audits, AuditKey(TRANSFER_CREATED, ids.row), Audit(user, None));
    KeptByAdding(db.outbox, OutboxKey(TRANSFER_COMPLETED, ids.row), user);
    KeptByAdding(db.records, RecordKey(user, InternalTransfer, key), after.records[RecordKey(user, InternalTransfer, key)]);
  }

  lemma TransferRowsAreNew(db: Db, id: Uuid)
    requires id !in db.transfers
    requires forall k :: k in db.audits ==> AuditIntact(db, k)
    requires forall k :: k in db.outbox ==> EventReported(db, k)
    ensures AuditKey(TRANSFER_CREATED, id) !in db.audits && OutboxKey(TRANSFER_COMPLETED, id) !in db.outbox
  {
    assert AuditKey(TRANSFER_CREATED, id) in db.audits ==> AuditIntact(db, AuditKey(TRANSFER_CREATED, id));
    assert OutboxKey(TRANSFER_COMPLETED, id) in db.outbox ==> EventReported(db, OutboxKey(TRANSFER_COMPLETED, id));
  }

  lemma TransferKeepsRows(db: Db, after: Db, user: Uuid, key: string, r: TransferRequest, source: Uuid, target: Uuid, ids: Ids)
    requires RowsIntact(db) && Grows(db, after)
    requires TransferCommitted(db, after, user, key, r, source, target, ids)
    requires ids.transaction !in db.books.transactions && source != target && 1 <= r.amount <= MAX_MINOR_UNITS
    requires NamesBeneficiary(db, user, target, r.beneficiary)
    requires db.books.wallets[source].user == user && db.books.wallets[target].currency == db.books.wallets[source].currency
    ensures RowsIntact(after)
  {
    assert TransferIntact(after, ids.row);
    assert RecordIntact(after, RecordKey(user, InternalTransfer, key));
    assert Explained(after, ids.transaction);
    assert AuditIntact(after, AuditKey(TRANSFER_CREATED, ids.row));
    assert EventReported(after, OutboxKey(TRANSFER_COMPLETED, ids.row));
    GrowingKeepsRowsIntact(db, after);
  }

  lemma TransferKeepsKeys(db: Db, after: Db, user: Uuid, key: string, r: TransferRequest, source: Uuid, target: Uuid, ids: Ids)
    requires OneKeyEach(db) && (forall j :: j in db.records ==> RecordIntact(db, j))
    requires TransferCommitted(db, after, user, key, r, source, target, ids)
    requires ids.row !in db.transfers && RecordKey(user, InternalTransfer, key) !in db.records
    ensures OneKeyEach(after)
  {
    hide MoneyMoved;
    var k, record := RecordKey(user, InternalTransfer, key), Record(TransferDigestOf(r), Completed(ids.row));
    AddOne(db.records, k, record);
    KeysStayUnique(db, after, k, record);
  }

  /** A transfer that passes all checks keeps the invariant and only adds rows. */
  lemma TransferKeepsIntact(db: Db, user: Uuid, key: string, r: TransferRequest, ids: Ids)
    requires Intact(db) && Fresh(db, Send(user, key, r, ids))
    requires RecordKey(user, InternalTransfer, key) !in db.records && TransferBody(db, user, r, ids).Ok?
    ensures var w := TransferBody(db, user, r, ids).value;
            var after := Apply(db, w.(records := map[RecordKey(user, InternalTransfer, key) := Record(TransferDigestOf(r), Completed(ids.row))]));
            Intact(after) && Grows(db, after)
  {
    TransferAccepted(db, user, r, ids);
    TransferCommits(db, user, key, r, ids);
    var (source, target) := Route(db, user, r).value;
    var after := Apply(db, TransferBody(db, user, r, ids).value.(records := map[RecordKey(user, InternalTransfer, key) := Record(TransferDigestOf(r), Completed(ids.row))]));
    TransferGrows(db, after, user, key, r, source, target, ids);
    TransferKeepsRows(db, after, user, key, r, source, target, ids);
    TransferKeepsKeys(db, after, user, key, r, source, target, ids);
  }
}
