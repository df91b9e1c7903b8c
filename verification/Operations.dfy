/** The service transactions as operations on the database, and the theorem that every one of
    them keeps the business invariant and only ever adds to history. */
module Operations {
  import opened Sums
  import opened Domain
  import opened Amounts
  import opened Store
  import opened Posting
  import opened Ledger
  import opened Plans
  import opened Business

  datatype Op =
    | Send(user: Uuid, key: string, request: TransferRequest, ids: Ids)
    | Undo(user: Uuid, key: string, transfer: Uuid, reason: Option<string>, ids: Ids)
    | Intend(user: Uuid, key: string, wallet: Uuid, amountText: string, via: Provider, id: Uuid)
    | Settle(provider: Provider, evidence: Evidence, transaction: Uuid)
    | Open(user: Uuid, currency: Currency, ids: Ids)
    | Close(user: Uuid, wallet: Uuid)

  ghost function Plan(db: Db, op: Op): Outcome {
    match op
    case Send(user, key, r, ids) => PlanTransfer(db, user, key, r, ids)
    case Undo(user, key, transfer, reason, ids) => PlanReversal(db, user, key, transfer, reason, ids)
    case Intend(user, key, wallet, amountText, provider, id) => PlanIntent(db, user, key, wallet, amountText, provider, id)
    case Settle(provider, e, txId) => PlanSettle(db, provider, e, txId)
    case Open(user, c, ids) => PlanOpen(db, user, c, ids)
    case Close(user, wallet) => PlanClose(db, user, wallet)
  }

  ghost predicate FreshReversal(db: Db, id: Uuid) {
    forall t :: t in db.reversals ==> db.reversals[t].id != id
  }

  /** Random UUIDs are taken to be unused. */
  ghost predicate Fresh(db: Db, op: Op) {
    match op
    case Send(_, _, _, ids) => ids.row !in db.transfers && ids.transaction !in db.books.transactions
    case Undo(_, _, _, _, ids) => FreshReversal(db, ids.row) && ids.transaction !in db.books.transactions
    case Intend(_, _, _, _, _, id) => id !in db.payments
    case Settle(_, _, txId) => txId !in db.books.transactions
    case Open(_, _, ids) => ids.transaction !in db.books.accounts && ids.row !in db.books.wallets
    case Close(_, _) => true
  }

  // ---------------------------------------------------------------- shared steps

  lemma AddNothing<K, V>(m: map<K, V>)
    ensures m + map[] == m
  {}

  /** A table the transaction does not write stays as it was. */
  lemma Untouched(db: Db, w: Db)
    ensures w.books == NO_BOOKS ==> Apply(db, w).books == db.books
    ensures w.transfers == map[] ==> Apply(db, w).transfers == db.transfers
    ensures w.reversals == map[] ==> Apply(db, w).reversals == db.reversals
    ensures w.audits == map[] ==> Apply(db, w).audits == db.audits
    ensures w.outbox == map[] ==> Apply(db, w).outbox == db.outbox
    ensures w.records == map[] ==> Apply(db, w).records == db.records
    ensures w.payments == map[] ==> Apply(db, w).payments == db.payments
    ensures w.events == map[] ==> Apply(db, w).events == db.events
    ensures w.beneficiaries == map[] ==> Apply(db, w).beneficiaries == db.beneficiaries
  {
    AddNothing(db.books.accounts);
    AddNothing(db.books.wallets);
    AddNothing(db.books.transactions);
    AddNothing(db.transfers);
    AddNothing(db.reversals);
    AddNothing(db.audits);
    AddNothing(db.outbox);
    AddNothing(db.records);
    AddNothing(db.payments);
    AddNothing(db.events);
    AddNothing(db.beneficiaries);
  }

  lemma KeptByAdding<K, V>(m: map<K, V>, k: K, v: V)
    requires k !in m
    ensures Kept(m, m[k := v])
  {}

  lemma AddOne<K, V>(m: map<K, V>, k: K, v: V)
    ensures m + map[k := v] == m[k := v]
  {}

  /** A posting leaves every other wallet and the whole log as they were. */
  lemma MovingGrows(b: Books, after: Books, reference: Reference, c: Currency, from: Uuid, to: Uuid, amount: int, txId: Uuid)
    requires MoneyMoved(b, after, reference, c, from, to, amount, txId) && txId !in b.transactions && !reference.OpeningRef?
    ensures Kept(b.transactions, after.transactions) && ClosedStayQuiet(b, after) && NoNewOpenings(b, after) && b.accounts.Keys <= after.accounts.Keys
    ensures forall w :: w in b.wallets ==> w in after.wallets && SameWallet(b.wallets[w], after.wallets[w])
  {}

  /** A terminal record is added under an unused key. */
  lemma RecordAdded(db: Db, after: Db, k: RecordKey, record: Record)
    requires k !in db.records && after.records == db.records + map[k := record]
    ensures after.records == db.records[k := record] && Kept(db.records, after.records)
    ensures forall j, s, x :: CompletedBy(after, j, s, x) <==>
              (CompletedBy(db, j, s, x) || (j == k && k.scope == s && record.state == Completed(x)))
  {}

  lemma KeysStayUnique(db: Db, after: Db, k: RecordKey, record: Record)
    requires OneKeyEach(db) && (forall j :: j in db.records ==> RecordIntact(db, j))
    requires k !in db.records && after.records == db.records + map[k := record]
    requires record.state.Completed? ==>
               (k.scope == InternalTransfer ==> record.state.resource !in db.transfers)
               && (k.scope == TransferReversal ==> record.state.resource !in db.reversals)
    requires after.transfers.Keys == db.transfers.Keys + (if record.state.Completed? && k.scope == InternalTransfer then {record.state.resource} else {})
    requires after.reversals.Keys == db.reversals.Keys + (if record.state.Completed? && k.scope == TransferReversal then {record.state.resource} else {})
    ensures OneKeyEach(after)
  {
    RecordAdded(db, after, k, record);
    forall k1, k2, s, x | CompletedBy(after, k1, s, x) && CompletedBy(after, k2, s, x) ensures k1 == k2 {
      if k1 != k { assert RecordIntact(db, k1); }
      if k2 != k { assert RecordIntact(db, k2); }
    }
    forall x | x in after.transfers ensures exists j :: CompletedBy(after, j, InternalTransfer, x) {
      if x in db.transfers {
        var j :| CompletedBy(db, j, InternalTransfer, x);
        assert CompletedBy(after, j, InternalTransfer, x);
      } else { assert CompletedBy(after, k, InternalTransfer, x); }
    }
    forall x | x in after.reversals ensures exists j :: CompletedBy(after, j, TransferReversal, x) {
      if x in db.reversals {
        var j :| CompletedBy(db, j, TransferReversal, x);
        assert CompletedBy(after, j, TransferReversal, x);
      } else { assert CompletedBy(after, k, TransferReversal, x); }
    }
  }

  lemma KeysUntouched(db: Db, after: Db)
    requires OneKeyEach(db) && after.records == db.records
    requires after.transfers.Keys == db.transfers.Keys && after.reversals.Keys == db.reversals.Keys
    ensures OneKeyEach(after)
  {
    forall k1, k2, s, x | CompletedBy(after, k1, s, x) && CompletedBy(after, k2, s, x) ensures k1 == k2 {
      assert CompletedBy(db, k1, s, x) && CompletedBy(db, k2, s, x);
    }
    forall x | x in after.transfers ensures exists j :: CompletedBy(after, j, InternalTransfer, x) {
      var j :| CompletedBy(db, j, InternalTransfer, x);
      assert CompletedBy(after, j, InternalTransfer, x);
    }
    forall x | x in after.reversals ensures exists j :: CompletedBy(after, j, TransferReversal, x) {
      var j :| CompletedBy(db, j, TransferReversal, x);
      assert CompletedBy(after, j, TransferReversal, x);
    }
  }

  // ---------------------------------------------------------------- refusals

  /** Storing a client error touches nothing but the record. */
  lemma RefusalWritesOnlyTheRecord(db: Db, k: RecordKey, record: Record)
    ensures Apply(db, NOTHING.(records := map[k := record])) == db.(records := db.records[k := record])
  {
    Untouched(db, NOTHING.(records := map[k := record]));
    AddOne(db.records, k, record);
  }

  lemma RefusalGrows(db: Db, k: RecordKey, record: Record)
    requires k !in db.records
    ensures Grows(db, db.(records := db.records[k := record]))
  {}

  lemma RefusalKeepsRows(db: Db, k: RecordKey, digest: Digest, reason: Reason)
    requires RowsIntact(db) && k !in db.records && IsClientError(reason)
    ensures RowsIntact(db.(records := db.records[k := Record(digest, Refused(reason))]))
  {
    var after := db.(records := db.records[k := Record(digest, Refused(reason))]);
    RefusalGrows(db, k, Record(digest, Refused(reason)));
    assert RecordIntact(after, k);
    GrowingKeepsRowsIntact(db, after);
  }

  lemma RefusalKeepsKeys(db: Db, k: RecordKey, digest: Digest, reason: Reason)
    requires OneKeyEach(db) && k !in db.records
    ensures OneKeyEach(db.(records := db.records[k := Record(digest, Refused(reason))]))
  {
    var after := db.(records := db.records[k := Record(digest, Refused(reason))]);
    assert forall j, s, x :: CompletedBy(after, j, s, x) <==> CompletedBy(db, j, s, x);
  }

  lemma RefusalKeepsIntact(db: Db, k: RecordKey, digest: Digest, reason: Reason)
    requires Intact(db) && k !in db.records && IsClientError(reason)
    ensures var after := db.(records := db.records[k := Record(digest, Refused(reason))]);
            Intact(after) && Grows(db, after)
  {
    RefusalKeepsRows(db, k, digest, reason);
    RefusalGrows(db, k, Record(digest, Refused(reason)));
    RefusalKeepsKeys(db, k, digest, reason);
  }
}
