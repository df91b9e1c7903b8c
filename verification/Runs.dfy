/** Committed steps of the whole application and its runs. A step is the commit of a service
    transaction; `Snapshots` shows that every interleaving of real transactions is such a run. */
module Runs {
  import opened Sums
  import opened Domain
  import opened Amounts
  import opened Store
  import opened Posting
  import opened Plans
  import opened Ledger
  import opened Business
  import opened Operations
  import opened TransferSteps
  import opened ReversalSteps
  import opened PaymentSteps
  import opened WalletSteps
  import opened History

  /** `Act` commits what the operation decides on the committed tables, except that beneficiaries
      read before are taken as they were in `read`. `Refuse` stores the client error an attempt
      met in `read`. `NewIntent` records the payment intent accepted in `read`. Beneficiaries are
      added, deleted and restored by their owners at any time. */
  datatype Step =
    | Act(op: Op, read: Db)
    | Refuse(op: Op, read: Db)
    | NewIntent(op: Op, read: Db)
    | EditBeneficiaries(list: map<Uuid, Beneficiary>)

  /** The tables with the beneficiaries of `read` as they were then. */
  function View(db: Db, read: Db): Db {
    db.(beneficiaries := db.beneficiaries + read.beneficiaries)
  }

  function ClaimOf(op: Op): RecordKey
    requires op.Send? || op.Undo?
  {
    RecordKey(op.user, if op.Send? then InternalTransfer else TransferReversal, op.key)
  }

  function DigestOf(op: Op): Digest
    requires op.Send? || op.Undo?
  {
    if op.Send? then TransferDigestOf(op.request) else ReversalDigest(op.transfer, op.reason)
  }

  /** A first attempt under its key ends in a client error. */
  ghost predicate Refuses(read: Db, op: Op) {
    (op.Send? || op.Undo?) && ClaimOf(op) !in read.records && Plan(read, op).Commit? && Plan(read, op).reply.Failure?
  }

  ghost predicate NewlyIntends(read: Db, op: Op) {
    op.Intend? && Plan(read, op).Commit? && Plan(read, op).writes != NOTHING
  }

  ghost predicate Enabled(db: Db, s: Step) {
    match s
    case Act(op, read) =>
      !op.Intend? && Fresh(db, op) && ListKept(read.beneficiaries, db.beneficiaries) && Plan(View(db, read), op).Commit?
    case Refuse(op, read) => Refuses(read, op) && ClaimOf(op) !in db.records
    case NewIntent(op, read) =>
      NewlyIntends(read, op) && Grows(read, db) && op.id !in db.payments && KnownPayment(db, op.user, op.key).None?
    case EditBeneficiaries(list) =>
      ListKept(db.beneficiaries, list) && forall b :: b in list && b !in db.beneficiaries ==> list[b].wallet in db.books.wallets
  }

  ghost function Next(db: Db, s: Step): Db
    requires Enabled(db, s)
  {
    match s
    case Act(op, read) => Apply(db, Plan(View(db, read), op).writes)
    case Refuse(op, read) => Apply(db, Plan(read, op).writes)
    case NewIntent(op, read) => Apply(db, Plan(read, op).writes)
    case EditBeneficiaries(list) => db.(beneficiaries := list)
  }

  /** The invariant of committed states. */
  ghost predicate Good(db: Db) {
    Intact(db) && Accounted(db)
  }

  // ---------------------------------------------------------------- deleting and restoring beneficiaries

  lemma ListChangeGrows(db: Db, other: Db)
    requires other == db.(beneficiaries := other.beneficiaries) && ListKept(db.beneficiaries, other.beneficiaries)
    ensures Grows(db, other)
  {}

  lemma ListChangeKeepsRows(db: Db, other: Db)
    requires RowsIntact(db) && Grows(db, other) && other == db.(beneficiaries := other.beneficiaries)
    ensures RowsIntact(other)
  {
    GrowingKeepsRowsIntact(db, other);
  }

  lemma ListChangeKeepsGood(db: Db, other: Db)
    requires Good(db) && other == db.(beneficiaries := other.beneficiaries) && ListKept(db.beneficiaries, other.beneficiaries)
    ensures Good(other) && Grows(db, other)
  {
    ListChangeGrows(db, other);
    ListChangeKeepsRows(db, other);
    KeysUntouched(db, other);
    HistoryFrame(db, other);
  }

  // ---------------------------------------------------------------- each kind of step

  lemma RefuseKeepsGood(db: Db, k: RecordKey, digest: Digest, reason: Reason)
    requires Good(db) && k !in db.records && IsClientError(reason)
    ensures var after := db.(records := db.records[k := Record(digest, Refused(reason))]); Good(after) && Grows(db, after)
  {
    var after := db.(records := db.records[k := Record(digest, Refused(reason))]);
    RefusalKeepsIntact(db, k, digest, reason);
    HistoryFrame(db, after);
  }

  /** What a stored refusal writes: the client error met, under the attempt's key. */
  lemma RefusalRows(read: Db, op: Op)
    requires Refuses(read, op)
    ensures var reason := Plan(read, op).reply.reason;
            IsClientError(reason) && Plan(read, op).writes == NOTHING.(records := map[ClaimOf(op) := Record(DigestOf(op), Refused(reason))])
  {}

  lemma NewPaymentKeepsGood(db: Db, id: Uuid, p: Payment)
    requires Good(db) && id !in db.payments
    requires p.status == PENDING && p.transaction.None? && 1 <= p.amount <= MAX_MINOR_UNITS
    requires WalletIn(db.books, p.wallet, p.currency) && db.books.wallets[p.wallet].user == p.user
    requires KnownPayment(db, p.user, p.key).None?
    ensures var after := Apply(db, NOTHING.(payments := map[id := p])); Good(after) && Grows(db, after)
  {
    IntentKeepsIntact(db, id, p);
    HistoryFrame(db, db.(payments := db.payments[id := p]));
  }

  lemma IntentKeepsGood(db: Db, op: Op, read: Db)
    requires Good(db) && Enabled(db, NewIntent(op, read))
    ensures var after := Apply(db, Plan(read, op).writes); Good(after) && Grows(db, after)
  {
    IntentAccepted(read, op);
    var p := Plan(read, op).writes.payments[op.id];
    assert SameWallet(read.books.wallets[p.wallet], db.books.wallets[p.wallet]);
    NewPaymentKeepsGood(db, op.id, p);
  }

  lemma SendKeepsHistory(db: Db, after: Db, user: Uuid, key: string, r: TransferRequest, source: Uuid, target: Uuid, ids: Ids)
    requires Accounted(db) && Sound(db.books) && TransferCommitted(db, after, user, key, r, source, target, ids)
    requires ids.transaction !in db.books.transactions && ids.row !in db.transfers
    requires forall t :: t in db.reversals ==> t in db.transfers
    ensures Accounted(after)
  {
    var b := db.books;
    forall w | w in after.books.wallets ensures WalletHistory(after, w) {
      assert WalletHistory(db, w);
      TransferIsAccounted(db, after, user, key, r, source, target, ids, w);
    }
    forall c ensures ClearingHistory(after, c) {
      assert ClearingHistory(db, c) && ClearingSound(b, c);
      ClearingUntouched(db, after, TransferRef(ids.row), b.wallets[source].currency, b.wallets[source].account,
                        b.wallets[target].account, r.amount, ids.transaction, c);
    }
  }

  lemma UndoKeepsHistory(db: Db, after: Db, actor: Uuid, key: string, transfer: Uuid, reason: Option<string>, ids: Ids)
    requires Accounted(db) && Paired(db.books) && ReversalCommitted(db, after, actor, key, transfer, reason, ids)
    requires ids.transaction !in db.books.transactions && transfer !in db.reversals
    requires forall c :: Clearing(c) in db.books.accounts && db.books.accounts[Clearing(c)].kind == SYSTEM
    ensures Accounted(after)
  {
    forall w | w in after.books.wallets ensures WalletHistory(after, w) {
      assert WalletHistory(db, w);
      ReversalIsAccounted(db, after, actor, key, transfer, reason, ids, w);
    }
    forall c ensures ClearingHistory(after, c) {
      assert ClearingHistory(db, c);
      UndoLeavesClearing(db, after, actor, key, transfer, reason, ids, c);
    }
  }

  lemma UndoLeavesClearing(db: Db, after: Db, actor: Uuid, key: string, transfer: Uuid, reason: Option<string>, ids: Ids, c: Currency)
    requires Paired(db.books) && ReversalCommitted(db, after, actor, key, transfer, reason, ids)
    requires ids.transaction !in db.books.transactions && ClearingHistory(db, c) && db.books.accounts[Clearing(c)].kind == SYSTEM
    ensures ClearingHistory(after, c)
  {
    hide MoneyMoved;
    var b, t := db.books, db.transfers[transfer];
    ClearingUntouched(db, after, ReversalRef(ids.row), t.currency, b.wallets[t.source].account,
                      b.wallets[t.destination].account, -(t.amount as int), ids.transaction, c);
  }

  lemma SuccessKeepsHistory(db: Db, after: Db, provider: Provider, e: Evidence, txId: Uuid)
    requires Accounted(db) && Sound(db.books) && SettlementCommitted(db, after, provider, e, Some(txId)) && e.succeeded
    requires txId !in db.books.transactions && db.payments[e.reference].status == PENDING
    requires Funded(db, after, e.reference, txId)
    ensures Accounted(after)
  {
    forall w | w in after.books.wallets ensures WalletHistory(after, w) {
      assert WalletHistory(db, w);
      SettlementIsAccounted(db, after, provider, e, txId, w);
    }
    forall c ensures ClearingHistory(after, c) {
      assert ClearingHistory(db, c) && ClearingSound(db.books, c);
      FundingIsAccounted(db, after, provider, e, txId, c);
    }
  }

  lemma SendKeepsGood(db: Db, op: Op)
    requires Good(db) && op.Send? && Fresh(db, op) && Plan(db, op).Commit?
    ensures var after := Apply(db, Plan(db, op).writes); Good(after) && Grows(db, after)
  {
    var k := RecordKey(op.user, InternalTransfer, op.key);
    var body := TransferBody(db, op.user, op.request, op.ids);
    if k in db.records { ReplayKeepsGood(db); }
    else if body.Err? { RefusingKeepsGood(db, k, TransferDigestOf(op.request), body.reason); }
    else {
      TransferKeepsIntact(db, op.user, op.key, op.request, op.ids);
      SentKeepsHistory(db, op.user, op.key, op.request, op.ids);
    }
  }

  lemma SentKeepsHistory(db: Db, user: Uuid, key: string, r: TransferRequest, ids: Ids)
    requires Intact(db) && Accounted(db) && Fresh(db, Send(user, key, r, ids))
    requires RecordKey(user, InternalTransfer, key) !in db.records && TransferBody(db, user, r, ids).Ok?
    ensures Accounted(Apply(db, PlanTransfer(db, user, key, r, ids).writes))
  {
    TransferCommits(db, user, key, r, ids);
    var (source, target) := Route(db, user, r).value;
    forall t | t in db.reversals ensures t in db.transfers { assert ReversalIntact(db, t); }
    SendKeepsHistory(db, Apply(db, PlanTransfer(db, user, key, r, ids).writes), user, key, r, source, target, ids);
  }

  lemma UndoKeepsGood(db: Db, op: Op)
    requires Good(db) && op.Undo? && Fresh(db, op) && Plan(db, op).Commit?
    ensures var after := Apply(db, Plan(db, op).writes); Good(after) && Grows(db, after)
  {
    var k := RecordKey(op.user, TransferReversal, op.key);
    var body := ReversalBody(db, op.user, op.transfer, op.reason, op.ids);
    if k in db.records { ReplayKeepsGood(db); }
    else if body.Err? { RefusingKeepsGood(db, k, ReversalDigest(op.transfer, op.reason), body.reason); }
    else {
      ReversalKeepsIntact(db, op.user, op.key, op.transfer, op.reason, op.ids);
      UndoneKeepsHistory(db, op.user, op.key, op.transfer, op.reason, op.ids);
    }
  }

  lemma ReplayKeepsGood(db: Db)
    requires Good(db)
    ensures Good(Apply(db, NOTHING)) && Grows(db, Apply(db, NOTHING))
  {
    Untouched(db, NOTHING);
    ListChangeKeepsGood(db, db);
  }

  lemma RefusingKeepsGood(db: Db, k: RecordKey, digest: Digest, reason: Reason)
    requires Good(db) && k !in db.records && IsClientError(reason)
    ensures var after := Apply(db, NOTHING.(records := map[k := Record(digest, Refused(reason))])); Good(after) && Grows(db, after)
  {
    RefusalWritesOnlyTheRecord(db, k, Record(digest, Refused(reason)));
    RefuseKeepsGood(db, k, digest, reason);
  }

  lemma UndoneKeepsHistory(db: Db, actor: Uuid, key: string, transfer: Uuid, reason: Option<string>, ids: Ids)
    requires Intact(db) && Accounted(db) && Fresh(db, Undo(actor, key, transfer, reason, ids))
    requires RecordKey(actor, TransferReversal, key) !in db.records && ReversalBody(db, actor, transfer, reason, ids).Ok?
    ensures Accounted(Apply(db, PlanReversal(db, actor, key, transfer, reason, ids).writes))
  {
    ReversalAccepted(db, actor, transfer, reason, ids);
    ReversalCommits(db, actor, key, transfer, reason, ids);
    SystemClearingsOf(db.books);
    UndoKeepsHistory(db, Apply(db, PlanReversal(db, actor, key, transfer, reason, ids).writes), actor, key, transfer, reason, ids);
  }

  lemma SystemClearingsOf(b: Books)
    requires Sound(b)
    ensures forall c :: Clearing(c) in b.accounts && b.accounts[Clearing(c)].kind == SYSTEM
  {
    forall c ensures Clearing(c) in b.accounts && b.accounts[Clearing(c)].kind == SYSTEM { assert ClearingSound(b, c); }
  }

  lemma SettleKeepsHistory(db: Db, provider: Provider, e: Evidence, txId: Uuid, w: Db)
    requires Intact(db) && Accounted(db) && txId !in db.books.transactions
    requires PlanSettle(db, provider, e, txId).Commit? && w == PlanSettle(db, provider, e, txId).writes
    ensures Accounted(Apply(db, w))
  {
    SettleCases(db, provider, e, txId);
    var p := db.payments[e.reference];
    if w == NOTHING || w == EventRows(provider, e) || !e.succeeded {
      NoSuccessWithoutMoney(db, provider, e, w);
      HistoryFrame(db, Apply(db, w));
    } else {
      FundingAccepted(db, e.reference, p, txId);
      FundingKeepsHistory(db, provider, e, txId, PlanPost(db.books, FundingPosting(db, e.reference, p), txId).value);
    }
  }

  lemma FundingKeepsHistory(db: Db, provider: Provider, e: Evidence, txId: Uuid, books: Books)
    requires Accounted(db) && Sound(db.books) && txId !in db.books.transactions && e.succeeded
    requires e.reference in db.payments && db.payments[e.reference].status == PENDING
    requires var p := db.payments[e.reference];
             && p.wallet in db.books.wallets
             && MoneyMoved(db.books, ApplyBooks(db.books, books), PaymentRef(e.reference), p.currency,
                           Clearing(p.currency), db.books.wallets[p.wallet].account, p.amount, txId)
    ensures Accounted(Apply(db, SettlementRows(provider, e, db.payments[e.reference], Some(txId), books)))
  {
    var p := db.payments[e.reference];
    SettlementCommits(db, provider, e, Some(txId), books);
    assert ClearingSound(db.books, p.currency);
    SuccessKeepsHistory(db, Apply(db, SettlementRows(provider, e, p, Some(txId), books)), provider, e, txId);
  }

  lemma NoSuccessWithoutMoney(db: Db, provider: Provider, e: Evidence, w: Db)
    requires e.reference in db.payments
    requires w == NOTHING || w == EventRows(provider, e)
          || (db.payments[e.reference].status == PENDING && !e.succeeded
              && w == SettlementRows(provider, e, db.payments[e.reference], None, NO_BOOKS))
    ensures NoNewSuccess(db, Apply(db, w)) && Apply(db, w).books == db.books
    ensures Apply(db, w).transfers == db.transfers && Apply(db, w).reversals == db.reversals
  {
    Untouched(db, w);
  }

  lemma OpenKeepsHistory(db: Db, user: Uuid, c: Currency, ids: Ids)
    requires RowsIntact(db) && TransactionsSound(db.books) && Accounted(db)
    requires ids.transaction !in db.books.accounts && ids.row !in db.books.wallets
    ensures Accounted(db.(books := Opened(db.books, user, c, ids)))
  {
    var after := db.(books := Opened(db.books, user, c, ids));
    forall w | w in after.books.wallets ensures WalletHistory(after, w) {
      if w in db.books.wallets {
        assert WalletHistory(db, w);
        WalletHistoryUnchanged(db, after, w);
      } else { NewWalletHistory(db, after, w); }
    }
    forall k ensures ClearingHistory(after, k) {
      assert ClearingHistory(db, k);
      ClearingHistoryUnchanged(db, after, k);
    }
  }

  lemma OpenKeepsGood(db: Db, op: Op)
    requires Good(db) && op.Open? && Fresh(db, op) && Plan(db, op).Commit?
    ensures var after := Apply(db, Plan(db, op).writes); Good(after) && Grows(db, after)
  {
    OpenKeepsIntact(db, op.user, op.currency, op.ids);
    OpenKeepsHistory(db, op.user, op.currency, op.ids);
  }

  lemma CloseKeepsHistory(db: Db, user: Uuid, wallet: Uuid)
    requires Accounted(db) && PlanClose(db, user, wallet).Commit?
    ensures Accounted(Apply(db, PlanClose(db, user, wallet).writes))
  {
    CloseMovesNothing(db, user, wallet);
    HistoryFrame(db, Apply(db, PlanClose(db, user, wallet).writes));
  }

  lemma CloseKeepsGood(db: Db, op: Op)
    requires Good(db) && op.Close? && Plan(db, op).Commit?
    ensures var after := Apply(db, Plan(db, op).writes); Good(after) && Grows(db, after)
  {
    CloseKeepsIntact(db, op.user, op.wallet);
    CloseKeepsHistory(db, op.user, op.wallet);
  }

  lemma ActKeepsGood(db: Db, op: Op)
    requires Good(db) && !op.Intend? && Fresh(db, op) && Plan(db, op).Commit?
    ensures var after := Apply(db, Plan(db, op).writes); Good(after) && Grows(db, after)
  {
    match op
    case Send(_, _, _, _) => SendKeepsGood(db, op);
    case Undo(_, _, _, _, _) => UndoKeepsGood(db, op);
    case Settle(provider, e, txId) =>
      SettleKeepsIntact(db, provider, e, txId, Plan(db, op).writes);
      SettleKeepsHistory(db, provider, e, txId, Plan(db, op).writes);
    case Open(_, _, _) => OpenKeepsGood(db, op);
    case Close(_, _) => CloseKeepsGood(db, op);
  }

  /** No operation writes beneficiaries. */
  lemma OperationsLeaveBeneficiaries(db: Db, op: Op)
    requires Plan(db, op).Commit?
    ensures Plan(db, op).writes.beneficiaries == map[]
  {}

  /** Every committed step keeps the invariant and only adds to history. */
  lemma StepKeepsGood(db: Db, s: Step)
    requires Good(db) && Enabled(db, s)
    ensures Good(Next(db, s)) && Grows(db, Next(db, s))
  {
    match s
    case Act(op, read) => ActingKeepsGood(db, op, read);
    case Refuse(op, read) =>
      RefusalRows(read, op);
      RefusingKeepsGood(db, ClaimOf(op), DigestOf(op), Plan(read, op).reply.reason);
    case NewIntent(op, read) => IntentKeepsGood(db, op, read);
    case EditBeneficiaries(list) => ListChangeKeepsGood(db, Next(db, s));
  }

  lemma ActingKeepsGood(db: Db, op: Op, read: Db)
    requires Good(db) && Enabled(db, Act(op, read))
    ensures Good(Next(db, Act(op, read))) && Grows(db, Next(db, Act(op, read)))
  {
    hide Plan, Intact, Accounted, SameWallet, Kept;
    var view := View(db, read);
    var w := Plan(view, op).writes;
    ListChangeKeepsGood(db, view);
    ActKeepsGood(view, op);
    OperationsLeaveBeneficiaries(view, op);
    Untouched(view, w);
    Untouched(db, w);
    assert Apply(db, w) == Apply(view, w).(beneficiaries := db.beneficiaries);
    ListChangeKeepsGood(Apply(view, w), Apply(db, w));
    GrowsTransitively(db, view, Apply(view, w));
    GrowsTransitively(db, Apply(view, w), Apply(db, w));
  }
}
