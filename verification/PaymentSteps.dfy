/** Payment intents and settlements keep the business invariant and only add to history. */
module PaymentSteps {
  import opened Domain
  import opened Amounts
  import opened Store
  import opened Posting
  import opened Ledger
  import opened Plans
  import opened Business
  import opened Operations

  // ---------------------------------------------------------------- intents

  lemma IntentKeepsIntact(db: Db, id: Uuid, p: Payment)
    requires Intact(db) && id !in db.payments
    requires p.status == PENDING && p.transaction.None? && 1 <= p.amount <= MAX_MINOR_UNITS
    requires WalletIn(db.books, p.wallet, p.currency) && db.books.wallets[p.wallet].user == p.user
    requires KnownPayment(db, p.user, p.key).None?
    ensures var after := Apply(db, NOTHING.(payments := map[id := p]));
            after == db.(payments := db.payments[id := p]) && Intact(after) && Grows(db, after)
  {
    var after := Apply(db, NOTHING.(payments := map[id := p]));
    Untouched(db, NOTHING.(payments := map[id := p]));
    AddOne(db.payments, id, p);
    assert after == db.(payments := db.payments[id := p]);
    IntentKeepsRows(db, after, id, p);
    PaymentAddedKeepsKeys(db, after, id, p);
  }

  lemma PaymentAddedGrows(db: Db, after: Db, id: Uuid, p: Payment)
    requires id !in db.payments && after == db.(payments := db.payments[id := p])
    ensures Grows(db, after)
  {}

  lemma PaymentAddedKeepsKeys(db: Db, after: Db, id: Uuid, p: Payment)
    requires OneKeyEach(db) && OneIntentPerKey(db) && after == db.(payments := db.payments[id := p])
    requires id !in db.payments && KnownPayment(db, p.user, p.key).None?
    ensures OneKeyEach(after) && OneIntentPerKey(after)
  {
    KeysUntouched(db, after);
  }

  lemma IntentKeepsRows(db: Db, after: Db, id: Uuid, p: Payment)
    requires RowsIntact(db) && id !in db.payments && after == db.(payments := db.payments[id := p])
    requires p.status == PENDING && p.transaction.None? && 1 <= p.amount <= MAX_MINOR_UNITS
    requires WalletIn(db.books, p.wallet, p.currency) && db.books.wallets[p.wallet].user == p.user
    ensures RowsIntact(after) && Grows(db, after)
  {
    PaymentAddedGrows(db, after, id, p);
    assert PaymentIntact(after, id);
    GrowingKeepsRowsIntact(db, after);
  }

  /** An accepted intent is a fresh pending payment on an owned wallet in its currency. */
  lemma IntentAccepted(db: Db, op: Op)
    requires op.Intend? && Plan(db, op).Commit? && Plan(db, op).writes != NOTHING
    ensures var p := Payment(op.user, op.wallet, op.via, op.key, PaymentDigest(op.wallet, op.amountText),
                             Value(op.amountText), db.books.wallets[op.wallet].currency, PENDING, None);
            && op.wallet in db.books.wallets && db.books.wallets[op.wallet].user == op.user
            && AcceptedAmount(op.amountText)
            && Plan(db, op).writes == NOTHING.(payments := map[op.id := p])
            && 1 <= p.amount <= MAX_MINOR_UNITS && KnownPayment(db, op.user, op.key).None?
  {
    AcceptedAmountsAreABijection(op.amountText, Value(op.amountText));
  }

  // ---------------------------------------------------------------- settlement

  /** Everything a committed first settlement changes besides the books. */
  ghost predicate SettlementCommitted(db: Db, after: Db, provider: Provider, e: Evidence, txId: Option<Uuid>) {
    && e.reference in db.payments
    && var p := db.payments[e.reference];
    && after == db.(
         books := after.books,
         payments := db.payments[e.reference := p.(status := OutcomeOf(e), transaction := txId)],
         outbox := db.outbox[OutboxKey(SettledEvent(OutcomeOf(e)), e.reference) := p.user],
         events := db.events[EventKey(provider, e.event) := ProviderEvent(e.reference, e.payload, OutcomeOf(e))])
  }

  lemma SettlementCommits(db: Db, provider: Provider, e: Evidence, txId: Option<Uuid>, books: Books)
    requires e.reference in db.payments
    ensures var after := Apply(db, SettlementRows(provider, e, db.payments[e.reference], txId, books));
            SettlementCommitted(db, after, provider, e, txId) && after.books == ApplyBooks(db.books, books)
  {
    var p := db.payments[e.reference];
    var w := SettlementRows(provider, e, p, txId, books);
    Untouched(db, w);
    AddOne(db.payments, e.reference, p.(status := OutcomeOf(e), transaction := txId));
    AddOne(db.outbox, OutboxKey(SettledEvent(OutcomeOf(e)), e.reference), p.user);
    AddOne(db.events, EventKey(provider, e.event), ProviderEvent(e.reference, e.payload, OutcomeOf(e)));
  }

  lemma SettlementGrows(db: Db, after: Db, provider: Provider, e: Evidence, txId: Option<Uuid>)
    requires SettlementCommitted(db, after, provider, e, txId)
    requires db.payments[e.reference].status == PENDING && EventKey(provider, e.event) !in db.events
    requires forall k :: k in db.outbox ==> EventReported(db, k)
    requires Kept(db.books.transactions, after.books.transactions) && ClosedStayQuiet(db.books, after.books) && NoNewOpenings(db.books, after.books)
    requires db.books.accounts.Keys <= after.books.accounts.Keys
    requires forall w :: w in db.books.wallets ==> w in after.books.wallets && SameWallet(db.books.wallets[w], after.books.wallets[w])
    ensures Grows(db, after)
  {
    var k := OutboxKey(SettledEvent(OutcomeOf(e)), e.reference);
    assert k in db.outbox ==> EventReported(db, k);
  }

  lemma SettlementKeepsRows(db: Db, after: Db, provider: Provider, e: Evidence, txId: Option<Uuid>)
    requires RowsIntact(db) && Grows(db, after)
    requires SettlementCommitted(db, after, provider, e, txId)
    requires db.payments[e.reference].provider == provider
    requires e.succeeded <==> txId.Some?
    requires var p := db.payments[e.reference];
             if e.succeeded then
               p.wallet in db.books.wallets
               && after.books.transactions == db.books.transactions[txId.value :=
                    LedgerTransaction(PaymentRef(e.reference), p.currency,
                                      PairRows(Clearing(p.currency), db.books.wallets[p.wallet].account, p.amount), true)]
             else after.books.transactions == db.books.transactions
    ensures RowsIntact(after)
  {
    assert PaymentIntact(db, e.reference);
    SettledRowsAreIntact(db, after, provider, e, txId);
    hide PaymentIntact, EventIntact, Explained, EventReported, TransferIntact, ReversalIntact, RecordIntact, AuditIntact;
    GrowingKeepsRowsIntact(db, after);
  }

  /** The rows of a first settlement. */
  lemma SettledRowsAreIntact(db: Db, after: Db, provider: Provider, e: Evidence, txId: Option<Uuid>)
    requires e.reference in db.payments && PaymentIntact(db, e.reference) && Grows(db, after)
    requires SettlementCommitted(db, after, provider, e, txId)
    requires db.payments[e.reference].provider == provider
    requires e.succeeded <==> txId.Some?
    requires var p := db.payments[e.reference];
             if e.succeeded then
               p.wallet in db.books.wallets
               && after.books.transactions == db.books.transactions[txId.value :=
                    LedgerTransaction(PaymentRef(e.reference), p.currency,
                                      PairRows(Clearing(p.currency), db.books.wallets[p.wallet].account, p.amount), true)]
             else after.books.transactions == db.books.transactions
    ensures PaymentIntact(after, e.reference) && EventIntact(after, EventKey(provider, e.event))
    ensures EventReported(after, OutboxKey(SettledEvent(OutcomeOf(e)), e.reference))
    ensures e.succeeded ==> Explained(after, txId.value)
  {
    var p := db.payments[e.reference];
    assert SameWallet(db.books.wallets[p.wallet], after.books.wallets[p.wallet]);
    assert after.events[EventKey(provider, e.event)].payment == e.reference;
    assert HasEvidence(after, e.reference, after.payments[e.reference]);
  }

  lemma SettlementKeepsKeys(db: Db, after: Db, provider: Provider, e: Evidence, txId: Option<Uuid>)
    requires OneKeyEach(db) && OneIntentPerKey(db) && SettlementCommitted(db, after, provider, e, txId)
    ensures OneKeyEach(after) && OneIntentPerKey(after)
  {
    KeysUntouched(db, after);
  }

  /** Further evidence for a settled payment is recorded and nothing else. */
  lemma EvidenceKeepsIntact(db: Db, provider: Provider, e: Evidence)
    requires Intact(db) && e.reference in db.payments && EventKey(provider, e.event) !in db.events
    requires db.payments[e.reference].provider == provider && db.payments[e.reference].status == OutcomeOf(e)
    ensures var after := Apply(db, EventRows(provider, e));
            && after == db.(events := db.events[EventKey(provider, e.event) := ProviderEvent(e.reference, e.payload, OutcomeOf(e))])
            && Intact(after) && Grows(db, after)
  {
    var after := Apply(db, EventRows(provider, e));
    var k := EventKey(provider, e.event);
    Untouched(db, EventRows(provider, e));
    AddOne(db.events, k, ProviderEvent(e.reference, e.payload, OutcomeOf(e)));
    assert after == db.(events := db.events[k := ProviderEvent(e.reference, e.payload, OutcomeOf(e))]);
    EvidenceKeepsRows(db, after, provider, e);
    KeysUntouched(db, after);
  }

  lemma EvidenceKeepsRows(db: Db, after: Db, provider: Provider, e: Evidence)
    requires RowsIntact(db) && e.reference in db.payments && EventKey(provider, e.event) !in db.events
    requires db.payments[e.reference].provider == provider && db.payments[e.reference].status == OutcomeOf(e)
    requires after == db.(events := db.events[EventKey(provider, e.event) := ProviderEvent(e.reference, e.payload, OutcomeOf(e))])
    ensures RowsIntact(after) && Grows(db, after)
  {
    EventAddedGrows(db, after, EventKey(provider, e.event), ProviderEvent(e.reference, e.payload, OutcomeOf(e)));
    assert EventIntact(after, EventKey(provider, e.event));
    GrowingKeepsRowsIntact(db, after);
  }

  lemma EventAddedGrows(db: Db, after: Db, k: EventKey, row: ProviderEvent)
    requires k !in db.events && after == db.(events := db.events[k := row])
    ensures Grows(db, after)
  {}

  lemma FundingAccepted(db: Db, reference: Uuid, p: Payment, txId: Uuid)
    requires Intact(db) && p.wallet in db.books.wallets && txId !in db.books.transactions
    requires PlanPost(db.books, FundingPosting(db, reference, p), txId).Ok?
    ensures var after := ApplyBooks(db.books, PlanPost(db.books, FundingPosting(db, reference, p), txId).value);
            && Sound(after)
            && MoneyMoved(db.books, after, PaymentRef(reference), p.currency,
                          Clearing(p.currency), db.books.wallets[p.wallet].account, p.amount, txId)
  {
    TwoPostingsMoveMoney(db.books, FundingPosting(db, reference, p), Clearing(p.currency),
                         db.books.wallets[p.wallet].account, p.amount, txId);
  }

  lemma SuccessKeepsIntact(db: Db, provider: Provider, e: Evidence, txId: Uuid)
    requires Intact(db) && txId !in db.books.transactions && e.succeeded
    requires e.reference in db.payments && db.payments[e.reference].provider == provider
    requires db.payments[e.reference].status == PENDING && EventKey(provider, e.event) !in db.events
    requires var p := db.payments[e.reference];
             p.wallet in db.books.wallets && PlanPost(db.books, FundingPosting(db, e.reference, p), txId).Ok?
    ensures var p := db.payments[e.reference];
            var after := Apply(db, SettlementRows(provider, e, p, Some(txId), PlanPost(db.books, FundingPosting(db, e.reference, p), txId).value));
            Intact(after) && Grows(db, after)
  {
    var p := db.payments[e.reference];
    var books := PlanPost(db.books, FundingPosting(db, e.reference, p), txId).value;
    var after := Apply(db, SettlementRows(provider, e, p, Some(txId), books));
    FundingAccepted(db, e.reference, p, txId);
    SettlementCommits(db, provider, e, Some(txId), books);
    MovingGrows(db.books, after.books, PaymentRef(e.reference), p.currency, Clearing(p.currency),
                db.books.wallets[p.wallet].account, p.amount, txId);
    SettlementGrows(db, after, provider, e, Some(txId));
    SettlementKeepsRows(db, after, provider, e, Some(txId));
    SettlementKeepsKeys(db, after, provider, e, Some(txId));
  }

  lemma NoBooksApplied(b: Books)
    ensures ApplyBooks(b, NO_BOOKS) == b
  {
    AddNothing(b.accounts);
    AddNothing(b.wallets);
    AddNothing(b.transactions);
  }

  lemma OutboxReports(db: Db)
    requires RowsIntact(db)
    ensures forall k :: k in db.outbox ==> EventReported(db, k)
  {}

  lemma FailureKeepsIntact(db: Db, provider: Provider, e: Evidence)
    requires Intact(db) && !e.succeeded
    requires e.reference in db.payments && db.payments[e.reference].provider == provider
    requires db.payments[e.reference].status == PENDING && EventKey(provider, e.event) !in db.events
    ensures var after := Apply(db, SettlementRows(provider, e, db.payments[e.reference], None, NO_BOOKS));
            Intact(after) && Grows(db, after) && after.books == db.books
  {
    hide RowsIntact, OneKeyEach, OneIntentPerKey, Sound, Grows;
    var after := Apply(db, SettlementRows(provider, e, db.payments[e.reference], None, NO_BOOKS));
    SettlementCommits(db, provider, e, None, NO_BOOKS);
    NoBooksApplied(db.books);
    OutboxReports(db);
    SettlementGrows(db, after, provider, e, None);
    SettlementKeepsRows(db, after, provider, e, None);
    SettlementKeepsKeys(db, after, provider, e, None);
  }

  /** The four ways a callback commits. */
  lemma SettleCases(db: Db, provider: Provider, e: Evidence, txId: Uuid)
    requires PlanSettle(db, provider, e, txId).Commit?
    ensures e.reference in db.payments && db.payments[e.reference].provider == provider
    ensures var p, w := db.payments[e.reference], PlanSettle(db, provider, e, txId).writes;
            || w == NOTHING
            || (EventKey(provider, e.event) !in db.events && p.status == OutcomeOf(e) && w == EventRows(provider, e))
            || (EventKey(provider, e.event) !in db.events && p.status == PENDING && !e.succeeded
                && w == SettlementRows(provider, e, p, None, NO_BOOKS))
            || (EventKey(provider, e.event) !in db.events && p.status == PENDING && e.succeeded
                && p.wallet in db.books.wallets && PlanPost(db.books, FundingPosting(db, e.reference, p), txId).Ok?
                && w == SettlementRows(provider, e, p, Some(txId), PlanPost(db.books, FundingPosting(db, e.reference, p), txId).value))
  {}

  lemma ReplayKeepsIntact(db: Db)
    requires Intact(db)
    ensures Intact(Apply(db, NOTHING)) && Grows(db, Apply(db, NOTHING))
  {
    Untouched(db, NOTHING);
    GrowsFromItself(db);
  }

  /** Whatever a verified callback commits keeps the invariant. */
  lemma SettleKeepsIntact(db: Db, provider: Provider, e: Evidence, txId: Uuid, w: Db)
    requires Intact(db) && txId !in db.books.transactions
    requires PlanSettle(db, provider, e, txId).Commit? && w == PlanSettle(db, provider, e, txId).writes
    ensures Intact(Apply(db, w)) && Grows(db, Apply(db, w))
  {
    SettleCases(db, provider, e, txId);
    var p := db.payments[e.reference];
    if w == NOTHING { ReplayKeepsIntact(db); }
    else if p.status != PENDING { EvidenceKeepsIntact(db, provider, e); }
    else if !e.succeeded { FailureKeepsIntact(db, provider, e); }
    else { SuccessKeepsIntact(db, provider, e, txId); }
  }
}
