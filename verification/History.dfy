/** Balances equal business history: what a wallet holds is what was opened, funded and
    transferred, and the clearing accounts hold the opposite of openings and fundings. */
module History {
  import opened Sums
  import opened Domain
  import opened Store
  import opened Plans
  import opened Ledger
  import opened Business
  import opened Operations
  import opened TransferSteps
  import opened ReversalSteps
  import opened PaymentSteps
  import opened WalletSteps

  // ---------------------------------------------------------------- the history

  /** Postings of migrated opening balances to an account. */
  ghost function OpeningFlow(b: Books, a: Uuid): map<Uuid, int> {
    map t | t in b.transactions :: if b.transactions[t].reference.OpeningRef? then Get(b.transactions[t].postings, a) else 0
  }

  /** What a transfer contributes to a wallet once reversals are accounted for. */
  ghost function Contribution(db: Db, t: Uuid, w: Uuid): int
    requires t in db.transfers
  {
    if t in db.reversals then 0
    else if db.transfers[t].destination == w then db.transfers[t].amount
    else if db.transfers[t].source == w then -(db.transfers[t].amount as int)
    else 0
  }

  ghost function TransferFlow(db: Db, w: Uuid): map<Uuid, int> {
    map t | t in db.transfers :: Contribution(db, t, w)
  }

  ghost function PaymentFlow(db: Db, w: Uuid): map<Uuid, int> {
    map p | p in db.payments :: if db.payments[p].status == SUCCEEDED && db.payments[p].wallet == w then db.payments[p].amount as int else 0
  }

  ghost function FundingFlow(db: Db, c: Currency): map<Uuid, int> {
    map p | p in db.payments :: if db.payments[p].status == SUCCEEDED && db.payments[p].currency == c then db.payments[p].amount as int else 0
  }

  ghost predicate WalletHistory(db: Db, w: Uuid)
    requires w in db.books.wallets
  {
    db.books.wallets[w].balance ==
      Sum(OpeningFlow(db.books, db.books.wallets[w].account)) + Sum(PaymentFlow(db, w)) + Sum(TransferFlow(db, w))
  }

  ghost predicate ClearingHistory(db: Db, c: Currency) {
    Clearing(c) in db.books.accounts
    && db.books.accounts[Clearing(c)].balance == Sum(OpeningFlow(db.books, Clearing(c))) - Sum(FundingFlow(db, c))
  }

  ghost predicate Accounted(db: Db) {
    (forall w :: w in db.books.wallets ==> WalletHistory(db, w)) && (forall c :: ClearingHistory(db, c))
  }

  // ---------------------------------------------------------------- steps

  lemma OpeningsStay(b: Books, after: Books, txId: Uuid, tx: LedgerTransaction, a: Uuid)
    requires txId !in b.transactions && after.transactions == b.transactions[txId := tx] && !tx.reference.OpeningRef?
    ensures Sum(OpeningFlow(after, a)) == Sum(OpeningFlow(b, a))
  {
    assert OpeningFlow(after, a) == OpeningFlow(b, a)[txId := 0];
    SumUpdate(OpeningFlow(b, a), txId, 0);
  }

  /** The balance change of a wallet when money moves between the accounts of two wallets. */
  lemma BetweenWallets(b: Books, after: Books, reference: Reference, c: Currency, source: Uuid, target: Uuid, amount: int, txId: Uuid, w: Uuid)
    requires Paired(b) && source in b.wallets && target in b.wallets && w in b.wallets
    requires MoneyMoved(b, after, reference, c, b.wallets[source].account, b.wallets[target].account, amount, txId)
    ensures source != target
    ensures after.wallets[w].account == b.wallets[w].account
    ensures after.wallets[w].balance == b.wallets[w].balance + if w == target then amount else if w == source then -amount else 0
  {
    if w != source { WalletAccountsDiffer(b, w, source); }
    if w != target { WalletAccountsDiffer(b, w, target); }
  }

  /** The balance change of a wallet when a clearing account funds wallet `target`. */
  lemma FromClearing(b: Books, after: Books, reference: Reference, c: Currency, target: Uuid, amount: int, txId: Uuid, w: Uuid)
    requires Paired(b) && target in b.wallets && w in b.wallets
    requires Clearing(c) in b.accounts && b.accounts[Clearing(c)].kind == SYSTEM
    requires MoneyMoved(b, after, reference, c, Clearing(c), b.wallets[target].account, amount, txId)
    ensures after.wallets[w].account == b.wallets[w].account
    ensures after.wallets[w].balance == b.wallets[w].balance + if w == target then amount else 0
  {
    if w != target { WalletAccountsDiffer(b, w, target); }
  }

  lemma OneMoreTransfer(db: Db, after: Db, id: Uuid, t: Transfer, w: Uuid)
    requires id !in db.transfers && id !in db.reversals && t.source != t.destination
    requires after.transfers == db.transfers[id := t] && after.reversals == db.reversals
    ensures Sum(TransferFlow(after, w)) == Sum(TransferFlow(db, w))
              + if w == t.destination then t.amount as int else if w == t.source then -(t.amount as int) else 0
  {
    var change := if w == t.destination then t.amount as int else if w == t.source then -(t.amount as int) else 0;
    assert TransferFlow(after, w) == TransferFlow(db, w)[id := change];
    SumUpdate(TransferFlow(db, w), id, change);
  }

  lemma OneMoreReversal(db: Db, after: Db, id: Uuid, r: Reversal, w: Uuid)
    requires id in db.transfers && id !in db.reversals
    requires after.transfers == db.transfers && after.reversals == db.reversals[id := r]
    ensures Sum(TransferFlow(after, w)) == Sum(TransferFlow(db, w)) - Contribution(db, id, w)
  {
    assert TransferFlow(after, w) == TransferFlow(db, w)[id := 0];
    SumUpdate(TransferFlow(db, w), id, 0);
  }

  lemma OneMoreSuccess(db: Db, after: Db, id: Uuid, txId: Option<Uuid>, w: Uuid)
    requires id in db.payments && db.payments[id].status == PENDING
    requires after.payments == db.payments[id := db.payments[id].(status := SUCCEEDED, transaction := txId)]
    ensures Sum(PaymentFlow(after, w)) == Sum(PaymentFlow(db, w)) + if w == db.payments[id].wallet then db.payments[id].amount as int else 0
  {
    var change := if w == db.payments[id].wallet then db.payments[id].amount as int else 0;
    assert PaymentFlow(after, w) == PaymentFlow(db, w)[id := change];
    SumUpdate(PaymentFlow(db, w), id, change);
  }

  lemma TransferIsAccounted(db: Db, after: Db, user: Uuid, key: string, r: TransferRequest, source: Uuid, target: Uuid, ids: Ids, w: Uuid)
    requires Paired(db.books) && TransferCommitted(db, after, user, key, r, source, target, ids)
    requires ids.transaction !in db.books.transactions && ids.row !in db.transfers && ids.row !in db.reversals
    requires w in db.books.wallets && WalletHistory(db, w)
    ensures WalletHistory(after, w)
  {
    BetweenWallets(db.books, after.books, TransferRef(ids.row), db.books.wallets[source].currency, source, target, r.amount, ids.transaction, w);
    OpeningsStay(db.books, after.books, ids.transaction, after.books.transactions[ids.transaction], db.books.wallets[w].account);
    OneMoreTransfer(db, after, ids.row, after.transfers[ids.row], w);
    assert PaymentFlow(after, w) == PaymentFlow(db, w);
  }

  lemma ReversalIsAccounted(db: Db, after: Db, actor: Uuid, key: string, transfer: Uuid, reason: Option<string>, ids: Ids, w: Uuid)
    requires Paired(db.books) && ReversalCommitted(db, after, actor, key, transfer, reason, ids)
    requires ids.transaction !in db.books.transactions && transfer !in db.reversals
    requires w in db.books.wallets && WalletHistory(db, w)
    ensures WalletHistory(after, w)
  {
    hide Paired, OpeningFlow, TransferFlow, PairRows;
    var t := db.transfers[transfer];
    BetweenWallets(db.books, after.books, ReversalRef(ids.row), t.currency, t.source, t.destination, -(t.amount as int), ids.transaction, w);
    OpeningsStay(db.books, after.books, ids.transaction, after.books.transactions[ids.transaction], db.books.wallets[w].account);
    OneMoreReversal(db, after, transfer, after.reversals[transfer], w);
    assert PaymentFlow(after, w) == PaymentFlow(db, w);
  }

  lemma SettlementIsAccounted(db: Db, after: Db, provider: Provider, e: Evidence, txId: Uuid, w: Uuid)
    requires Paired(db.books) && SettlementCommitted(db, after, provider, e, Some(txId)) && e.succeeded
    requires txId !in db.books.transactions && db.payments[e.reference].status == PENDING
    requires Funded(db, after, e.reference, txId)
    requires w in db.books.wallets && WalletHistory(db, w)
    ensures WalletHistory(after, w)
  {
    var p := db.payments[e.reference];
    FromClearing(db.books, after.books, PaymentRef(e.reference), p.currency, p.wallet, p.amount, txId, w);
    OpeningsStay(db.books, after.books, txId, after.books.transactions[txId], db.books.wallets[w].account);
    OneMoreSuccess(db, after, e.reference, Some(txId), w);
    SameTransferFlow(db, after, w);
  }

  lemma SameTransferFlow(db: Db, after: Db, w: Uuid)
    requires after.transfers == db.transfers && after.reversals == db.reversals
    ensures TransferFlow(after, w) == TransferFlow(db, w)
  {}

  /** The payment's money left its clearing account for its wallet. */
  ghost predicate Funded(db: Db, after: Db, reference: Uuid, txId: Uuid)
    requires reference in db.payments
  {
    var p := db.payments[reference];
    && p.wallet in db.books.wallets
    && Clearing(p.currency) in db.books.accounts && db.books.accounts[Clearing(p.currency)].kind == SYSTEM
    && MoneyMoved(db.books, after.books, PaymentRef(reference), p.currency, Clearing(p.currency), db.books.wallets[p.wallet].account, p.amount, txId)
  }

  /** Two currencies never share a clearing account, and wallets never use one. */
  lemma ClearingUntouched(db: Db, after: Db, reference: Reference, c: Currency, from: Uuid, to: Uuid, amount: int, txId: Uuid, k: Currency)
    requires MoneyMoved(db.books, after.books, reference, c, from, to, amount, txId)
    requires txId !in db.books.transactions && !reference.OpeningRef?
    requires Clearing(k) !in {from, to} && after.payments == db.payments && ClearingHistory(db, k)
    ensures ClearingHistory(after, k)
  {
    OpeningsStay(db.books, after.books, txId, after.books.transactions[txId], Clearing(k));
    assert FundingFlow(after, k) == FundingFlow(db, k);
  }

  lemma OneMoreFunding(db: Db, after: Db, id: Uuid, txId: Option<Uuid>, c: Currency)
    requires id in db.payments && db.payments[id].status == PENDING
    requires after.payments == db.payments[id := db.payments[id].(status := SUCCEEDED, transaction := txId)]
    ensures Sum(FundingFlow(after, c)) == Sum(FundingFlow(db, c)) + if c == db.payments[id].currency then db.payments[id].amount as int else 0
  {
    var change := if c == db.payments[id].currency then db.payments[id].amount as int else 0;
    assert FundingFlow(after, c) == FundingFlow(db, c)[id := change];
    SumUpdate(FundingFlow(db, c), id, change);
  }

  lemma FundingIsAccounted(db: Db, after: Db, provider: Provider, e: Evidence, txId: Uuid, k: Currency)
    requires Paired(db.books) && SettlementCommitted(db, after, provider, e, Some(txId)) && e.succeeded
    requires txId !in db.books.transactions && db.payments[e.reference].status == PENDING
    requires Funded(db, after, e.reference, txId)
    requires ClearingHistory(db, k) && db.books.accounts[Clearing(k)].kind == SYSTEM
    ensures ClearingHistory(after, k)
  {
    OpeningsStay(db.books, after.books, txId, after.books.transactions[txId], Clearing(k));
    OneMoreFunding(db, after, e.reference, Some(txId), k);
  }

  /** Payments that appear or fail move nothing. */
  ghost predicate NoNewSuccess(db: Db, after: Db) {
    && db.payments.Keys <= after.payments.Keys
    && (forall p :: p in after.payments ==>
          if p in db.payments && db.payments[p].status == SUCCEEDED then after.payments[p] == db.payments[p]
          else after.payments[p].status != SUCCEEDED)
  }

  lemma WalletHistoryUnchanged(db: Db, after: Db, w: Uuid)
    requires after.books.transactions == db.books.transactions && NoNewSuccess(db, after)
    requires after.transfers == db.transfers && after.reversals == db.reversals
    requires w in db.books.wallets && w in after.books.wallets && WalletHistory(db, w)
    requires after.books.wallets[w].account == db.books.wallets[w].account && after.books.wallets[w].balance == db.books.wallets[w].balance
    ensures WalletHistory(after, w)
  {
    assert OpeningFlow(after.books, after.books.wallets[w].account) == OpeningFlow(db.books, db.books.wallets[w].account);
    assert TransferFlow(after, w) == TransferFlow(db, w);
    SumExtends(PaymentFlow(db, w), PaymentFlow(after, w));
  }

  lemma ClearingHistoryUnchanged(db: Db, after: Db, c: Currency)
    requires after.books.transactions == db.books.transactions && NoNewSuccess(db, after)
    requires Clearing(c) in after.books.accounts && ClearingHistory(db, c)
    requires after.books.accounts[Clearing(c)] == db.books.accounts[Clearing(c)]
    ensures ClearingHistory(after, c)
  {
    assert OpeningFlow(after.books, Clearing(c)) == OpeningFlow(db.books, Clearing(c));
    SumExtends(FundingFlow(db, c), FundingFlow(after, c));
  }

  /** Steps that move no money keep the accounts. */
  lemma HistoryFrame(db: Db, after: Db)
    requires Accounted(db) && NoNewSuccess(db, after)
    requires after.books.transactions == db.books.transactions && after.books.accounts == db.books.accounts
    requires after.transfers == db.transfers && after.reversals == db.reversals
    requires after.books.wallets.Keys == db.books.wallets.Keys
    requires forall w :: w in db.books.wallets ==>
               (after.books.wallets[w].account == db.books.wallets[w].account && after.books.wallets[w].balance == db.books.wallets[w].balance)
    ensures Accounted(after)
  {
    forall w | w in after.books.wallets ensures WalletHistory(after, w) {
      assert WalletHistory(db, w);
      WalletHistoryUnchanged(db, after, w);
    }
    forall c ensures ClearingHistory(after, c) {
      assert ClearingHistory(db, c);
      ClearingHistoryUnchanged(db, after, c);
    }
  }

  /** A new wallet has no history. */
  lemma NewWalletHistory(db: Db, after: Db, w: Uuid)
    requires RowsIntact(db) && TransactionsSound(db.books)
    requires after.books.transactions == db.books.transactions && after.payments == db.payments
    requires after.transfers == db.transfers && after.reversals == db.reversals
    requires w !in db.books.wallets && w in after.books.wallets && after.books.wallets[w].account !in db.books.accounts
    requires after.books.wallets[w].balance == 0
    ensures WalletHistory(after, w)
  {
    hide RecordIntact, AuditIntact;
    var a := after.books.wallets[w].account;
    forall t | t in OpeningFlow(after.books, a) ensures OpeningFlow(after.books, a)[t] == 0 { assert TransactionSound(db.books, t); }
    SumZero(OpeningFlow(after.books, a));
    forall p | p in PaymentFlow(after, w) ensures PaymentFlow(after, w)[p] == 0 { assert PaymentIntact(db, p); }
    SumZero(PaymentFlow(after, w));
    forall t | t in TransferFlow(after, w) ensures TransferFlow(after, w)[t] == 0 { assert TransferIntact(db, t); }
    SumZero(TransferFlow(after, w));
  }

  lemma {:induction false} SumExtends<K>(m: map<K, int>, n: map<K, int>)
    requires m.Keys <= n.Keys
    requires forall k :: k in n ==> n[k] == if k in m then m[k] else 0
    ensures Sum(n) == Sum(m)
    decreases |n|
  {
    if k :| k in n && k !in m {
      assert |n - {k}| < |n|;
      SumExtends(m, n - {k});
      SumRemove(n, k);
    } else {
      assert m == n;
    }
  }

  /** What an account was opened with never changes. */
  lemma OpeningsAreConstant(db: Db, after: Db, a: Uuid)
    requires Kept(db.books.transactions, after.books.transactions) && NoNewOpenings(db.books, after.books)
    ensures Sum(OpeningFlow(after.books, a)) == Sum(OpeningFlow(db.books, a))
  {
    SumExtends(OpeningFlow(db.books, a), OpeningFlow(after.books, a));
  }
}
