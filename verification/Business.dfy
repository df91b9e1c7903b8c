/** The business invariant: what the commit-time integrity triggers check of each row, the
    one-to-one link between business rows and ledger transactions, and append-only history.
    Every service transaction keeps it. */
module Business {
  import opened Sums
  import opened Domain
  import opened Amounts
  import opened Store
  import opened Posting
  import opened Ledger
  import opened Plans

  // ---------------------------------------------------------------- rows, as the triggers check them

  function PairRows(from: Uuid, to: Uuid, amount: int): map<Uuid, int> {
    map[from := -amount, to := amount]
  }

  /** Transaction `tx` is sealed and moves exactly `amount` between the two accounts. */
  ghost predicate Settled(b: Books, tx: Uuid, reference: Reference, c: Currency, from: Uuid, to: Uuid, amount: int) {
    tx in b.transactions && b.transactions[tx] == LedgerTransaction(reference, c, PairRows(from, to, amount), true)
  }

  ghost predicate WalletIn(b: Books, w: Uuid, c: Currency) {
    w in b.wallets && b.wallets[w].currency == c
  }

  /** A named beneficiary belongs to the sender and points at the destination, deleted or not. */
  ghost predicate NamesBeneficiary(db: Db, sender: Uuid, destination: Uuid, beneficiary: Option<Uuid>) {
    beneficiary.Some? ==>
      beneficiary.value in db.beneficiaries
      && db.beneficiaries[beneficiary.value].owner == sender && db.beneficiaries[beneficiary.value].wallet == destination
  }

  ghost predicate TransferIntact(db: Db, id: Uuid)
    requires id in db.transfers
  {
    var t := db.transfers[id];
    && WalletIn(db.books, t.source, t.currency) && WalletIn(db.books, t.destination, t.currency)
    && t.source != t.destination && 1 <= t.amount <= MAX_MINOR_UNITS && t.completed
    && db.books.wallets[t.source].user == t.sender
    && NamesBeneficiary(db, t.sender, t.destination, t.beneficiary)
    && Settled(db.books, t.transaction, TransferRef(id), t.currency,
               db.books.wallets[t.source].account, db.books.wallets[t.destination].account, t.amount)
    && AuditKey(TRANSFER_CREATED, id) in db.audits && db.audits[AuditKey(TRANSFER_CREATED, id)] == Audit(t.sender, None)
    && OutboxKey(TRANSFER_COMPLETED, id) in db.outbox && db.outbox[OutboxKey(TRANSFER_COMPLETED, id)] == t.sender
  }

  ghost predicate ReversalIntact(db: Db, id: Uuid)
    requires id in db.reversals
  {
    var r := db.reversals[id];
    && id in db.transfers
    && var t := db.transfers[id];
    && r.actor == t.sender && r.currency == t.currency && r.amount == t.amount
    && t.source in db.books.wallets && t.destination in db.books.wallets
    && Settled(db.books, r.transaction, ReversalRef(r.id), t.currency,
               db.books.wallets[t.source].account, db.books.wallets[t.destination].account, -(t.amount as int))
    && AuditKey(TRANSFER_REVERSED, id) in db.audits && db.audits[AuditKey(TRANSFER_REVERSED, id)] == Audit(r.actor, Some(r.id))
    && OutboxKey(TRANSFER_WAS_REVERSED, r.id) in db.outbox && db.outbox[OutboxKey(TRANSFER_WAS_REVERSED, r.id)] == r.actor
  }

  function SettledEvent(s: PaymentStatus): EventType {
    if s == SUCCEEDED then PAYMENT_SUCCEEDED else PAYMENT_FAILED
  }

  ghost predicate HasEvidence(db: Db, id: Uuid, p: Payment) {
    exists k :: (k in db.events && k.provider == p.provider && db.events[k].payment == id && db.events[k].status == p.status)
  }

  ghost predicate PaymentIntact(db: Db, id: Uuid)
    requires id in db.payments
  {
    var p := db.payments[id];
    && WalletIn(db.books, p.wallet, p.currency) && db.books.wallets[p.wallet].user == p.user
    && 1 <= p.amount <= MAX_MINOR_UNITS
    && (p.status == SUCCEEDED <==> p.transaction.Some?)
    && (p.status != PENDING ==>
          HasEvidence(db, id, p)
          && OutboxKey(SettledEvent(p.status), id) in db.outbox && db.outbox[OutboxKey(SettledEvent(p.status), id)] == p.user)
    && (p.status == SUCCEEDED ==>
          Settled(db.books, p.transaction.value, PaymentRef(id), p.currency,
                  Clearing(p.currency), db.books.wallets[p.wallet].account, p.amount))
  }

  ghost predicate EventIntact(db: Db, k: EventKey)
    requires k in db.events
  {
    var e := db.events[k];
    e.payment in db.payments && db.payments[e.payment].provider == k.provider
    && db.payments[e.payment].status == e.status != PENDING
  }

  /** Committed records are terminal and own what they point at. */
  ghost predicate RecordIntact(db: Db, k: RecordKey)
    requires k in db.records
  {
    match db.records[k].state
    case InProgress => false
    case Refused(reason) => IsClientError(reason)
    case Completed(x) =>
      match k.scope
      case InternalTransfer => x in db.transfers && db.transfers[x].sender == k.user
      case TransferReversal => x in db.reversals && db.reversals[x].actor == k.user
  }

  /** The business row a ledger transaction was written for. */
  ghost predicate Explained(db: Db, tx: Uuid)
    requires tx in db.books.transactions
  {
    match db.books.transactions[tx].reference
    case TransferRef(id) => id in db.transfers && db.transfers[id].transaction == tx
    case ReversalRef(id) => exists t :: t in db.reversals && db.reversals[t].id == id && db.reversals[t].transaction == tx
    case PaymentRef(id) => id in db.payments && db.payments[id].transaction == Some(tx)
    case OpeningRef(_) => true
    case Text(_) => false
  }

  /** An audit record names its transfer's sender and, for a reversal, that reversal. */
  ghost predicate AuditIntact(db: Db, k: AuditKey)
    requires k in db.audits
  {
    && k.transfer in db.transfers && db.audits[k].actor == db.transfers[k.transfer].sender
    && (k.action == TRANSFER_CREATED ==> db.audits[k].reversal.None?)
    && (k.action == TRANSFER_REVERSED ==>
          k.transfer in db.reversals && db.audits[k].reversal == Some(db.reversals[k.transfer].id))
  }

  /** An outbox event reports something that happened. */
  ghost predicate EventReported(db: Db, k: OutboxKey) {
    match k.event
    case TRANSFER_COMPLETED => k.aggregate in db.transfers
    case TRANSFER_WAS_REVERSED => exists t :: t in db.reversals && db.reversals[t].id == k.aggregate
    case PAYMENT_SUCCEEDED => k.aggregate in db.payments && db.payments[k.aggregate].status == SUCCEEDED
    case PAYMENT_FAILED => k.aggregate in db.payments && db.payments[k.aggregate].status == FAILED
  }

  ghost predicate CompletedBy(db: Db, k: RecordKey, scope: Scope, x: Uuid) {
    k in db.records && k.scope == scope && db.records[k].state == Completed(x)
  }

  /** Each transfer and each reversal was created under exactly one idempotency key. */
  ghost predicate OneKeyEach(db: Db) {
    && (forall k1, k2, s, x :: CompletedBy(db, k1, s, x) && CompletedBy(db, k2, s, x) ==> k1 == k2)
    && (forall x :: x in db.transfers ==> exists k :: CompletedBy(db, k, InternalTransfer, x))
    && (forall x :: x in db.reversals ==> exists k :: CompletedBy(db, k, TransferReversal, x))
  }

  ghost predicate OneIntentPerKey(db: Db) {
    forall p, q :: (p in db.payments && q in db.payments
      && db.payments[p].user == db.payments[q].user && db.payments[p].key == db.payments[q].key) ==> p == q
  }

  ghost predicate RowsIntact(db: Db) {
    && (forall x :: x in db.transfers ==> TransferIntact(db, x))
    && (forall x :: x in db.reversals ==> ReversalIntact(db, x))
    && (forall x :: x in db.payments ==> PaymentIntact(db, x))
    && (forall k :: k in db.events ==> EventIntact(db, k))
    && (forall k :: k in db.records ==> RecordIntact(db, k))
    && (forall x :: x in db.books.transactions ==> Explained(db, x))
    && (forall k :: k in db.audits ==> AuditIntact(db, k))
    && (forall k :: k in db.outbox ==> EventReported(db, k))
  }

  ghost predicate Intact(db: Db) {
    && Sound(db.books)
    && RowsIntact(db)
    && OneKeyEach(db)
    && OneIntentPerKey(db)
  }

  // ---------------------------------------------------------------- append-only history

  ghost predicate Kept<K, V>(m: map<K, V>, n: map<K, V>) {
    forall k :: k in m ==> k in n && n[k] == m[k]
  }

  ghost predicate SameWallet(v: Wallet, w: Wallet) {
    v.user == w.user && v.account == w.account && v.currency == w.currency && (v.status == CLOSED ==> v == w)
  }

  ghost predicate SamePayment(p: Payment, q: Payment) {
    q == p || (p.status == PENDING && q.status != PENDING && q == p.(status := q.status, transaction := q.transaction))
  }

  /** No transaction added since `b` posts to the account of a wallet that was closed in `b`. */
  ghost predicate ClosedStayQuiet(b: Books, after: Books) {
    forall t, w :: t in after.transactions && t !in b.transactions && w in b.wallets && b.wallets[w].status == CLOSED
      ==> b.wallets[w].account !in after.transactions[t].postings
  }

  /** Opening balances are written by the ledger migration and never after it. */
  ghost predicate NoNewOpenings(b: Books, after: Books) {
    forall t :: t in after.transactions && t !in b.transactions ==> !after.transactions[t].reference.OpeningRef?
  }

  /** Beneficiaries are added, deleted softly and restored; owner and wallet stay. */
  ghost predicate ListKept(m: map<Uuid, Beneficiary>, n: map<Uuid, Beneficiary>) {
    forall k :: k in m ==> k in n && n[k].owner == m[k].owner && n[k].wallet == m[k].wallet
  }

  /** Nothing recorded is lost or rewritten: history only grows, a closed wallet keeps its row,
      and a payment changes only by leaving PENDING. */
  ghost predicate Grows(db: Db, after: Db) {
    && (forall w :: w in db.books.wallets ==> w in after.books.wallets && SameWallet(db.books.wallets[w], after.books.wallets[w]))
    && db.books.accounts.Keys <= after.books.accounts.Keys
    && Kept(db.books.transactions, after.books.transactions)
    && ClosedStayQuiet(db.books, after.books) && NoNewOpenings(db.books, after.books)
    && Kept(db.transfers, after.transfers) && Kept(db.reversals, after.reversals)
    && Kept(db.audits, after.audits) && Kept(db.outbox, after.outbox)
    && Kept(db.records, after.records) && Kept(db.events, after.events)
    && ListKept(db.beneficiaries, after.beneficiaries)
    && (forall p :: p in db.payments ==> p in after.payments && SamePayment(db.payments[p], after.payments[p]))
  }

  lemma GrowsFromItself(db: Db)
    ensures Grows(db, db)
  {}

  lemma GrowsTransitively(a: Db, b: Db, c: Db)
    requires Grows(a, b) && Grows(b, c)
    ensures Grows(a, c)
  {
    forall w | w in a.books.wallets ensures w in c.books.wallets && SameWallet(a.books.wallets[w], c.books.wallets[w]) {
      assert SameWallet(a.books.wallets[w], b.books.wallets[w]);
    }
    forall p | p in a.payments ensures p in c.payments && SamePayment(a.payments[p], c.payments[p]) {
      assert SamePayment(a.payments[p], b.payments[p]);
    }
    QuietTransitively(a.books, b.books, c.books);
  }

  lemma QuietTransitively(a: Books, b: Books, c: Books)
    requires ClosedStayQuiet(a, b) && ClosedStayQuiet(b, c) && Kept(b.transactions, c.transactions)
    requires forall w :: w in a.wallets ==> w in b.wallets && SameWallet(a.wallets[w], b.wallets[w])
    ensures ClosedStayQuiet(a, c)
  {
    forall t, w | t in c.transactions && t !in a.transactions && w in a.wallets && a.wallets[w].status == CLOSED
      ensures a.wallets[w].account !in c.transactions[t].postings
    {
      assert SameWallet(a.wallets[w], b.wallets[w]);
      if t in b.transactions { assert c.transactions[t] == b.transactions[t]; }
    }
  }

  // Each row stays intact while history grows around it.

  lemma TransferStaysIntact(db: Db, after: Db, x: Uuid)
    requires x in db.transfers && TransferIntact(db, x) && Grows(db, after)
    ensures TransferIntact(after, x)
  {
    var t := db.transfers[x];
    assert SameWallet(db.books.wallets[t.source], after.books.wallets[t.source]);
    assert SameWallet(db.books.wallets[t.destination], after.books.wallets[t.destination]);
  }

  lemma ReversalStaysIntact(db: Db, after: Db, x: Uuid)
    requires x in db.reversals && ReversalIntact(db, x) && Grows(db, after)
    ensures ReversalIntact(after, x)
  {
    var t := db.transfers[x];
    assert SameWallet(db.books.wallets[t.source], after.books.wallets[t.source]);
    assert SameWallet(db.books.wallets[t.destination], after.books.wallets[t.destination]);
  }

  lemma PaymentStaysIntact(db: Db, after: Db, x: Uuid)
    requires x in db.payments && PaymentIntact(db, x) && Grows(db, after) && after.payments[x] == db.payments[x]
    ensures PaymentIntact(after, x)
  {
    var p := db.payments[x];
    assert SameWallet(db.books.wallets[p.wallet], after.books.wallets[p.wallet]);
    if p.status != PENDING {
      var k :| k in db.events && k.provider == p.provider && db.events[k].payment == x && db.events[k].status == p.status;
      assert k in after.events && after.events[k] == db.events[k];
    }
  }

  lemma EventStaysIntact(db: Db, after: Db, k: EventKey)
    requires k in db.events && EventIntact(db, k) && Grows(db, after)
    ensures EventIntact(after, k)
  {
    assert SamePayment(db.payments[db.events[k].payment], after.payments[db.events[k].payment]);
  }

  lemma TransactionStaysExplained(db: Db, after: Db, x: Uuid)
    requires x in db.books.transactions && Explained(db, x) && Grows(db, after)
    requires forall p :: p in db.payments ==> PaymentIntact(db, p)
    ensures Explained(after, x)
  {
    match db.books.transactions[x].reference {
      case ReversalRef(id) =>
        var t :| t in db.reversals && db.reversals[t].id == id && db.reversals[t].transaction == x;
        assert t in after.reversals && after.reversals[t] == db.reversals[t];
      case PaymentRef(id) =>
        assert PaymentIntact(db, id);
        assert SamePayment(db.payments[id], after.payments[id]);
      case _ =>
    }
  }

  lemma ReportStaysTrue(db: Db, after: Db, k: OutboxKey)
    requires EventReported(db, k) && Grows(db, after)
    ensures EventReported(after, k)
  {
    match k.event {
      case TRANSFER_WAS_REVERSED =>
        var t :| t in db.reversals && db.reversals[t].id == k.aggregate;
        assert t in after.reversals && after.reversals[t] == db.reversals[t];
      case PAYMENT_SUCCEEDED => assert SamePayment(db.payments[k.aggregate], after.payments[k.aggregate]);
      case PAYMENT_FAILED => assert SamePayment(db.payments[k.aggregate], after.payments[k.aggregate]);
      case TRANSFER_COMPLETED =>
    }
  }

  /** A step that grows the history keeps all rows intact once its own new rows are. */
  lemma GrowingKeepsRowsIntact(db: Db, after: Db)
    requires RowsIntact(db) && Grows(db, after)
    requires forall x :: x in after.transfers && x !in db.transfers ==> TransferIntact(after, x)
    requires forall x :: x in after.reversals && x !in db.reversals ==> ReversalIntact(after, x)
    requires forall x :: x in after.payments && (x in db.payments ==> after.payments[x] != db.payments[x]) ==> PaymentIntact(after, x)
    requires forall k :: k in after.events && k !in db.events ==> EventIntact(after, k)
    requires forall k :: k in after.records && k !in db.records ==> RecordIntact(after, k)
    requires forall x :: x in after.books.transactions && x !in db.books.transactions ==> Explained(after, x)
    requires forall k :: k in after.audits && k !in db.audits ==> AuditIntact(after, k)
    requires forall k :: k in after.outbox && k !in db.outbox ==> EventReported(after, k)
    ensures RowsIntact(after)
  {
    hide TransferIntact, ReversalIntact, ListKept, SamePayment;
    forall x | x in db.transfers ensures TransferIntact(after, x) { TransferStaysIntact(db, after, x); }
    forall x | x in db.reversals ensures ReversalIntact(after, x) { ReversalStaysIntact(db, after, x); }
    forall x | x in db.payments && after.payments[x] == db.payments[x] ensures PaymentIntact(after, x) {
      PaymentStaysIntact(db, after, x);
    }
    forall k | k in db.events ensures EventIntact(after, k) { EventStaysIntact(db, after, k); }
    forall k | k in db.records ensures RecordIntact(after, k) { assert RecordIntact(db, k); }
    forall x | x in db.books.transactions ensures Explained(after, x) { TransactionStaysExplained(db, after, x); }
    forall k | k in db.audits ensures AuditIntact(after, k) { assert AuditIntact(db, k); }
    forall k | k in db.outbox ensures EventReported(after, k) { ReportStaysTrue(db, after, k); }
  }

  // ---------------------------------------------------------------- what two postings do

  function Shift(account: Uuid, from: Uuid, to: Uuid, amount: int): int {
    if account == from then -amount else if account == to then amount else 0
  }

  /** `amount` moved from one account to the other, and nothing else changed but the log. */
  ghost predicate MoneyMoved(b: Books, after: Books, reference: Reference, c: Currency,
                             from: Uuid, to: Uuid, amount: int, txId: Uuid) {
    && from != to && from in b.accounts && to in b.accounts
    && after.transactions == b.transactions[txId := LedgerTransaction(reference, c, PairRows(from, to, amount), true)]
    && after.accounts.Keys == b.accounts.Keys
    && (forall a :: a in b.accounts ==>
          after.accounts[a] == b.accounts[a].(balance := b.accounts[a].balance + Shift(a, from, to, amount)))
    && after.wallets.Keys == b.wallets.Keys
    && (forall w :: w in b.wallets ==>
          after.wallets[w] == b.wallets[w].(balance := b.wallets[w].balance + Shift(b.wallets[w].account, from, to, amount)))
    && (forall w :: w in b.wallets && b.wallets[w].account in {from, to} ==> b.wallets[w].status == ACTIVE)
  }

  lemma TwoRows(from: Uuid, to: Uuid, amount: int)
    ensures PostingRows(TwoPostings(from, to, amount)) == map[from := -amount][to := amount]
  {
    var ps := TwoPostings(from, to, amount);
    assert ps[..1] == [ps[0]];
    assert ps[..1][..0] == [];
    assert PostingRows([ps[0]]) == map[from := -amount];
  }

  lemma AcceptedPair(b: Books, r: PostingRequest, from: Uuid, to: Uuid, amount: int, txId: Uuid)
    requires r.postings == TwoPostings(from, to, amount) && PlanPost(b, r, txId).Ok?
    ensures from != to && from in b.accounts && to in b.accounts && amount != 0 && IsSupported(amount)
    ensures PostingRows(r.postings) == PairRows(from, to, amount)
    ensures var next := NextBalances(b, r.currency, r.postings);
            && next.Ok? && next.value.Keys == {from, to}
            && MovesAccount(b, r.currency, from, -amount, next.value[from])
            && MovesAccount(b, r.currency, to, amount, next.value[to])
  {
    AcceptedPost(b, r, txId);
    TwoRows(from, to, amount);
    assert r.postings[0].account != r.postings[1].account && r.postings[1].amount == amount;
    assert PostingRows(r.postings) == PairRows(from, to, amount);
    var next := NextBalances(b, r.currency, r.postings).value;
    assert from in PostingRows(r.postings) && to in PostingRows(r.postings);
    assert MovesAccount(b, r.currency, from, -amount, next[from]);
    assert MovesAccount(b, r.currency, to, amount, next[to]);
  }

  lemma MovedPair(b: Books, after: Books, reference: Reference, c: Currency, next: map<Uuid, int>,
                  from: Uuid, to: Uuid, amount: int, txId: Uuid)
    requires Paired(b) && WalletsSound(b) && from != to && next.Keys == {from, to}
    requires from in b.accounts && MovesAccount(b, c, from, -amount, next[from])
    requires to in b.accounts && MovesAccount(b, c, to, amount, next[to])
    requires Moved(b, after, c, reference, PairRows(from, to, amount), next, txId)
    ensures MoneyMoved(b, after, reference, c, from, to, amount, txId)
  {
    WalletsOfMovedAccounts(b, after, next, from, to, amount);
  }

  lemma AcceptedPairMoves(b: Books, r: PostingRequest, from: Uuid, to: Uuid, amount: int, txId: Uuid)
    requires Paired(b) && !r.reference.Text?
    requires r.postings == TwoPostings(from, to, amount) && PlanPost(b, r, txId).Ok?
    ensures var next := NextBalances(b, r.currency, r.postings);
            next.Ok? && Moved(b, ApplyBooks(b, PlanPost(b, r, txId).value), r.currency, r.reference, PairRows(from, to, amount), next.value, txId)
  {
    hide Paired, TwoPostings, Moved, PostingRows;
    AcceptedPost(b, r, txId);
    AcceptedPair(b, r, from, to, amount, txId);
    MovingChangesAll(b, r.currency, PostingRows(r.postings), NextBalances(b, r.currency, r.postings).value);
    PostingWritesMove(b, Normalized(r).value, NextBalances(b, r.currency, r.postings).value, txId);
  }

  /** An accepted two-posting request moves exactly `amount`, writes one sealed transaction,
      and finds every wallet it touches active. */
  lemma TwoPostingsMoveMoney(b: Books, r: PostingRequest, from: Uuid, to: Uuid, amount: int, txId: Uuid)
    requires Sound(b) && !r.reference.Text? && txId !in b.transactions
    requires r.postings == TwoPostings(from, to, amount) && PlanPost(b, r, txId).Ok?
    ensures var after := ApplyBooks(b, PlanPost(b, r, txId).value);
            && Sound(after)
            && MoneyMoved(b, after, r.reference, r.currency, from, to, amount, txId)
            && b.accounts[from].currency == r.currency && b.accounts[to].currency == r.currency
            && amount != 0 && IsSupported(amount)
  {
    PostKeepsSound(b, r, txId);
    AcceptedPair(b, r, from, to, amount, txId);
    AcceptedPairMoves(b, r, from, to, amount, txId);
    var next := NextBalances(b, r.currency, r.postings).value;
    MovedPair(b, ApplyBooks(b, PlanPost(b, r, txId).value), r.reference, r.currency, next, from, to, amount, txId);
  }

  lemma WalletsOfMovedAccounts(b: Books, after: Books, next: map<Uuid, int>, from: Uuid, to: Uuid, amount: int)
    requires Paired(b) && WalletsSound(b) && from != to && next.Keys == {from, to}
    requires from in b.accounts && next[from] == b.accounts[from].balance - amount
    requires to in b.accounts && next[to] == b.accounts[to].balance + amount
    requires forall a :: a in {from, to} && b.accounts[a].kind == WALLET ==>
               LinkedWallet(b, b.accounts[a]).Some? && LinkedWallet(b, b.accounts[a]).value.status == ACTIVE
    requires forall w :: w in b.wallets ==>
               (w in after.wallets
                && after.wallets[w] == if b.wallets[w].account in next then b.wallets[w].(balance := next[b.wallets[w].account]) else b.wallets[w])
    ensures forall w :: w in b.wallets ==>
              after.wallets[w] == b.wallets[w].(balance := b.wallets[w].balance + Shift(b.wallets[w].account, from, to, amount))
    ensures forall w :: w in b.wallets && b.wallets[w].account in {from, to} ==> b.wallets[w].status == ACTIVE
  {
    forall w | w in b.wallets
      ensures after.wallets[w] == b.wallets[w].(balance := b.wallets[w].balance + Shift(b.wallets[w].account, from, to, amount))
      ensures b.wallets[w].account in {from, to} ==> b.wallets[w].status == ACTIVE
    {
      assert WalletSound(b, w);
      assert b.accounts[b.wallets[w].account].wallet == Some(w);
    }
  }
}
