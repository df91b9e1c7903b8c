/** The answer to every verified callback and to every intent, read off the tables. */
module PaymentVerdicts {
  import opened Domain
  import opened Amounts
  import opened Store
  import opened Posting
  import opened Plans
  import opened Ledger
  import opened Business
  import opened Operations
  import opened PaymentSteps
  import opened Frames
  import opened Eligibility
  import opened Verdicts

  // ---------------------------------------------------------------- callbacks

  ghost predicate Known(db: Db, provider: Provider, e: Evidence) {
    e.reference in db.payments && db.payments[e.reference].provider == provider
  }

  /** The evidence names a payment of this provider, its amount and its currency. */
  ghost predicate Matches(db: Db, provider: Provider, e: Evidence) {
    && Known(db, provider, e) && e.amountText == Print(db.payments[e.reference].amount)
    && e.currency == db.payments[e.reference].currency
  }

  /** Matching evidence under an unused event id. */
  ghost predicate IsNew(db: Db, provider: Provider, e: Evidence) {
    Matches(db, provider, e) && EventKey(provider, e.event) !in db.events
  }

  /** The payment takes its outcome from this evidence. */
  ghost predicate Decides(db: Db, provider: Provider, e: Evidence) {
    IsNew(db, provider, e) && db.payments[e.reference].status == PENDING
  }

  ghost predicate ClearingHasRoom(db: Db, p: Payment) {
    Clearing(p.currency) in db.books.accounts && db.books.accounts[Clearing(p.currency)].balance - p.amount >= MIN_MINOR_UNITS
  }

  ghost predicate IsActive(db: Db, w: Uuid) {
    w in db.books.wallets && db.books.wallets[w].status == ACTIVE
  }

  ghost predicate WalletHasRoom(db: Db, p: Payment) {
    IsActive(db, p.wallet) && db.books.wallets[p.wallet].balance + p.amount <= MAX_MINOR_UNITS
  }

  /** The condition that fails, for each reason a callback can be refused for. */
  ghost predicate Rejects(db: Db, provider: Provider, e: Evidence, reason: Reason) {
    match reason
    case UnknownReference => !Known(db, provider, e)
    case EvidenceMismatch => Known(db, provider, e) && !Matches(db, provider, e)
    case EventIdentityReused =>
      Matches(db, provider, e) && EventKey(provider, e.event) in db.events
      && (db.events[EventKey(provider, e.event)].payload != e.payload || db.events[EventKey(provider, e.event)].payment != e.reference)
    case ConflictingOutcome =>
      IsNew(db, provider, e) && db.payments[e.reference].status == if e.succeeded then FAILED else SUCCEEDED
    case WalletNotActive =>
      Decides(db, provider, e) && e.succeeded && ClearingHasRoom(db, db.payments[e.reference]) && !IsActive(db, db.payments[e.reference].wallet)
    case BalanceOutOfRange =>
      Decides(db, provider, e) && e.succeeded
      && (ClearingHasRoom(db, db.payments[e.reference]) ==>
            IsActive(db, db.payments[e.reference].wallet) && !WalletHasRoom(db, db.payments[e.reference]))
    case _ => false
  }

  /** The amount came from the clearing account into the wallet; no other balance changed. */
  ghost predicate Funded(b: Books, after: Books, p: Payment) {
    && p.wallet in b.wallets && b.wallets[p.wallet].account in b.accounts && Clearing(p.currency) in b.accounts
    && b.wallets[p.wallet].account != Clearing(p.currency)
    && after.wallets == b.wallets[p.wallet := b.wallets[p.wallet].(balance := b.wallets[p.wallet].balance + p.amount)]
    && after.accounts == b.accounts[Clearing(p.currency) := Plus(b.accounts[Clearing(p.currency)], -(p.amount as int))]
                                   [b.wallets[p.wallet].account := Plus(b.accounts[b.wallets[p.wallet].account], p.amount)]
  }

  function Plus(a: Account, amount: int): Account {
    a.(balance := a.balance + amount)
  }

  /** The payment has the outcome, with its event and its report; on success the wallet has the
      money, and else no book changes. */
  ghost predicate Completed(db: Db, after: Db, provider: Provider, e: Evidence, txId: Uuid) {
    && Decides(db, provider, e)
    && var p, s := db.payments[e.reference], if e.succeeded then SUCCEEDED else FAILED;
    && after == db.(books := after.books,
                    payments := db.payments[e.reference := p.(status := s, transaction := if e.succeeded then Some(txId) else None)],
                    events := db.events[EventKey(provider, e.event) := ProviderEvent(e.reference, e.payload, s)],
                    outbox := db.outbox[OutboxKey(if e.succeeded then PAYMENT_SUCCEEDED else PAYMENT_FAILED, e.reference) := p.user])
    && if e.succeeded then ClearingHasRoom(db, p) && WalletHasRoom(db, p) && Funded(db.books, after.books, p) else after.books == db.books
  }

  /** Only the event is new: it repeats the outcome the payment has. */
  ghost predicate Confirmed(db: Db, after: Db, provider: Provider, e: Evidence) {
    && IsNew(db, provider, e)
    && db.payments[e.reference].status == (if e.succeeded then SUCCEEDED else FAILED)
    && after == db.(events := db.events[EventKey(provider, e.event) := ProviderEvent(e.reference, e.payload, db.payments[e.reference].status)])
  }

  /** The very event is stored already. */
  ghost predicate Repeated(db: Db, after: Db, provider: Provider, e: Evidence) {
    && Matches(db, provider, e) && EventKey(provider, e.event) in db.events
    && db.events[EventKey(provider, e.event)].payload == e.payload && db.events[EventKey(provider, e.event)].payment == e.reference
    && after == db
  }

  /** The answer to a callback: the status the payment ends with, or the reason that holds, and
      then nothing has changed. */
  ghost predicate SettlementAnswered(db: Db, after: Db, provider: Provider, e: Evidence, txId: Uuid, result: Result<Reply>) {
    match result
    case Err(reason) => Rejects(db, provider, e, reason) && after == db
    case Ok(reply) =>
      && (Completed(db, after, provider, e, txId) || Confirmed(db, after, provider, e) || Repeated(db, after, provider, e))
      && reply == Acknowledged(e.reference, after.payments[e.reference].status)
  }

  // ---------------------------------------------------------------- proofs

  lemma FundingRefusal(b: Books, r: PostingRequest, p: Payment, txId: Uuid)
    requires Paired(b) && AccountsSound(b) && WalletsSound(b) && ClearingSound(b, p.currency)
    requires p.wallet in b.wallets && b.wallets[p.wallet].currency == p.currency && 1 <= p.amount <= MAX_MINOR_UNITS
    requires r.postings == TwoPostings(Clearing(p.currency), b.wallets[p.wallet].account, p.amount) && r.currency == p.currency
    requires !r.reference.Text? && (r.description.Some? ==> |r.description.value| <= 255) && !ReferenceUsed(b, r.reference)
    requires PlanPost(b, r, txId).Err?
    ensures PlanPost(b, r, txId).reason ==
              if b.accounts[Clearing(p.currency)].balance - p.amount >= MIN_MINOR_UNITS && b.wallets[p.wallet].status != ACTIVE
              then WalletNotActive else BalanceOutOfRange
    ensures b.accounts[Clearing(p.currency)].balance - p.amount >= MIN_MINOR_UNITS && b.wallets[p.wallet].status == ACTIVE ==>
              b.wallets[p.wallet].balance + p.amount > MAX_MINOR_UNITS
  {
    hide PlanPost, CheckedBalance, ReferenceUsed;
    FundingLegs(b, p);
    hide Paired, AccountsSound, WalletsSound, ClearingSound;
    PairRefusal(b, r, Clearing(p.currency), b.wallets[p.wallet].account, p.amount, txId);
  }

  lemma FundingLegs(b: Books, p: Payment)
    requires Paired(b) && AccountsSound(b) && WalletsSound(b) && ClearingSound(b, p.currency)
    requires p.wallet in b.wallets && b.wallets[p.wallet].currency == p.currency && 1 <= p.amount <= MAX_MINOR_UNITS
    ensures b.wallets[p.wallet].account != Clearing(p.currency) && b.wallets[p.wallet].account in b.accounts && Clearing(p.currency) in b.accounts
    ensures var first, second := CheckedBalance(b, p.currency, Leg(Clearing(p.currency), -(p.amount as int))),
                                 CheckedBalance(b, p.currency, Leg(b.wallets[p.wallet].account, p.amount));
            && (first.Err? <==> b.accounts[Clearing(p.currency)].balance - p.amount < MIN_MINOR_UNITS)
            && (first.Err? ==> first.reason == BalanceOutOfRange)
            && (second.Err? <==> b.wallets[p.wallet].status != ACTIVE || b.wallets[p.wallet].balance + p.amount > MAX_MINOR_UNITS)
            && (second.Err? ==> second.reason == if b.wallets[p.wallet].status != ACTIVE then WalletNotActive else BalanceOutOfRange)
  {
    hide CheckedBalance;
    PostingVerdict(b, p.currency, Leg(Clearing(p.currency), -(p.amount as int)));
    PostingVerdict(b, p.currency, Leg(b.wallets[p.wallet].account, p.amount));
    assert WalletSound(b, p.wallet) && AccountSound(b, b.wallets[p.wallet].account) && AccountSound(b, Clearing(p.currency));
    assert b.accounts[b.wallets[p.wallet].account].wallet == Some(p.wallet);
  }

  lemma MovedMoneyFunds(b: Books, after: Books, reference: Reference, p: Payment, txId: Uuid)
    requires Paired(b) && p.wallet in b.wallets
    requires MoneyMoved(b, after, reference, p.currency, Clearing(p.currency), b.wallets[p.wallet].account, p.amount, txId)
    requires b.accounts[Clearing(p.currency)].kind == SYSTEM
    ensures Funded(b, after, p)
  {
    hide Paired;
    FundedWallet(b, after, p);
    var c, a := Clearing(p.currency), b.wallets[p.wallet].account;
    assert after.accounts == b.accounts[c := Plus(b.accounts[c], -(p.amount as int))][a := Plus(b.accounts[a], p.amount)];
  }

  lemma FundedWallet(b: Books, after: Books, p: Payment)
    requires Paired(b) && p.wallet in b.wallets && Clearing(p.currency) in b.accounts && b.accounts[Clearing(p.currency)].kind == SYSTEM
    requires after.wallets.Keys == b.wallets.Keys
    requires forall w :: w in b.wallets ==>
               after.wallets[w] == b.wallets[w].(balance := b.wallets[w].balance
                                                   + Shift(b.wallets[w].account, Clearing(p.currency), b.wallets[p.wallet].account, p.amount))
    ensures after.wallets == b.wallets[p.wallet := b.wallets[p.wallet].(balance := b.wallets[p.wallet].balance + p.amount)]
  {
    forall v | v in b.wallets && v != p.wallet ensures after.wallets[v] == b.wallets[v] { WalletAccountsDiffer(b, v, p.wallet); }
  }

  /** What the tables say of a payment that is not settled yet. */
  lemma PendingPayment(db: Db, reference: Uuid)
    requires Intact(db) && reference in db.payments && db.payments[reference].status == PENDING
    ensures var p := db.payments[reference];
            && Paired(db.books) && AccountsSound(db.books) && WalletsSound(db.books) && ClearingSound(db.books, p.currency)
            && p.wallet in db.books.wallets && db.books.wallets[p.wallet].currency == p.currency && 1 <= p.amount <= MAX_MINOR_UNITS
            && !ReferenceUsed(db.books, PaymentRef(reference))
  {
    assert PaymentIntact(db, reference);
    UnusedPaymentReference(db, reference);
    assert ClearingSound(db.books, db.payments[reference].currency);
  }

  lemma FundingVerdict(db: Db, provider: Provider, e: Evidence, txId: Uuid)
    requires Intact(db) && txId !in db.books.transactions && Decides(db, provider, e) && e.succeeded
    ensures match PlanSettle(db, provider, e, txId)
            case Commit(reply, w) => reply == Acknowledged(e.reference, SUCCEEDED) && Completed(db, Apply(db, w), provider, e, txId)
            case Rollback(reason) => Rejects(db, provider, e, reason)
  {
    hide Intact, PlanPost, Paired, AccountsSound, WalletsSound, ReferenceUsed, MoneyMoved, Funded, Completed, Apply, SettlementRows, TwoPostings;
    PendingPayment(db, e.reference);
    var p := db.payments[e.reference];
    var posted := PlanPost(db.books, FundingPosting(db, e.reference, p), txId);
    if posted.Err? { FundingRefusal(db.books, FundingPosting(db, e.reference, p), p, txId); }
    else { FundingCompletes(db, provider, e, txId, p); }
  }

  lemma FundingHadRoom(db: Db, provider: Provider, e: Evidence, txId: Uuid, p: Payment)
    requires Intact(db) && Decides(db, provider, e) && p == db.payments[e.reference]
    requires p.wallet in db.books.wallets && PlanPost(db.books, FundingPosting(db, e.reference, p), txId).Ok?
    ensures ClearingHasRoom(db, p) && WalletHasRoom(db, p) && Paired(db.books) && db.books.accounts[Clearing(p.currency)].kind == SYSTEM
  {
    hide Intact, PlanPost, Paired, AccountsSound, WalletsSound, ReferenceUsed, TwoPostings;
    PendingPayment(db, e.reference);
    FundingPosts(db, e.reference, p, txId);
  }

  lemma FundingCompletes(db: Db, provider: Provider, e: Evidence, txId: Uuid, p: Payment)
    requires Intact(db) && txId !in db.books.transactions && Decides(db, provider, e) && e.succeeded && p == db.payments[e.reference]
    requires p.wallet in db.books.wallets && PlanPost(db.books, FundingPosting(db, e.reference, p), txId).Ok?
    ensures Completed(db, Apply(db, SettlementRows(provider, e, p, Some(txId), PlanPost(db.books, FundingPosting(db, e.reference, p), txId).value)),
                      provider, e, txId)
  {
    hide Intact, PlanPost, Paired, MoneyMoved, Funded, SettlementRows, TwoPostings, ClearingHasRoom, WalletHasRoom, Sound;
    FundingHadRoom(db, provider, e, txId, p);
    FundingAccepted(db, e.reference, p, txId);
    var books := PlanPost(db.books, FundingPosting(db, e.reference, p), txId).value;
    SettlementCommits(db, provider, e, Some(txId), books);
    MovedMoneyFunds(db.books, ApplyBooks(db.books, books), PaymentRef(e.reference), p, txId);
  }

  lemma FailureVerdict(db: Db, provider: Provider, e: Evidence, txId: Uuid)
    requires Decides(db, provider, e) && !e.succeeded && db.payments[e.reference].transaction.None?
    ensures match PlanSettle(db, provider, e, txId)
            case Commit(reply, w) => reply == Acknowledged(e.reference, FAILED) && Completed(db, Apply(db, w), provider, e, txId)
            case Rollback(reason) => false
  {
    SettlementCommits(db, provider, e, None, NO_BOOKS);
    NoBooksApplied(db.books);
  }

  lemma EvidenceStored(db: Db, provider: Provider, e: Evidence)
    ensures Apply(db, EventRows(provider, e)) == db.(events := db.events[EventKey(provider, e.event) := ProviderEvent(e.reference, e.payload, Plans.OutcomeOf(e))])
  {
    Untouched(db, EventRows(provider, e));
    AddOne(db.events, EventKey(provider, e.event), ProviderEvent(e.reference, e.payload, Plans.OutcomeOf(e)));
  }

  lemma NothingWritten(db: Db)
    ensures Apply(db, NOTHING) == db
  {
    Untouched(db, NOTHING);
  }

  /** Every answer but the first success or failure. */
  lemma LaterVerdict(db: Db, provider: Provider, e: Evidence, txId: Uuid)
    requires !Decides(db, provider, e)
    ensures match PlanSettle(db, provider, e, txId)
            case Commit(reply, w) => SettlementAnswered(db, Apply(db, w), provider, e, txId, Ok(reply))
            case Rollback(reason) => Rejects(db, provider, e, reason)
  {
    hide Apply, EventRows, PlanPost, Completed, ClearingHasRoom, WalletHasRoom, IsActive, Clearing;
    if IsNew(db, provider, e) { ConfirmationVerdict(db, provider, e, txId); } else { NothingWritten(db); }
  }

  lemma ConfirmationVerdict(db: Db, provider: Provider, e: Evidence, txId: Uuid)
    requires IsNew(db, provider, e) && !Decides(db, provider, e)
    ensures match PlanSettle(db, provider, e, txId)
            case Commit(reply, w) => SettlementAnswered(db, Apply(db, w), provider, e, txId, Ok(reply))
            case Rollback(reason) => Rejects(db, provider, e, reason)
  {
    hide Apply, EventRows, PlanPost, Completed;
    EvidenceStored(db, provider, e);
  }

  /** On intact tables a callback is answered as the tables say, with the reason that holds where it
      is refused. It never loses a race it is not aborted in. */
  lemma SettlementVerdict(db: Db, provider: Provider, e: Evidence, txId: Uuid)
    requires Intact(db) && txId !in db.books.transactions
    ensures match PlanSettle(db, provider, e, txId)
            case Commit(reply, w) => SettlementAnswered(db, Apply(db, w), provider, e, txId, Ok(reply))
            case Rollback(reason) => SettlementAnswered(db, db, provider, e, txId, Err(reason))
  {
    hide PlanSettle, Funded, ClearingHasRoom, WalletHasRoom;
    if !Decides(db, provider, e) { LaterVerdict(db, provider, e, txId); }
    else if e.succeeded { FundingVerdict(db, provider, e, txId); }
    else {
      assert PaymentIntact(db, e.reference);
      FailureVerdict(db, provider, e, txId);
    }
  }

  /** No two reasons hold at once and none where the callback is accepted, so there is one answer. */
  lemma OneSettlementVerdict(db: Db, provider: Provider, e: Evidence, x: Reason, y: Reason)
    requires Rejects(db, provider, e, x) && Rejects(db, provider, e, y)
    ensures x == y
    ensures forall after, txId :: !Completed(db, after, provider, e, txId)
    ensures forall after :: !Confirmed(db, after, provider, e) && !Repeated(db, after, provider, e)
  {}

  // ---------------------------------------------------------------- intents

  /** The payment is the user's under this key. */
  ghost predicate MadeUnder(db: Db, user: Uuid, key: string, p: Uuid) {
    p in db.payments && db.payments[p].user == user && db.payments[p].key == key
  }

  ghost predicate KeyUnused(db: Db, user: Uuid, key: string) {
    forall p :: !MadeUnder(db, user, key, p)
  }

  ghost predicate DenotesAmount(text: string) {
    exists n: nat :: Denotes(text, n)
  }

  ghost predicate OwnsWallet(db: Db, user: Uuid, w: Uuid) {
    w in db.books.wallets && db.books.wallets[w].user == user
  }

  /** Paystack takes naira amounts that JavaScript numbers represent. */
  ghost predicate Provides(provider: Provider, c: Currency, amountText: string) {
    provider == PAYSTACK ==> c == NGN && exists n: nat :: Denotes(amountText, n) && n <= MAX_SAFE_INTEGER
  }

  /** A new intent may be inserted. */
  ghost predicate Insertable(db: Db, user: Uuid, key: string, wallet: Uuid, amountText: string, provider: Provider) {
    && DenotesAmount(amountText) && KeyUnused(db, user, key) && OwnsWallet(db, user, wallet) && IsActive(db, wallet)
    && Provides(provider, db.books.wallets[wallet].currency, amountText)
  }

  /** The condition that fails, for each reason an intent can be refused for. */
  ghost predicate IntentFails(db: Db, user: Uuid, key: string, wallet: Uuid, amountText: string, provider: Provider, reason: Reason) {
    match reason
    case AmountUnsupported => !DenotesAmount(amountText)
    case PaymentKeyReused =>
      DenotesAmount(amountText) && exists p :: MadeUnder(db, user, key, p) && db.payments[p].digest != PaymentDigest(wallet, amountText)
    case PaymentWalletNotFound => DenotesAmount(amountText) && KeyUnused(db, user, key) && !OwnsWallet(db, user, wallet)
    case PaymentWalletInactive =>
      DenotesAmount(amountText) && KeyUnused(db, user, key) && OwnsWallet(db, user, wallet) && !IsActive(db, wallet)
    case PaystackIntentRejected =>
      DenotesAmount(amountText) && KeyUnused(db, user, key) && OwnsWallet(db, user, wallet) && IsActive(db, wallet)
      && !Provides(provider, db.books.wallets[wallet].currency, amountText)
    case _ => false
  }

  /** The intent is new, pending and as asked; no money moved. */
  ghost predicate Inserted(db: Db, after: Db, user: Uuid, key: string, wallet: Uuid, amountText: string, provider: Provider, id: Uuid) {
    && Insertable(db, user, key, wallet, amountText, provider)
    && exists n: nat :: Denotes(amountText, n)
         && after == db.(payments := db.payments[id := Payment(user, wallet, provider, key, PaymentDigest(wallet, amountText), n,
                                                               db.books.wallets[wallet].currency, PENDING, None)])
  }

  /** The answer to an intent: the one made under the key for the same request, a new one, or the
      reason that holds. */
  ghost predicate IntentAnswered(db: Db, after: Db, user: Uuid, key: string, wallet: Uuid, amountText: string, provider: Provider, id: Uuid,
                                 result: Result<Reply>) {
    match result
    case Err(reason) => IntentFails(db, user, key, wallet, amountText, provider, reason) && after == db
    case Ok(reply) =>
      && reply.Intended?
      && if KeyUnused(db, user, key) then reply.payment == id && Inserted(db, after, user, key, wallet, amountText, provider, id)
         else MadeUnder(db, user, key, reply.payment) && db.payments[reply.payment].digest == PaymentDigest(wallet, amountText) && after == db
  }

  lemma IntentVerdict(db: Db, user: Uuid, key: string, wallet: Uuid, amountText: string, provider: Provider, id: Uuid)
    ensures match PlanIntent(db, user, key, wallet, amountText, provider, id)
            case Commit(reply, w) => IntentAnswered(db, Apply(db, w), user, key, wallet, amountText, provider, id, Ok(reply))
            case Rollback(reason) => IntentAnswered(db, db, user, key, wallet, amountText, provider, id, Err(reason))
    ensures Insertable(db, user, key, wallet, amountText, provider) <==>
              (KnownPayment(db, user, key).None? && PlanIntent(db, user, key, wallet, amountText, provider, id).Commit?)
  {
    hide KnownPayment, KeyUnused, MadeUnder, Denotes, Apply, AcceptedAmount, AcceptedPaystackAmount;
    AcceptedTextsDenote(amountText);
    NothingWritten(db);
    KnownExactlyWhenUsed(db, user, key);
    if PlanIntent(db, user, key, wallet, amountText, provider, id).Commit? && KnownPayment(db, user, key).None? {
      var p := PlanIntent(db, user, key, wallet, amountText, provider, id).writes.payments[id];
      IntentInserted(db, id, p);
    }
  }

  lemma IntentInserted(db: Db, id: Uuid, p: Payment)
    ensures Apply(db, NOTHING.(payments := map[id := p])) == db.(payments := db.payments[id := p])
  {
    Untouched(db, NOTHING.(payments := map[id := p]));
    AddOne(db.payments, id, p);
  }

  lemma KnownExactlyWhenUsed(db: Db, user: Uuid, key: string)
    ensures KnownPayment(db, user, key).None? <==> KeyUnused(db, user, key)
    ensures KnownPayment(db, user, key).Some? ==> MadeUnder(db, user, key, KnownPayment(db, user, key).value)
  {
    forall p | MadeUnder(db, user, key, p) ensures KnownPayment(db, user, key).Some? { assert p in db.payments; }
    if KnownPayment(db, user, key).Some? { assert MadeUnder(db, user, key, KnownPayment(db, user, key).value); }
  }
}
