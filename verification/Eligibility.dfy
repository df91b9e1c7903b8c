/** Exactly which requests move money, stated on the tables and not on the order of checks. In
    intact states none is refused for an internal inconsistency. */
module Eligibility {
  import opened Domain
  import opened Amounts
  import opened Store
  import opened Posting
  import opened Plans
  import opened Ledger
  import opened Business
  import opened Operations
  import opened Frames
  import opened Decisions
  import Locks
  import Runs

  /** The account can take `amount`: it may post at all, and its new balance is allowed. */
  ghost predicate CanPost(b: Books, c: Currency, a: Uuid, amount: int) {
    && a in b.accounts
    && var account := b.accounts[a];
    && account.currency == c
    && (account.kind == WALLET ==> LinkedWallet(b, account).Some? && LinkedWallet(b, account).value.status == ACTIVE)
    && IsSupported(account.balance + amount)
    && (account.allowNegative || account.balance + amount >= 0)
  }

  /** The account passes the checks of the posting loop. */
  ghost predicate Passes(b: Books, c: Currency, a: Uuid, amount: int) {
    CheckedBalance(b, c, PostingInput(Canonically(a), amount)).Ok?
  }

  lemma PassesExactlyWhenItCan(b: Books, c: Currency, a: Uuid, amount: int)
    requires Paired(b) && AccountsSound(b) && WalletsSound(b)
    ensures Passes(b, c, a, amount) <==> CanPost(b, c, a, amount)
  {
    if a in b.accounts {
      assert AccountSound(b, a);
      if b.accounts[a].wallet.Some? { assert WalletSound(b, b.accounts[a].wallet.value); }
    }
  }

  lemma TwoBalances(b: Books, c: Currency, from: Uuid, to: Uuid, amount: int)
    ensures NextBalances(b, c, TwoPostings(from, to, amount)).Ok? <==> (Passes(b, c, from, -amount) && Passes(b, c, to, amount))
  {
    var ps := TwoPostings(from, to, amount);
    assert ps[..1] == [ps[0]];
    assert [ps[0]][..0] == [];
    assert NextBalances(b, c, []) == Ok(map[]);
    assert NextBalances(b, c, [ps[0]]).Ok? <==> CheckedBalance(b, c, ps[0]).Ok?;
  }

  lemma TwoFound(b: Books, from: Uuid, to: Uuid, amount: int)
    requires from != to
    ensures |FoundAccounts(b, TwoPostings(from, to, amount))| == 2 <==> (from in b.accounts && to in b.accounts)
  {
    var ps, found := TwoPostings(from, to, amount), FoundAccounts(b, TwoPostings(from, to, amount));
    assert ps[0].account.value == from && ps[1].account.value == to;
    assert found == (if from in b.accounts then {from} else {}) + (if to in b.accounts then {to} else {});
  }

  lemma TwoPostingsNormalize(r: PostingRequest, from: Uuid, to: Uuid, amount: int)
    requires r.postings == TwoPostings(from, to, amount) && !r.reference.Text? && from != to
    requires r.description.Some? ==> |r.description.value| <= 255
    ensures Normalized(r).Ok? <==> (amount != 0 && IsSupported(amount) && IsSupported(-amount))
    ensures Normalized(r).Ok? ==> Normalized(r).value.postings == r.postings && Normalized(r).value.currency == r.currency
                                  && Normalized(r).value.reference == r.reference
  {
    NormalizedExactlyWhenAcceptable(r);
    var ps := r.postings;
    assert ps[..1] == [ps[0]];
    assert [ps[0]][..0] == [];
    assert Total([]) == 0 && Total([ps[0]]) == -amount && Total(ps) == 0;
    assert ps[0].account != ps[1].account;
    if Acceptable(r) { assert ps[0].amount == -amount && ps[1].amount == amount; }
  }

  lemma PassingIsFound(b: Books, c: Currency, a: Uuid, amount: int)
    requires Passes(b, c, a, amount)
    ensures a in b.accounts
  {}

  /** A posting between two accounts is accepted exactly when both pass. */
  lemma PairPosts(b: Books, r: PostingRequest, from: Uuid, to: Uuid, amount: int, txId: Uuid)
    requires r.postings == TwoPostings(from, to, amount) && !r.reference.Text? && from != to
    requires r.description.Some? ==> |r.description.value| <= 255
    ensures PlanPost(b, r, txId).Ok? <==>
              (amount != 0 && IsSupported(amount) && IsSupported(-amount) && !ReferenceUsed(b, r.reference)
               && Passes(b, r.currency, from, -amount) && Passes(b, r.currency, to, amount))
  {
    TwoPostingsNormalize(r, from, to, amount);
    TwoFound(b, from, to, amount);
    TwoBalances(b, r.currency, from, to, amount);
    if Passes(b, r.currency, from, -amount) { PassingIsFound(b, r.currency, from, -amount); }
    if Passes(b, r.currency, to, amount) { PassingIsFound(b, r.currency, to, amount); }
  }

  /** An active wallet of this currency that can change by `amount`. */
  ghost predicate CanChange(b: Books, w: Uuid, c: Currency, amount: int) {
    && w in b.wallets && b.wallets[w].status == ACTIVE && b.wallets[w].currency == c
    && 0 <= b.wallets[w].balance + amount <= MAX_MINOR_UNITS
  }

  lemma WalletPasses(b: Books, w: Uuid, c: Currency, amount: int)
    requires Paired(b) && AccountsSound(b) && WalletsSound(b) && w in b.wallets
    ensures Passes(b, c, b.wallets[w].account, amount) <==> CanChange(b, w, c, amount)
  {
    PassesExactlyWhenItCan(b, c, b.wallets[w].account, amount);
    assert WalletSound(b, w) && AccountSound(b, b.wallets[w].account);
    assert b.accounts[b.wallets[w].account].wallet == Some(w);
  }

  lemma ClearingPasses(b: Books, c: Currency, amount: nat)
    requires Paired(b) && AccountsSound(b) && WalletsSound(b) && ClearingSound(b, c)
    ensures Passes(b, c, Clearing(c), -(amount as int)) <==> b.accounts[Clearing(c)].balance - amount >= MIN_MINOR_UNITS
  {
    PassesExactlyWhenItCan(b, c, Clearing(c), -(amount as int));
    assert AccountSound(b, Clearing(c));
  }

  /** A posting between two wallets is accepted exactly when both can change by their part. */
  lemma WalletsPost(b: Books, r: PostingRequest, v: Uuid, w: Uuid, amount: int, txId: Uuid)
    requires v in b.wallets && w in b.wallets && b.wallets[v].account != b.wallets[w].account
    requires Passes(b, r.currency, b.wallets[v].account, -amount) <==> CanChange(b, v, r.currency, -amount)
    requires Passes(b, r.currency, b.wallets[w].account, amount) <==> CanChange(b, w, r.currency, amount)
    requires r.postings == TwoPostings(b.wallets[v].account, b.wallets[w].account, amount) && !r.reference.Text?
    requires r.description.Some? ==> |r.description.value| <= 255
    requires amount != 0 && IsSupported(amount) && IsSupported(-amount) && !ReferenceUsed(b, r.reference)
    ensures PlanPost(b, r, txId).Ok? <==> (CanChange(b, v, r.currency, -amount) && CanChange(b, w, r.currency, amount))
  {
    PairPosts(b, r, b.wallets[v].account, b.wallets[w].account, amount, txId);
  }

  lemma TwoWalletsPass(b: Books, v: Uuid, w: Uuid, c: Currency, amount: int)
    requires Paired(b) && AccountsSound(b) && WalletsSound(b) && v in b.wallets && w in b.wallets && v != w
    ensures b.wallets[v].account != b.wallets[w].account
    ensures Passes(b, c, b.wallets[v].account, -amount) <==> CanChange(b, v, c, -amount)
    ensures Passes(b, c, b.wallets[w].account, amount) <==> CanChange(b, w, c, amount)
  {
    WalletAccountsDiffer(b, v, w);
    WalletPasses(b, v, c, -amount);
    WalletPasses(b, w, c, amount);
  }

  // ---------------------------------------------------------------- transfers

  /** The wallet a request names as its destination, if it names one the sender may use. */
  ghost predicate Names(db: Db, user: Uuid, r: TransferRequest, target: Uuid) {
    if r.beneficiary.Some? then
      && r.beneficiary.value in db.beneficiaries
      && var b := db.beneficiaries[r.beneficiary.value];
         b.owner == user && !b.deleted && b.wallet == target
    else r.destination == Some(target)
  }

  /** A transfer succeeds exactly when the sender owns the source, the destination is another
      wallet, both are active and of one currency, the source holds the amount and the
      destination has room for it. */
  lemma TransferSucceedsExactlyWhen(db: Db, user: Uuid, r: TransferRequest, ids: Ids)
    requires Intact(db) && ids.row !in db.transfers && 1 <= r.amount <= MAX_MINOR_UNITS
    ensures TransferBody(db, user, r, ids).Ok? <==>
              (r.source in db.books.wallets && db.books.wallets[r.source].user == user
               && CanChange(db.books, r.source, db.books.wallets[r.source].currency, -(r.amount as int))
               && exists target :: Names(db, user, r, target) && target != r.source
                    && CanChange(db.books, target, db.books.wallets[r.source].currency, r.amount))
  {
    UnusedTransferReference(db, ids.row);
    RouteFound(db, user, r);
    if Route(db, user, r).Ok? { RoutedTransfer(db, user, r, ids); }
  }

  lemma RouteFound(db: Db, user: Uuid, r: TransferRequest)
    ensures Route(db, user, r).Ok? <==>
              (r.source in db.books.wallets && db.books.wallets[r.source].user == user && db.books.wallets[r.source].status == ACTIVE
               && exists target :: Names(db, user, r, target) && target != r.source && target in db.books.wallets
                    && db.books.wallets[target].status == ACTIVE && db.books.wallets[target].currency == db.books.wallets[r.source].currency)
    ensures Route(db, user, r).Ok? ==> Route(db, user, r).value.0 == r.source && Names(db, user, r, Route(db, user, r).value.1)
    ensures forall x, y :: Names(db, user, r, x) && Names(db, user, r, y) ==> x == y
  {
    if Route(db, user, r).Ok? { assert Names(db, user, r, Route(db, user, r).value.1); }
  }

  lemma RoutedTransfer(db: Db, user: Uuid, r: TransferRequest, ids: Ids)
    requires Sound(db.books) && Route(db, user, r).Ok? && 1 <= r.amount <= MAX_MINOR_UNITS
    requires !ReferenceUsed(db.books, TransferRef(ids.row))
    ensures var (source, target) := Route(db, user, r).value;
            var c := db.books.wallets[source].currency;
            TransferBody(db, user, r, ids).Ok? <==>
              (CanChange(db.books, source, c, -(r.amount as int)) && CanChange(db.books, target, c, r.amount))
  {
    var (source, target) := Route(db, user, r).value;
    TwoWalletsPass(db.books, source, target, db.books.wallets[source].currency, r.amount);
    WalletsPost(db.books, TransferPosting(db, source, target, r.amount, ids.row), source, target, r.amount, ids.transaction);
  }

  // ---------------------------------------------------------------- reversals

  /** A reversal succeeds exactly when the sender asks, it is the first, both wallets are still
      active, the destination still holds the amount and the source has room for it. */
  lemma ReversalSucceedsExactlyWhen(db: Db, actor: Uuid, transfer: Uuid, reason: Option<string>, ids: Ids)
    requires Intact(db) && FreshReversal(db, ids.row)
    ensures ReversalBody(db, actor, transfer, reason, ids).Ok? <==>
              (transfer in db.transfers && transfer !in db.reversals && db.transfers[transfer].sender == actor
               && CanCompensate(db.books, db.transfers[transfer]))
  {
    UnusedReversalReference(db, ids.row);
    if transfer in db.transfers {
      assert TransferIntact(db, transfer);
      ReversibleExactlyWhen(db, actor, transfer);
      if Reversible(db, actor, transfer).Ok? { EligibleReversal(db, actor, transfer, reason, ids); }
    }
  }

  /** The source can take the amount back and the destination can give it. */
  ghost predicate CanCompensate(b: Books, t: Transfer) {
    CanChange(b, t.source, t.currency, t.amount) && CanChange(b, t.destination, t.currency, -(t.amount as int))
  }

  lemma ReversibleExactlyWhen(db: Db, actor: Uuid, transfer: Uuid)
    requires transfer in db.transfers && db.transfers[transfer].completed
    ensures var t := db.transfers[transfer];
            Reversible(db, actor, transfer) == Ok(t) <==>
              (t.sender == actor && transfer !in db.reversals && t.source in db.books.wallets && t.destination in db.books.wallets
               && db.books.wallets[t.source].status == ACTIVE && db.books.wallets[t.destination].status == ACTIVE)
    ensures Reversible(db, actor, transfer).Ok? ==> Reversible(db, actor, transfer).value == db.transfers[transfer]
  {}

  lemma EligibleReversal(db: Db, actor: Uuid, transfer: Uuid, reason: Option<string>, ids: Ids)
    requires Sound(db.books) && transfer in db.transfers && Reversible(db, actor, transfer) == Ok(db.transfers[transfer])
    requires var t := db.transfers[transfer]; t.source != t.destination && 1 <= t.amount <= MAX_MINOR_UNITS
    requires !ReferenceUsed(db.books, ReversalRef(ids.row))
    ensures ReversalBody(db, actor, transfer, reason, ids).Ok? <==> CanCompensate(db.books, db.transfers[transfer])
  {
    ReversalPosts(db.books, ReversalPosting(db, db.transfers[transfer], ids.row), db.transfers[transfer], ids.transaction);
  }

  lemma ReversalPosts(b: Books, r: PostingRequest, t: Transfer, txId: Uuid)
    requires Sound(b) && t.source in b.wallets && t.destination in b.wallets && t.source != t.destination
    requires r.postings == TwoPostings(b.wallets[t.source].account, b.wallets[t.destination].account, -(t.amount as int))
    requires r.currency == t.currency && !r.reference.Text? && (r.description.Some? ==> |r.description.value| <= 255)
    requires 1 <= t.amount <= MAX_MINOR_UNITS && !ReferenceUsed(b, r.reference)
    ensures PlanPost(b, r, txId).Ok? <==> CanCompensate(b, t)
  {
    var amount := -(t.amount as int);
    TwoWalletsPass(b, t.source, t.destination, t.currency, amount);
    CompensationPosts(b, r, t, amount, txId);
  }

  lemma CompensationPosts(b: Books, r: PostingRequest, t: Transfer, amount: int, txId: Uuid)
    requires t.source in b.wallets && t.destination in b.wallets && b.wallets[t.source].account != b.wallets[t.destination].account
    requires Passes(b, r.currency, b.wallets[t.source].account, -amount) <==> CanChange(b, t.source, r.currency, -amount)
    requires Passes(b, r.currency, b.wallets[t.destination].account, amount) <==> CanChange(b, t.destination, r.currency, amount)
    requires r.postings == TwoPostings(b.wallets[t.source].account, b.wallets[t.destination].account, amount)
    requires r.currency == t.currency && !r.reference.Text? && (r.description.Some? ==> |r.description.value| <= 255)
    requires 1 <= t.amount <= MAX_MINOR_UNITS && amount == -(t.amount as int) && !ReferenceUsed(b, r.reference)
    ensures PlanPost(b, r, txId).Ok? <==> CanCompensate(b, t)
  {
    WalletsPost(b, r, t.source, t.destination, amount, txId);
  }

  // ---------------------------------------------------------------- settlement

  /** A pending payment is credited by successful evidence exactly when the evidence matches it
      and is new, its wallet is active with room for the amount, and the clearing account can
      go down by it. */
  lemma FundingSucceedsExactlyWhen(db: Db, provider: Provider, e: Evidence, txId: Uuid)
    requires Sound(db.books) && RowsIntact(db) && e.succeeded && e.reference in db.payments && db.payments[e.reference].status == PENDING
    ensures var p := db.payments[e.reference];
            (PlanSettle(db, provider, e, txId).Commit? <==>
              (p.provider == provider && Clearing(p.currency) in db.books.accounts && Print(p.amount) == e.amountText && p.currency == e.currency
               && EventKey(provider, e.event) !in db.events
               && CanChange(db.books, p.wallet, p.currency, p.amount)
               && db.books.accounts[Clearing(p.currency)].balance - p.amount >= MIN_MINOR_UNITS))
  {
    var p, k := db.payments[e.reference], EventKey(provider, e.event);
    assert PaymentIntact(db, e.reference);
    assert k in db.events ==> EventIntact(db, k);
    UnusedPaymentReference(db, e.reference);
    assert ClearingSound(db.books, p.currency);
    FundingPosts(db, e.reference, p, txId);
    FirstEvidence(db, provider, e, txId);
  }

  /** What the settlement checks, for a payment whose wallet exists. */
  lemma FirstEvidence(db: Db, provider: Provider, e: Evidence, txId: Uuid)
    requires e.succeeded && e.reference in db.payments && db.payments[e.reference].status == PENDING
    requires EventKey(provider, e.event) in db.events ==> db.events[EventKey(provider, e.event)].payment != e.reference
    requires db.payments[e.reference].wallet in db.books.wallets && Clearing(db.payments[e.reference].currency) in db.books.accounts
    ensures var p := db.payments[e.reference];
            (PlanSettle(db, provider, e, txId).Commit? <==>
              (p.provider == provider && Print(p.amount) == e.amountText && p.currency == e.currency
               && EventKey(provider, e.event) !in db.events
               && PlanPost(db.books, FundingPosting(db, e.reference, p), txId).Ok?))
  {}

  lemma FundingPosts(db: Db, reference: Uuid, p: Payment, txId: Uuid)
    requires Paired(db.books) && AccountsSound(db.books) && WalletsSound(db.books) && p.wallet in db.books.wallets && 1 <= p.amount <= MAX_MINOR_UNITS
    requires !ReferenceUsed(db.books, PaymentRef(reference)) && ClearingSound(db.books, p.currency)
    ensures PlanPost(db.books, FundingPosting(db, reference, p), txId).Ok? <==>
              (CanChange(db.books, p.wallet, p.currency, p.amount) && db.books.accounts[Clearing(p.currency)].balance - p.amount >= MIN_MINOR_UNITS)
  {
    var b := db.books;
    assert b.accounts[b.wallets[p.wallet].account].kind == WALLET;
    WalletPasses(b, p.wallet, p.currency, p.amount);
    ClearingPasses(b, p.currency, p.amount);
    PairPosts(b, FundingPosting(db, reference, p), Clearing(p.currency), b.wallets[p.wallet].account, p.amount, txId);
  }

  // ---------------------------------------------------------------- intents

  /** The text is the printed form of a positive 64-bit number. */
  ghost predicate Denotes(text: string, n: nat) {
    1 <= n <= MAX_MINOR_UNITS && text == Print(n)
  }

  lemma AcceptedTextsDenote(text: string)
    ensures AcceptedAmount(text) <==> exists n: nat :: Denotes(text, n)
    ensures forall n: nat :: Denotes(text, n) ==>
              (AcceptedAmount(text) && Value(text) == n && (AcceptedPaystackAmount(text) <==> n <= MAX_SAFE_INTEGER))
  {
    forall n: nat | Denotes(text, n)
      ensures AcceptedAmount(text) && Value(text) == n && (AcceptedPaystackAmount(text) <==> n <= MAX_SAFE_INTEGER)
    {
      AcceptedAmountsAreABijection(text, n);
      AcceptedPaystackAmountsAreABijection(text, n);
    }
    if AcceptedAmount(text) {
      AcceptedAmountsAreABijection(text, Value(text));
      assert Denotes(text, Value(text));
    }
  }

  /** A first call under a key makes an intent exactly for the printed form of a positive 64-bit
      number and an active wallet of the user, and through Paystack only for naira amounts that
      JavaScript numbers represent. */
  lemma IntentSucceedsExactlyWhen(db: Db, op: Op)
    requires op.Intend? && KnownPayment(db, op.user, op.key).None?
    ensures Plan(db, op).Commit? <==>
              (op.wallet in db.books.wallets && db.books.wallets[op.wallet].user == op.user && db.books.wallets[op.wallet].status == ACTIVE
               && exists n: nat :: Denotes(op.amountText, n)
                    && (op.via == PAYSTACK ==> db.books.wallets[op.wallet].currency == NGN && n <= MAX_SAFE_INTEGER))
    ensures Plan(db, op).Commit? ==>
              (op.id in Plan(db, op).writes.payments && Denotes(op.amountText, Plan(db, op).writes.payments[op.id].amount))
  {
    AcceptedTextsDenote(op.amountText);
  }

  // ---------------------------------------------------------------- the one thing read without a lock

  /** A transfer that commits on an old snapshot is the transfer the committed tables would make
      exactly when its destination still resolves the same way there: of all it reads only the
      beneficiary is neither locked nor written. */
  lemma AtomicExactlyWhenBeneficiaryStands(s: Db, c: Db, op: Op)
    requires Paired(s.books) && AllExplained(c)
    requires op.Send? && RecordKey(op.user, InternalTransfer, op.key) !in s.records && op.ids.row !in c.transfers
    requires TransferBody(s, op.user, op.request, op.ids).Ok? && Agree(s, c, Locks.SendLocks(s, op))
    ensures Plan(c, op) == Plan(s, op) <==> DestinationOf(c, op.user, op.request) == DestinationOf(s, op.user, op.request)
  {
    SentStillSends(s, c, op);
    SendLocksItsKey(s, op);
    KeyStillFree(s, c, Locks.SendLocks(s, op), RecordKey(op.user, InternalTransfer, op.key));
    SentTo(s, op);
    var view := Runs.View(c, s);
    SentTo(view, op);
    if DestinationOf(c, op.user, op.request) == DestinationOf(s, op.user, op.request) {
      SameTargetSamePlan(c, view, op, DestinationOf(s, op.user, op.request).value);
    }
    if Plan(c, op) == Plan(s, op) { SentTo(c, op); }
  }

  /** A committed transfer names its destination in its row. */
  lemma SentTo(db: Db, op: Op)
    requires op.Send? && RecordKey(op.user, InternalTransfer, op.key) !in db.records
    requires Plan(db, op).Commit? && Plan(db, op).reply.Sent?
    ensures DestinationOf(db, op.user, op.request).Ok?
    ensures op.ids.row in Plan(db, op).writes.transfers
    ensures Plan(db, op).writes.transfers[op.ids.row].destination == DestinationOf(db, op.user, op.request).value
  {}

  lemma SameTargetSamePlan(c: Db, view: Db, op: Op, target: Uuid)
    requires op.Send? && view == c.(beneficiaries := view.beneficiaries)
    requires DestinationOf(view, op.user, op.request) == Ok(target) == DestinationOf(c, op.user, op.request)
    ensures Plan(c, op) == Plan(view, op)
  {
    assert Route(c, op.user, op.request) == Route(view, op.user, op.request);
  }

  /** It need not stand: with the beneficiary deleted softly in between, every locked row is as the
      snapshot saw it and the snapshot's transfer commits, where an atomic one would be refused. */
  lemma DeletedInBetween(s: Db, c: Db, op: Op)
    requires op.Send? && op.request.beneficiary.Some? && TransferBody(s, op.user, op.request, op.ids).Ok?
    requires var b := op.request.beneficiary.value;
             b in s.beneficiaries && c == s.(beneficiaries := s.beneficiaries[b := s.beneficiaries[b].(deleted := true)])
    ensures ListKept(s.beneficiaries, c.beneficiaries)
    ensures TransferBody(c, op.user, op.request, op.ids) == Err(BeneficiaryNotFound)
    ensures Agree(s, c, Locks.SendLocks(s, op))
  {
    assert Route(s, op.user, op.request).Ok?;
    SameRows(s, c, Locks.SendLocks(s, op));
  }

  /** Editing beneficiaries changes no row a transaction locks. */
  lemma SameRows(s: Db, c: Db, rows: seq<Locks.Row>)
    requires c == s.(beneficiaries := c.beneficiaries)
    ensures Agree(s, c, rows)
  {}
}
