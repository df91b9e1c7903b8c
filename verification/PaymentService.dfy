/** The payment service as it runs: intents, and the settlement of verified callbacks with its
    retries. Proved against `PlanIntent` and `PlanSettle`. */
module PaymentService {
  import opened Domain
  import opened Amounts
  import opened Store
  import opened Posting
  import opened Plans
  import opened Operations
  import opened PaymentSteps
  import opened Ledger
  import opened Business
  import opened Runs
  import opened Safety
  import opened Races
  import opened Database
  import opened LedgerService
  import opened TransferService
  import opened PaymentVerdicts

  const ATTEMPTS := 3

  /** The database ends the first `n` attempts. */
  ghost predicate AllAborted(aborted: seq<Option<Reason>>, n: nat)
    requires n <= |aborted|
  {
    forall i :: 0 <= i < n ==> aborted[i].Some?
  }

  /** Attempt `i` is the first that the database does not end. */
  ghost predicate FirstToRun(aborted: seq<Option<Reason>>, i: nat)
    requires i < |aborted|
  {
    aborted[i].None? && AllAborted(aborted, i)
  }

  lemma OneRunsFirst(aborted: seq<Option<Reason>>, n: nat)
    requires n < |aborted| && AllAborted(aborted, n)
    ensures if aborted[n].Some? then AllAborted(aborted, n + 1)
            else !AllAborted(aborted, |aborted|) && forall i :: 0 <= i < |aborted| && FirstToRun(aborted, i) ==> i == n
  {}

  lemma NoneRuns(aborted: seq<Option<Reason>>)
    requires AllAborted(aborted, |aborted|)
    ensures forall i :: 0 <= i < |aborted| ==> !FirstToRun(aborted, i)
  {}

  class PaymentsService {
    const db: Database
    const ledger: LedgerService

    constructor (db: Database, ledger: LedgerService)
      ensures this.db == db && this.ledger == ledger
    {
      this.db, this.ledger := db, ledger;
    }

    /** The funding of a first success, before any other row is written; the transaction's event
        row is inserted earlier in the code, and an error here rolls it back with everything. */
    method Fund(e: Evidence, p: Payment, txId: Uuid) returns (result: Result<Uuid>)
      requires ledger.db == db && Paired(db.Books()) && txId !in db.transactions
      modifies db`accounts, db`wallets, db`transactions
      ensures if p.wallet !in old(db.wallets) || Clearing(p.currency) !in old(db.accounts)
              then result == Err(AccountMissing) && db.Books() == old(db.Books())
              else match PlanPost(old(db.Books()), FundingPosting(old(db.View()), e.reference, p), txId)
                case Ok(w) => result == Ok(txId) && db.Books() == ApplyBooks(old(db.Books()), w)
                case Err(reason) => result == Err(reason) && db.Books() == old(db.Books())
    {
      if p.wallet !in db.wallets || Clearing(p.currency) !in db.accounts { return Err(AccountMissing); }
      result := ledger.PostWithinTransaction(FundingPosting(db.View(), e.reference, p), txId);
    }

    /** The payment leaves PENDING and its outbox event is written. */
    method Complete(provider: Provider, e: Evidence, p: Payment, txId: Option<Uuid>, ghost before: Db, ghost books: Books)
      requires e.reference in before.payments && p == before.payments[e.reference]
      requires db.View() == before.(
                 books := ApplyBooks(before.books, books),
                 events := before.events[EventKey(provider, e.event) := ProviderEvent(e.reference, e.payload, OutcomeOf(e))])
      modifies db`payments, db`outbox
      ensures db.View() == Apply(before, SettlementRows(provider, e, p, txId, books))
    {
      db.payments := db.payments[e.reference := p.(status := OutcomeOf(e), transaction := txId)];
      db.outbox := db.outbox[OutboxKey(if e.succeeded then PAYMENT_SUCCEEDED else PAYMENT_FAILED, e.reference) := p.user];
      SettlementStored(before, provider, e, txId, books);
    }

    /** The settlement transaction; every refusal rolls back. */
    method Settle(provider: Provider, e: Evidence, txId: Uuid) returns (result: Result<Reply>)
      requires ledger.db == db && Paired(db.Books()) && txId !in db.transactions
      modifies db
      ensures match PlanSettle(old(db.View()), provider, e, txId)
              case Commit(reply, w) => result == Ok(reply) && db.View() == Apply(old(db.View()), w)
              case Rollback(reason) => result == Err(reason) && db.View() == old(db.View())
    {
      hide Paired, PlanPost, TwoPostings;
      var before := db.View();
      if e.reference !in db.payments || db.payments[e.reference].provider != provider { return Err(UnknownReference); }
      var p := db.payments[e.reference];
      if Print(p.amount) != e.amountText || p.currency != e.currency { return Err(EvidenceMismatch); }
      var k := EventKey(provider, e.event);
      if k in db.events {
        if db.events[k].payload != e.payload || db.events[k].payment != e.reference { return Err(EventIdentityReused); }
        NothingApplied(before);
        return Ok(Acknowledged(e.reference, p.status));
      }
      if p.status != PENDING && p.status != OutcomeOf(e) { return Err(ConflictingOutcome); }
      db.events := db.events[k := ProviderEvent(e.reference, e.payload, OutcomeOf(e))];
      if p.status != PENDING {
        EvidenceStored(before, provider, e);
        return Ok(Acknowledged(e.reference, p.status));
      }
      ghost var books := NO_BOOKS;
      var funded: Option<Uuid> := None;
      if e.succeeded {
        var posted := Fund(e, p, txId);
        if posted.Err? {
          db.RollbackTo(before);
          return Err(posted.reason);
        }
        funded := Some(txId);
        books := PlanPost(before.books, FundingPosting(before, e.reference, p), txId).value;
      } else { NoBooksApplied(before.books); }
      Complete(provider, e, p, funded, before, books);
      return Ok(Acknowledged(e.reference, OutcomeOf(e)));
    }

    /** Up to three attempts. `meanwhile[i]` are the tables when attempt `i` runs, with whatever
        others committed since the one before; `aborted[i]` is the error by which the database ends
        attempt `i`, if it does. The first attempt it does not end decides; if it ends all three, the
        caller is told to retry, and then nothing was written. */
    method SettleVerified(provider: Provider, e: Evidence, txIds: seq<Uuid>, aborted: seq<Option<Reason>>, meanwhile: seq<Db>,
                          ghost run: seq<Db>, ghost at: seq<nat>)
      returns (result: Result<Reply>)
      requires ledger.db == db && |txIds| == |aborted| == |meanwhile| == ATTEMPTS && Watches(run, at, meanwhile)
      requires forall i :: 0 <= i < ATTEMPTS ==> txIds[i] !in meanwhile[i].books.transactions
      requires forall i :: 0 <= i < ATTEMPTS && aborted[i].Some? ==> LostRace(aborted[i].value)
      modifies db
      ensures forall i :: 0 <= i < ATTEMPTS && FirstToRun(aborted, i) ==>
                SettlementAnswered(meanwhile[i], db.View(), provider, e, txIds[i], result)
      ensures result == Err(SettlementBusy) <==> AllAborted(aborted, ATTEMPTS)
      ensures result == Err(SettlementBusy) ==> db.View() == meanwhile[ATTEMPTS - 1]
      ensures Intact(db.View()) && AtMostOneCredit(db.View(), e.reference)
    {
      hide Run, Watches, Good, Intact, Paired, AtMostOneCredit, PlanSettle, SettlementAnswered, Apply, FirstToRun;
      var attempt := 0;
      while attempt < ATTEMPTS
        invariant 0 <= attempt <= ATTEMPTS
        invariant attempt > 0 ==> db.View() == meanwhile[attempt - 1]
        invariant AllAborted(aborted, attempt)
      {
        db.Meanwhile(meanwhile[attempt]);
        WatchedIsGood(run, at, meanwhile, attempt);
        UnsettledIsSound(meanwhile[attempt], e.reference);
        OneRunsFirst(aborted, attempt);
        var tried: Result<Reply>;
        if aborted[attempt].Some? { tried := Err(aborted[attempt].value); }
        else {
          tried := Settle(provider, e, txIds[attempt]);
          SettlingIsSound(meanwhile[attempt], provider, e, txIds[attempt], tried, db.View());
        }
        if tried.Ok? || !LostRace(tried.reason) { return tried; }
        attempt := attempt + 1;
      }
      NoneRuns(aborted);
      WatchedIsGood(run, at, meanwhile, ATTEMPTS - 1);
      UnsettledIsSound(meanwhile[ATTEMPTS - 1], e.reference);
      return Err(SettlementBusy);
    }

    /** A payment intent, or the one already made under this key. `raced` says that another call
        inserts the key first; the call then looks again, in the tables as they are `meanwhile`, and
        answers what it finds there. */
    method CreateIntent(user: Uuid, key: string, wallet: Uuid, amountText: string, provider: Provider, id: Uuid, raced: bool,
                        meanwhile: Db, ghost run: seq<Db>, ghost at: seq<nat>)
      returns (result: Result<Reply>)
      requires Watches(run, at, [db.View(), meanwhile])
      modifies db
      ensures if raced && Insertable(old(db.View()), user, key, wallet, amountText, provider)
              then db.View() == meanwhile && WinnersAnswer(meanwhile, user, key, PaymentDigest(wallet, amountText), result)
              else IntentAnswered(old(db.View()), db.View(), user, key, wallet, amountText, provider, id, result)
    {
      hide Run;
      ghost var before := db.View();
      WatchedIntents(run, at, before, meanwhile);
      IntentVerdict(before, user, key, wallet, amountText, provider, id);
      hide Run, Watches, IntentAnswered, WinnersAnswer, Apply;
      if !AcceptedAmount(amountText) { return Err(AmountUnsupported); }
      var digest := PaymentDigest(wallet, amountText);
      var existing := FindIntent(user, key);
      if existing.Some? {
        NothingApplied(before);
        return if db.payments[existing.value].digest == digest then Ok(Intended(existing.value)) else Err(PaymentKeyReused);
      }
      if wallet !in db.wallets || db.wallets[wallet].user != user { return Err(PaymentWalletNotFound); }
      if db.wallets[wallet].status != ACTIVE { return Err(PaymentWalletInactive); }
      var c := db.wallets[wallet].currency;
      if provider == PAYSTACK && !(c == NGN && AcceptedPaystackAmount(amountText)) { return Err(PaystackIntentRejected); }
      var payment := Payment(user, wallet, provider, key, digest, Value(amountText), c, PENDING, None);
      assert PlanIntent(before, user, key, wallet, amountText, provider, id) == Commit(Intended(id), NOTHING.(payments := map[id := payment]));
      if raced {
        db.Meanwhile(meanwhile);
        existing := FindIntent(user, key);
        WinnerFound(meanwhile, user, key, digest);
        if existing.None? { return Err(ConcurrentUpdate); }
        return if db.payments[existing.value].digest == digest then Ok(Intended(existing.value)) else Err(PaymentKeyReused);
      }
      IntentInserted(before, id, payment);
      db.payments := db.payments[id := payment];
      return Ok(Intended(id));
    }

    method FindIntent(user: Uuid, key: string) returns (p: Option<Uuid>)
      requires OneIntentPerKey(db.View())
      ensures p == KnownPayment(db.View(), user, key)
    {
      if exists p :: p in db.payments && db.payments[p].user == user && db.payments[p].key == key {
        var found :| found in db.payments && db.payments[found].user == user && db.payments[found].key == key;
        return Some(found);
      }
      return None;
    }
  }

  // ---------------------------------------------------------------- races

  /** What the loser of a key answers: the winner's payment, a conflict, or to retry. */
  ghost predicate WinnersAnswer(db: Db, user: Uuid, key: string, digest: Digest, result: Result<Reply>) {
    && (KeyUnused(db, user, key) ==> result == Err(ConcurrentUpdate))
    && (forall p :: MadeUnder(db, user, key, p) ==>
          result == if db.payments[p].digest == digest then Ok(Intended(p)) else Err(PaymentKeyReused))
  }

  lemma WinnerFound(db: Db, user: Uuid, key: string, digest: Digest)
    requires OneIntentPerKey(db)
    ensures match KnownPayment(db, user, key)
            case None => WinnersAnswer(db, user, key, digest, Err(ConcurrentUpdate))
            case Some(p) =>
              p in db.payments && WinnersAnswer(db, user, key, digest, if db.payments[p].digest == digest then Ok(Intended(p)) else Err(PaymentKeyReused))
  {
    KnownExactlyWhenUsed(db, user, key);
  }

  lemma WatchedIntents(run: seq<Db>, at: seq<nat>, first: Db, later: Db)
    requires Watches(run, at, [first, later])
    ensures OneIntentPerKey(first) && OneIntentPerKey(later)
  {
    WatchedIsGood(run, at, [first, later], 0);
    WatchedIsGood(run, at, [first, later], 1);
  }

  /** At most one ledger transaction credits the payment. */
  ghost predicate AtMostOneCredit(db: Db, p: Uuid) {
    forall t: Uuid, u: Uuid :: Credits(db.books, t, p) && Credits(db.books, u, p) ==> t == u
  }

  lemma CreditsAreFew(db: Db, p: Uuid)
    requires RowsIntact(db)
    ensures AtMostOneCredit(db, p)
  {
    forall t: Uuid, u: Uuid | Credits(db.books, t, p) && Credits(db.books, u, p) ensures t == u {
      assert Explained(db, t) && Explained(db, u);
    }
  }

  lemma UnsettledIsSound(db: Db, p: Uuid)
    requires Good(db)
    ensures Intact(db) && Paired(db.books) && AtMostOneCredit(db, p)
  {
    CreditsAreFew(db, p);
  }

  /** Every attempt answers as the tables say and leaves them sound. */
  lemma SettlingIsSound(before: Db, provider: Provider, e: Evidence, txId: Uuid, result: Result<Reply>, after: Db)
    requires Good(before) && txId !in before.books.transactions
    requires match PlanSettle(before, provider, e, txId)
             case Commit(reply, w) => result == Ok(reply) && after == Apply(before, w)
             case Rollback(reason) => result == Err(reason) && after == before
    ensures Intact(after) && AtMostOneCredit(after, e.reference) && SettlementAnswered(before, after, provider, e, txId, result)
    ensures result.Err? ==> !LostRace(result.reason) && result.reason != SettlementBusy
  {
    hide Good, PlanSettle, Intact, AtMostOneCredit, Paired, SettlementAnswered, Apply;
    UnsettledIsSound(before, e.reference);
    SettlementVerdict(before, provider, e, txId);
    match PlanSettle(before, provider, e, txId) {
      case Commit(reply, w) =>
        SettleKeepsIntact(before, provider, e, txId, w);
        IntactCredits(after, e.reference);
      case Rollback(reason) => RejectionsAreNoRaces(before, before, provider, e, txId, reason);
    }
  }

  lemma RejectionsAreNoRaces(db: Db, after: Db, provider: Provider, e: Evidence, txId: Uuid, reason: Reason)
    requires SettlementAnswered(db, after, provider, e, txId, Err(reason))
    ensures !LostRace(reason) && reason != SettlementBusy
  {}

  lemma IntactCredits(db: Db, p: Uuid)
    requires Intact(db)
    ensures AtMostOneCredit(db, p)
  {
    CreditsAreFew(db, p);
  }

  lemma SettlementStored(db: Db, provider: Provider, e: Evidence, txId: Option<Uuid>, books: Books)
    requires e.reference in db.payments
    ensures var p := db.payments[e.reference];
            Apply(db, SettlementRows(provider, e, p, txId, books)) == db.(
              books := ApplyBooks(db.books, books),
              events := db.events[EventKey(provider, e.event) := ProviderEvent(e.reference, e.payload, OutcomeOf(e))],
              payments := db.payments[e.reference := p.(status := OutcomeOf(e), transaction := txId)],
              outbox := db.outbox[OutboxKey(if e.succeeded then PAYMENT_SUCCEEDED else PAYMENT_FAILED, e.reference) := p.user])
  {
    var p := db.payments[e.reference];
    var w := SettlementRows(provider, e, p, txId, books);
    Untouched(db, w);
    AddOne(db.events, EventKey(provider, e.event), ProviderEvent(e.reference, e.payload, OutcomeOf(e)));
    AddOne(db.payments, e.reference, p.(status := OutcomeOf(e), transaction := txId));
    AddOne(db.outbox, OutboxKey(if e.succeeded then PAYMENT_SUCCEEDED else PAYMENT_FAILED, e.reference), p.user);
  }
}
