/** What holds in every committed state and along every run. */
module Safety {
  import opened Sums
  import opened Domain
  import opened Amounts
  import opened Store
  import opened Posting
  import opened Plans
  import opened Ledger
  import opened Business
  import opened Operations
  import opened History
  import opened Runs

  // ---------------------------------------------------------------- runs

  /** Whatever a step read before, it read from a state the run went through. */
  ghost predicate Recalls(past: seq<Db>, s: Step) {
    s.EditBeneficiaries? || s.read in past
  }

  /** A step from the last of the states so far. */
  ghost predicate Stepped(past: seq<Db>, after: Db)
    requires |past| > 0
  {
    exists s :: Recalls(past, s) && Enabled(past[|past| - 1], s) && after == Next(past[|past| - 1], s)
  }

  ghost predicate StepsAt(states: seq<Db>, i: nat)
    requires i + 1 < |states|
  {
    Stepped(states[..i + 1], states[i + 1])
  }

  /** Committed states in the order of their commits, from a good start. */
  ghost predicate Run(states: seq<Db>) {
    && |states| > 0 && Good(states[0])
    && (forall i :: 0 <= i < |states| - 1 ==> StepsAt(states, i))
  }

  lemma SteppingKeepsGood(past: seq<Db>, after: Db)
    requires |past| > 0 && Good(past[|past| - 1]) && Stepped(past, after)
    ensures Good(after) && Grows(past[|past| - 1], after)
  {
    var s :| Recalls(past, s) && Enabled(past[|past| - 1], s) && after == Next(past[|past| - 1], s);
    StepKeepsGood(past[|past| - 1], s);
  }

  lemma {:induction false} EveryStateIsGood(states: seq<Db>, i: nat)
    requires Run(states) && i < |states|
    ensures Good(states[i])
  {
    hide Good, StepsAt, Grows;
    if i > 0 {
      EveryStateIsGood(states, i - 1);
      RunSteps(states, i - 1);
    }
  }

  lemma RunSteps(states: seq<Db>, i: nat)
    requires Run(states) && i + 1 < |states| && Good(states[i])
    ensures Good(states[i + 1]) && Grows(states[i], states[i + 1])
  {
    hide Intact;
    assert StepsAt(states, i);
    SteppingKeepsGood(states[..i + 1], states[i + 1]);
  }

  lemma StateGrows(states: seq<Db>, i: nat)
    requires Run(states) && i + 1 < |states|
    ensures Grows(states[i], states[i + 1])
  {
    EveryStateIsGood(states, i);
    RunSteps(states, i);
  }

  /** History only grows: whatever was recorded at `i` is still there, unchanged, at `j`. */
  lemma {:induction false} HistoryOnlyGrows(states: seq<Db>, i: nat, j: nat)
    requires Run(states) && i <= j < |states|
    ensures Grows(states[i], states[j])
  {
    hide Intact, Stepped;
    if i < j {
      HistoryOnlyGrows(states, i, j - 1);
      StateGrows(states, j - 1);
      GrowsTransitively(states[i], states[j - 1], states[j]);
    } else { GrowsFromItself(states[i]); }
  }

  // ---------------------------------------------------------------- the audit script's five checks

  /** Transactions that are unsealed, have fewer than two postings, or do not sum to zero. */
  ghost function UnbalancedOrUnsealed(db: Db): set<Uuid> {
    set t | t in db.books.transactions
          && (!db.books.transactions[t].isSealed || |db.books.transactions[t].postings| < 2 || Sum(db.books.transactions[t].postings) != 0)
  }

  ghost function AccountMismatches(db: Db): set<Uuid> {
    set a | a in db.books.accounts && db.books.accounts[a].balance != Sum(PostedMap(db.books, a))
  }

  /** The script joins wallets to accounts; a wallet without an account would not be reported. */
  ghost function WalletMismatches(db: Db): set<Uuid> {
    set w | w in db.books.wallets && db.books.wallets[w].account in db.books.accounts
          && (db.books.wallets[w].balance != db.books.accounts[db.books.wallets[w].account].balance
              || db.books.wallets[w].currency != db.books.accounts[db.books.wallets[w].account].currency
              || db.books.wallets[w].balance < 0)
  }

  ghost function PostingCurrencyMismatches(db: Db): set<(Uuid, Uuid)> {
    set t, a | t in db.books.transactions && a in db.books.transactions[t].postings && a in db.books.accounts
             && db.books.accounts[a].currency != db.books.transactions[t].currency :: (t, a)
  }

  ghost function PaymentsMissingLedger(db: Db): set<Uuid> {
    set p | p in db.payments && db.payments[p].status == SUCCEEDED
          && (db.payments[p].transaction.None? || db.payments[p].transaction.value !in db.books.transactions
              || !db.books.transactions[db.payments[p].transaction.value].isSealed
              || db.books.transactions[db.payments[p].transaction.value].reference != PaymentRef(p))
  }

  /** All five checks report zero failures in every state of every run; moreover only accounts
      allowed to go negative do, every balance fits 64 bits, and each currency sums to zero. */
  lemma AuditReportsNoFailures(states: seq<Db>, i: nat)
    requires Run(states) && i < |states|
    ensures UnbalancedOrUnsealed(states[i]) == {}
    ensures AccountMismatches(states[i]) == {}
    ensures WalletMismatches(states[i]) == {}
    ensures PostingCurrencyMismatches(states[i]) == {}
    ensures PaymentsMissingLedger(states[i]) == {}
    ensures forall a :: a in states[i].books.accounts ==>
              (IsSupported(states[i].books.accounts[a].balance)
               && (states[i].books.accounts[a].balance >= 0 || states[i].books.accounts[a].allowNegative))
    ensures forall c :: Sum(BalancesIn(states[i].books, c)) == 0
  {
    EveryStateIsGood(states, i);
    BooksPassAudit(states[i]);
    PaymentsPassAudit(states[i]);
  }

  lemma BooksPassAudit(db: Db)
    requires Sound(db.books)
    ensures UnbalancedOrUnsealed(db) == {} && AccountMismatches(db) == {} && WalletMismatches(db) == {}
    ensures PostingCurrencyMismatches(db) == {}
    ensures forall a :: a in db.books.accounts ==>
              (IsSupported(db.books.accounts[a].balance) && (db.books.accounts[a].balance >= 0 || db.books.accounts[a].allowNegative))
    ensures forall c :: Sum(BalancesIn(db.books, c)) == 0
  {
    forall t | t in db.books.transactions ensures t !in UnbalancedOrUnsealed(db) { assert TransactionSound(db.books, t); }
    forall a | a in db.books.accounts
      ensures a !in AccountMismatches(db) && IsSupported(db.books.accounts[a].balance)
      ensures db.books.accounts[a].balance >= 0 || db.books.accounts[a].allowNegative
    { assert AccountSound(db.books, a); }
    forall w | w in db.books.wallets ensures w !in WalletMismatches(db) {
      assert WalletSound(db.books, w) && AccountSound(db.books, db.books.wallets[w].account);
    }
    forall t | t in db.books.transactions
      ensures forall a :: a in db.books.transactions[t].postings ==> db.books.accounts[a].currency == db.books.transactions[t].currency
    { assert TransactionSound(db.books, t); }
    forall c ensures Sum(BalancesIn(db.books, c)) == 0 { assert ClearingSound(db.books, c); }
  }

  lemma PaymentsPassAudit(db: Db)
    requires RowsIntact(db)
    ensures PaymentsMissingLedger(db) == {}
  {
    forall p | p in db.payments ensures p !in PaymentsMissingLedger(db) { assert PaymentIntact(db, p); }
  }

  // ---------------------------------------------------------------- balances and business history

  /** What the account holds by history: its opening postings in `start`. */
  ghost function OpenedWith(start: Db, a: Uuid): int {
    Sum(OpeningFlow(start.books, a))
  }

  lemma OpeningsNeverChange(states: seq<Db>, i: nat, a: Uuid)
    requires Run(states) && i < |states|
    ensures OpenedWith(states[i], a) == OpenedWith(states[0], a)
  {
    HistoryOnlyGrows(states, 0, i);
    OpeningsAreConstant(states[0], states[i], a);
  }

  /** Each wallet holds what its account was opened with at the start of the run, plus its
      successful payments, plus unreversed incoming and minus unreversed outgoing transfers; each
      clearing account holds what it was opened with minus the successful payments of its
      currency. */
  lemma BalancesEqualHistory(states: seq<Db>, i: nat)
    requires Run(states) && i < |states|
    ensures var db := states[i];
            && (forall w :: w in db.books.wallets ==> (db.books.wallets[w].balance ==
                  OpenedWith(states[0], db.books.wallets[w].account) + Sum(PaymentFlow(db, w)) + Sum(TransferFlow(db, w))))
            && (forall c :: Clearing(c) in db.books.accounts && db.books.accounts[Clearing(c)].balance ==
                  OpenedWith(states[0], Clearing(c)) - Sum(FundingFlow(db, c)))
  {
    StateIsAccounted(states, i);
    var db := states[i];
    forall w | w in db.books.wallets
      ensures db.books.wallets[w].balance ==
                OpenedWith(states[0], db.books.wallets[w].account) + Sum(PaymentFlow(db, w)) + Sum(TransferFlow(db, w))
    {
      assert WalletHistory(db, w);
      OpeningsNeverChange(states, i, db.books.wallets[w].account);
    }
    forall c
      ensures Clearing(c) in db.books.accounts && db.books.accounts[Clearing(c)].balance ==
                OpenedWith(states[0], Clearing(c)) - Sum(FundingFlow(db, c))
    {
      assert ClearingHistory(db, c);
      OpeningsNeverChange(states, i, Clearing(c));
    }
  }

  lemma StateIsSound(states: seq<Db>, i: nat)
    requires Run(states) && i < |states|
    ensures Sound(states[i].books)
  {
    hide Run, Sound, Accounted;
    EveryStateIsGood(states, i);
  }

  lemma StateIsAccounted(states: seq<Db>, i: nat)
    requires Run(states) && i < |states|
    ensures Accounted(states[i])
  {
    EveryStateIsGood(states, i);
  }

  // ---------------------------------------------------------------- closed wallets

  /** Once closed, a wallet stays closed and empty, and nothing is ever posted to it again. */
  lemma ClosedWalletsAreFinal(states: seq<Db>, i: nat, j: nat, w: Uuid)
    requires Run(states) && i <= j < |states|
    requires w in states[i].books.wallets && states[i].books.wallets[w].status == CLOSED
    ensures states[i].books.wallets[w].balance == 0
    ensures w in states[j].books.wallets && states[j].books.wallets[w] == states[i].books.wallets[w]
    ensures forall t :: (t in states[j].books.transactions && states[i].books.wallets[w].account in states[j].books.transactions[t].postings)
              ==> t in states[i].books.transactions
  {
    EveryStateIsGood(states, i);
    assert WalletSound(states[i].books, w);
    HistoryOnlyGrows(states, i, j);
    assert SameWallet(states[i].books.wallets[w], states[j].books.wallets[w]);
  }

  // ---------------------------------------------------------------- idempotency

  /** Once a key has a committed record, every later transfer call under it is answered from
      that record and writes nothing: the same request gets the same answer, whatever balances
      have become, and any other request is refused. */
  lemma TransfersReplayForever(states: seq<Db>, i: nat, j: nat, user: Uuid, key: string, r: TransferRequest, ids: Ids)
    requires Run(states) && i <= j < |states| && RecordKey(user, InternalTransfer, key) in states[i].records
    ensures var k := RecordKey(user, InternalTransfer, key);
            var record := states[i].records[k];
            PlanTransfer(states[j], user, key, r, ids) ==
              if record.digest != TransferDigestOf(r) then Rollback(KeyReusedWithOtherRequest)
              else match record.state
                case Refused(reason) => Commit(Failure(reason), NOTHING)
                case Completed(id) => Commit(Sent(id), NOTHING)
                case InProgress => Rollback(StillProcessing)
    ensures !states[i].records[RecordKey(user, InternalTransfer, key)].state.InProgress?
  {
    HistoryOnlyGrows(states, i, j);
    EveryStateIsGood(states, i);
    assert RecordIntact(states[i], RecordKey(user, InternalTransfer, key));
  }

  lemma ReversalsReplayForever(states: seq<Db>, i: nat, j: nat, user: Uuid, key: string, transfer: Uuid, reason: Option<string>, ids: Ids)
    requires Run(states) && i <= j < |states| && RecordKey(user, TransferReversal, key) in states[i].records
    ensures var k := RecordKey(user, TransferReversal, key);
            var record := states[i].records[k];
            PlanReversal(states[j], user, key, transfer, reason, ids) ==
              if record.digest != ReversalDigest(transfer, reason) then Rollback(KeyReusedWithOtherRequest)
              else match record.state
                case Refused(why) => Commit(Failure(why), NOTHING)
                case Completed(id) => Commit(Undone(id), NOTHING)
                case InProgress => Rollback(StillProcessing)
    ensures !states[i].records[RecordKey(user, TransferReversal, key)].state.InProgress?
  {
    HistoryOnlyGrows(states, i, j);
    EveryStateIsGood(states, i);
    assert RecordIntact(states[i], RecordKey(user, TransferReversal, key));
  }

  /** Two requests have one digest exactly when they mean the same: the same wallets and the same
      number, however it was written. */
  lemma DigestsIdentifyRequests(i1: TransferInput, i2: TransferInput)
    requires NormalizeTransfer(i1).Ok? && NormalizeTransfer(i2).Ok?
    ensures AllDigits(i1.amountText) && AllDigits(i2.amountText)
    ensures (TransferDigestOf(NormalizeTransfer(i1).value) == TransferDigestOf(NormalizeTransfer(i2).value)) <==>
              (i1.source == i2.source && i1.destination == i2.destination && i1.beneficiary == i2.beneficiary
               && Value(i1.amountText) == Value(i2.amountText))
    ensures 1 <= NormalizeTransfer(i1).value.amount == Value(i1.amountText) <= MAX_MINOR_UNITS
  {
    PrintThenParse(Value(i1.amountText));
    PrintThenParse(Value(i2.amountText));
  }

  /** Accepted intents have one digest exactly when wallet and number are the same. */
  lemma IntentDigestsIdentify(wallet1: Uuid, text1: string, wallet2: Uuid, text2: string)
    requires AcceptedAmount(text1) && AcceptedAmount(text2)
    ensures PaymentDigest(wallet1, text1) == PaymentDigest(wallet2, text2) <==> (wallet1 == wallet2 && Value(text1) == Value(text2))
  {
    AcceptedAmountsAreABijection(text1, Value(text1));
    AcceptedAmountsAreABijection(text2, Value(text2));
  }

  /** Once a user's key has made a payment intent, every later call under it gets that payment or,
      for another request, a conflict; it never makes a second one. */
  lemma IntentsReplayForever(states: seq<Db>, i: nat, j: nat, p: Uuid, wallet: Uuid, amountText: string, provider: Provider, id: Uuid)
    requires Run(states) && i <= j < |states| && p in states[i].payments && AcceptedAmount(amountText)
    ensures var payment := states[i].payments[p];
            PlanIntent(states[j], payment.user, payment.key, wallet, amountText, provider, id) ==
              if payment.digest == PaymentDigest(wallet, amountText) then Commit(Intended(p), NOTHING) else Rollback(PaymentKeyReused)
  {
    HistoryOnlyGrows(states, i, j);
    OneIntentEach(states, j);
    assert SamePayment(states[i].payments[p], states[j].payments[p]);
    var known := KnownPayment(states[j], states[i].payments[p].user, states[i].payments[p].key);
    assert known == Some(p);
  }

  lemma OneIntentEach(states: seq<Db>, i: nat)
    requires Run(states) && i < |states|
    ensures OneIntentPerKey(states[i])
  {
    EveryStateIsGood(states, i);
  }

  /** Every transfer and every reversal exists under exactly one (user, scope, key). */
  lemma OneResourcePerKey(states: seq<Db>, i: nat, x: Uuid)
    requires Run(states) && i < |states|
    ensures x in states[i].transfers ==> exists k :: CompletedBy(states[i], k, InternalTransfer, x) && k.user == states[i].transfers[x].sender
    ensures x in states[i].reversals ==> exists k :: CompletedBy(states[i], k, TransferReversal, x) && k.user == states[i].reversals[x].actor
    ensures forall k1, k2, s :: CompletedBy(states[i], k1, s, x) && CompletedBy(states[i], k2, s, x) ==> k1 == k2
  {
    EveryStateIsGood(states, i);
    var db := states[i];
    if x in db.transfers {
      var k :| CompletedBy(db, k, InternalTransfer, x);
      assert RecordIntact(db, k);
    }
    if x in db.reversals {
      var k :| CompletedBy(db, k, TransferReversal, x);
      assert RecordIntact(db, k);
    }
  }

  /** A recorded transfer that names a beneficiary names, for good, one of its sender's that points
      at its destination. */
  lemma BeneficiariesOfTransfersStand(states: seq<Db>, i: nat, j: nat, x: Uuid)
    requires Run(states) && i <= j < |states| && x in states[i].transfers
    ensures var t := states[i].transfers[x];
            x in states[j].transfers && states[j].transfers[x] == t && NamesBeneficiary(states[j], t.sender, t.destination, t.beneficiary)
  {
    hide Run;
    RecordedForGood(states, i, j, x);
    RowsStand(states, j);
    assert TransferIntact(states[j], x);
  }

  /** The outbox holds one event for every transfer, reversal and settled payment, and no other. */
  lemma EventsReportWhatHappened(states: seq<Db>, i: nat, x: Uuid)
    requires Run(states) && i < |states|
    ensures var db := states[i];
            && (OutboxKey(TRANSFER_COMPLETED, x) in db.outbox <==> x in db.transfers)
            && (OutboxKey(TRANSFER_WAS_REVERSED, x) in db.outbox <==> exists t :: t in db.reversals && db.reversals[t].id == x)
            && (OutboxKey(PAYMENT_SUCCEEDED, x) in db.outbox <==> x in db.payments && db.payments[x].status == SUCCEEDED)
            && (OutboxKey(PAYMENT_FAILED, x) in db.outbox <==> x in db.payments && db.payments[x].status == PaymentStatus.FAILED)
  {
    RowsStand(states, i);
    RowsReportWhatHappened(states[i], x);
  }

  lemma RowsReportWhatHappened(db: Db, x: Uuid)
    requires RowsIntact(db)
    ensures OutboxKey(TRANSFER_COMPLETED, x) in db.outbox <==> x in db.transfers
    ensures OutboxKey(TRANSFER_WAS_REVERSED, x) in db.outbox <==> exists t :: t in db.reversals && db.reversals[t].id == x
    ensures OutboxKey(PAYMENT_SUCCEEDED, x) in db.outbox <==> x in db.payments && db.payments[x].status == SUCCEEDED
    ensures OutboxKey(PAYMENT_FAILED, x) in db.outbox <==> x in db.payments && db.payments[x].status == PaymentStatus.FAILED
  {
    hide EventIntact, RecordIntact, Explained, AuditIntact, WalletIn, NamesBeneficiary, Settled, HasEvidence;
    forall k | k in db.outbox ensures EventReported(db, k) {}
    assert x in db.transfers ==> TransferIntact(db, x);
    assert x in db.payments ==> PaymentIntact(db, x);
    if t :| t in db.reversals && db.reversals[t].id == x { assert ReversalIntact(db, t); }
  }

  // ---------------------------------------------------------------- reversals

  /** The original and the compensating postings cancel on every account. */
  ghost predicate Cancels(b: Books, original: Uuid, compensation: Uuid) {
    && original in b.transactions && compensation in b.transactions
    && (forall a :: Get(b.transactions[original].postings, a) + Get(b.transactions[compensation].postings, a) == 0)
  }

  lemma ReversalCancels(db: Db, id: Uuid)
    requires id in db.reversals && ReversalIntact(db, id) && TransferIntact(db, id)
    ensures Cancels(db.books, db.transfers[id].transaction, db.reversals[id].transaction)
  {}

  /** There are no other compensations: every transaction with a reversal reference belongs to a
      recorded reversal and cancels its transfer. */
  lemma CompensationsBelongToReversals(states: seq<Db>, i: nat, tx: Uuid)
    requires Run(states) && i < |states|
    requires tx in states[i].books.transactions && states[i].books.transactions[tx].reference.ReversalRef?
    ensures exists t :: (t in states[i].reversals && t in states[i].transfers && states[i].reversals[t].transaction == tx
                         && Cancels(states[i].books, states[i].transfers[t].transaction, tx))
  {
    RowsStand(states, i);
    var db := states[i];
    assert Explained(db, tx);
    var t :| t in db.reversals && db.reversals[t].id == db.books.transactions[tx].reference.id && db.reversals[t].transaction == tx;
    assert ReversalIntact(db, t) && TransferIntact(db, t);
    ReversalCancels(db, t);
  }

  lemma ReversalsStand(states: seq<Db>, i: nat, id: Uuid)
    requires Run(states) && i < |states| && id in states[i].reversals
    ensures ReversalIntact(states[i], id) && TransferIntact(states[i], id)
  {
    EveryStateIsGood(states, i);
  }

  lemma RecordedForGood(states: seq<Db>, i: nat, j: nat, id: Uuid)
    requires Run(states) && i <= j < |states|
    ensures id in states[i].transfers ==> id in states[j].transfers && states[j].transfers[id] == states[i].transfers[id]
    ensures id in states[i].reversals ==> id in states[j].reversals && states[j].reversals[id] == states[i].reversals[id]
    ensures (id in states[i].payments && states[i].payments[id].status != PENDING)
              ==> id in states[j].payments && states[j].payments[id] == states[i].payments[id]
  {
    HistoryOnlyGrows(states, i, j);
    assert id in states[i].payments ==> SamePayment(states[i].payments[id], states[j].payments[id]);
  }

  lemma ReversedTransfersAreRefused(db: Db, actor: Uuid, key: string, transfer: Uuid, reason: Option<string>, ids: Ids)
    requires transfer in db.transfers && transfer in db.reversals && db.transfers[transfer].completed
    requires RecordKey(actor, TransferReversal, key) !in db.records
    ensures var outcome := PlanReversal(db, actor, key, transfer, reason, ids);
            && outcome.Commit?
            && outcome.reply == Failure(if db.transfers[transfer].sender == actor then AlreadyReversed else TransferNotFound)
            && outcome.writes == NOTHING.(records := outcome.writes.records)
  {}

  /** A reversed transfer and its reversal stay as they were, and their postings cancel. */
  lemma ReversalsCompensate(states: seq<Db>, i: nat, j: nat, transfer: Uuid)
    requires Run(states) && i <= j < |states| && transfer in states[i].reversals
    ensures transfer in states[i].transfers && transfer in states[j].transfers && states[j].transfers[transfer] == states[i].transfers[transfer]
    ensures transfer in states[j].reversals && states[j].reversals[transfer] == states[i].reversals[transfer]
    ensures Cancels(states[j].books, states[j].transfers[transfer].transaction, states[j].reversals[transfer].transaction)
  {
    ReversalsStand(states, i, transfer);
    RecordedForGood(states, i, j, transfer);
    ReversalsStand(states, j, transfer);
    ReversalCancels(states[j], transfer);
  }

  /** After a reversal, a request under any new key is refused and moves nothing. */
  lemma NoSecondReversal(states: seq<Db>, i: nat, j: nat, actor: Uuid, key: string, transfer: Uuid, reason: Option<string>, ids: Ids)
    requires Run(states) && i <= j < |states| && transfer in states[i].reversals
    requires RecordKey(actor, TransferReversal, key) !in states[j].records
    ensures var outcome := PlanReversal(states[j], actor, key, transfer, reason, ids);
            && outcome.Commit? && outcome.reply.Failure?
            && outcome.writes == NOTHING.(records := outcome.writes.records)
  {
    RecordedForGood(states, i, j, transfer);
    ReversalsStand(states, j, transfer);
    ReversedTransfersAreRefused(states[j], actor, key, transfer, reason, ids);
  }

  // ---------------------------------------------------------------- settlement

  /** Transaction `t` is the ledger transaction of payment `p`. */
  ghost predicate Credits(b: Books, t: Uuid, p: Uuid) {
    t in b.transactions && b.transactions[t].reference == PaymentRef(p)
  }

  lemma CreditedExactlyOnce(db: Db, p: Uuid, t: Uuid)
    requires RowsIntact(db) && p in db.payments
    ensures Credits(db.books, t, p) <==> (db.payments[p].status == SUCCEEDED && db.payments[p].transaction == Some(t))
  {
    assert PaymentIntact(db, p);
    if Credits(db.books, t, p) { assert Explained(db, t); }
  }

  lemma EvidenceAgrees(db: Db, k: EventKey)
    requires RowsIntact(db) && k in db.events
    ensures db.events[k].payment in db.payments && db.payments[db.events[k].payment].status == db.events[k].status
  {
    assert EventIntact(db, k);
  }

  /** A payment that has left PENDING never changes again; it was credited by exactly one ledger
      transaction if it succeeded and by none otherwise; and all stored evidence agrees with it. */
  lemma SettledExactlyOnce(states: seq<Db>, i: nat, j: nat, p: Uuid)
    requires Run(states) && i <= j < |states| && p in states[i].payments && states[i].payments[p].status != PENDING
    ensures p in states[j].payments && states[j].payments[p] == states[i].payments[p]
    ensures forall t: Uuid :: Credits(states[j].books, t, p) <==> (states[i].payments[p].status == SUCCEEDED && states[i].payments[p].transaction == Some(t))
    ensures forall k :: k in states[j].events && states[j].events[k].payment == p ==> states[j].events[k].status == states[i].payments[p].status
  {
    RecordedForGood(states, i, j, p);
    RowsStand(states, j);
    forall t: Uuid ensures Credits(states[j].books, t, p) <==> (states[j].payments[p].status == SUCCEEDED && states[j].payments[p].transaction == Some(t)) {
      CreditedExactlyOnce(states[j], p, t);
    }
    forall k | k in states[j].events && states[j].events[k].payment == p ensures states[j].events[k].status == states[j].payments[p].status {
      EvidenceAgrees(states[j], k);
    }
  }

  lemma RowsStand(states: seq<Db>, i: nat)
    requires Run(states) && i < |states|
    ensures RowsIntact(states[i])
  {
    EveryStateIsGood(states, i);
  }
}
