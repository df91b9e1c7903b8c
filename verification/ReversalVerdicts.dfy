/** The answer to every reversal: what it moves back, and for each failing condition the refusal
    that is stored. */
module ReversalVerdicts {
  import opened Domain
  import opened Amounts
  import opened Store
  import opened Posting
  import opened Plans
  import opened Ledger
  import opened Business
  import opened Operations
  import opened ReversalSteps
  import opened Frames
  import opened Eligibility
  import opened Verdicts
  import opened TransferVerdicts

  ghost predicate SentBy(db: Db, actor: Uuid, transfer: Uuid) {
    transfer in db.transfers && db.transfers[transfer].sender == actor
  }

  /** The sender asks for the first reversal, and both wallets may be posted to. */
  ghost predicate Returnable(db: Db, actor: Uuid, transfer: Uuid) {
    && SentBy(db, actor, transfer) && transfer !in db.reversals
    && Ready(db, db.transfers[transfer].source) && Ready(db, db.transfers[transfer].destination)
  }

  /** The condition that fails, for each reason a reversal can be refused for. */
  ghost predicate CannotReverse(db: Db, actor: Uuid, transfer: Uuid, reason: Reason) {
    match reason
    case TransferNotFound => !SentBy(db, actor, transfer)
    case AlreadyReversed => SentBy(db, actor, transfer) && transfer in db.reversals
    case WalletsInactive =>
      SentBy(db, actor, transfer) && transfer !in db.reversals
      && !(Ready(db, db.transfers[transfer].source) && Ready(db, db.transfers[transfer].destination))
    case BalanceOutOfRange =>
      Returnable(db, actor, transfer)
      && db.books.wallets[db.transfers[transfer].source].balance + db.transfers[transfer].amount > MAX_MINOR_UNITS
    case InsufficientFunds =>
      Returnable(db, actor, transfer)
      && db.books.wallets[db.transfers[transfer].source].balance + db.transfers[transfer].amount <= MAX_MINOR_UNITS
      && db.books.wallets[db.transfers[transfer].destination].balance < db.transfers[transfer].amount
    case _ => false
  }

  /** The reversal is recorded with the reason given, and has moved the money back. */
  ghost predicate Reversed(db: Db, after: Db, actor: Uuid, key: string, transfer: Uuid, reason: Option<string>, ids: Ids) {
    && Returnable(db, actor, transfer)
    && var t := db.transfers[transfer];
    && db.books.wallets[t.source].balance + t.amount <= MAX_MINOR_UNITS && db.books.wallets[t.destination].balance >= t.amount
    && Flows(db.books, after.books, t.destination, t.source, t.amount)
    && after.transfers == db.transfers
    && after.reversals == db.reversals[transfer := Reversal(ids.row, actor, ids.transaction, t.currency, t.amount, reason)]
    && after.records == db.records[RecordKey(actor, TransferReversal, key) := Record(ReversalDigest(transfer, reason), Completed(transfer))]
  }

  /** The answer to a reversal under an unused key. */
  ghost predicate ReversalAnswered(db: Db, after: Db, actor: Uuid, key: string, transfer: Uuid, reason: Option<string>, ids: Ids, result: Result<Uuid>) {
    match result
    case Ok(id) => id == transfer && Reversed(db, after, actor, key, transfer, reason, ids)
    case Err(why) =>
      CannotReverse(db, actor, transfer, why)
      && RefusalStored(db, after, RecordKey(actor, TransferReversal, key), ReversalDigest(transfer, reason), why)
  }

  lemma EligibilityVerdict(db: Db, actor: Uuid, transfer: Uuid)
    requires transfer in db.transfers ==> TransferIntact(db, transfer)
    ensures match Reversible(db, actor, transfer)
            case Err(why) => CannotReverse(db, actor, transfer, why)
            case Ok(t) => Returnable(db, actor, transfer) && t == db.transfers[transfer]
  {
    hide Settled, NamesBeneficiary, WalletIn;
  }

  lemma PostingVerdictOfReversal(db: Db, actor: Uuid, transfer: Uuid, reason: Option<string>, ids: Ids)
    requires Sound(db.books) && transfer in db.transfers && TransferIntact(db, transfer)
    requires Returnable(db, actor, transfer) && !ReferenceUsed(db.books, ReversalRef(ids.row))
    requires Reversible(db, actor, transfer) == Ok(db.transfers[transfer]) && ReversalBody(db, actor, transfer, reason, ids).Err?
    ensures CannotReverse(db, actor, transfer, ReversalBody(db, actor, transfer, reason, ids).reason)
  {
    hide PlanPost, Paired, AccountsSound, WalletsSound, ReferenceUsed, Reversible, Settled, NamesBeneficiary;
    var t := db.transfers[transfer];
    CompensationRefusal(db.books, ReversalPosting(db, t, ids.row), t, -(t.amount as int), ids.transaction);
  }

  lemma CompensationRefusal(b: Books, r: PostingRequest, t: Transfer, amount: int, txId: Uuid)
    requires Paired(b) && AccountsSound(b) && WalletsSound(b) && t.source in b.wallets && t.destination in b.wallets && t.source != t.destination
    requires b.wallets[t.source].status == ACTIVE && b.wallets[t.destination].status == ACTIVE
    requires b.wallets[t.source].currency == t.currency && b.wallets[t.destination].currency == t.currency
    requires 1 <= t.amount <= MAX_MINOR_UNITS && amount == -(t.amount as int) && !ReferenceUsed(b, r.reference)
    requires r.postings == TwoPostings(b.wallets[t.source].account, b.wallets[t.destination].account, amount)
    requires r.currency == t.currency && !r.reference.Text? && (r.description.Some? ==> |r.description.value| <= 255)
    requires PlanPost(b, r, txId).Err?
    ensures PlanPost(b, r, txId).reason == if b.wallets[t.source].balance + t.amount > MAX_MINOR_UNITS then BalanceOutOfRange else InsufficientFunds
    ensures b.wallets[t.source].balance + t.amount > MAX_MINOR_UNITS || b.wallets[t.destination].balance < t.amount
  {
    hide Paired, AccountsSound, WalletsSound, PlanPost, CheckedBalance;
    LegsOfReversal(b, t.source, t.destination, t.amount);
    PairRefusal(b, r, b.wallets[t.source].account, b.wallets[t.destination].account, amount, txId);
    assert -amount == t.amount;
  }

  lemma LegsOfReversal(b: Books, v: Uuid, w: Uuid, amount: nat)
    requires Paired(b) && AccountsSound(b) && WalletsSound(b) && 1 <= amount <= MAX_MINOR_UNITS && v != w
    requires v in b.wallets && b.wallets[v].status == ACTIVE && w in b.wallets && b.wallets[w].status == ACTIVE
    requires b.wallets[w].currency == b.wallets[v].currency
    ensures b.wallets[v].account != b.wallets[w].account && b.wallets[v].account in b.accounts && b.wallets[w].account in b.accounts
    ensures var first, second := CheckedBalance(b, b.wallets[v].currency, Leg(b.wallets[v].account, amount)),
                                 CheckedBalance(b, b.wallets[v].currency, Leg(b.wallets[w].account, -(amount as int)));
            && (first.Err? <==> b.wallets[v].balance + amount > MAX_MINOR_UNITS) && (first.Err? ==> first.reason == BalanceOutOfRange)
            && (second.Err? <==> b.wallets[w].balance < amount) && (second.Err? ==> second.reason == InsufficientFunds)
  {
    WalletAccountsDiffer(b, v, w);
    WalletVerdict(b, v, amount);
    WalletVerdict(b, w, -(amount as int));
    assert WalletSound(b, v) && WalletSound(b, w) && AccountSound(b, b.wallets[v].account) && AccountSound(b, b.wallets[w].account);
  }

  lemma FlowOfReversal(db: Db, after: Db, actor: Uuid, key: string, transfer: Uuid, reason: Option<string>, ids: Ids)
    requires Paired(db.books) && ReversalCommitted(db, after, actor, key, transfer, reason, ids)
    requires db.transfers[transfer].source != db.transfers[transfer].destination
    ensures var t := db.transfers[transfer]; Flows(db.books, after.books, t.destination, t.source, t.amount)
  {
    hide Paired;
    var t := db.transfers[transfer];
    MovedMoneyFlows(db.books, after.books, ReversalRef(ids.row), t.currency, t.source, t.destination, -(t.amount as int), ids.transaction);
  }

  lemma ReversalHadRoom(db: Db, actor: Uuid, transfer: Uuid, reason: Option<string>, ids: Ids)
    requires Intact(db) && FreshReversal(db, ids.row) && ReversalBody(db, actor, transfer, reason, ids).Ok?
    ensures Returnable(db, actor, transfer)
    ensures db.books.wallets[db.transfers[transfer].source].balance + db.transfers[transfer].amount <= MAX_MINOR_UNITS
    ensures db.books.wallets[db.transfers[transfer].destination].balance >= db.transfers[transfer].amount
  {
    hide Intact, Sound, RowsIntact, ReversalBody, TransferIntact;
    ReversalSucceedsExactlyWhen(db, actor, transfer, reason, ids);
  }

  lemma ReversalMade(db: Db, actor: Uuid, key: string, transfer: Uuid, reason: Option<string>, ids: Ids)
    requires Intact(db) && Fresh(db, Undo(actor, key, transfer, reason, ids))
    requires RecordKey(actor, TransferReversal, key) !in db.records && ReversalBody(db, actor, transfer, reason, ids).Ok?
    ensures Reversed(db, Apply(db, PlanReversal(db, actor, key, transfer, reason, ids).writes), actor, key, transfer, reason, ids)
  {
    hide Sound, RowsIntact, ReversalBody, TransferIntact, MoneyMoved, Flows, Returnable, Ready, OneKeyEach, OneIntentPerKey;
    ReversalCommits(db, actor, key, transfer, reason, ids);
    ReversalHadRoom(db, actor, transfer, reason, ids);
    RecordedTransfer(db, transfer);
    FlowOfReversal(db, Apply(db, PlanReversal(db, actor, key, transfer, reason, ids).writes), actor, key, transfer, reason, ids);
  }

  lemma RecordedTransfer(db: Db, transfer: Uuid)
    requires Sound(db.books) && RowsIntact(db)
    ensures Paired(db.books) && forall x :: x in db.books.transactions ==> Explained(db, x)
    ensures transfer in db.transfers ==> TransferIntact(db, transfer) && db.transfers[transfer].source != db.transfers[transfer].destination
  {}

  lemma ReversalRefusalAnswered(db: Db, actor: Uuid, key: string, transfer: Uuid, reason: Option<string>, ids: Ids)
    requires RecordKey(actor, TransferReversal, key) !in db.records && ReversalBody(db, actor, transfer, reason, ids).Err?
    requires CannotReverse(db, actor, transfer, ReversalBody(db, actor, transfer, reason, ids).reason)
    ensures var outcome, why := PlanReversal(db, actor, key, transfer, reason, ids), ReversalBody(db, actor, transfer, reason, ids).reason;
            && outcome.Commit? && outcome.reply == Failure(why)
            && RefusalStored(db, Apply(db, outcome.writes), RecordKey(actor, TransferReversal, key), ReversalDigest(transfer, reason), why)
  {
    var why := ReversalBody(db, actor, transfer, reason, ids).reason;
    RefusalWritesOnlyTheRecord(db, RecordKey(actor, TransferReversal, key), Record(ReversalDigest(transfer, reason), Refused(why)));
  }

  lemma RefusalOfReversal(db: Db, actor: Uuid, transfer: Uuid, reason: Option<string>, ids: Ids)
    requires Sound(db.books) && !ReferenceUsed(db.books, ReversalRef(ids.row)) && ReversalBody(db, actor, transfer, reason, ids).Err?
    requires transfer in db.transfers ==> TransferIntact(db, transfer)
    ensures CannotReverse(db, actor, transfer, ReversalBody(db, actor, transfer, reason, ids).reason)
  {
    hide Sound, ReferenceUsed, TransferIntact, CannotReverse, Returnable, PlanPost;
    EligibilityVerdict(db, actor, transfer);
    if Reversible(db, actor, transfer).Ok? { PostingVerdictOfReversal(db, actor, transfer, reason, ids); }
  }

  /** A fresh attempt on intact tables always commits: the reversal, or, for whichever condition
      fails, the refusal that says so. */
  lemma ReversalVerdict(db: Db, actor: Uuid, key: string, transfer: Uuid, reason: Option<string>, ids: Ids)
    requires Intact(db) && Fresh(db, Undo(actor, key, transfer, reason, ids)) && RecordKey(actor, TransferReversal, key) !in db.records
    ensures var outcome := PlanReversal(db, actor, key, transfer, reason, ids);
            outcome.Commit? && match outcome.reply
              case Undone(id) => ReversalAnswered(db, Apply(db, outcome.writes), actor, key, transfer, reason, ids, Ok(id))
              case Failure(why) => ReversalAnswered(db, Apply(db, outcome.writes), actor, key, transfer, reason, ids, Err(why))
              case _ => false
  {
    hide Sound, RowsIntact, TransferIntact, ReversalBody, CannotReverse, Reversed, RefusalStored, ReferenceUsed;
    if ReversalBody(db, actor, transfer, reason, ids).Ok? { ReversalMade(db, actor, key, transfer, reason, ids); }
    else {
      RecordedTransfer(db, transfer);
      UnusedReversalReference(db, ids.row);
      RefusalOfReversal(db, actor, transfer, reason, ids);
      ReversalRefusalAnswered(db, actor, key, transfer, reason, ids);
    }
  }

  /** No two conditions hold at once and none where a transfer is reversed, so there is one answer. */
  lemma OneReversalVerdict(db: Db, actor: Uuid, transfer: Uuid, x: Reason, y: Reason)
    requires CannotReverse(db, actor, transfer, x) && CannotReverse(db, actor, transfer, y)
    ensures x == y
    ensures forall after, key, reason, ids :: !Reversed(db, after, actor, key, transfer, reason, ids)
  {}
}
