/** The answer to every transfer: which wallets it concerns, what it moves, and for each failing
    condition the refusal that is stored. */
module TransferVerdicts {
  import opened Domain
  import opened Amounts
  import opened Store
  import opened Posting
  import opened Plans
  import opened Ledger
  import opened Business
  import opened Operations
  import opened TransferSteps
  import opened Frames
  import opened Eligibility
  import opened Verdicts

  // ---------------------------------------------------------------- the request

  /** What the caller asks for; the amount is the number its text denotes. */
  function Asked(i: TransferInput): TransferRequest
    requires AllDigits(i.amountText)
  {
    TransferRequest(i.source, i.destination, i.beneficiary, Value(i.amountText), Print(Value(i.amountText)))
  }

  /** Refused before any transaction: both or neither destination, no decimal number, or a number
      out of range. */
  function Unprocessable(i: TransferInput): Option<Reason> {
    if i.destination.Some? <==> i.beneficiary.Some? then Some(DestinationUnclear)
    else if !AllDigits(i.amountText) then Some(AmountNotAnInteger)
    else if !(1 <= Value(i.amountText) <= MAX_MINOR_UNITS) then Some(AmountUnsupported)
    else None
  }

  lemma RequestVerdict(i: TransferInput)
    ensures match Unprocessable(i)
            case Some(reason) => NormalizeTransfer(i) == Err(reason)
            case None => AllDigits(i.amountText) && NormalizeTransfer(i) == Ok(Asked(i)) && Proper(Asked(i))
  {}

  /** A request names a destination in exactly one form and a positive 64-bit amount. */
  ghost predicate Proper(r: TransferRequest) {
    (r.destination.Some? <==> r.beneficiary.None?) && 1 <= r.amount <= MAX_MINOR_UNITS
  }

  // ---------------------------------------------------------------- the tables

  ghost predicate Ready(db: Db, w: Uuid) {
    w in db.books.wallets && db.books.wallets[w].status == ACTIVE
  }

  ghost predicate Owns(db: Db, user: Uuid, w: Uuid) {
    w in db.books.wallets && db.books.wallets[w].user == user
  }

  ghost predicate SourceReady(db: Db, user: Uuid, r: TransferRequest) {
    Owns(db, user, r.source) && Ready(db, r.source)
  }

  /** Money may flow from the source to the wallet named, if there is enough of it. */
  ghost predicate Connects(db: Db, user: Uuid, r: TransferRequest, target: Uuid) {
    && SourceReady(db, user, r) && Names(db, user, r, target) && Ready(db, target) && target != r.source
    && db.books.wallets[target].currency == db.books.wallets[r.source].currency
  }

  ghost predicate NamesNone(db: Db, user: Uuid, r: TransferRequest) {
    forall target :: !Names(db, user, r, target)
  }

  /** The condition that fails, for each reason a transfer can be refused for. */
  ghost predicate Fails(db: Db, user: Uuid, r: TransferRequest, reason: Reason) {
    var wallets := db.books.wallets;
    match reason
    case SourceNotFound => !Owns(db, user, r.source)
    case SourceInactive => Owns(db, user, r.source) && !Ready(db, r.source)
    case BeneficiaryNotFound => SourceReady(db, user, r) && r.beneficiary.Some? && NamesNone(db, user, r)
    case DestinationNotFound => SourceReady(db, user, r) && exists t :: Names(db, user, r, t) && t !in wallets
    case DestinationInactive => SourceReady(db, user, r) && exists t :: Names(db, user, r, t) && t in wallets && !Ready(db, t)
    case WalletsNotDistinct => SourceReady(db, user, r) && Names(db, user, r, r.source)
    case CurrenciesDiffer =>
      SourceReady(db, user, r) && exists t :: Names(db, user, r, t) && Ready(db, t) && wallets[t].currency != wallets[r.source].currency
    case InsufficientFunds => exists t :: Connects(db, user, r, t) && wallets[r.source].balance < r.amount
    case BalanceOutOfRange =>
      exists t :: Connects(db, user, r, t) && wallets[r.source].balance >= r.amount && wallets[t].balance + r.amount > MAX_MINOR_UNITS
    case _ => false
  }

  lemma OneNamed(db: Db, user: Uuid, r: TransferRequest, x: Uuid, y: Uuid)
    requires Names(db, user, r, x) && Names(db, user, r, y)
    ensures x == y
  {}

  // ---------------------------------------------------------------- refusals before the posting

  lemma RouteVerdict(db: Db, user: Uuid, r: TransferRequest)
    requires Proper(r)
    ensures match Route(db, user, r)
            case Err(reason) => Fails(db, user, r, reason) && !(reason in {InsufficientFunds, BalanceOutOfRange})
            case Ok(route) => route.0 == r.source && Connects(db, user, r, route.1)
  {
    if SourceReady(db, user, r) {
      var destination := DestinationOf(db, user, r);
      if destination.Ok? { assert Names(db, user, r, destination.value); }
      else if r.beneficiary.None? { assert Names(db, user, r, r.destination.value); }
    }
  }

  // ---------------------------------------------------------------- refusals of the posting

  lemma PostingVerdictOfTransfer(db: Db, user: Uuid, r: TransferRequest, ids: Ids)
    requires Sound(db.books) && Proper(r) && Route(db, user, r).Ok? && !ReferenceUsed(db.books, TransferRef(ids.row))
    requires TransferBody(db, user, r, ids).Err?
    ensures Fails(db, user, r, TransferBody(db, user, r, ids).reason)
  {
    RouteVerdict(db, user, r);
    var (source, target) := Route(db, user, r).value;
    LegsOfTransfer(db.books, source, target, r.amount, ids);
    var b := db.books;
    PairRefusal(b, TransferPosting(db, source, target, r.amount, ids.row), b.wallets[source].account, b.wallets[target].account, r.amount, ids.transaction);
    assert Connects(db, user, r, target);
  }

  lemma RefusalOfTransfer(db: Db, user: Uuid, r: TransferRequest, ids: Ids)
    requires Intact(db) && ids.row !in db.transfers && Proper(r) && TransferBody(db, user, r, ids).Err?
    ensures Fails(db, user, r, TransferBody(db, user, r, ids).reason)
  {
    UnusedTransferReference(db, ids.row);
    RouteVerdict(db, user, r);
    if Route(db, user, r).Ok? { PostingVerdictOfTransfer(db, user, r, ids); }
  }

  lemma LegsOfTransfer(b: Books, v: Uuid, w: Uuid, amount: nat, ids: Ids)
    requires Paired(b) && AccountsSound(b) && WalletsSound(b) && 1 <= amount <= MAX_MINOR_UNITS && v != w
    requires v in b.wallets && b.wallets[v].status == ACTIVE && w in b.wallets && b.wallets[w].status == ACTIVE
    requires b.wallets[w].currency == b.wallets[v].currency
    ensures b.wallets[v].account != b.wallets[w].account && b.wallets[v].account in b.accounts && b.wallets[w].account in b.accounts
    ensures var c, first, second := b.wallets[v].currency, CheckedBalance(b, b.wallets[v].currency, Leg(b.wallets[v].account, -(amount as int))),
                                    CheckedBalance(b, b.wallets[v].currency, Leg(b.wallets[w].account, amount));
            && (first.Err? <==> b.wallets[v].balance < amount) && (first.Err? ==> first.reason == InsufficientFunds)
            && (second.Err? <==> b.wallets[w].balance + amount > MAX_MINOR_UNITS) && (second.Err? ==> second.reason == BalanceOutOfRange)
  {
    WalletAccountsDiffer(b, v, w);
    WalletVerdict(b, v, -(amount as int));
    WalletVerdict(b, w, amount);
    assert WalletSound(b, v) && WalletSound(b, w) && AccountSound(b, b.wallets[v].account) && AccountSound(b, b.wallets[w].account);
  }

  // ---------------------------------------------------------------- the answer

  /** The transfer is recorded as asked, and has moved the money. */
  ghost predicate Made(db: Db, after: Db, user: Uuid, key: string, r: TransferRequest, ids: Ids, target: Uuid) {
    && Connects(db, user, r, target)
    && db.books.wallets[r.source].balance >= r.amount && db.books.wallets[target].balance + r.amount <= MAX_MINOR_UNITS
    && Flows(db.books, after.books, r.source, target, r.amount)
    && after.transfers == db.transfers[ids.row := Transfer(user, r.source, target, r.beneficiary, ids.transaction,
                                                            db.books.wallets[r.source].currency, r.amount, true)]
    && after.records == db.records[RecordKey(user, InternalTransfer, key) :=
                                     Record(TransferDigest(r.source, r.destination, r.beneficiary, Print(r.amount)), Completed(ids.row))]
  }

  /** Nothing but the refusal is recorded. */
  ghost predicate RefusalStored(db: Db, after: Db, k: RecordKey, digest: Digest, reason: Reason) {
    after == db.(records := db.records[k := Record(digest, Refused(reason))])
  }

  /** The answer to a transfer under an unused key: its id, if it was made, or the reason that
      holds, which is then stored. */
  ghost predicate Answered(db: Db, after: Db, user: Uuid, key: string, r: TransferRequest, ids: Ids, result: Result<Uuid>) {
    match result
    case Ok(id) => id == ids.row && exists target :: Made(db, after, user, key, r, ids, target)
    case Err(reason) =>
      && Fails(db, user, r, reason)
      && RefusalStored(db, after, RecordKey(user, InternalTransfer, key),
                       TransferDigest(r.source, r.destination, r.beneficiary, Print(r.amount)), reason)
  }

  lemma TransferMade(db: Db, user: Uuid, key: string, r: TransferRequest, ids: Ids)
    requires Intact(db) && Fresh(db, Send(user, key, r, ids)) && Proper(r) && r.amountText == Print(r.amount)
    requires RecordKey(user, InternalTransfer, key) !in db.records && TransferBody(db, user, r, ids).Ok?
    ensures var after := Apply(db, PlanTransfer(db, user, key, r, ids).writes);
            exists target :: Made(db, after, user, key, r, ids, target)
  {
    var after := Apply(db, PlanTransfer(db, user, key, r, ids).writes);
    RouteVerdict(db, user, r);
    TransferCommits(db, user, key, r, ids);
    UnusedTransferReference(db, ids.row);
    RoutedTransfer(db, user, r, ids);
    var (source, target) := Route(db, user, r).value;
    hide Intact, Route, Connects, Fresh, TransferBody;
    FlowOfTransfer(db, after, user, key, r, source, target, ids);
    assert Made(db, after, user, key, r, ids, target);
  }

  lemma FlowOfTransfer(db: Db, after: Db, user: Uuid, key: string, r: TransferRequest, source: Uuid, target: Uuid, ids: Ids)
    requires TransferCommitted(db, after, user, key, r, source, target, ids)
    ensures Paired(db.books) && source != target ==> Flows(db.books, after.books, source, target, r.amount)
  {
    hide Paired;
    if Paired(db.books) && source != target {
      MovedMoneyFlows(db.books, after.books, TransferRef(ids.row), db.books.wallets[source].currency, source, target, r.amount, ids.transaction);
    }
  }

  lemma RefusalAnswered(db: Db, user: Uuid, key: string, r: TransferRequest, ids: Ids)
    requires RecordKey(user, InternalTransfer, key) !in db.records && r.amountText == Print(r.amount)
    requires TransferBody(db, user, r, ids).Err? && Fails(db, user, r, TransferBody(db, user, r, ids).reason)
    ensures var outcome, reason := PlanTransfer(db, user, key, r, ids), TransferBody(db, user, r, ids).reason;
            && outcome.Commit? && outcome.reply == Failure(reason)
            && RefusalStored(db, Apply(db, outcome.writes), RecordKey(user, InternalTransfer, key),
                             TransferDigest(r.source, r.destination, r.beneficiary, Print(r.amount)), reason)
  {
    var reason := TransferBody(db, user, r, ids).reason;
    RefusalWritesOnlyTheRecord(db, RecordKey(user, InternalTransfer, key), Record(TransferDigestOf(r), Refused(reason)));
  }

  /** A fresh attempt on intact tables always commits: the transfer as asked, or, for whichever
      condition fails, the refusal that says so. */
  lemma TransferVerdict(db: Db, user: Uuid, key: string, r: TransferRequest, ids: Ids)
    requires Intact(db) && Fresh(db, Send(user, key, r, ids)) && Proper(r) && r.amountText == Print(r.amount)
    requires RecordKey(user, InternalTransfer, key) !in db.records
    ensures var outcome := PlanTransfer(db, user, key, r, ids);
            outcome.Commit? && match outcome.reply
              case Sent(id) => Answered(db, Apply(db, outcome.writes), user, key, r, ids, Ok(id))
              case Failure(reason) => Answered(db, Apply(db, outcome.writes), user, key, r, ids, Err(reason))
              case _ => false
  {
    if TransferBody(db, user, r, ids).Ok? { TransferMade(db, user, key, r, ids); }
    else {
      RefusalOfTransfer(db, user, r, ids);
      RefusalAnswered(db, user, key, r, ids);
    }
  }

  /** No two conditions hold at once and none where a transfer is made, so there is one answer. */
  lemma OneVerdict(db: Db, user: Uuid, r: TransferRequest, x: Reason, y: Reason)
    requires Fails(db, user, r, x) && Fails(db, user, r, y)
    ensures x == y
    ensures forall after, key, ids, target :: !Made(db, after, user, key, r, ids, target)
  {
    forall s, t | Names(db, user, r, s) && Names(db, user, r, t) ensures s == t { OneNamed(db, user, r, s, t); }
  }
}
