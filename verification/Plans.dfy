/** What each service transaction decides from the rows it reads: the reply, and either the
    rows it commits or the reason it rolls back. One function a service; every branch is a
    branch of the service's transaction body, in its order. */
module Plans {
  import opened Domain
  import opened Amounts
  import opened Store
  import opened Posting

  /** The random UUIDs a call draws for its business row and its ledger transaction. */
  datatype Ids = Ids(row: Uuid, transaction: Uuid)

  function Canonically(id: Uuid): IdText {
    Uuid4(id, 0)
  }

  // ---------------------------------------------------------------- idempotency records

  /** The stored answer of a terminal record, if the request is the one it was made for. */
  function Resolve(k: RecordKey, record: Record, digest: Digest): Result<Reply> {
    if record.digest != digest then Err(KeyReusedWithOtherRequest)
    else match record.state
      case InProgress => Err(StillProcessing)
      case Completed(resource) =>
        Ok(match k.scope case InternalTransfer => Sent(resource) case TransferReversal => Undone(resource))
      case Refused(reason) => Ok(Failure(reason))
  }

  /** The frame shared by transfers and reversals: replay a known key; otherwise claim it, and
      complete it, or store the client error, or roll back. */
  function Claimed(db: Db, k: RecordKey, digest: Digest, body: Result<Db>, reply: Reply, resource: Uuid): Outcome {
    if k in db.records then
      var known := Resolve(k, db.records[k], digest);
      if known.Ok? then Commit(known.value, NOTHING) else Rollback(known.reason)
    else match body
      case Ok(writes) => Commit(reply, writes.(records := map[k := Record(digest, Completed(resource))]))
      case Err(reason) =>
        if IsClientError(reason)
        then Commit(Failure(reason), NOTHING.(records := map[k := Record(digest, Refused(reason))]))
        else Rollback(reason)
  }

  // ---------------------------------------------------------------- transfers

  datatype TransferInput = TransferInput(source: Uuid, destination: Option<Uuid>, beneficiary: Option<Uuid>, amountText: string)
  datatype TransferRequest = TransferRequest(source: Uuid, destination: Option<Uuid>, beneficiary: Option<Uuid>, amount: nat, amountText: string)

  /** Exactly one destination form; the amount text is read as an integer and printed back, so
      the digest sees one spelling per amount. */
  function NormalizeTransfer(i: TransferInput): Result<TransferRequest> {
    if i.destination.Some? == i.beneficiary.Some? then Err(DestinationUnclear)
    else if !AllDigits(i.amountText) then Err(AmountNotAnInteger)
    else
      var amount := Value(i.amountText);
      if amount <= 0 || amount > MAX_MINOR_UNITS then Err(AmountUnsupported)
      else Ok(TransferRequest(i.source, i.destination, i.beneficiary, amount, Print(amount)))
  }

  function TransferDigestOf(r: TransferRequest): Digest {
    TransferDigest(r.source, r.destination, r.beneficiary, r.amountText)
  }

  /** The destination wallet id; a beneficiary's wallet always exists (foreign key), as `Route`
      checks again. */
  function DestinationOf(db: Db, user: Uuid, r: TransferRequest): Result<Uuid> {
    if r.beneficiary.Some? then
      var id := r.beneficiary.value;
      if id in db.beneficiaries && db.beneficiaries[id].owner == user && !db.beneficiaries[id].deleted
      then Ok(db.beneficiaries[id].wallet)
      else Err(BeneficiaryNotFound)
    else if r.destination.None? then Err(DestinationUnresolved)
    else if r.destination.value in db.books.wallets then Ok(r.destination.value)
    else Err(DestinationNotFound)
  }

  /** The source and destination wallets of an eligible transfer. */
  function Route(db: Db, user: Uuid, r: TransferRequest): Result<(Uuid, Uuid)> {
    var wallets := db.books.wallets;
    if r.source !in wallets || wallets[r.source].user != user then Err(SourceNotFound)
    else if wallets[r.source].status != ACTIVE then Err(SourceInactive)
    else
      var destination := DestinationOf(db, user, r);
      if destination.Err? then Err(destination.reason)
      else
        var target := destination.value;
        if target !in wallets then Err(DestinationNotFound)
        else if wallets[target].status != ACTIVE then Err(DestinationInactive)
        else if r.source == target then Err(WalletsNotDistinct)
        else if wallets[r.source].currency != wallets[target].currency then Err(CurrenciesDiffer)
        else Ok((r.source, target))
  }

  /** Two postings moving `amount` from the first account to the second. */
  function TwoPostings(from: Uuid, to: Uuid, amount: int): seq<PostingInput> {
    [PostingInput(Canonically(from), -amount), PostingInput(Canonically(to), amount)]
  }

  function TransferPosting(db: Db, source: Uuid, target: Uuid, amount: nat, id: Uuid): PostingRequest
    requires source in db.books.wallets && target in db.books.wallets
  {
    var wallets := db.books.wallets;
    PostingRequest(TransferRef(id), wallets[source].currency, Some("Internal wallet transfer"),
                   TwoPostings(wallets[source].account, wallets[target].account, amount))
  }

  function TransferRows(db: Db, user: Uuid, r: TransferRequest, source: Uuid, target: Uuid, ids: Ids, books: Books): Db
    requires source in db.books.wallets
  {
    NOTHING.(
      books := books,
      transfers := map[ids.row := Transfer(user, source, target, r.beneficiary, ids.transaction,
                                           db.books.wallets[source].currency, r.amount, true)],
      audits := map[AuditKey(TRANSFER_CREATED, ids.row) := Audit(user, None)],
      outbox := map[OutboxKey(TRANSFER_COMPLETED, ids.row) := user])
  }

  ghost function TransferBody(db: Db, user: Uuid, r: TransferRequest, ids: Ids): Result<Db> {
    var route := Route(db, user, r);
    if route.Err? then Err(route.reason)
    else
      var (source, target) := route.value;
      var posted := PlanPost(db.books, TransferPosting(db, source, target, r.amount, ids.row), ids.transaction);
      if posted.Err? then Err(posted.reason)
      else Ok(TransferRows(db, user, r, source, target, ids, posted.value))
  }

  ghost function PlanTransfer(db: Db, user: Uuid, key: string, r: TransferRequest, ids: Ids): Outcome {
    Claimed(db, RecordKey(user, InternalTransfer, key), TransferDigestOf(r), TransferBody(db, user, r, ids),
            Sent(ids.row), ids.row)
  }

  // ---------------------------------------------------------------- reversals

  /** The transfer's eligibility; its wallets always exist (foreign keys). */
  function Reversible(db: Db, actor: Uuid, transfer: Uuid): Result<Transfer> {
    if transfer !in db.transfers || db.transfers[transfer].sender != actor then Err(TransferNotFound)
    else
      var t := db.transfers[transfer];
      if !t.completed then Err(TransferNotCompleted)
      else if transfer in db.reversals then Err(AlreadyReversed)
      else if t.source !in db.books.wallets || t.destination !in db.books.wallets
           || db.books.wallets[t.source].status != ACTIVE || db.books.wallets[t.destination].status != ACTIVE
      then Err(WalletsInactive)
      else Ok(t)
  }

  function ReversalPosting(db: Db, t: Transfer, id: Uuid): PostingRequest
    requires t.source in db.books.wallets && t.destination in db.books.wallets
  {
    PostingRequest(ReversalRef(id), t.currency, Some("Internal transfer reversal"),
                   TwoPostings(db.books.wallets[t.source].account, db.books.wallets[t.destination].account, -(t.amount as int)))
  }

  function ReversalRows(actor: Uuid, transfer: Uuid, t: Transfer, reason: Option<string>, ids: Ids, books: Books): Db {
    NOTHING.(
      books := books,
      reversals := map[transfer := Reversal(ids.row, actor, ids.transaction, t.currency, t.amount, reason)],
      audits := map[AuditKey(TRANSFER_REVERSED, transfer) := Audit(actor, Some(ids.row))],
      outbox := map[OutboxKey(TRANSFER_WAS_REVERSED, ids.row) := actor])
  }

  ghost function ReversalBody(db: Db, actor: Uuid, transfer: Uuid, reason: Option<string>, ids: Ids): Result<Db> {
    var eligible := Reversible(db, actor, transfer);
    if eligible.Err? then Err(eligible.reason)
    else
      var posted := PlanPost(db.books, ReversalPosting(db, eligible.value, ids.row), ids.transaction);
      if posted.Err? then Err(posted.reason)
      else Ok(ReversalRows(actor, transfer, eligible.value, reason, ids, posted.value))
  }

  ghost function PlanReversal(db: Db, actor: Uuid, key: string, transfer: Uuid, reason: Option<string>, ids: Ids): Outcome {
    Claimed(db, RecordKey(actor, TransferReversal, key), ReversalDigest(transfer, reason),
            ReversalBody(db, actor, transfer, reason, ids), Undone(transfer), transfer)
  }

  // ---------------------------------------------------------------- payments

  /** A payment of this user with this idempotency key (unique by index). */
  ghost function KnownPayment(db: Db, user: Uuid, key: string): Option<Uuid> {
    if exists p :: p in db.payments && db.payments[p].user == user && db.payments[p].key == key
    then var p :| p in db.payments && db.payments[p].user == user && db.payments[p].key == key; Some(p)
    else None
  }

  /** A payment intent moves no money. */
  ghost function PlanIntent(db: Db, user: Uuid, key: string, wallet: Uuid, amountText: string, provider: Provider, id: Uuid): Outcome {
    if !AcceptedAmount(amountText) then Rollback(AmountUnsupported)
    else
      var digest := PaymentDigest(wallet, amountText);
      var known := KnownPayment(db, user, key);
      if known.Some? then
        if db.payments[known.value].digest == digest then Commit(Intended(known.value), NOTHING) else Rollback(PaymentKeyReused)
      else if wallet !in db.books.wallets || db.books.wallets[wallet].user != user then Rollback(PaymentWalletNotFound)
      else if db.books.wallets[wallet].status != ACTIVE then Rollback(PaymentWalletInactive)
      else if provider == PAYSTACK && !(db.books.wallets[wallet].currency == NGN && AcceptedPaystackAmount(amountText))
      then Rollback(PaystackIntentRejected)
      else Commit(Intended(id), NOTHING.(payments := map[id :=
             Payment(user, wallet, provider, key, digest, Value(amountText), db.books.wallets[wallet].currency, PENDING, None)]))
  }

  /** A verified callback. `payload` is what its hash was taken of. */
  datatype Evidence = Evidence(event: string, reference: Uuid, amountText: string, currency: Currency,
                               succeeded: bool, payload: string)

  function OutcomeOf(e: Evidence): PaymentStatus {
    if e.succeeded then SUCCEEDED else FAILED
  }

  function FundingPosting(db: Db, reference: Uuid, p: Payment): PostingRequest
    requires p.wallet in db.books.wallets
  {
    PostingRequest(PaymentRef(reference), p.currency, Some("Verified provider funding"),
                   TwoPostings(Clearing(p.currency), db.books.wallets[p.wallet].account, p.amount))
  }

  function EventRows(provider: Provider, e: Evidence): Db {
    NOTHING.(events := map[EventKey(provider, e.event) := ProviderEvent(e.reference, e.payload, OutcomeOf(e))])
  }

  function SettlementRows(provider: Provider, e: Evidence, p: Payment, txId: Option<Uuid>, books: Books): Db {
    EventRows(provider, e).(
      books := books,
      payments := map[e.reference := p.(status := OutcomeOf(e), transaction := txId)],
      outbox := map[OutboxKey(if e.succeeded then PAYMENT_SUCCEEDED else PAYMENT_FAILED, e.reference) := p.user])
  }

  ghost function PlanSettle(db: Db, provider: Provider, e: Evidence, txId: Uuid): Outcome {
    var k := EventKey(provider, e.event);
    if e.reference !in db.payments || db.payments[e.reference].provider != provider then Rollback(UnknownReference)
    else
      var p := db.payments[e.reference];
      if Print(p.amount) != e.amountText || p.currency != e.currency then Rollback(EvidenceMismatch)
      else if k in db.events then
        if db.events[k].payload != e.payload || db.events[k].payment != e.reference then Rollback(EventIdentityReused)
        else Commit(Acknowledged(e.reference, p.status), NOTHING)
      else if p.status != PENDING && p.status != OutcomeOf(e) then Rollback(ConflictingOutcome)
      else if p.status != PENDING then Commit(Acknowledged(e.reference, p.status), EventRows(provider, e))
      else if !e.succeeded then Commit(Acknowledged(e.reference, FAILED), SettlementRows(provider, e, p, None, NO_BOOKS))
      else if p.wallet !in db.books.wallets || Clearing(p.currency) !in db.books.accounts then Rollback(AccountMissing)
      else
        var posted := PlanPost(db.books, FundingPosting(db, e.reference, p), txId);
        if posted.Err? then Rollback(posted.reason)
        else Commit(Acknowledged(e.reference, SUCCEEDED), SettlementRows(provider, e, p, Some(txId), posted.value))
  }

  // ---------------------------------------------------------------- wallets

  ghost function PlanOpen(db: Db, user: Uuid, c: Currency, ids: Ids): Outcome {
    if exists w :: w in db.books.wallets && db.books.wallets[w].user == user && db.books.wallets[w].currency == c
    then Rollback(WalletExists)
    else Commit(WalletIs(ids.row, ACTIVE), NOTHING.(books := Books(
           map[ids.transaction := Account(WALLET, c, false, 0, Some(ids.row))],
           map[ids.row := Wallet(user, ids.transaction, c, ACTIVE, 0)], map[])))
  }

  function PlanClose(db: Db, user: Uuid, wallet: Uuid): Outcome {
    if wallet !in db.books.wallets || db.books.wallets[wallet].user != user then Rollback(WalletNotFound)
    else
      var w := db.books.wallets[wallet];
      if w.status == CLOSED then Commit(WalletIs(wallet, CLOSED), NOTHING)
      else if w.status == FROZEN then Rollback(WalletFrozen)
      else if w.balance != 0 then Rollback(WalletNotEmpty)
      else Commit(WalletIs(wallet, CLOSED), NOTHING.(books := NO_BOOKS.(wallets := map[wallet := w.(status := CLOSED)])))
  }
}
