/** The PostgreSQL tables, as one value. A `Db` also serves as the set of rows a transaction
    writes: its tables then hold only the written rows, and committing them is `Apply`. */
module Store {
  import opened Domain

  /** `wallet` is the inverse of Wallet.ledgerAccountId, the relation the ORM reads back. */
  datatype Account = Account(kind: AccountKind, currency: Currency, allowNegative: bool,
                             balance: int, wallet: Option<Uuid>)

  datatype Wallet = Wallet(user: Uuid, account: Uuid, currency: Currency,
                           status: WalletStatus, balance: int)

  /** Postings are unique per transaction and account, so they are keyed by account. */
  datatype LedgerTransaction = LedgerTransaction(reference: Reference, currency: Currency,
                                                 postings: map<Uuid, int>, isSealed: bool)

  datatype Transfer = Transfer(sender: Uuid, source: Uuid, destination: Uuid,
                               beneficiary: Option<Uuid>, transaction: Uuid,
                               currency: Currency, amount: nat, completed: bool)

  datatype Reversal = Reversal(id: Uuid, actor: Uuid, transaction: Uuid,
                               currency: Currency, amount: nat, reason: Option<string>)

  datatype AuditAction = TRANSFER_CREATED | TRANSFER_REVERSED
  datatype AuditKey = AuditKey(action: AuditAction, transfer: Uuid)
  datatype Audit = Audit(actor: Uuid, reversal: Option<Uuid>)

  datatype EventType = TRANSFER_COMPLETED | TRANSFER_WAS_REVERSED | PAYMENT_SUCCEEDED | PAYMENT_FAILED
  datatype OutboxKey = OutboxKey(event: EventType, aggregate: Uuid)

  /** SHA-256 is taken to be injective, so a digest is the text that was hashed. */
  datatype Digest =
    | TransferDigest(source: Uuid, destination: Option<Uuid>, beneficiary: Option<Uuid>, amountText: string)
    | ReversalDigest(transfer: Uuid, reason: Option<string>)
    | PaymentDigest(wallet: Uuid, amountText: string)

  /** `resource` is the transfer, or the reversed transfer whose unique reversal it is. */
  datatype RecordKey = RecordKey(user: Uuid, scope: Scope, key: string)
  datatype RecordState = InProgress | Completed(resource: Uuid) | Refused(reason: Reason)
  datatype Record = Record(digest: Digest, state: RecordState)

  /** Payments are keyed by the UUID inside their unique reference. */
  datatype Payment = Payment(user: Uuid, wallet: Uuid, provider: Provider, key: string,
                             digest: Digest, amount: nat, currency: Currency,
                             status: PaymentStatus, transaction: Option<Uuid>)

  datatype EventKey = EventKey(provider: Provider, event: string)
  datatype ProviderEvent = ProviderEvent(payment: Uuid, payload: string, status: PaymentStatus)

  datatype Beneficiary = Beneficiary(owner: Uuid, wallet: Uuid, deleted: bool)

  /** The tables only the ledger and the wallet services write. */
  datatype Books = Books(accounts: map<Uuid, Account>, wallets: map<Uuid, Wallet>,
                         transactions: map<Uuid, LedgerTransaction>)

  datatype Db = Db(
    books: Books,
    transfers: map<Uuid, Transfer>,
    reversals: map<Uuid, Reversal>,      // keyed by the reversed transfer, a unique column
    audits: map<AuditKey, Audit>,
    outbox: map<OutboxKey, Uuid>,        // the acting user
    records: map<RecordKey, Record>,
    payments: map<Uuid, Payment>,
    events: map<EventKey, ProviderEvent>,
    beneficiaries: map<Uuid, Beneficiary>)

  const NO_BOOKS := Books(map[], map[], map[])
  const NOTHING := Db(NO_BOOKS, map[], map[], map[], map[], map[], map[], map[], map[])

  function ApplyBooks(b: Books, w: Books): Books {
    Books(b.accounts + w.accounts, b.wallets + w.wallets, b.transactions + w.transactions)
  }

  /** Commits the rows of `w`. */
  function Apply(db: Db, w: Db): Db {
    Db(ApplyBooks(db.books, w.books), db.transfers + w.transfers, db.reversals + w.reversals,
       db.audits + w.audits, db.outbox + w.outbox, db.records + w.records,
       db.payments + w.payments, db.events + w.events, db.beneficiaries + w.beneficiaries)
  }

  /** What a service call answers. */
  datatype Reply =
    | Sent(transfer: Uuid)
    | Undone(transfer: Uuid)
    | Failure(reason: Reason)
    | Intended(payment: Uuid)
    | Acknowledged(payment: Uuid, status: PaymentStatus)
    | WalletIs(wallet: Uuid, walletStatus: WalletStatus)

  /** How a transaction ends: its rows commit, or an exception rolls it back. */
  datatype Outcome = Commit(reply: Reply, writes: Db) | Rollback(reason: Reason)

  /** The system accounts seeded by the ledger migration. */
  function Clearing(c: Currency): Uuid {
    match c case USD => 0x4000_8000_0000_0000_0001 case NGN => 0x4000_8000_0000_0000_0002
  }

  ghost predicate ReferenceUsed(b: Books, r: Reference) {
    exists t :: t in b.transactions && b.transactions[t].reference == r
  }

  /** The product wallet linked to an account. */
  function LinkedWallet(b: Books, a: Account): Option<Wallet> {
    if a.wallet.Some? && a.wallet.value in b.wallets then Some(b.wallets[a.wallet.value]) else None
  }

  /** Every wallet account has exactly one wallet and system accounts have none
      (Wallet.ledgerAccountId is a unique foreign key; the pair is checked at commit). */
  ghost predicate Paired(b: Books) {
    && (forall w :: w in b.wallets ==>
          b.wallets[w].account in b.accounts
          && b.accounts[b.wallets[w].account].kind == WALLET
          && b.accounts[b.wallets[w].account].wallet == Some(w))
    && (forall a :: a in b.accounts ==>
          (b.accounts[a].kind == WALLET <==> b.accounts[a].wallet.Some?)
          && (b.accounts[a].wallet.Some? ==>
                b.accounts[a].wallet.value in b.wallets
                && b.wallets[b.accounts[a].wallet.value].account == a))
  }
}
