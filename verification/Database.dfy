/** The tables as the services change them, row by row. */
module Database {
  import opened Domain
  import opened Store

  class Database {
    var accounts: map<Uuid, Account>
    var wallets: map<Uuid, Wallet>
    var transactions: map<Uuid, LedgerTransaction>
    var transfers: map<Uuid, Transfer>
    var reversals: map<Uuid, Reversal>
    var audits: map<AuditKey, Audit>
    var outbox: map<OutboxKey, Uuid>
    var records: map<RecordKey, Record>
    var payments: map<Uuid, Payment>
    var events: map<EventKey, ProviderEvent>
    var beneficiaries: map<Uuid, Beneficiary>

    constructor (db: Db)
      ensures View() == db
    {
      accounts, wallets, transactions := db.books.accounts, db.books.wallets, db.books.transactions;
      transfers, reversals, audits, outbox := db.transfers, db.reversals, db.audits, db.outbox;
      records, payments, events, beneficiaries := db.records, db.payments, db.events, db.beneficiaries;
    }

    function Books(): Books
      reads this
    {
      Store.Books(accounts, wallets, transactions)
    }

    /** The tables as one value. */
    function View(): Db
      reads this
    {
      Db(Books(), transfers, reversals, audits, outbox, records, payments, events, beneficiaries)
    }

    /** Others commit: the tables are what they have become. */
    method Meanwhile(later: Db)
      modifies this
      ensures View() == later
    {
      RollbackTo(later);
    }

    /** A transaction that fails leaves every row as it found it. */
    method RollbackTo(saved: Db)
      modifies this
      ensures View() == saved
    {
      RestoreBooks(saved.books);
      transfers, reversals, audits, outbox := saved.transfers, saved.reversals, saved.audits, saved.outbox;
      records, payments, events, beneficiaries := saved.records, saved.payments, saved.events, saved.beneficiaries;
    }

    method RestoreBooks(saved: Store.Books)
      modifies this`accounts, this`wallets, this`transactions
      ensures Books() == saved
    {
      accounts, wallets, transactions := saved.accounts, saved.wallets, saved.transactions;
    }
  }
}
