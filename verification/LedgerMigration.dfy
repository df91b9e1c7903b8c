/** The ledger migration statement by statement. Proved against `Migrate`. */
module LedgerMigration {
  import opened Sums
  import opened Domain
  import opened Amounts
  import opened Store
  import opened Business
  import opened Database
  import opened Migration

  /** SUM("currentBalanceMinor") over the wallets of a currency. */
  method SumBalances(legacy: Legacy, c: Currency) returns (total: int)
    ensures total == Total(legacy, c)
  {
    var held: map<Uuid, int> := map w | w in legacy && legacy[w].currency == c :: legacy[w].balance;
    assert held == Held(legacy, c);
    total := 0;
    ghost var all: map<Uuid, int> := held;
    while held != map[]
      invariant total + Sum(held) == Sum(all)
      decreases |held|
    {
      var w :| w in held;
      SumRemove(held, w);
      total := total + held[w];
      var rest := held - {w};
      assert rest.Keys == held.Keys - {w};
      assert |rest.Keys| < |held.Keys|;
      assert |rest| == |rest.Keys| && |held| == |held.Keys|;
      held := rest;
    }
  }

  /** The opening transactions with the postings of both INSERTs. */
  method InsertOpenings(db: Database, legacy: Legacy)
    requires Clearing(USD) !in legacy && Clearing(NGN) !in legacy
    modifies db`transactions
    ensures db.transactions == OpeningTransactions(legacy)
  {
    db.transactions := map w | w in legacy && legacy[w].balance != 0 :: LedgerTransaction(OpeningRef(w), legacy[w].currency, map[], true);
    db.transactions := map w | w in db.transactions :: db.transactions[w].(postings := map[w := legacy[w].balance]);
    db.transactions := map w | w in db.transactions ::
                         db.transactions[w].(postings := db.transactions[w].postings[Clearing(legacy[w].currency) := -legacy[w].balance]);
    forall w | w in db.transactions ensures db.transactions[w] == OpeningTransactions(legacy)[w] {
      assert w != Clearing(legacy[w].currency);
      assert db.transactions[w].postings == PairRows(Clearing(legacy[w].currency), w, legacy[w].balance);
    }
  }

  /** The clearing accounts, and an account of its own for every wallet. */
  method InsertAccounts(db: Database, legacy: Legacy)
    requires Clearing(USD) !in legacy && Clearing(NGN) !in legacy && db.wallets == map[]
    modifies db`accounts, db`wallets
    ensures db.wallets == LinkedWallets(legacy)
    ensures db.accounts == Seeded(legacy, 0, 0)
  {
    db.accounts := map[Clearing(USD) := Account(SYSTEM, USD, true, 0, None)][Clearing(NGN) := Account(SYSTEM, NGN, true, 0, None)];
    db.accounts := db.accounts + WalletAccounts(legacy);
    db.wallets := LinkedWallets(legacy);
  }

  function Seeded(legacy: Legacy, usd: int, ngn: int): map<Uuid, Account> {
    WalletAccounts(legacy)[Clearing(USD) := Account(SYSTEM, USD, true, usd, None)][Clearing(NGN) := Account(SYSTEM, NGN, true, ngn, None)]
  }

  lemma SeededTotals(legacy: Legacy)
    requires Clearing(USD) !in legacy && Clearing(NGN) !in legacy
    ensures Seeded(legacy, -Total(legacy, USD), -Total(legacy, NGN)) == MigratedBooks(legacy).accounts
  {}

  method UpdateClearing(db: Database, legacy: Legacy, usd: int, ngn: int)
    requires db.accounts == Seeded(legacy, 0, 0)
    modifies db`accounts
    ensures db.accounts == Seeded(legacy, usd, ngn)
  {
    db.accounts := db.accounts[Clearing(USD) := db.accounts[Clearing(USD)].(balance := usd)];
    db.accounts := db.accounts[Clearing(NGN) := db.accounts[Clearing(NGN)].(balance := ngn)];
  }

  /** The clearing accounts take the opposite of the totals, unless one does not fit. */
  method TakeTotals(db: Database, legacy: Legacy) returns (fits: bool)
    requires db.accounts == Seeded(legacy, 0, 0)
    modifies db`accounts
    ensures fits <==> IsSupported(-Total(legacy, USD)) && IsSupported(-Total(legacy, NGN))
    ensures fits ==> db.accounts == Seeded(legacy, -Total(legacy, USD), -Total(legacy, NGN))
  {
    var usd := SumBalances(legacy, USD);
    var ngn := SumBalances(legacy, NGN);
    if !IsSupported(-usd) || !IsSupported(-ngn) { return false; }
    UpdateClearing(db, legacy, -usd, -ngn);
    return true;
  }

  /** From empty tables; a failing statement undoes the migration. */
  method MigrateWallets(db: Database, legacy: Legacy) returns (result: Result<()>)
    requires db.View() == NOTHING
    modifies db
    ensures match Migrate(legacy)
            case Ok(migrated) => result == Ok(()) && db.View() == migrated
            case Err(reason) => result == Err(reason) && db.View() == NOTHING
  {
    hide Total, LinkedWallets, OpeningTransactions;
    if Clearing(USD) in legacy || Clearing(NGN) in legacy { return Err(UniqueViolation); }
    InsertAccounts(db, legacy);
    InsertOpenings(db, legacy);
    var fits := TakeTotals(db, legacy);
    if !fits {
      db.RollbackTo(NOTHING);
      return Err(BalanceOutOfRange);
    }
    SeededTotals(legacy);
    return Ok(());
  }
}
