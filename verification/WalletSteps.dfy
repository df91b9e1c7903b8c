/** Opening and closing wallets keep the business invariant. */
module WalletSteps {
  import opened Sums
  import opened Domain
  import opened Amounts
  import opened Store
  import opened Posting
  import opened Ledger
  import opened Plans
  import opened Business
  import opened Operations

  // ---------------------------------------------------------------- opening

  function Opened(b: Books, user: Uuid, c: Currency, ids: Ids): Books {
    Books(b.accounts[ids.transaction := Account(WALLET, c, false, 0, Some(ids.row))],
          b.wallets[ids.row := Wallet(user, ids.transaction, c, ACTIVE, 0)], b.transactions)
  }

  lemma NothingPostedToANewAccount(b: Books, a: Uuid)
    requires TransactionsSound(b) && a !in b.accounts
    ensures Posted(b, a) == 0
  {
    forall t | t in b.transactions ensures PostedMap(b, a)[t] == 0 { assert TransactionSound(b, t); }
    SumZero(PostedMap(b, a));
  }

  lemma OpeningKeepsAccounts(b: Books, user: Uuid, c: Currency, ids: Ids)
    requires AccountsSound(b) && TransactionsSound(b) && ids.transaction !in b.accounts
    ensures AccountsSound(Opened(b, user, c, ids))
  {
    var after := Opened(b, user, c, ids);
    NothingPostedToANewAccount(b, ids.transaction);
    forall a | a in after.accounts ensures AccountSound(after, a) {
      if a != ids.transaction { OtherAccountStaysSound(b, user, c, ids, a); }
      else { assert PostedMap(after, a) == PostedMap(b, a); }
    }
  }

  lemma OtherAccountStaysSound(b: Books, user: Uuid, c: Currency, ids: Ids, a: Uuid)
    requires a in b.accounts && AccountSound(b, a) && a != ids.transaction
    ensures AccountSound(Opened(b, user, c, ids), a)
  {
    assert PostedMap(Opened(b, user, c, ids), a) == PostedMap(b, a);
  }

  lemma OpeningKeepsTotals(b: Books, user: Uuid, c: Currency, ids: Ids, k: Currency)
    requires ClearingSound(b, k) && ids.transaction !in b.accounts
    ensures ClearingSound(Opened(b, user, c, ids), k)
  {
    var after := Opened(b, user, c, ids);
    if k == c {
      assert BalancesIn(after, k) == BalancesIn(b, k)[ids.transaction := 0];
      SumUpdate(BalancesIn(b, k), ids.transaction, 0);
    } else {
      assert BalancesIn(after, k) == BalancesIn(b, k);
    }
  }

  lemma OpeningKeepsRest(b: Books, user: Uuid, c: Currency, ids: Ids)
    requires Paired(b) && WalletsSound(b) && TransactionsSound(b)
    requires ids.transaction !in b.accounts && ids.row !in b.wallets
    ensures var after := Opened(b, user, c, ids); Paired(after) && WalletsSound(after) && TransactionsSound(after)
  {
    var after := Opened(b, user, c, ids);
    assert Paired(after);
    forall w | w in after.wallets ensures WalletSound(after, w) { assert w != ids.row ==> WalletSound(b, w); }
    forall t | t in after.transactions ensures TransactionSound(after, t) { assert TransactionSound(b, t); }
  }

  lemma OpeningKeepsSound(b: Books, user: Uuid, c: Currency, ids: Ids)
    requires Sound(b) && ids.transaction !in b.accounts && ids.row !in b.wallets
    ensures Sound(Opened(b, user, c, ids))
  {
    OpeningKeepsAccounts(b, user, c, ids);
    OpeningKeepsRest(b, user, c, ids);
    forall k ensures ClearingSound(Opened(b, user, c, ids), k) { OpeningKeepsTotals(b, user, c, ids, k); }
  }

  // ---------------------------------------------------------------- closing

  function Closed(b: Books, w: Uuid): Books
    requires w in b.wallets
  {
    b.(wallets := b.wallets[w := b.wallets[w].(status := CLOSED)])
  }

  lemma ClosingKeepsSound(b: Books, w: Uuid)
    requires Sound(b) && w in b.wallets && b.wallets[w].balance == 0
    ensures Sound(Closed(b, w))
  {
    var after := Closed(b, w);
    ClosingKeepsAccounts(b, w);
    ClosingKeepsWallets(b, w);
    forall t | t in after.transactions ensures TransactionSound(after, t) { assert TransactionSound(b, t); }
    forall c ensures ClearingSound(after, c) { ClosingKeepsTotals(b, w, c); }
  }

  lemma ClosingKeepsAccounts(b: Books, w: Uuid)
    requires AccountsSound(b) && w in b.wallets
    ensures AccountsSound(Closed(b, w))
  {
    var after := Closed(b, w);
    forall a | a in after.accounts ensures AccountSound(after, a) {
      assert AccountSound(b, a) && PostedMap(after, a) == PostedMap(b, a);
    }
  }

  lemma ClosingKeepsWallets(b: Books, w: Uuid)
    requires Paired(b) && WalletsSound(b) && w in b.wallets && b.wallets[w].balance == 0
    ensures Paired(Closed(b, w)) && WalletsSound(Closed(b, w))
  {
    var after := Closed(b, w);
    assert Paired(after);
    forall x | x in after.wallets ensures WalletSound(after, x) { assert WalletSound(b, x); }
  }

  lemma ClosingKeepsTotals(b: Books, w: Uuid, c: Currency)
    requires ClearingSound(b, c) && w in b.wallets
    ensures ClearingSound(Closed(b, w), c)
  {
    assert BalancesIn(Closed(b, w), c) == BalancesIn(b, c);
  }

  // ---------------------------------------------------------------- the whole database

  lemma BooksChangeKeepsIntact(db: Db, after: Db)
    requires Intact(db) && after == db.(books := after.books) && Sound(after.books)
    requires after.books.transactions == db.books.transactions && db.books.accounts.Keys <= after.books.accounts.Keys
    requires forall w :: w in db.books.wallets ==> w in after.books.wallets && SameWallet(db.books.wallets[w], after.books.wallets[w])
    ensures Intact(after) && Grows(db, after)
  {
    BooksChangeGrows(db, after);
    BooksChangeKeepsRows(db, after);
    KeysUntouched(db, after);
  }

  lemma BooksChangeGrows(db: Db, after: Db)
    requires after == db.(books := after.books)
    requires after.books.transactions == db.books.transactions && db.books.accounts.Keys <= after.books.accounts.Keys
    requires forall w :: w in db.books.wallets ==> w in after.books.wallets && SameWallet(db.books.wallets[w], after.books.wallets[w])
    ensures Grows(db, after)
  {}

  lemma BooksChangeKeepsRows(db: Db, after: Db)
    requires RowsIntact(db) && Grows(db, after) && after == db.(books := after.books)
    requires after.books.transactions == db.books.transactions
    ensures RowsIntact(after)
  {
    GrowingKeepsRowsIntact(db, after);
  }

  lemma OpenKeepsIntact(db: Db, user: Uuid, c: Currency, ids: Ids)
    requires Intact(db) && Fresh(db, Open(user, c, ids)) && PlanOpen(db, user, c, ids).Commit?
    ensures var after := Apply(db, PlanOpen(db, user, c, ids).writes);
            after == db.(books := Opened(db.books, user, c, ids)) && Intact(after) && Grows(db, after)
  {
    hide RowsIntact, OneKeyEach, OneIntentPerKey, Sound, Grows;
    OpenApplied(db, user, c, ids);
    OpeningKeepsSound(db.books, user, c, ids);
    BooksChangeKeepsIntact(db, db.(books := Opened(db.books, user, c, ids)));
  }

  lemma OpenApplied(db: Db, user: Uuid, c: Currency, ids: Ids)
    requires PlanOpen(db, user, c, ids).Commit?
    ensures Apply(db, PlanOpen(db, user, c, ids).writes) == db.(books := Opened(db.books, user, c, ids))
  {
    var w := PlanOpen(db, user, c, ids).writes;
    Untouched(db, w);
    AddOne(db.books.accounts, ids.transaction, w.books.accounts[ids.transaction]);
    AddOne(db.books.wallets, ids.row, w.books.wallets[ids.row]);
    AddNothing(db.books.transactions);
  }

  /** What closing commits: only the status, and only of an empty wallet or a closed one. */
  lemma CloseMovesNothing(db: Db, user: Uuid, wallet: Uuid)
    requires PlanClose(db, user, wallet).Commit?
    ensures wallet in db.books.wallets
    ensures Apply(db, PlanClose(db, user, wallet).writes) == db.(books := Closed(db.books, wallet))
    ensures db.books.wallets[wallet].status == CLOSED || db.books.wallets[wallet].balance == 0
  {
    var v := db.books.wallets[wallet].(status := CLOSED);
    if db.books.wallets[wallet].status == CLOSED {
      assert db.books.wallets[wallet := v] == db.books.wallets;
      Untouched(db, NOTHING);
    } else { OneWalletWritten(db, wallet, v); }
  }

  lemma OneWalletWritten(db: Db, w: Uuid, v: Wallet)
    ensures Apply(db, NOTHING.(books := NO_BOOKS.(wallets := map[w := v]))) ==
              db.(books := db.books.(wallets := db.books.wallets[w := v]))
  {
    OneWalletApplied(db.books, w, v);
    Untouched(db, NOTHING.(books := NO_BOOKS.(wallets := map[w := v])));
  }

  lemma OneWalletApplied(b: Books, w: Uuid, v: Wallet)
    ensures ApplyBooks(b, NO_BOOKS.(wallets := map[w := v])) == b.(wallets := b.wallets[w := v])
  {
    AddOne(b.wallets, w, v);
    AddNothing(b.accounts);
    AddNothing(b.transactions);
  }

  lemma ClosedKeepsIntact(db: Db, wallet: Uuid)
    requires Intact(db) && wallet in db.books.wallets && db.books.wallets[wallet].balance == 0
    ensures var after := db.(books := Closed(db.books, wallet)); Intact(after) && Grows(db, after)
  {
    ClosingKeepsSound(db.books, wallet);
    BooksChangeKeepsIntact(db, db.(books := Closed(db.books, wallet)));
  }

  lemma CloseKeepsIntact(db: Db, user: Uuid, wallet: Uuid)
    requires Intact(db) && PlanClose(db, user, wallet).Commit?
    ensures var after := Apply(db, PlanClose(db, user, wallet).writes); Intact(after) && Grows(db, after)
    ensures wallet in db.books.wallets && db.books.wallets[wallet].balance == 0
  {
    CloseMovesNothing(db, user, wallet);
    assert WalletSound(db.books, wallet);
    ClosedKeepsIntact(db, wallet);
  }
}
