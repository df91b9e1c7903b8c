/** Opening and closing wallets as the service runs. Proved against `PlanOpen` and `PlanClose`. */
module WalletService {
  import opened Domain
  import opened Store
  import opened Plans
  import opened Ledger
  import opened Business
  import opened Operations
  import opened WalletSteps
  import opened Runs
  import opened Safety
  import opened Races
  import opened Database

  class WalletsService {
    const db: Database

    constructor (db: Database)
      ensures this.db == db
    {
      this.db := db;
    }

    /** Succeeds exactly when the user has no wallet in the currency, and then the user has exactly
        one: active, empty, with an account of its own. Nothing that existed changes, and good
        tables stay good. */
    method Create(user: Uuid, c: Currency, ids: Ids) returns (result: Result<Reply>)
      requires Good(db.View()) && Fresh(db.View(), Open(user, c, ids))
      modifies db`accounts, db`wallets
      ensures Good(db.View()) && Grows(old(db.View()), db.View())
      ensures result.Ok? <==> !HasWallet(old(db.View()), user, c)
      ensures result.Ok? ==> result.value == WalletIs(ids.row, ACTIVE) && NewWallet(old(db.View()), db.View(), user, c, ids.row)
      ensures result.Err? ==> result.reason == WalletExists && db.View() == old(db.View())
    {
      hide Good, Grows, Fresh, NewWallet;
      ghost var before := db.View();
      OpeningIsNew(before, user, c, ids);
      if exists w :: w in db.wallets && db.wallets[w].user == user && db.wallets[w].currency == c { return Err(WalletExists); }
      db.accounts := db.accounts[ids.transaction := Account(WALLET, c, false, 0, Some(ids.row))];
      db.wallets := db.wallets[ids.row := Wallet(user, ids.transaction, c, ACTIVE, 0)];
      return Ok(WalletIs(ids.row, ACTIVE));
    }

    /** Looks the wallet up, waits for the locks on its account and its row while others commit,
        and reads it again: `meanwhile` are the tables once the locks are held. What it decides, it
        decides on those: a wallet is closed only if it is then active and empty, and nothing but
        its status changes. */
    method Close(user: Uuid, wallet: Uuid, meanwhile: Db, ghost run: seq<Db>, ghost at: seq<nat>) returns (result: Result<Reply>)
      requires Watches(run, at, [db.View(), meanwhile])
      modifies db
      ensures wallet !in old(db.wallets) || old(db.wallets)[wallet].user != user ==>
                result == Err(WalletNotFound) && db.View() == old(db.View())
      ensures wallet in old(db.wallets) && old(db.wallets)[wallet].user == user ==>
                Closes(meanwhile, db.View(), wallet, result) && Good(db.View()) && Grows(old(db.View()), db.View())
    {
      hide Run, Watches, Good, Grows, Closes;
      if wallet !in db.wallets || db.wallets[wallet].user != user { return Err(WalletNotFound); }
      ghost var before := db.View();
      StillOwned(run, at, before, meanwhile, user, wallet);
      ClosingEnds(before, meanwhile, user, wallet);
      db.Meanwhile(meanwhile);
      var current := db.wallets[wallet];
      if current.status == CLOSED { return Ok(WalletIs(wallet, CLOSED)); }
      if current.status == FROZEN { return Err(WalletFrozen); }
      if current.balance != 0 { return Err(WalletNotEmpty); }
      db.wallets := db.wallets[wallet := current.(status := CLOSED)];
      return Ok(WalletIs(wallet, CLOSED));
    }
  }

  // ---------------------------------------------------------------- what a caller learns

  ghost predicate HasWallet(db: Db, user: Uuid, c: Currency) {
    exists w :: w in db.books.wallets && db.books.wallets[w].user == user && db.books.wallets[w].currency == c
  }

  /** `w` is the user's only wallet in the currency; all other rows are as they were. */
  ghost predicate NewWallet(db: Db, after: Db, user: Uuid, c: Currency, w: Uuid) {
    && w !in db.books.wallets && w in after.books.wallets
    && after.books.wallets[w].status == ACTIVE && after.books.wallets[w].balance == 0
    && (forall v :: v in after.books.wallets && after.books.wallets[v].user == user && after.books.wallets[v].currency == c <==> v == w)
    && after.books.wallets - {w} == db.books.wallets
    && after.books.wallets[w].account !in db.books.accounts
    && after.books.accounts - {after.books.wallets[w].account} == db.books.accounts
    && after == db.(books := Books(after.books.accounts, after.books.wallets, db.books.transactions))
  }

  /** The wallet ends closed and empty if it was empty and not frozen, or closed already; else it
      is refused and nothing changes. */
  ghost predicate Closes(db: Db, after: Db, w: Uuid, result: Result<Reply>) {
    && w in db.books.wallets && w in after.books.wallets
    && (result.Ok? <==> (db.books.wallets[w].status == CLOSED || (db.books.wallets[w].status == ACTIVE && db.books.wallets[w].balance == 0)))
    && (result.Ok? ==> result.value == WalletIs(w, CLOSED) && after.books.wallets[w].status == CLOSED && after.books.wallets[w].balance == 0
                       && after == db.(books := Closed(db.books, w)))
    && (result.Err? ==> after == db && result.reason == if db.books.wallets[w].status == FROZEN then WalletFrozen else WalletNotEmpty)
  }

  lemma OpeningIsNew(db: Db, user: Uuid, c: Currency, ids: Ids)
    requires Good(db) && Fresh(db, Open(user, c, ids))
    ensures Grows(db, db)
    ensures !HasWallet(db, user, c) ==>
              var after := db.(books := Opened(db.books, user, c, ids));
              Good(after) && Grows(db, after) && NewWallet(db, after, user, c, ids.row)
  {
    GrowsFromItself(db);
    if !HasWallet(db, user, c) {
      OpeningAddsOne(db, user, c, ids);
      hide Good, Grows, NewWallet, Fresh;
      OpenApplied(db, user, c, ids);
      OpenKeepsGood(db, Open(user, c, ids));
    }
  }

  lemma OpeningAddsOne(db: Db, user: Uuid, c: Currency, ids: Ids)
    requires Fresh(db, Open(user, c, ids)) && !HasWallet(db, user, c)
    ensures NewWallet(db, db.(books := Opened(db.books, user, c, ids)), user, c, ids.row)
  {}

  lemma StillOwned(run: seq<Db>, at: seq<nat>, before: Db, meanwhile: Db, user: Uuid, w: Uuid)
    requires Watches(run, at, [before, meanwhile]) && w in before.books.wallets && before.books.wallets[w].user == user
    ensures w in meanwhile.books.wallets && meanwhile.books.wallets[w].user == user
    ensures Good(meanwhile) && Grows(before, meanwhile)
  {
    hide Good, Run;
    WatchedIsGood(run, at, [before, meanwhile], 1);
    WatchingGrows(run, at, [before, meanwhile], 0, 1);
    assert SameWallet(before.books.wallets[w], meanwhile.books.wallets[w]);
  }

  /** Three of the four ways a close ends: without a change. */
  lemma ClosingChangesNothing(db: Db, w: Uuid)
    requires w in db.books.wallets && (db.books.wallets[w].status == CLOSED ==> db.books.wallets[w].balance == 0)
    ensures var v := db.books.wallets[w];
            && (v.status == CLOSED ==> Closes(db, db, w, Ok(WalletIs(w, CLOSED))))
            && (v.status == FROZEN ==> Closes(db, db, w, Err(WalletFrozen)))
            && (v.status == ACTIVE && v.balance != 0 ==> Closes(db, db, w, Err(WalletNotEmpty)))
  {
    if db.books.wallets[w].status == CLOSED { assert db.books.wallets[w := db.books.wallets[w].(status := CLOSED)] == db.books.wallets; }
  }

  lemma ClosingChangesTheStatus(db: Db, w: Uuid)
    requires w in db.books.wallets && db.books.wallets[w].status == ACTIVE && db.books.wallets[w].balance == 0
    ensures Closes(db, db.(books := Closed(db.books, w)), w, Ok(WalletIs(w, CLOSED)))
  {}

  /** The fourth way: the tables stay good. */
  lemma ClosingStaysGood(before: Db, db: Db, user: Uuid, w: Uuid)
    requires Good(db) && Grows(before, db) && w in db.books.wallets && db.books.wallets[w].user == user
    requires db.books.wallets[w].status == ACTIVE && db.books.wallets[w].balance == 0
    ensures var after := db.(books := Closed(db.books, w)); Good(after) && Grows(before, after)
  {
    hide Intact, Good, Grows;
    CloseMovesNothing(db, user, w);
    CloseKeepsGood(db, Close(user, w));
    GrowsTransitively(before, db, db.(books := Closed(db.books, w)));
  }

  lemma ClosingEnds(before: Db, db: Db, user: Uuid, w: Uuid)
    requires Good(db) && Grows(before, db) && w in db.books.wallets && db.books.wallets[w].user == user
    ensures var v, after := db.books.wallets[w], db.(books := Closed(db.books, w));
            && (v.status == CLOSED ==> Closes(db, db, w, Ok(WalletIs(w, CLOSED))))
            && (v.status == FROZEN ==> Closes(db, db, w, Err(WalletFrozen)))
            && (v.status == ACTIVE && v.balance != 0 ==> Closes(db, db, w, Err(WalletNotEmpty)))
            && (v.status == ACTIVE && v.balance == 0 ==> Closes(db, after, w, Ok(WalletIs(w, CLOSED))) && Good(after) && Grows(before, after))
  {
    hide Good, Grows, Closes;
    if db.books.wallets[w].status == CLOSED { ClosedAreEmpty(db, w); }
    ClosingChangesNothing(db, w);
    if db.books.wallets[w].status == ACTIVE && db.books.wallets[w].balance == 0 {
      ClosingChangesTheStatus(db, w);
      ClosingStaysGood(before, db, user, w);
    }
  }

  lemma ClosedAreEmpty(db: Db, w: Uuid)
    requires Good(db) && w in db.books.wallets && db.books.wallets[w].status == CLOSED
    ensures db.books.wallets[w].balance == 0
  {
    assert WalletSound(db.books, w);
  }
}
