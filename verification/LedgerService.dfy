/** Posting to the ledger as the service does it: validate every posting, collecting the next
    balances; write the transaction, its postings and each account; seal. Proved against
    `PlanPost`. */
module LedgerService {
  import opened Domain
  import opened Amounts
  import opened Store
  import opened Posting
  import opened Ledger
  import opened Database

  // ---------------------------------------------------------------- the write loop

  /** The account rows once the accounts in `done` have their next balance. */
  function Rebalanced(accounts: map<Uuid, Account>, next: map<Uuid, int>, done: set<Uuid>): map<Uuid, Account> {
    map a | a in accounts :: if a in done && a in next then accounts[a].(balance := next[a]) else accounts[a]
  }

  /** The trigger's guard holds of the account of wallet `w`. */
  predicate Fires(b: Books, next: map<Uuid, int>, w: Wallet) {
    w.account in next && Resyncs(b, w.account, next[w.account])
  }

  /** The wallet rows then, kept in step by the balance trigger. */
  function Synced(b: Books, next: map<Uuid, int>, done: set<Uuid>): map<Uuid, Wallet> {
    map w | w in b.wallets :: if b.wallets[w].account in done && Fires(b, next, b.wallets[w])
                              then b.wallets[w].(balance := next[b.wallets[w].account]) else b.wallets[w]
  }

  /** The balance trigger of one account update, from the old to the new row. */
  function SyncedBy(wallets: map<Uuid, Wallet>, id: Uuid, before: Account, after: Account): map<Uuid, Wallet> {
    if after.kind == WALLET && after.balance != before.balance then
      map w | w in wallets :: if wallets[w].account == id then wallets[w].(balance := after.balance) else wallets[w]
    else wallets
  }

  lemma OneMoreAccount(b: Books, next: map<Uuid, int>, done: set<Uuid>, a: Uuid)
    requires a in b.accounts && a in next && a !in done
    ensures var before, after := Rebalanced(b.accounts, next, done), Rebalanced(b.accounts, next, done + {a});
            && a in before && before[a] == b.accounts[a] && before[a := before[a].(balance := next[a])] == after
            && SyncedBy(Synced(b, next, done), a, before[a], before[a].(balance := next[a])) == Synced(b, next, done + {a})
  {}

  lemma NothingWritten(b: Books, next: map<Uuid, int>)
    ensures Rebalanced(b.accounts, next, {}) == b.accounts && Synced(b, next, {}) == b.wallets
  {}

  /** The updates, triggers included, amount to the planned rows. */
  lemma AllWritten(b: Books, r: PostingRequest, next: map<Uuid, int>, txId: Uuid)
    requires Paired(b) && next.Keys <= b.accounts.Keys
    ensures ApplyBooks(b, PostingWrites(b, r, next, txId)) ==
              Books(Rebalanced(b.accounts, next, next.Keys), Synced(b, next, next.Keys),
                    b.transactions[txId := LedgerTransaction(r.reference, r.currency, PostingRows(r.postings), true)])
  {
    hide Paired, Synced;
    var w := PostingWrites(b, r, next, txId);
    assert b.accounts + w.accounts == Rebalanced(b.accounts, next, next.Keys);
    AllSynced(b, r, next, txId);
  }

  lemma AllSynced(b: Books, r: PostingRequest, next: map<Uuid, int>, txId: Uuid)
    requires Paired(b) && next.Keys <= b.accounts.Keys
    ensures b.wallets + PostingWrites(b, r, next, txId).wallets == Synced(b, next, next.Keys)
  {
    forall w | w in b.wallets ensures w in PostingWrites(b, r, next, txId).wallets <==> Fires(b, next, b.wallets[w]) {
      WalletRowsFollowAccounts(b, r, next, txId, w);
    }
  }

  // ---------------------------------------------------------------- the validation loop

  lemma {:induction false} FirstErrorDecides(b: Books, c: Currency, ps: seq<PostingInput>, i: nat)
    requires i <= |ps| && NextBalances(b, c, ps[..i]).Err?
    ensures NextBalances(b, c, ps) == NextBalances(b, c, ps[..i])
  {
    if i == |ps| { assert ps[..i] == ps; }
    else {
      var front := ps[..|ps| - 1];
      assert front[..i] == ps[..i];
      FirstErrorDecides(b, c, front, i);
    }
  }

  lemma OneMorePosting(b: Books, c: Currency, ps: seq<PostingInput>, i: nat)
    requires i < |ps| && NextBalances(b, c, ps[..i]).Ok?
    ensures var next := CheckedBalance(b, c, ps[i]);
            NextBalances(b, c, ps[..i + 1]) == if next.Err? then Err(next.reason)
                                               else Ok(NextBalances(b, c, ps[..i]).value[ps[i].account.value := next.value])
  {
    assert ps[..i + 1][..i] == ps[..i];
    assert ps[..i + 1][i] == ps[i];
  }

  lemma {:induction false} NextBalancesOfFound(b: Books, c: Currency, ps: seq<PostingInput>)
    requires NextBalances(b, c, ps).Ok?
    ensures NextBalances(b, c, ps).value.Keys == FoundAccounts(b, ps)
  {
    if ps != [] {
      var front, last := ps[..|ps| - 1], ps[|ps| - 1];
      NextBalancesOfFound(b, c, front);
      assert FoundAccounts(b, ps) == FoundAccounts(b, front) + {last.account.value} by {
        forall i | 0 <= i < |front| ensures front[i] == ps[i] {}
        assert last == ps[|ps| - 1];
      }
    }
  }

  class LedgerService {
    const db: Database

    constructor (db: Database)
      ensures this.db == db
    {
      this.db := db;
    }

    /** What the service checks of one posting; None when its account is missing. */
    method Check(currency: Currency, posting: PostingInput) returns (next: Result<int>)
      ensures next == CheckedBalance(db.Books(), currency, posting)
    {
      if !posting.account.Uuid4? || posting.account.spelling != 0 || posting.account.value !in db.accounts {
        return Err(AccountMissing);
      }
      var account := db.accounts[posting.account.value];
      if account.currency != currency { return Err(CurrencyMismatch); }
      var wallet := LinkedWallet(db.Books(), account);
      if account.kind == WALLET {
        if wallet.None? { return Err(WalletUnlinked); }
        if wallet.value.currency != account.currency { return Err(WalletCurrencyInconsistent); }
        if wallet.value.balance != account.balance { return Err(WalletBalanceInconsistent); }
        if wallet.value.status != ACTIVE { return Err(WalletNotActive); }
      } else if wallet.Some? {
        return Err(SystemAccountLinked);
      }
      var balance := account.balance + posting.amount;
      if !IsSupported(balance) { return Err(BalanceOutOfRange); }
      if !account.allowNegative && balance < 0 { return Err(InsufficientFunds); }
      return Ok(balance);
    }

    /** The validation loop: one entry of `nextBalances` per posting. */
    method Validate(currency: Currency, postings: seq<PostingInput>) returns (result: Result<map<Uuid, int>>)
      ensures result == NextBalances(db.Books(), currency, postings)
    {
      var nextBalances: map<Uuid, int> := map[];
      var i := 0;
      while i < |postings|
        invariant 0 <= i <= |postings|
        invariant NextBalances(db.Books(), currency, postings[..i]) == Ok(nextBalances)
      {
        OneMorePosting(db.Books(), currency, postings, i);
        var next := Check(currency, postings[i]);
        if next.Err? {
          FirstErrorDecides(db.Books(), currency, postings, i + 1);
          return Err(next.reason);
        }
        nextBalances := nextBalances[postings[i].account.value := next.value];
        i := i + 1;
      }
      assert postings[..i] == postings;
      return Ok(nextBalances);
    }

    /** Updates every account, one statement each, in whatever order the rows came. */
    method WriteBalances(accounts: set<Uuid>, next: map<Uuid, int>)
      requires accounts == next.Keys && accounts <= db.accounts.Keys
      modifies db`accounts, db`wallets
      ensures db.accounts == Rebalanced(old(db.accounts), next, accounts)
      ensures db.wallets == Synced(old(db.Books()), next, accounts)
    {
      var remaining := accounts;
      ghost var b := db.Books();
      NothingWritten(b, next);
      while remaining != {}
        invariant remaining <= accounts
        invariant db.accounts == Rebalanced(old(db.accounts), next, accounts - remaining)
        invariant db.wallets == Synced(b, next, accounts - remaining)
        decreases |remaining|
      {
        var a :| a in remaining;
        OneMoreAccount(b, next, accounts - remaining, a);
        assert accounts - remaining + {a} == accounts - (remaining - {a});
        var account := db.accounts[a];
        db.accounts := db.accounts[a := account.(balance := next[a])];
        db.wallets := SyncedBy(db.wallets, a, account, account.(balance := next[a]));
        remaining := remaining - {a};
      }
      assert accounts - remaining == accounts;
    }

    /** Every refusal comes before the first write: on an error no row has changed. */
    method PostWithinTransaction(input: PostingRequest, txId: Uuid) returns (result: Result<Uuid>)
      requires Paired(db.Books()) && txId !in db.transactions
      modifies db`accounts, db`wallets, db`transactions
      ensures match PlanPost(old(db.Books()), input, txId)
              case Ok(w) => result == Ok(txId) && db.Books() == ApplyBooks(old(db.Books()), w)
              case Err(reason) => result == Err(reason) && db.Books() == old(db.Books())
    {
      hide Paired;
      var normalized := Normalize(input);
      if normalized.Err? { return Err(normalized.reason); }
      var n := normalized.value;
      var accounts := FoundAccounts(db.Books(), n.postings);
      if |accounts| != |n.postings| { return Err(AccountMissing); }
      var next := Validate(n.currency, n.postings);
      if next.Err? { return Err(next.reason); }
      if exists t :: t in db.transactions && db.transactions[t].reference == n.reference { return Err(UniqueViolation); }
      NextBalancesOfFound(db.Books(), n.currency, n.postings);
      AllWritten(db.Books(), n, next.value, txId);
      Write(n, accounts, next.value, txId);
      return Ok(txId);
    }

    /** The transaction row and its postings, the balances, and last the seal. */
    method Write(n: PostingRequest, accounts: set<Uuid>, next: map<Uuid, int>, txId: Uuid)
      requires accounts == next.Keys && accounts <= db.accounts.Keys
      modifies db`accounts, db`wallets, db`transactions
      ensures db.accounts == Rebalanced(old(db.accounts), next, accounts) && db.wallets == Synced(old(db.Books()), next, accounts)
      ensures db.transactions == old(db.transactions)[txId := LedgerTransaction(n.reference, n.currency, PostingRows(n.postings), true)]
    {
      InsertTransaction(n, txId);
      WriteBalances(accounts, next);
      Seal(txId);
    }

    method InsertTransaction(n: PostingRequest, txId: Uuid)
      modifies db`transactions
      ensures db.transactions == old(db.transactions)[txId := LedgerTransaction(n.reference, n.currency, PostingRows(n.postings), false)]
    {
      db.transactions := db.transactions[txId := LedgerTransaction(n.reference, n.currency, map[], false)];
      db.transactions := db.transactions[txId := db.transactions[txId].(postings := PostingRows(n.postings))];
    }

    method Seal(txId: Uuid)
      requires txId in db.transactions
      modifies db`transactions
      ensures db.transactions == old(db.transactions)[txId := old(db.transactions)[txId].(isSealed := true)]
    {
      db.transactions := db.transactions[txId := db.transactions[txId].(isSealed := true)];
    }
  }
}
