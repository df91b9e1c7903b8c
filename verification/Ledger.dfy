/** The ledger invariant, and its preservation by posting. */
module Ledger {
  import opened Sums
  import opened Domain
  import opened Amounts
  import opened Store
  import opened Posting

  // ---------------------------------------------------------------- the invariant

  ghost function PostedMap(b: Books, a: Uuid): map<Uuid, int> {
    map t | t in b.transactions :: Get(b.transactions[t].postings, a)
  }

  /** What all postings to an account add up to. */
  ghost function Posted(b: Books, a: Uuid): int {
    Sum(PostedMap(b, a))
  }

  ghost function BalancesIn(b: Books, c: Currency): map<Uuid, int> {
    map a | a in b.accounts && b.accounts[a].currency == c :: b.accounts[a].balance
  }

  ghost predicate AccountSound(b: Books, a: Uuid)
    requires a in b.accounts
  {
    var account := b.accounts[a];
    && (account.kind == WALLET ==> !account.allowNegative)
    && (account.kind == SYSTEM ==> a == Clearing(account.currency))
    && (account.allowNegative || account.balance >= 0)
    && IsSupported(account.balance)
    && account.balance == Posted(b, a)
  }

  ghost predicate WalletSound(b: Books, w: Uuid)
    requires w in b.wallets && b.wallets[w].account in b.accounts
  {
    var wallet := b.wallets[w];
    var account := b.accounts[wallet.account];
    && wallet.currency == account.currency
    && wallet.balance == account.balance
    && (wallet.status == CLOSED ==> wallet.balance == 0)
  }

  ghost predicate TransactionSound(b: Books, t: Uuid)
    requires t in b.transactions
  {
    var tx := b.transactions[t];
    && tx.isSealed
    && |tx.postings| >= 2
    && Sum(tx.postings) == 0
    && (forall a :: a in tx.postings ==>
          tx.postings[a] != 0 && a in b.accounts && b.accounts[a].currency == tx.currency)
  }

  ghost predicate ClearingSound(b: Books, c: Currency) {
    && Clearing(c) in b.accounts
    && b.accounts[Clearing(c)].kind == SYSTEM
    && b.accounts[Clearing(c)].currency == c
    && b.accounts[Clearing(c)].allowNegative
    && Sum(BalancesIn(b, c)) == 0
  }

  ghost predicate AccountsSound(b: Books) {
    forall a :: a in b.accounts ==> AccountSound(b, a)
  }

  ghost predicate WalletsSound(b: Books)
    requires Paired(b)
  {
    forall w :: w in b.wallets ==> WalletSound(b, w)
  }

  ghost predicate TransactionsSound(b: Books) {
    forall t :: t in b.transactions ==> TransactionSound(b, t)
  }

  ghost predicate Sound(b: Books) {
    && Paired(b)
    && AccountsSound(b)
    && WalletsSound(b)
    && TransactionsSound(b)
    && (forall c :: ClearingSound(b, c))
  }

  /** Wallets have accounts of their own. */
  lemma WalletAccountsDiffer(b: Books, v: Uuid, w: Uuid)
    requires Paired(b) && v in b.wallets && w in b.wallets && v != w
    ensures b.wallets[v].account != b.wallets[w].account
  {
    assert b.accounts[b.wallets[v].account].wallet == Some(v);
  }

  // ---------------------------------------------------------------- what an accepted posting satisfies

  /** `rows` move money between accounts of `b`, leading to the balances `next`. */
  ghost predicate Moves(b: Books, c: Currency, rows: map<Uuid, int>, next: map<Uuid, int>) {
    && rows.Keys == next.Keys
    && (forall a :: a in rows ==> a in b.accounts && MovesAccount(b, c, a, rows[a], next[a]))
  }

  ghost predicate MovesAccount(b: Books, c: Currency, a: Uuid, amount: int, next: int)
    requires a in b.accounts
  {
    var account := b.accounts[a];
    && amount != 0
    && account.currency == c
    && next == account.balance + amount
    && IsSupported(next)
    && (account.allowNegative || next >= 0)
    && (account.kind == WALLET ==>
          LinkedWallet(b, account).Some? && LinkedWallet(b, account).value.status == ACTIVE
          && LinkedWallet(b, account).value.balance == account.balance)
  }

  ghost function Texts(ps: seq<PostingInput>): set<IdText> {
    set i | 0 <= i < |ps| :: ps[i].account
  }

  ghost predicate Canonical(ps: seq<PostingInput>) {
    forall i :: 0 <= i < |ps| ==> ps[i].account.Uuid4? && ps[i].account.spelling == 0
  }

  lemma {:induction false} RowKeys(ps: seq<PostingInput>, a: Uuid)
    requires Canonical(ps)
    ensures a in PostingRows(ps) <==> Uuid4(a, 0) in Texts(ps)
  {
    if ps != [] {
      var front, last := ps[..|ps| - 1], ps[|ps| - 1];
      RowKeys(front, a);
      assert Texts(ps) == Texts(front) + {last.account} by {
        forall i | 0 <= i < |ps| ensures ps[i].account in Texts(front) + {last.account} {
          if i < |front| { assert front[i] == ps[i]; }
        }
        forall i | 0 <= i < |front| ensures front[i].account in Texts(ps) { assert front[i] == ps[i]; }
        assert ps[|ps| - 1].account in Texts(ps);
      }
    }
  }

  /** Distinct canonical texts name distinct accounts, so one entry per account loses nothing. */
  lemma {:induction false} DistinctRows(ps: seq<PostingInput>)
    requires SoundPostings(ps) && Canonical(ps)
    ensures Sum(PostingRows(ps)) == Total(ps) && |PostingRows(ps)| == |ps|
    ensures forall i :: 0 <= i < |ps| ==> ps[i].account.value in PostingRows(ps) && PostingRows(ps)[ps[i].account.value] == ps[i].amount
  {
    if ps != [] {
      var front, last := ps[..|ps| - 1], ps[|ps| - 1];
      DistinctRows(front);
      RowKeys(front, last.account.value);
      assert last.account == Uuid4(last.account.value, 0);
      assert last.account !in Texts(front);
      SumUpdate(PostingRows(front), last.account.value, last.amount);
      forall i | 0 <= i < |ps|
        ensures ps[i].account.value in PostingRows(ps) && PostingRows(ps)[ps[i].account.value] == ps[i].amount
      {
        if i < |front| { assert front[i] == ps[i]; }
      }
    }
  }

  lemma {:induction false} AcceptedPostingsMove(b: Books, c: Currency, ps: seq<PostingInput>)
    requires SoundPostings(ps) && NextBalances(b, c, ps).Ok?
    ensures Canonical(ps)
    ensures Moves(b, c, PostingRows(ps), NextBalances(b, c, ps).value)
  {
    if ps != [] {
      var front, last := ps[..|ps| - 1], ps[|ps| - 1];
      AcceptedPostingsMove(b, c, front);
      assert CheckedBalance(b, c, last).Ok?;
      assert MovesAccount(b, c, last.account.value, last.amount, CheckedBalance(b, c, last).value);
      forall i | 0 <= i < |ps| ensures ps[i].account.Uuid4? && ps[i].account.spelling == 0 {
        if i < |front| { assert front[i] == ps[i]; }
      }
    }
  }

  /** An accepted posting names existing accounts in canonical spelling, moves a non-zero
      amount on each, sums to zero and uses a fresh reference. */
  lemma AcceptedPost(b: Books, r: PostingRequest, txId: Uuid)
    requires PlanPost(b, r, txId).Ok?
    ensures Acceptable(r) && Canonical(r.postings)
    ensures var n := Normalized(r).value;
            var next := NextBalances(b, r.currency, r.postings);
            && n.currency == r.currency && n.postings == r.postings && next.Ok?
            && PlanPost(b, r, txId).value == PostingWrites(b, n, next.value, txId)
            && Moves(b, r.currency, PostingRows(r.postings), next.value)
            && Sum(PostingRows(r.postings)) == 0
            && |PostingRows(r.postings)| == |r.postings| >= 2
            && !ReferenceUsed(b, n.reference)
  {
    NormalizedExactlyWhenAcceptable(r);
    AcceptedPostingsMove(b, r.currency, r.postings);
    DistinctRows(r.postings);
  }

  // ---------------------------------------------------------------- preservation

  /** The committed effect of a posting on each row. */
  ghost predicate Moved(b: Books, after: Books, c: Currency, reference: Reference,
                        rows: map<Uuid, int>, next: map<Uuid, int>, txId: Uuid) {
    && after.accounts.Keys == b.accounts.Keys
    && (forall a :: a in b.accounts ==>
          after.accounts[a] == if a in next then b.accounts[a].(balance := next[a]) else b.accounts[a])
    && after.wallets.Keys == b.wallets.Keys
    && (forall w :: w in b.wallets ==>
          after.wallets[w] == if b.wallets[w].account in next then b.wallets[w].(balance := next[b.wallets[w].account]) else b.wallets[w])
    && after.transactions == b.transactions[txId := LedgerTransaction(reference, c, rows, true)]
  }

  /** Every balance changes. */
  ghost predicate ChangesAll(b: Books, next: map<Uuid, int>) {
    forall a :: a in next ==> a in b.accounts && next[a] != b.accounts[a].balance
  }

  lemma MovingChangesAll(b: Books, c: Currency, rows: map<Uuid, int>, next: map<Uuid, int>)
    requires Moves(b, c, rows, next)
    ensures ChangesAll(b, next)
  {
    forall a | a in next ensures a in b.accounts && next[a] != b.accounts[a].balance {
      assert MovesAccount(b, c, a, rows[a], next[a]);
    }
  }

  /** The trigger rewrites exactly the wallets whose account gets another balance. */
  lemma WalletRowsFollowAccounts(b: Books, r: PostingRequest, next: map<Uuid, int>, txId: Uuid, x: Uuid)
    requires Paired(b) && next.Keys <= b.accounts.Keys && x in b.wallets
    ensures x in PostingWrites(b, r, next, txId).wallets <==>
              (b.wallets[x].account in next && next[b.wallets[x].account] != b.accounts[b.wallets[x].account].balance)
  {
    assert b.accounts[b.wallets[x].account].wallet == Some(x);
  }

  lemma WalletsMove(b: Books, r: PostingRequest, next: map<Uuid, int>, txId: Uuid)
    requires Paired(b) && ChangesAll(b, next)
    ensures var after := (b.wallets + PostingWrites(b, r, next, txId).wallets);
            && after.Keys == b.wallets.Keys
            && (forall w :: w in b.wallets ==>
                  after[w] == if b.wallets[w].account in next then b.wallets[w].(balance := next[b.wallets[w].account]) else b.wallets[w])
  {
    forall w | w in b.wallets ensures w in PostingWrites(b, r, next, txId).wallets <==> b.wallets[w].account in next {
      WalletRowsFollowAccounts(b, r, next, txId, w);
    }
  }

  /** No posting is zero, so an accepted posting changes the balance of every wallet it posts
      to: the trigger always rewrites the wallet row. */
  lemma PostingRewritesEveryWallet(b: Books, r: PostingRequest, txId: Uuid, w: Uuid)
    requires Paired(b) && PlanPost(b, r, txId).Ok?
    requires w in b.wallets && b.wallets[w].account in PostingRows(r.postings)
    ensures var written, amount := PlanPost(b, r, txId).value.wallets, PostingRows(r.postings)[b.wallets[w].account];
            amount != 0 && w in written && written[w] == b.wallets[w].(balance := b.wallets[w].balance + amount)
  {
    AcceptedPost(b, r, txId);
    var a, next := b.wallets[w].account, NextBalances(b, r.currency, r.postings).value;
    assert MovesAccount(b, r.currency, a, PostingRows(r.postings)[a], next[a]);
    assert b.accounts[a].wallet == Some(w);
    WalletRowsFollowAccounts(b, Normalized(r).value, next, txId, w);
  }

  lemma AccountsMove(b: Books, r: PostingRequest, next: map<Uuid, int>, txId: Uuid)
    requires ChangesAll(b, next)
    ensures var after := (b.accounts + PostingWrites(b, r, next, txId).accounts);
            && after.Keys == b.accounts.Keys
            && (forall a :: a in b.accounts ==>
                  after[a] == if a in next then b.accounts[a].(balance := next[a]) else b.accounts[a])
  {}

  lemma PostingWritesMove(b: Books, r: PostingRequest, next: map<Uuid, int>, txId: Uuid)
    requires Paired(b) && ChangesAll(b, next)
    ensures Moved(b, ApplyBooks(b, PostingWrites(b, r, next, txId)), r.currency, r.reference, PostingRows(r.postings), next, txId)
  {
    hide Paired, ChangesAll, PostingRows, PostingWrites;
    WalletsMove(b, r, next, txId);
    AccountsMove(b, r, next, txId);
    TransactionInserted(b, r, next, txId);
  }

  lemma TransactionInserted(b: Books, r: PostingRequest, next: map<Uuid, int>, txId: Uuid)
    ensures b.transactions + PostingWrites(b, r, next, txId).transactions ==
              b.transactions[txId := LedgerTransaction(r.reference, r.currency, PostingRows(r.postings), true)]
  {}

  lemma PostedAfter(b: Books, after: Books, txId: Uuid, tx: LedgerTransaction, a: Uuid)
    requires txId !in b.transactions && after.transactions == b.transactions[txId := tx]
    ensures Posted(after, a) == Posted(b, a) + Get(tx.postings, a)
  {
    assert PostedMap(after, a) == PostedMap(b, a)[txId := Get(tx.postings, a)];
    SumUpdate(PostedMap(b, a), txId, Get(tx.postings, a));
  }

  lemma MovingKeepsAccounts(b: Books, after: Books, c: Currency, reference: Reference,
                            rows: map<Uuid, int>, next: map<Uuid, int>, txId: Uuid)
    requires AccountsSound(b) && txId !in b.transactions
    requires Moves(b, c, rows, next) && Moved(b, after, c, reference, rows, next, txId)
    ensures AccountsSound(after)
  {
    forall a | a in after.accounts ensures AccountSound(after, a) {
      assert AccountSound(b, a);
      PostedAfter(b, after, txId, LedgerTransaction(reference, c, rows, true), a);
      assert a in rows ==> MovesAccount(b, c, a, rows[a], next[a]);
    }
  }

  lemma MovingKeepsTotals(b: Books, after: Books, c: Currency, reference: Reference,
                          rows: map<Uuid, int>, next: map<Uuid, int>, txId: Uuid, k: Currency)
    requires ClearingSound(b, k)
    requires Moves(b, c, rows, next) && Sum(rows) == 0 && Moved(b, after, c, reference, rows, next, txId)
    ensures ClearingSound(after, k)
  {
    forall a | a in rows ensures a in b.accounts && b.accounts[a].currency == c && next[a] == b.accounts[a].balance + rows[a] {
      assert MovesAccount(b, c, a, rows[a], next[a]);
    }
    BalancesMove(b, after, rows, next, c, k);
    if k == c { SumAdded(BalancesIn(b, k), rows); }
  }

  lemma BalancesMove(b: Books, after: Books, rows: map<Uuid, int>, next: map<Uuid, int>, c: Currency, k: Currency)
    requires after.accounts.Keys == b.accounts.Keys && rows.Keys == next.Keys
    requires forall a :: a in b.accounts ==> after.accounts[a] == if a in next then b.accounts[a].(balance := next[a]) else b.accounts[a]
    requires forall a :: a in rows ==> a in b.accounts && b.accounts[a].currency == c && next[a] == b.accounts[a].balance + rows[a]
    ensures BalancesIn(after, k) == if k == c then Added(BalancesIn(b, k), rows) else BalancesIn(b, k)
  {}

  lemma MovingKeepsWallets(b: Books, after: Books, c: Currency, reference: Reference,
                           rows: map<Uuid, int>, next: map<Uuid, int>, txId: Uuid)
    requires Paired(b) && WalletsSound(b)
    requires Moves(b, c, rows, next) && Moved(b, after, c, reference, rows, next, txId)
    ensures Paired(after) && WalletsSound(after)
  {
    assert Paired(after);
    forall w | w in after.wallets ensures WalletSound(after, w) {
      MovedWalletStaysSound(b, after, c, reference, rows, next, txId, w);
    }
  }

  lemma MovedWalletStaysSound(b: Books, after: Books, c: Currency, reference: Reference,
                              rows: map<Uuid, int>, next: map<Uuid, int>, txId: Uuid, w: Uuid)
    requires w in b.wallets && b.wallets[w].account in b.accounts && b.accounts[b.wallets[w].account].wallet == Some(w)
    requires WalletSound(b, w) && b.accounts[b.wallets[w].account].kind == WALLET
    requires Moves(b, c, rows, next) && Moved(b, after, c, reference, rows, next, txId)
    ensures WalletSound(after, w)
  {
    var a := b.wallets[w].account;
    assert a in rows ==> MovesAccount(b, c, a, rows[a], next[a]);
  }

  lemma MovingKeepsTransactions(b: Books, after: Books, c: Currency, reference: Reference,
                                rows: map<Uuid, int>, next: map<Uuid, int>, txId: Uuid)
    requires TransactionsSound(b)
    requires Moves(b, c, rows, next) && Sum(rows) == 0 && |rows| >= 2
    requires Moved(b, after, c, reference, rows, next, txId)
    ensures TransactionsSound(after)
  {
    forall t | t in after.transactions ensures TransactionSound(after, t) {
      if t == txId {
        forall a | a in rows ensures b.accounts[a].currency == c && rows[a] != 0 {
          assert MovesAccount(b, c, a, rows[a], next[a]);
        }
      } else {
        assert TransactionSound(b, t);
      }
    }
  }

  /** Posting keeps the ledger invariant, whatever the request. */
  lemma PostKeepsSound(b: Books, r: PostingRequest, txId: Uuid)
    requires Sound(b) && txId !in b.transactions && PlanPost(b, r, txId).Ok?
    ensures Sound(ApplyBooks(b, PlanPost(b, r, txId).value))
  {
    AcceptedPost(b, r, txId);
    var n := Normalized(r).value;
    var next := NextBalances(b, r.currency, r.postings).value;
    var rows := PostingRows(r.postings);
    var after := ApplyBooks(b, PlanPost(b, r, txId).value);
    MovingChangesAll(b, r.currency, rows, next);
    PostingWritesMove(b, n, next, txId);
    MovingKeepsAccounts(b, after, r.currency, n.reference, rows, next, txId);
    MovingKeepsWallets(b, after, r.currency, n.reference, rows, next, txId);
    MovingKeepsTransactions(b, after, r.currency, n.reference, rows, next, txId);
    forall k ensures ClearingSound(after, k) {
      MovingKeepsTotals(b, after, r.currency, n.reference, rows, next, txId, k);
    }
  }
}
