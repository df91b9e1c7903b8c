/** The ledger migration: every wallet that existed before the ledger gets an account with its
    balance, an opening transaction against the clearing account of its currency, and the
    clearing accounts take the opposite of the totals. It establishes the invariant all later
    runs start from. */
module Migration {
  import opened Sums
  import opened Domain
  import opened Amounts
  import opened Store
  import opened Ledger
  import opened Plans
  import opened Business
  import opened History
  import opened Runs
  import opened Safety
  import opened Snapshots
  import opened Interleavings

  /** A wallet row before the ledger. */
  datatype LegacyWallet = LegacyWallet(user: Uuid, currency: Currency, status: WalletStatus, balance: int)

  type Legacy = map<Uuid, LegacyWallet>

  /** The old table's CHECK and column type. */
  ghost predicate Valid(legacy: Legacy) {
    forall w :: w in legacy ==> 0 <= legacy[w].balance <= MAX_MINOR_UNITS
  }

  ghost function Held(legacy: Legacy, c: Currency): map<Uuid, int> {
    map w | w in legacy && legacy[w].currency == c :: legacy[w].balance
  }

  ghost function Total(legacy: Legacy, c: Currency): int {
    Sum(Held(legacy, c))
  }

  function WalletAccounts(legacy: Legacy): map<Uuid, Account> {
    map w | w in legacy :: Account(WALLET, legacy[w].currency, false, legacy[w].balance, Some(w))
  }

  function LinkedWallets(legacy: Legacy): map<Uuid, Wallet> {
    map w | w in legacy :: Wallet(legacy[w].user, w, legacy[w].currency, legacy[w].status, legacy[w].balance)
  }

  function OpeningPostings(w: Uuid, wallet: LegacyWallet): map<Uuid, int> {
    PairRows(Clearing(wallet.currency), w, wallet.balance)
  }

  /** MD5 of distinct wallet ids is taken to be distinct, so an opening transaction is keyed by
      its wallet. */
  function OpeningTransactions(legacy: Legacy): map<Uuid, LedgerTransaction> {
    map w | w in legacy && legacy[w].balance != 0 ::
      LedgerTransaction(OpeningRef(w), legacy[w].currency, OpeningPostings(w, legacy[w]), true)
  }

  ghost function ClearingAccount(legacy: Legacy, c: Currency): Account {
    Account(SYSTEM, c, true, -Total(legacy, c), None)
  }

  ghost function MigratedBooks(legacy: Legacy): Books {
    Books(WalletAccounts(legacy)[Clearing(USD) := ClearingAccount(legacy, USD)][Clearing(NGN) := ClearingAccount(legacy, NGN)],
          LinkedWallets(legacy), OpeningTransactions(legacy))
  }

  /** The migration fails on a primary key collision with a clearing account, or when a total
      does not fit its column. */
  ghost function Migrate(legacy: Legacy): Result<Db> {
    if Clearing(USD) in legacy || Clearing(NGN) in legacy then Err(UniqueViolation)
    else if !IsSupported(-Total(legacy, USD)) || !IsSupported(-Total(legacy, NGN)) then Err(BalanceOutOfRange)
    else Ok(NOTHING.(books := MigratedBooks(legacy)))
  }

  // ---------------------------------------------------------------- sums

  lemma SumOfOne(m: map<Uuid, int>, k: Uuid)
    requires forall j :: j in m && j != k ==> m[j] == 0
    ensures Sum(m) == Get(m, k)
  {
    if k in m {
      SumRemove(m, k);
      SumZero(m - {k});
    } else { SumZero(m); }
  }

  lemma {:induction false} SumNegated(m: map<Uuid, int>, n: map<Uuid, int>)
    requires n.Keys <= m.Keys && forall k :: k in m ==> m[k] == -Get(n, k)
    ensures Sum(m) == -Sum(n)
    decreases |m|
  {
    if m == map[] { assert n == map[]; }
    else {
      var k :| k in m;
      assert |m - {k}| < |m|;
      SumRemove(m, k);
      if k in n { SumRemove(n, k); } else { assert n - {k} == n; }
      SumNegated(m - {k}, n - {k});
    }
  }

  /** Negated rows and rows of zero change only the sign of a sum. */
  lemma SumOfNegation(m: map<Uuid, int>, flow: map<Uuid, int>)
    requires forall k :: k in flow ==> flow[k] == -Get(m, k)
    requires forall k :: k in m && k !in flow ==> m[k] == 0
    ensures Sum(flow) == -Sum(m)
  {
    var wide := map k | k in m.Keys + flow.Keys :: -Get(m, k);
    SumNegated(wide, m);
    SumExtends(flow, wide);
  }

  // ---------------------------------------------------------------- the accounts

  lemma WalletAccountPosted(legacy: Legacy, w: Uuid)
    requires Migrate(legacy).Ok? && w in legacy
    ensures Posted(MigratedBooks(legacy), w) == legacy[w].balance
    ensures Sum(OpeningFlow(MigratedBooks(legacy), w)) == legacy[w].balance
  {
    var b := MigratedBooks(legacy);
    SumOfOne(PostedMap(b, w), w);
    assert OpeningFlow(b, w) == PostedMap(b, w);
  }

  lemma ClearingPosted(legacy: Legacy, c: Currency)
    requires Migrate(legacy).Ok?
    ensures Posted(MigratedBooks(legacy), Clearing(c)) == -Total(legacy, c)
    ensures Sum(OpeningFlow(MigratedBooks(legacy), Clearing(c))) == -Total(legacy, c)
  {
    var b := MigratedBooks(legacy);
    var flow := PostedMap(b, Clearing(c));
    assert OpeningFlow(b, Clearing(c)) == flow;
    SumOfNegation(Held(legacy, c), flow);
  }

  lemma MigratedAccounts(legacy: Legacy, c: Currency)
    requires Migrate(legacy).Ok?
    ensures var accounts := MigratedBooks(legacy).accounts;
            && Clearing(c) !in legacy && Clearing(c) in accounts && accounts[Clearing(c)] == ClearingAccount(legacy, c)
            && (forall w :: w in legacy ==> w in accounts && accounts[w] == WalletAccounts(legacy)[w])
            && (forall a :: a in accounts ==> a in legacy || a == Clearing(accounts[a].currency))
  {
    hide Total;
  }

  lemma BalancesAre(b: Books, legacy: Legacy, c: Currency)
    requires Clearing(c) !in legacy && Clearing(c) in b.accounts && b.accounts[Clearing(c)] == ClearingAccount(legacy, c)
    requires forall w :: w in legacy ==> w in b.accounts && b.accounts[w] == WalletAccounts(legacy)[w]
    requires forall a :: a in b.accounts ==> a in legacy || a == Clearing(b.accounts[a].currency)
    ensures BalancesIn(b, c) == Held(legacy, c)[Clearing(c) := -Total(legacy, c)]
  {}

  lemma BalancesCancel(legacy: Legacy, c: Currency)
    requires Migrate(legacy).Ok?
    ensures ClearingSound(MigratedBooks(legacy), c)
  {
    MigratedAccounts(legacy, c);
    ClearingBalances(MigratedBooks(legacy), legacy, c);
  }

  lemma ClearingBalances(b: Books, legacy: Legacy, c: Currency)
    requires Clearing(c) !in legacy && Clearing(c) in b.accounts && b.accounts[Clearing(c)] == ClearingAccount(legacy, c)
    requires forall w :: w in legacy ==> w in b.accounts && b.accounts[w] == WalletAccounts(legacy)[w]
    requires forall a :: a in b.accounts ==> a in legacy || a == Clearing(b.accounts[a].currency)
    ensures ClearingSound(b, c)
  {
    BalancesAre(b, legacy, c);
    SumUpdate(Held(legacy, c), Clearing(c), -Total(legacy, c));
  }

  // ---------------------------------------------------------------- the invariant

  lemma MigratedAccountsSound(legacy: Legacy)
    requires Valid(legacy) && Migrate(legacy).Ok?
    ensures AccountsSound(MigratedBooks(legacy))
  {
    var b := MigratedBooks(legacy);
    forall a | a in b.accounts ensures AccountSound(b, a) {
      if a in legacy { WalletAccountPosted(legacy, a); }
      else { ClearingPosted(legacy, b.accounts[a].currency); }
    }
  }

  lemma OpeningIsSound(legacy: Legacy, w: Uuid)
    requires Migrate(legacy).Ok? && w in legacy && legacy[w].balance != 0
    ensures TransactionSound(MigratedBooks(legacy), w)
  {
    var b, c, amount := MigratedBooks(legacy), legacy[w].currency, legacy[w].balance;
    MigratedAccounts(legacy, c);
    OpeningRow(legacy, w);
    OneOpeningIsSound(b, w, c, amount);
  }

  lemma OneOpeningIsSound(b: Books, w: Uuid, c: Currency, amount: int)
    requires amount != 0 && w in b.transactions && w != Clearing(c)
    requires b.transactions[w] == LedgerTransaction(OpeningRef(w), c, PairRows(Clearing(c), w, amount), true)
    requires w in b.accounts && b.accounts[w].currency == c
    requires Clearing(c) in b.accounts && b.accounts[Clearing(c)].currency == c
    ensures TransactionSound(b, w)
  {
    TwoOpposites(Clearing(c), w, amount);
  }

  lemma OpeningRow(legacy: Legacy, w: Uuid)
    requires w in legacy && legacy[w].balance != 0
    ensures MigratedBooks(legacy).transactions[w] ==
              LedgerTransaction(OpeningRef(w), legacy[w].currency, PairRows(Clearing(legacy[w].currency), w, legacy[w].balance), true)
  {}

  lemma TwoOpposites(from: Uuid, to: Uuid, amount: int)
    requires from != to
    ensures Sum(PairRows(from, to, amount)) == 0 && |PairRows(from, to, amount)| == 2
  {
    var one: map<Uuid, int> := map[from := -amount];
    assert PairRows(from, to, amount) == one[to := amount];
    SumUpdate(one, to, amount);
    SumOfOne(one, from);
    assert PairRows(from, to, amount).Keys == {from, to};
    assert |PairRows(from, to, amount)| == |PairRows(from, to, amount).Keys|;
  }

  lemma MigratedPairs(legacy: Legacy)
    requires Migrate(legacy).Ok?
    ensures Paired(MigratedBooks(legacy))
  {}

  /** No pre-ledger wallet was closed with money in it. */
  ghost predicate ClosedAreEmpty(legacy: Legacy) {
    forall w :: w in legacy && legacy[w].status == CLOSED ==> legacy[w].balance == 0
  }

  lemma MigratedIsSound(legacy: Legacy)
    requires Valid(legacy) && Migrate(legacy).Ok?
    ensures Sound(MigratedBooks(legacy)) <==> ClosedAreEmpty(legacy)
  {
    var b := MigratedBooks(legacy);
    MigratedPairs(legacy);
    MigratedAccountsSound(legacy);
    forall t | t in b.transactions ensures TransactionSound(b, t) { OpeningIsSound(legacy, t); }
    forall c ensures ClearingSound(b, c) { BalancesCancel(legacy, c); }
    if ClosedAreEmpty(legacy) {
      forall w | w in b.wallets ensures WalletSound(b, w) {}
    }
    if Sound(b) {
      forall w | w in legacy && legacy[w].status == CLOSED ensures legacy[w].balance == 0 {
        assert WalletSound(b, w);
      }
    }
  }

  lemma MigratedIsAccounted(legacy: Legacy)
    requires Valid(legacy) && Migrate(legacy).Ok?
    ensures Accounted(Migrate(legacy).value)
  {
    hide WalletHistory, ClearingHistory, Total;
    var db := Migrate(legacy).value;
    forall w | w in db.books.wallets ensures WalletHistory(db, w) { MigratedWalletIsAccounted(legacy, w); }
    forall c ensures ClearingHistory(db, c) { MigratedClearingIsAccounted(legacy, c); }
  }

  lemma MigratedClearingIsAccounted(legacy: Legacy, c: Currency)
    requires Migrate(legacy).Ok?
    ensures ClearingHistory(Migrate(legacy).value, c)
  {
    hide OpeningFlow, Total;
    ClearingPosted(legacy, c);
    assert FundingFlow(Migrate(legacy).value, c) == map[];
  }

  lemma MigratedWalletIsAccounted(legacy: Legacy, w: Uuid)
    requires Migrate(legacy).Ok? && w in legacy
    ensures WalletHistory(Migrate(legacy).value, w)
  {
    hide OpeningFlow;
    var db := Migrate(legacy).value;
    WalletAccountPosted(legacy, w);
    assert PaymentFlow(db, w) == map[] && TransferFlow(db, w) == map[];
  }

  /** From any old table whose totals fit, the migration establishes everything the invariant of
      committed states asks, provided no closed wallet held money; every account then equals
      its postings and each clearing account is minus the total of its currency's wallets. */
  lemma MigrationEstablishesTheInvariant(legacy: Legacy)
    requires Valid(legacy) && Migrate(legacy).Ok?
    ensures Good(Migrate(legacy).value) <==> ClosedAreEmpty(legacy)
    ensures forall c :: Migrate(legacy).value.books.accounts[Clearing(c)].balance == -Total(legacy, c)
    ensures forall a :: a in Migrate(legacy).value.books.accounts ==>
              Migrate(legacy).value.books.accounts[a].balance == Posted(Migrate(legacy).value.books, a)
    ensures forall t :: t in Migrate(legacy).value.books.transactions ==> TransactionSound(Migrate(legacy).value.books, t)
  {
    hide ClosedAreEmpty, Posted, Accounted;
    var db := Migrate(legacy).value;
    MigratedIsSound(legacy);
    MigratedIsAccounted(legacy);
    MigratedAccountsSound(legacy);
    forall a | a in db.books.accounts ensures db.books.accounts[a].balance == Posted(db.books, a) { assert AccountSound(db.books, a); }
    forall t | t in db.books.transactions ensures TransactionSound(db.books, t) { OpeningIsSound(legacy, t); }
    forall c ensures db.books.accounts[Clearing(c)].balance == -Total(legacy, c) {}
    EmptyTablesAreIntact(db);
  }

  lemma EmptyTablesAreIntact(db: Db)
    requires db == NOTHING.(books := db.books)
    requires forall t :: t in db.books.transactions ==> db.books.transactions[t].reference.OpeningRef?
    ensures RowsIntact(db) && OneKeyEach(db) && OneIntentPerKey(db)
  {
    assert forall k, s, x :: !CompletedBy(db, k, s, x);
  }

  /** It runs exactly when no wallet has a clearing account's id and both totals fit. */
  lemma MigrationRunsWhenTotalsFit(legacy: Legacy)
    requires Valid(legacy)
    ensures Migrate(legacy).Ok? <==> (forall c :: Clearing(c) !in legacy && Total(legacy, c) <= MAX_MINOR_UNITS + 1)
  {
    forall c ensures Total(legacy, c) >= 0 { TotalsAreNonNegative(Held(legacy, c)); }
    assert Clearing(USD) !in legacy && Clearing(NGN) !in legacy ==> forall c :: Clearing(c) !in legacy;
    if Migrate(legacy).Ok? {
      forall c ensures Clearing(c) !in legacy && Total(legacy, c) <= MAX_MINOR_UNITS + 1 { assert c == USD || c == NGN; }
    }
  }

  lemma {:induction false} TotalsAreNonNegative(m: map<Uuid, int>)
    requires forall k :: k in m ==> m[k] >= 0
    ensures Sum(m) >= 0
    decreases |m|
  {
    if m != map[] {
      var k :| k in m;
      assert |m - {k}| < |m|;
      SumRemove(m, k);
      TotalsAreNonNegative(m - {k});
    }
  }

  // ---------------------------------------------------------------- the start of runs

  /** Runs and interleavings start from every migration without such wallets, on an empty
      database too. */
  lemma RunsStartFromTheMigration(legacy: Legacy, versions: Versions)
    requires Valid(legacy) && Migrate(legacy).Ok? && ClosedAreEmpty(legacy)
    ensures Run([Migrate(legacy).value])
    ensures Trace([Sys(Migrate(legacy).value, versions, map[])])
    ensures Valid(map[]) && ClosedAreEmpty(map[]) && Migrate(map[]).Ok?
  {
    hide StepsAt, AdvancesAt, Intact;
    assert Held(map[], USD) == map[] && Held(map[], NGN) == map[];
    MigrationEstablishesTheInvariant(legacy);
    AloneIsARun(Migrate(legacy).value, versions);
  }

  lemma AloneIsARun(db: Db, versions: Versions)
    requires Good(db)
    ensures Run([db]) && Trace([Sys(db, versions, map[])])
  {}

  // ---------------------------------------------------------------- balances since the migration

  /** What a wallet held before the ledger; later wallets held nothing. */
  function HeldBefore(legacy: Legacy, w: Uuid): int {
    if w in legacy then legacy[w].balance else 0
  }

  lemma NothingOpened(legacy: Legacy, a: Uuid)
    requires Migrate(legacy).Ok? && a !in MigratedBooks(legacy).accounts
    ensures Sum(OpeningFlow(MigratedBooks(legacy), a)) == 0
  {
    SumZero(OpeningFlow(MigratedBooks(legacy), a));
  }

  /** A wallet's account is its own from the migration on: migrated wallets keep theirs, and later
      wallets do not get one of a migrated wallet or of the clearing. */
  lemma AccountsSinceMigration(legacy: Legacy, db: Db, w: Uuid)
    requires Migrate(legacy).Ok? && Grows(Migrate(legacy).value, db) && Sound(db.books) && w in db.books.wallets
    ensures w in legacy ==> db.books.wallets[w].account == w
    ensures w !in legacy ==> db.books.wallets[w].account !in MigratedBooks(legacy).accounts
  {
    hide OpeningTransactions;
    var a, start := db.books.wallets[w].account, Migrate(legacy).value;
    if w in legacy { assert SameWallet(start.books.wallets[w], db.books.wallets[w]); }
    else if a in legacy {
      assert SameWallet(start.books.wallets[a], db.books.wallets[a]);
      WalletAccountsDiffer(db.books, a, w);
      assert false;
    }
    forall c ensures a != Clearing(c) { assert ClearingSound(db.books, c); }
  }

  lemma OpenedAtMigration(legacy: Legacy, db: Db, w: Uuid)
    requires Migrate(legacy).Ok? && Grows(Migrate(legacy).value, db) && Sound(db.books) && w in db.books.wallets
    ensures OpenedWith(Migrate(legacy).value, db.books.wallets[w].account) == HeldBefore(legacy, w)
  {
    hide Grows, Sound, OpeningFlow, MigratedBooks;
    AccountsSinceMigration(legacy, db, w);
    if w in legacy { WalletAccountPosted(legacy, w); } else { NothingOpened(legacy, db.books.wallets[w].account); }
  }

  lemma ClearingOpenedWith(legacy: Legacy, c: Currency)
    requires Migrate(legacy).Ok?
    ensures OpenedWith(Migrate(legacy).value, Clearing(c)) == -Total(legacy, c)
  {
    hide Total, OpeningFlow;
    ClearingPosted(legacy, c);
  }

  /** In every state since the migration a wallet holds what it held before the ledger, plus its
      successful payments, plus unreversed incoming and minus unreversed outgoing transfers; and a
      clearing account holds minus what the wallets of its currency held before and minus the
      successful payments since. */
  lemma BalancesSinceMigration(legacy: Legacy, states: seq<Db>, i: nat)
    requires Run(states) && i < |states| && Migrate(legacy).Ok? && states[0] == Migrate(legacy).value
    ensures var db := states[i];
            && (forall w :: w in db.books.wallets ==>
                  (db.books.wallets[w].balance == HeldBefore(legacy, w) + Sum(PaymentFlow(db, w)) + Sum(TransferFlow(db, w))))
            && (forall c :: (Clearing(c) in db.books.accounts
                             && db.books.accounts[Clearing(c)].balance == -(Total(legacy, c) + Sum(FundingFlow(db, c)))))
  {
    hide Run, Good, Sound, Grows, Total, PaymentFlow, TransferFlow, FundingFlow, OpenedWith, Migrate;
    var db := states[i];
    BalancesEqualHistory(states, i);
    HistoryOnlyGrows(states, 0, i);
    StateIsSound(states, i);
    forall w | w in db.books.wallets
      ensures db.books.wallets[w].balance == HeldBefore(legacy, w) + Sum(PaymentFlow(db, w)) + Sum(TransferFlow(db, w))
    {
      OpenedAtMigration(legacy, db, w);
    }
    forall c ensures OpenedWith(states[0], Clearing(c)) == -Total(legacy, c) { ClearingOpenedWith(legacy, c); }
  }
}
