/** The rows a transaction locks or writes, in the order it takes them, and what it reads of
    them. Unique keys are rows too: inserting one waits for, and fails on, another insertion. */
module Locks {
  import opened Domain
  import opened Store
  import opened Posting
  import opened Plans
  import opened Ledger
  import opened Business
  import opened Operations
  import opened TransferSteps
  import opened ReversalSteps
  import opened PaymentSteps
  import opened Runs

  datatype Row =
    | RecordRow(record: RecordKey)
    | TransferRow(transfer: Uuid)
    | PaymentRow(payment: Uuid)
    | EventRow(event: EventKey)
    | AccountRow(account: Uuid)
    | WalletRow(wallet: Uuid)
    | ReversalRow(reversed: Uuid)

  // ---------------------------------------------------------------- contents

  ghost predicate SameAt<K, V>(m: map<K, V>, n: map<K, V>, k: K) {
    (k in m <==> k in n) && (k in m ==> m[k] == n[k])
  }

  ghost predicate SameRow(s: Db, c: Db, r: Row) {
    match r
    case RecordRow(k) => SameAt(s.records, c.records, k)
    case TransferRow(id) => SameAt(s.transfers, c.transfers, id)
    case PaymentRow(id) => SameAt(s.payments, c.payments, id)
    case EventRow(k) => SameAt(s.events, c.events, k)
    case AccountRow(a) => SameAt(s.books.accounts, c.books.accounts, a)
    case WalletRow(w) => SameAt(s.books.wallets, c.books.wallets, w)
    case ReversalRow(id) => SameAt(s.reversals, c.reversals, id)
  }

  ghost predicate Written(w: Db, r: Row) {
    match r
    case RecordRow(k) => k in w.records
    case TransferRow(id) => id in w.transfers
    case PaymentRow(id) => id in w.payments
    case EventRow(k) => k in w.events
    case AccountRow(a) => a in w.books.accounts
    case WalletRow(v) => v in w.books.wallets
    case ReversalRow(id) => id in w.reversals
  }

  /** Rows selected FOR UPDATE or updated exist; unique keys are locked by inserting them. */
  ghost predicate Existing(db: Db, r: Row) {
    match r
    case TransferRow(id) => id in db.transfers
    case PaymentRow(id) => id in db.payments
    case AccountRow(a) => a in db.books.accounts
    case WalletRow(w) => w in db.books.wallets
    case _ => true
  }

  lemma UnwrittenRowsStay(db: Db, w: Db, r: Row)
    requires !Written(w, r)
    ensures SameRow(db, Apply(db, w), r)
  {}

  lemma ExistingRowsStay(s: Db, c: Db, r: Row)
    requires Grows(s, c) && Existing(s, r)
    ensures Existing(c, r)
  {}

  // ---------------------------------------------------------------- lock plans

  /** Accounts are locked in ascending id order. */
  function AccountLocks(a: Uuid, b: Uuid): seq<Row> {
    if a < b then [AccountRow(a), AccountRow(b)] else [AccountRow(b), AccountRow(a)]
  }

  /** A wallet row is locked by the update of the balance trigger, so only where that fires. */
  function WalletLock(written: map<Uuid, Wallet>, w: Uuid): seq<Row> {
    if w in written then [WalletRow(w)] else []
  }

  function WrittenWallets(body: Result<Db>, v: Uuid, w: Uuid): (rows: seq<Row>)
    ensures forall i :: 0 <= i < |rows| ==> rows[i] in {WalletRow(v), WalletRow(w)}
  {
    if body.Ok? then WalletLock(body.value.books.wallets, v) + WalletLock(body.value.books.wallets, w) else []
  }

  ghost function SendLocks(db: Db, op: Op): seq<Row>
    requires op.Send?
  {
    var k := RecordKey(op.user, InternalTransfer, op.key);
    if k in db.records then []
    else
      var route := Route(db, op.user, op.request);
      if route.Err? then [RecordRow(k)]
      else
        var (source, target) := route.value;
        [RecordRow(k)] + AccountLocks(db.books.wallets[source].account, db.books.wallets[target].account)
        + WrittenWallets(TransferBody(db, op.user, op.request, op.ids), source, target)
  }

  function UndoneRows(body: Result<Db>, t: Transfer, id: Uuid): (rows: seq<Row>)
    ensures forall i :: 0 <= i < |rows| ==> rows[i] in {WalletRow(t.source), WalletRow(t.destination), ReversalRow(id)}
  {
    WrittenWallets(body, t.source, t.destination) + if body.Ok? then [ReversalRow(id)] else []
  }

  ghost function UndoLocks(db: Db, op: Op): seq<Row>
    requires op.Undo?
  {
    var k := RecordKey(op.user, TransferReversal, op.key);
    if k in db.records then []
    else if op.transfer !in db.transfers then [RecordRow(k)]
    else
      var eligible := Reversible(db, op.user, op.transfer);
      if eligible.Err? then [RecordRow(k), TransferRow(op.transfer)]
      else
        var t := eligible.value;
        [RecordRow(k), TransferRow(op.transfer)]
        + AccountLocks(db.books.wallets[t.source].account, db.books.wallets[t.destination].account)
        + UndoneRows(ReversalBody(db, op.user, op.transfer, op.reason, op.ids), t, op.transfer)
  }

  /** The evidence row is inserted unless an earlier check refuses the callback or it is a
      duplicate; only a first success reaches the accounts. */
  ghost function SettleLocks(db: Db, op: Op): seq<Row>
    requires op.Settle?
  {
    var e := op.evidence;
    var k := EventKey(op.provider, e.event);
    if e.reference !in db.payments || db.payments[e.reference].provider != op.provider then []
    else
      var p := db.payments[e.reference];
      var outcome := PlanSettle(db, op.provider, e, op.transaction);
      if k in db.events || (p.status != PENDING && p.status != OutcomeOf(e)) then [PaymentRow(e.reference)]
      else if p.status != PENDING || !e.succeeded || p.wallet !in db.books.wallets || Clearing(p.currency) !in db.books.accounts
      then [PaymentRow(e.reference), EventRow(k)]
      else
        [PaymentRow(e.reference), EventRow(k)] + AccountLocks(Clearing(p.currency), db.books.wallets[p.wallet].account)
        + match outcome
          case Commit(_, w) => WalletLock(w.books.wallets, p.wallet)
          case Rollback(_) => []
  }

  function CloseLocks(db: Db, op: Op): seq<Row>
    requires op.Close?
  {
    if op.wallet !in db.books.wallets || db.books.wallets[op.wallet].user != op.user then []
    else [AccountRow(db.books.wallets[op.wallet].account), WalletRow(op.wallet)]
  }

  /** The rows a transaction takes when it runs on what it read. Intents and new wallets only
      insert rows nobody else can know. */
  ghost function LockPlan(db: Db, op: Op): seq<Row> {
    match op
    case Send(_, _, _, _) => SendLocks(db, op)
    case Undo(_, _, _, _, _) => UndoLocks(db, op)
    case Settle(_, _, _) => SettleLocks(db, op)
    case Close(_, _) => CloseLocks(db, op)
    case Intend(_, _, _, _, _, _) => []
    case Open(_, _, _) => []
  }

  // ---------------------------------------------------------------- a posting reads only rows it writes

  ghost predicate SameAccount(s: Books, c: Books, a: Uuid) {
    && SameAt(s.accounts, c.accounts, a)
    && (a in s.accounts && s.accounts[a].wallet.Some? ==> SameAt(s.wallets, c.wallets, s.accounts[a].wallet.value))
  }

  ghost predicate SameAccounts(s: Books, c: Books, ps: seq<PostingInput>) {
    forall i :: 0 <= i < |ps| && ps[i].account.Uuid4? ==> SameAccount(s, c, ps[i].account.value)
  }

  lemma {:induction false} SameBalances(s: Books, c: Books, currency: Currency, ps: seq<PostingInput>)
    requires SameAccounts(s, c, ps)
    ensures NextBalances(s, currency, ps) == NextBalances(c, currency, ps)
  {
    if ps != [] {
      var front, last := ps[..|ps| - 1], ps[|ps| - 1];
      forall i | 0 <= i < |front| && front[i].account.Uuid4? ensures SameAccount(s, c, front[i].account.value) {
        assert front[i] == ps[i];
      }
      SameBalances(s, c, currency, front);
      assert last.account.Uuid4? ==> SameAccount(s, c, last.account.value);
    }
  }

  lemma SameFoundAccounts(s: Books, c: Books, ps: seq<PostingInput>)
    requires SameAccounts(s, c, ps)
    ensures FoundAccounts(s, ps) == FoundAccounts(c, ps)
  {
    forall i | 0 <= i < |ps| && ps[i].account.Uuid4?
      ensures ps[i].account.value in s.accounts <==> ps[i].account.value in c.accounts
    {
      assert SameAccount(s, c, ps[i].account.value);
    }
  }

  lemma SameWrites(s: Books, c: Books, r: PostingRequest, next: map<Uuid, int>, txId: Uuid)
    requires forall a :: a in next ==> a in s.accounts && SameAccount(s, c, a)
    ensures PostingWrites(s, r, next, txId) == PostingWrites(c, r, next, txId)
  {
    hide PostingRows;
    assert WalletsOf(s, next.Keys) == WalletsOf(c, next.Keys);
    forall w | w in WalletsOf(s, next.Keys) ensures SameAt(s.wallets, c.wallets, w) {
      var a :| a in next && s.accounts[a].wallet == Some(w);
      assert SameAccount(s, c, a);
    }
  }

  /** A posting accepted on a snapshot is accepted, with the same rows, on any committed books
      that agree with the snapshot on the accounts and wallets it writes. */
  lemma PostingReadsWhatItWrites(s: Books, c: Books, r: PostingRequest, txId: Uuid)
    requires PlanPost(s, r, txId).Ok?
    requires SameAccounts(s, c, r.postings) && !ReferenceUsed(c, TrimmedReference(r.reference))
    ensures PlanPost(c, r, txId) == PlanPost(s, r, txId)
  {
    AcceptedPost(s, r, txId);
    SameBalances(s, c, r.currency, r.postings);
    SameFoundAccounts(s, c, r.postings);
    var next := NextBalances(s, r.currency, r.postings).value;
    forall a | a in next ensures a in s.accounts && SameAccount(s, c, a) {
      RowKeys(r.postings, a);
      var i :| 0 <= i < |r.postings| && r.postings[i].account == Uuid4(a, 0);
      assert SameAccount(s, c, r.postings[i].account.value);
    }
    SameWrites(s, c, Normalized(r).value, next, txId);
  }
}
