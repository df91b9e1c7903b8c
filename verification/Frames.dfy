/** Each service transaction that moves money writes every row its decision rests on: what it
    decides on a snapshot, it decides on any committed state agreeing on its locked rows. */
module Frames {
  import opened Domain
  import opened Amounts
  import opened Store
  import opened Posting
  import opened Plans
  import opened Ledger
  import opened Business
  import opened Operations
  import opened TransferSteps
  import opened ReversalSteps
  import opened PaymentSteps
  import opened Locks

  ghost predicate Agree(s: Db, c: Db, rows: seq<Row>) {
    forall i :: 0 <= i < |rows| ==> SameRow(s, c, rows[i])
  }

  ghost predicate Takes(rows: seq<Row>, r: Row) {
    exists i :: 0 <= i < |rows| && rows[i] == r
  }

  /** Written rows are locked, or new. */
  ghost predicate Covered(db: Db, w: Db, rows: seq<Row>) {
    forall r :: Written(w, r) ==> Takes(rows, r) || !Existing(db, r)
  }

  /** Coverage, table by table. */
  lemma CoveredByTable(c: Db, w: Db, rows: seq<Row>)
    requires forall a :: a in w.books.accounts ==> Takes(rows, AccountRow(a))
    requires forall v :: v in w.books.wallets ==> Takes(rows, WalletRow(v))
    requires forall k :: k in w.records ==> Takes(rows, RecordRow(k))
    requires forall k :: k in w.events ==> Takes(rows, EventRow(k))
    requires forall p :: p in w.payments ==> Takes(rows, PaymentRow(p))
    requires forall t :: t in w.reversals ==> Takes(rows, ReversalRow(t))
    requires forall t :: t in w.transfers ==> t !in c.transfers
    ensures Covered(c, w, rows)
  {}

  // ---------------------------------------------------------------- two postings

  lemma PairWrites(b: Books, r: PostingRequest, from: Uuid, to: Uuid, amount: int, txId: Uuid)
    requires r.postings == TwoPostings(from, to, amount) && PlanPost(b, r, txId).Ok?
    ensures from != to
    ensures PlanPost(b, r, txId).value.accounts.Keys == {from, to}
    ensures PlanPost(b, r, txId).value.wallets.Keys <= WalletsOf(b, {from, to})
  {
    AcceptedPair(b, r, from, to, amount, txId);
    AcceptedPost(b, r, txId);
  }

  /** The wallet row is among those written, with another balance. */
  ghost predicate Rewritten(b: Books, written: Books, w: Uuid) {
    w in b.wallets && w in written.wallets && written.wallets[w].balance != b.wallets[w].balance
  }

  lemma PairRewrites(b: Books, r: PostingRequest, from: Uuid, to: Uuid, amount: int, txId: Uuid, w: Uuid)
    requires r.postings == TwoPostings(from, to, amount) && PlanPost(b, r, txId).Ok?
    requires Paired(b) && w in b.wallets && b.wallets[w].account in {from, to}
    ensures Rewritten(b, PlanPost(b, r, txId).value, w)
  {
    AcceptedPair(b, r, from, to, amount, txId);
    PostingRewritesEveryWallet(b, r, txId, w);
  }

  lemma PairReadsWhatItWrites(s: Books, c: Books, r: PostingRequest, from: Uuid, to: Uuid, amount: int, txId: Uuid)
    requires r.postings == TwoPostings(from, to, amount) && PlanPost(s, r, txId).Ok? && !r.reference.Text?
    requires SameAccount(s, c, from) && SameAccount(s, c, to) && !ReferenceUsed(c, r.reference)
    ensures PlanPost(c, r, txId) == PlanPost(s, r, txId)
  {
    forall i | 0 <= i < |r.postings| && r.postings[i].account.Uuid4?
      ensures SameAccount(s, c, r.postings[i].account.value)
    {}
    PostingReadsWhatItWrites(s, c, r, txId);
  }

  lemma WalletAccountSame(s: Db, c: Db, w: Uuid)
    requires Paired(s.books) && w in s.books.wallets
    requires SameRow(s, c, WalletRow(w)) && SameRow(s, c, AccountRow(s.books.wallets[w].account))
    ensures SameAccount(s.books, c.books, s.books.wallets[w].account)
  {}

  lemma ClearingAccountSame(s: Db, c: Db, k: Currency)
    requires Paired(s.books) && Clearing(k) in s.books.accounts && s.books.accounts[Clearing(k)].kind == SYSTEM
    requires SameRow(s, c, AccountRow(Clearing(k)))
    ensures SameAccount(s.books, c.books, Clearing(k))
  {}

  lemma OwnersOf(b: Books, v: Uuid, w: Uuid)
    requires Paired(b) && v in b.wallets && w in b.wallets
    ensures WalletsOf(b, {b.wallets[v].account, b.wallets[w].account}) == {v, w}
  {
    assert b.accounts[b.wallets[v].account].wallet == Some(v);
    assert b.accounts[b.wallets[w].account].wallet == Some(w);
  }

  // ---------------------------------------------------------------- transfers

  /** A transfer that succeeds rewrites both wallets, because its amount is not zero. */
  lemma SendRewrites(db: Db, op: Op)
    requires Paired(db.books) && op.Send? && TransferBody(db, op.user, op.request, op.ids).Ok?
    ensures var (source, target) := Route(db, op.user, op.request).value;
            var written := TransferBody(db, op.user, op.request, op.ids).value.books;
            Rewritten(db.books, written, source) && Rewritten(db.books, written, target)
  {
    var (source, target) := Route(db, op.user, op.request).value;
    var from, to := db.books.wallets[source].account, db.books.wallets[target].account;
    var r := TransferPosting(db, source, target, op.request.amount, op.ids.row);
    PairRewrites(db.books, r, from, to, op.request.amount, op.ids.transaction, source);
    PairRewrites(db.books, r, from, to, op.request.amount, op.ids.transaction, target);
  }

  /** The locks of a transfer that commits. */
  lemma SendTakes(db: Db, op: Op)
    requires Paired(db.books) && op.Send? && RecordKey(op.user, InternalTransfer, op.key) !in db.records
    requires TransferBody(db, op.user, op.request, op.ids).Ok?
    ensures var (source, target) := Route(db, op.user, op.request).value;
            && source in db.books.wallets && target in db.books.wallets
            && Takes(SendLocks(db, op), RecordRow(RecordKey(op.user, InternalTransfer, op.key)))
            && Takes(SendLocks(db, op), AccountRow(db.books.wallets[source].account))
            && Takes(SendLocks(db, op), AccountRow(db.books.wallets[target].account))
            && Takes(SendLocks(db, op), WalletRow(source)) && Takes(SendLocks(db, op), WalletRow(target))
  {
    var (source, target) := Route(db, op.user, op.request).value;
    var rows := SendLocks(db, op);
    SendRewrites(db, op);
    assert |rows| == 5 && rows[3] == WalletRow(source) && rows[4] == WalletRow(target);
    assert rows[0] == RecordRow(RecordKey(op.user, InternalTransfer, op.key));
    var a, b := db.books.wallets[source].account, db.books.wallets[target].account;
    if a < b { assert rows[1] == AccountRow(a) && rows[2] == AccountRow(b); }
    else { assert rows[1] == AccountRow(b) && rows[2] == AccountRow(a); }
  }

  lemma Agreeing(s: Db, c: Db, rows: seq<Row>, r: Row)
    requires Agree(s, c, rows) && Takes(rows, r)
    ensures SameRow(s, c, r)
  {}

  lemma UnusedTransferReference(db: Db, id: Uuid)
    requires (forall x :: x in db.books.transactions ==> Explained(db, x)) && id !in db.transfers
    ensures !ReferenceUsed(db.books, TransferRef(id))
  {
    forall t | t in db.books.transactions ensures db.books.transactions[t].reference != TransferRef(id) { assert Explained(db, t); }
  }

  /** The named beneficiary, if one was found, is as it was found. */
  ghost predicate SameBeneficiary(s: Db, c: Db, r: TransferRequest) {
    r.beneficiary.Some? && r.beneficiary.value in s.beneficiaries ==> SameAt(s.beneficiaries, c.beneficiaries, r.beneficiary.value)
  }

  lemma RouteSame(s: Db, c: Db, user: Uuid, r: TransferRequest)
    requires Route(s, user, r).Ok? && SameBeneficiary(s, c, r)
    requires var (source, target) := Route(s, user, r).value; SameRow(s, c, WalletRow(source)) && SameRow(s, c, WalletRow(target))
    ensures Route(c, user, r) == Route(s, user, r)
  {}

  lemma SendFrame(s: Db, c: Db, op: Op)
    requires Paired(s.books) && op.Send? && RecordKey(op.user, InternalTransfer, op.key) !in s.records
    requires TransferBody(s, op.user, op.request, op.ids).Ok?
    requires Agree(s, c, SendLocks(s, op)) && SameBeneficiary(s, c, op.request)
    requires !ReferenceUsed(c.books, TransferRef(op.ids.row))
    ensures Plan(c, op) == Plan(s, op)
  {
    SendTakes(s, op);
    var (source, target) := Route(s, op.user, op.request).value;
    var from, to := s.books.wallets[source].account, s.books.wallets[target].account;
    Agreeing(s, c, SendLocks(s, op), WalletRow(source));
    Agreeing(s, c, SendLocks(s, op), WalletRow(target));
    Agreeing(s, c, SendLocks(s, op), AccountRow(from));
    Agreeing(s, c, SendLocks(s, op), AccountRow(to));
    Agreeing(s, c, SendLocks(s, op), RecordRow(RecordKey(op.user, InternalTransfer, op.key)));
    RouteSame(s, c, op.user, op.request);
    WalletAccountSame(s, c, source);
    WalletAccountSame(s, c, target);
    PairReadsWhatItWrites(s.books, c.books, TransferPosting(s, source, target, op.request.amount, op.ids.row),
                          from, to, op.request.amount, op.ids.transaction);
  }

  lemma SendWrites(db: Db, op: Op)
    requires Paired(db.books) && op.Send? && RecordKey(op.user, InternalTransfer, op.key) !in db.records
    requires TransferBody(db, op.user, op.request, op.ids).Ok?
    ensures var (source, target) := Route(db, op.user, op.request).value;
            var w := Plan(db, op).writes;
            && w.books.accounts.Keys == {db.books.wallets[source].account, db.books.wallets[target].account}
            && w.books.wallets.Keys <= {source, target}
            && w.transfers.Keys == {op.ids.row} && w.records.Keys == {RecordKey(op.user, InternalTransfer, op.key)}
            && w.payments == map[] && w.events == map[] && w.reversals == map[]
  {
    var (source, target) := Route(db, op.user, op.request).value;
    var from, to := db.books.wallets[source].account, db.books.wallets[target].account;
    PairWrites(db.books, TransferPosting(db, source, target, op.request.amount, op.ids.row), from, to, op.request.amount, op.ids.transaction);
    OwnersOf(db.books, source, target);
  }

  lemma SendCovered(db: Db, c: Db, op: Op)
    requires Paired(db.books) && op.Send? && RecordKey(op.user, InternalTransfer, op.key) !in db.records
    requires TransferBody(db, op.user, op.request, op.ids).Ok? && op.ids.row !in c.transfers
    ensures Covered(c, Plan(db, op).writes, SendLocks(db, op))
  {
    hide Paired, SendLocks, Route, PlanPost, Takes;
    SendTakes(db, op);
    SendWrites(db, op);
    CoveredByTable(c, Plan(db, op).writes, SendLocks(db, op));
  }

  // ---------------------------------------------------------------- reversals

  /** A reversal that succeeds rewrites both wallets, because its amount is not zero. */
  lemma UndoRewrites(db: Db, op: Op)
    requires Paired(db.books) && op.Undo? && ReversalBody(db, op.user, op.transfer, op.reason, op.ids).Ok?
    ensures op.transfer in db.transfers
    ensures var t, written := db.transfers[op.transfer], ReversalBody(db, op.user, op.transfer, op.reason, op.ids).value.books;
            Rewritten(db.books, written, t.source) && Rewritten(db.books, written, t.destination)
  {
    hide PlanPost;
    var t := db.transfers[op.transfer];
    var from, to := db.books.wallets[t.source].account, db.books.wallets[t.destination].account;
    var r := ReversalPosting(db, t, op.ids.row);
    PairRewrites(db.books, r, from, to, -(t.amount as int), op.ids.transaction, t.source);
    PairRewrites(db.books, r, from, to, -(t.amount as int), op.ids.transaction, t.destination);
  }

  lemma UndoTakes(db: Db, op: Op)
    requires Paired(db.books) && op.Undo? && RecordKey(op.user, TransferReversal, op.key) !in db.records
    requires ReversalBody(db, op.user, op.transfer, op.reason, op.ids).Ok?
    ensures op.transfer in db.transfers
    ensures var t := db.transfers[op.transfer];
            && t.source in db.books.wallets && t.destination in db.books.wallets
            && Takes(UndoLocks(db, op), RecordRow(RecordKey(op.user, TransferReversal, op.key)))
            && Takes(UndoLocks(db, op), TransferRow(op.transfer))
            && Takes(UndoLocks(db, op), AccountRow(db.books.wallets[t.source].account))
            && Takes(UndoLocks(db, op), AccountRow(db.books.wallets[t.destination].account))
            && Takes(UndoLocks(db, op), WalletRow(t.source)) && Takes(UndoLocks(db, op), WalletRow(t.destination))
            && Takes(UndoLocks(db, op), ReversalRow(op.transfer))
  {
    hide PlanPost, ReversalPosting;
    var t := db.transfers[op.transfer];
    var rows := UndoLocks(db, op);
    UndoRewrites(db, op);
    assert |rows| == 7 && rows[4] == WalletRow(t.source) && rows[5] == WalletRow(t.destination) && rows[6] == ReversalRow(op.transfer);
    assert rows[0] == RecordRow(RecordKey(op.user, TransferReversal, op.key)) && rows[1] == TransferRow(op.transfer);
    var a, b := db.books.wallets[t.source].account, db.books.wallets[t.destination].account;
    if a < b { assert rows[2] == AccountRow(a) && rows[3] == AccountRow(b); }
    else { assert rows[2] == AccountRow(b) && rows[3] == AccountRow(a); }
  }

  lemma UnusedReversalReference(db: Db, id: Uuid)
    requires (forall x :: x in db.books.transactions ==> Explained(db, x)) && FreshReversal(db, id)
    ensures !ReferenceUsed(db.books, ReversalRef(id))
  {
    forall t | t in db.books.transactions ensures db.books.transactions[t].reference != ReversalRef(id) { assert Explained(db, t); }
  }

  lemma ReversibleSame(s: Db, c: Db, actor: Uuid, id: Uuid)
    requires Reversible(s, actor, id).Ok? && SameRow(s, c, TransferRow(id)) && SameRow(s, c, ReversalRow(id))
    requires var t := Reversible(s, actor, id).value; SameRow(s, c, WalletRow(t.source)) && SameRow(s, c, WalletRow(t.destination))
    ensures Reversible(c, actor, id) == Reversible(s, actor, id)
  {}

  lemma ReversalBodySame(s: Db, c: Db, op: Op)
    requires op.Undo? && ReversalBody(s, op.user, op.transfer, op.reason, op.ids).Ok?
    requires Reversible(c, op.user, op.transfer) == Reversible(s, op.user, op.transfer)
    requires var t := Reversible(s, op.user, op.transfer).value;
             && SameRow(s, c, WalletRow(t.source)) && SameRow(s, c, WalletRow(t.destination))
             && SameAccount(s.books, c.books, s.books.wallets[t.source].account)
             && SameAccount(s.books, c.books, s.books.wallets[t.destination].account)
    requires !ReferenceUsed(c.books, ReversalRef(op.ids.row))
    ensures ReversalBody(c, op.user, op.transfer, op.reason, op.ids) == ReversalBody(s, op.user, op.transfer, op.reason, op.ids)
  {
    hide PlanPost;
    var t := Reversible(s, op.user, op.transfer).value;
    PairReadsWhatItWrites(s.books, c.books, ReversalPosting(s, t, op.ids.row), s.books.wallets[t.source].account,
                          s.books.wallets[t.destination].account, -(t.amount as int), op.ids.transaction);
  }

  lemma UndoFrame(s: Db, c: Db, op: Op)
    requires Paired(s.books) && op.Undo? && RecordKey(op.user, TransferReversal, op.key) !in s.records
    requires ReversalBody(s, op.user, op.transfer, op.reason, op.ids).Ok?
    requires Agree(s, c, UndoLocks(s, op)) && !ReferenceUsed(c.books, ReversalRef(op.ids.row))
    ensures Plan(c, op) == Plan(s, op)
  {
    UndoTakes(s, op);
    var rows, t := UndoLocks(s, op), s.transfers[op.transfer];
    Agreeing(s, c, rows, WalletRow(t.source));
    Agreeing(s, c, rows, WalletRow(t.destination));
    Agreeing(s, c, rows, AccountRow(s.books.wallets[t.source].account));
    Agreeing(s, c, rows, AccountRow(s.books.wallets[t.destination].account));
    Agreeing(s, c, rows, TransferRow(op.transfer));
    Agreeing(s, c, rows, ReversalRow(op.transfer));
    Agreeing(s, c, rows, RecordRow(RecordKey(op.user, TransferReversal, op.key)));
    ReversibleSame(s, c, op.user, op.transfer);
    WalletAccountSame(s, c, t.source);
    WalletAccountSame(s, c, t.destination);
    ReversalBodySame(s, c, op);
  }

  lemma ReversalBooks(db: Db, op: Op)
    requires Paired(db.books) && op.Undo? && ReversalBody(db, op.user, op.transfer, op.reason, op.ids).Ok?
    ensures op.transfer in db.transfers
    ensures var t := db.transfers[op.transfer];
            && t.source in db.books.wallets && t.destination in db.books.wallets
            && var w := ReversalBody(db, op.user, op.transfer, op.reason, op.ids).value;
            && w == ReversalRows(op.user, op.transfer, t, op.reason, op.ids, w.books)
            && w.books.accounts.Keys == {db.books.wallets[t.source].account, db.books.wallets[t.destination].account}
            && w.books.wallets.Keys <= {t.source, t.destination}
  {
    hide PlanPost;
    var t := db.transfers[op.transfer];
    PairWrites(db.books, ReversalPosting(db, t, op.ids.row), db.books.wallets[t.source].account,
               db.books.wallets[t.destination].account, -(t.amount as int), op.ids.transaction);
    OwnersOf(db.books, t.source, t.destination);
  }

  lemma UndoWrites(db: Db, op: Op)
    requires Paired(db.books) && op.Undo? && RecordKey(op.user, TransferReversal, op.key) !in db.records
    requires ReversalBody(db, op.user, op.transfer, op.reason, op.ids).Ok?
    ensures op.transfer in db.transfers
    ensures var t := db.transfers[op.transfer];
            && t.source in db.books.wallets && t.destination in db.books.wallets
            && var w := Plan(db, op).writes;
            && w.books.accounts.Keys == {db.books.wallets[t.source].account, db.books.wallets[t.destination].account}
            && w.books.wallets.Keys <= {t.source, t.destination}
            && w.reversals.Keys == {op.transfer} && w.records.Keys == {RecordKey(op.user, TransferReversal, op.key)}
            && w.payments == map[] && w.events == map[] && w.transfers == map[]
  {
    ReversalBooks(db, op);
  }

  lemma UndoCovered(db: Db, c: Db, op: Op)
    requires Paired(db.books) && op.Undo? && RecordKey(op.user, TransferReversal, op.key) !in db.records
    requires ReversalBody(db, op.user, op.transfer, op.reason, op.ids).Ok?
    ensures Covered(c, Plan(db, op).writes, UndoLocks(db, op))
  {
    hide UndoLocks, Reversible, PlanPost, ReversalRows, Takes, PlanTransfer;
    UndoTakes(db, op);
    UndoWrites(db, op);
    CoveredByTable(c, Plan(db, op).writes, UndoLocks(db, op));
  }

  // ---------------------------------------------------------------- settlements

  lemma UnusedPaymentReference(db: Db, id: Uuid)
    requires (forall x :: x in db.books.transactions ==> Explained(db, x)) && id in db.payments && db.payments[id].transaction.None?
    ensures !ReferenceUsed(db.books, PaymentRef(id))
  {
    forall t | t in db.books.transactions ensures db.books.transactions[t].reference != PaymentRef(id) { assert Explained(db, t); }
  }

  /** The callback credits a pending payment. */
  ghost predicate FirstSuccess(db: Db, op: Op) {
    && op.Settle? && Plan(db, op).Commit?
    && op.evidence.reference in db.payments && db.payments[op.evidence.reference].status == PENDING
    && EventKey(op.provider, op.evidence.event) !in db.events && op.evidence.succeeded
  }

  /** A credit rewrites the wallet, because its amount is not zero. */
  lemma SuccessRewrites(db: Db, op: Op)
    requires Paired(db.books) && FirstSuccess(db, op)
    ensures Rewritten(db.books, Plan(db, op).writes.books, db.payments[op.evidence.reference].wallet)
  {
    var p := db.payments[op.evidence.reference];
    SuccessRows(db, op);
    PairRewrites(db.books, FundingPosting(db, op.evidence.reference, p), Clearing(p.currency),
                 db.books.wallets[p.wallet].account, p.amount, op.transaction, p.wallet);
  }

  lemma SuccessTakes(db: Db, op: Op)
    requires Paired(db.books) && FirstSuccess(db, op)
    ensures var e := op.evidence;
            && db.payments[e.reference].provider == op.provider
            && var p := db.payments[e.reference];
            && p.wallet in db.books.wallets && Clearing(p.currency) in db.books.accounts
            && PlanPost(db.books, FundingPosting(db, e.reference, p), op.transaction).Ok?
            && Takes(SettleLocks(db, op), PaymentRow(e.reference))
            && Takes(SettleLocks(db, op), EventRow(EventKey(op.provider, e.event)))
            && Takes(SettleLocks(db, op), AccountRow(Clearing(p.currency)))
            && Takes(SettleLocks(db, op), AccountRow(db.books.wallets[p.wallet].account))
            && Takes(SettleLocks(db, op), WalletRow(p.wallet))
  {
    hide FundingPosting, PlanTransfer, PlanReversal;
    var e := op.evidence;
    var p := db.payments[e.reference];
    var rows := SettleLocks(db, op);
    SuccessRewrites(db, op);
    var a, b := Clearing(p.currency), db.books.wallets[p.wallet].account;
    assert |rows| == 5 && rows[0] == PaymentRow(e.reference) && rows[1] == EventRow(EventKey(op.provider, e.event)) && rows[4] == WalletRow(p.wallet);
    if a < b { assert rows[2] == AccountRow(a) && rows[3] == AccountRow(b); }
    else { assert rows[2] == AccountRow(b) && rows[3] == AccountRow(a); }
  }

  lemma SuccessFrame(s: Db, c: Db, op: Op)
    requires Paired(s.books) && FirstSuccess(s, op)
    requires forall k :: Clearing(k) in s.books.accounts ==> s.books.accounts[Clearing(k)].kind == SYSTEM
    requires Agree(s, c, SettleLocks(s, op)) && !ReferenceUsed(c.books, PaymentRef(op.evidence.reference))
    ensures Plan(c, op) == Plan(s, op)
  {
    SuccessTakes(s, op);
    var e := op.evidence;
    var p := s.payments[e.reference];
    Agreeing(s, c, SettleLocks(s, op), PaymentRow(e.reference));
    Agreeing(s, c, SettleLocks(s, op), EventRow(EventKey(op.provider, e.event)));
    Agreeing(s, c, SettleLocks(s, op), AccountRow(Clearing(p.currency)));
    Agreeing(s, c, SettleLocks(s, op), AccountRow(s.books.wallets[p.wallet].account));
    Agreeing(s, c, SettleLocks(s, op), WalletRow(p.wallet));
    ClearingAccountSame(s, c, p.currency);
    WalletAccountSame(s, c, p.wallet);
    PairReadsWhatItWrites(s.books, c.books, FundingPosting(s, e.reference, p), Clearing(p.currency),
                          s.books.wallets[p.wallet].account, p.amount, op.transaction);
  }

  lemma FundingWrites(db: Db, reference: Uuid, txId: Uuid)
    requires Paired(db.books) && reference in db.payments
    requires var p := db.payments[reference];
             && p.wallet in db.books.wallets && PlanPost(db.books, FundingPosting(db, reference, p), txId).Ok?
             && Clearing(p.currency) in db.books.accounts && db.books.accounts[Clearing(p.currency)].kind == SYSTEM
    ensures var p := db.payments[reference];
            var w := PlanPost(db.books, FundingPosting(db, reference, p), txId).value;
            w.accounts.Keys == {Clearing(p.currency), db.books.wallets[p.wallet].account} && w.wallets.Keys <= {p.wallet}
  {
    var p := db.payments[reference];
    var from, to := Clearing(p.currency), db.books.wallets[p.wallet].account;
    PairWrites(db.books, FundingPosting(db, reference, p), from, to, p.amount, txId);
    assert db.books.accounts[to].wallet == Some(p.wallet) && db.books.accounts[from].wallet == None;
    assert WalletsOf(db.books, {from, to}) <= {p.wallet};
  }

  lemma SuccessRows(db: Db, op: Op)
    requires FirstSuccess(db, op)
    ensures var p := db.payments[op.evidence.reference];
            && p.wallet in db.books.wallets && PlanPost(db.books, FundingPosting(db, op.evidence.reference, p), op.transaction).Ok?
            && Plan(db, op).writes == SettlementRows(op.provider, op.evidence, p, Some(op.transaction),
                 PlanPost(db.books, FundingPosting(db, op.evidence.reference, p), op.transaction).value)
  {}

  lemma SettlementRowsCovered(c: Db, rows: seq<Row>, provider: Provider, e: Evidence, p: Payment, txId: Uuid, books: Books, account: Uuid)
    requires books.accounts.Keys == {Clearing(p.currency), account} && books.wallets.Keys <= {p.wallet}
    requires Takes(rows, PaymentRow(e.reference)) && Takes(rows, EventRow(EventKey(provider, e.event)))
    requires Takes(rows, AccountRow(Clearing(p.currency))) && Takes(rows, AccountRow(account)) && Takes(rows, WalletRow(p.wallet))
    ensures Covered(c, SettlementRows(provider, e, p, Some(txId), books), rows)
  {
    CoveredByTable(c, SettlementRows(provider, e, p, Some(txId), books), rows);
  }

  lemma SuccessCovered(db: Db, c: Db, op: Op)
    requires Paired(db.books) && FirstSuccess(db, op)
    requires forall k :: Clearing(k) in db.books.accounts ==> db.books.accounts[Clearing(k)].kind == SYSTEM
    ensures Covered(c, Plan(db, op).writes, SettleLocks(db, op))
  {
    SuccessTakes(db, op);
    SuccessRows(db, op);
    FundingWrites(db, op.evidence.reference, op.transaction);
    var e := op.evidence;
    var p := db.payments[e.reference];
    SettlementRowsCovered(c, SettleLocks(db, op), op.provider, e, p, op.transaction,
                          PlanPost(db.books, FundingPosting(db, e.reference, p), op.transaction).value, db.books.wallets[p.wallet].account);
  }

  lemma OtherCallbackCovered(db: Db, c: Db, op: Op)
    requires op.Settle? && Plan(db, op).Commit? && !FirstSuccess(db, op)
    ensures Covered(c, Plan(db, op).writes, SettleLocks(db, op))
  {
    var rows := SettleLocks(db, op);
    assert rows[0] == PaymentRow(op.evidence.reference);
    if EventKey(op.provider, op.evidence.event) !in db.events {
      assert rows[1] == EventRow(EventKey(op.provider, op.evidence.event));
    }
  }

  /** Callbacks that move no money rest on the payment row and the evidence key alone. */
  lemma OtherCallbackFrame(s: Db, c: Db, op: Op)
    requires op.Settle? && Plan(s, op).Commit? && !FirstSuccess(s, op)
    requires Agree(s, c, SettleLocks(s, op)) && Kept(s.events, c.events)
    ensures Plan(c, op) == Plan(s, op)
  {
    var e := op.evidence;
    var rows := SettleLocks(s, op);
    assert rows[0] == PaymentRow(e.reference);
    Agreeing(s, c, rows, PaymentRow(e.reference));
    if EventKey(op.provider, e.event) !in s.events {
      assert rows[1] == EventRow(EventKey(op.provider, e.event));
      Agreeing(s, c, rows, EventRow(EventKey(op.provider, e.event)));
    }
  }

  // ---------------------------------------------------------------- the wallet rows of a plan

  lemma SentWalletsAreRewritten(db: Db, op: Op, w: Uuid)
    requires Paired(db.books) && op.Send? && Plan(db, op).Commit? && Takes(SendLocks(db, op), WalletRow(w))
    ensures Rewritten(db.books, Plan(db, op).writes.books, w)
  {
    hide Paired;
    assert TransferBody(db, op.user, op.request, op.ids).Ok?;
    SendRewrites(db, op);
  }

  lemma UndoneWalletsAreRewritten(db: Db, op: Op, w: Uuid)
    requires Paired(db.books) && op.Undo? && Plan(db, op).Commit? && Takes(UndoLocks(db, op), WalletRow(w))
    ensures Rewritten(db.books, Plan(db, op).writes.books, w)
  {
    hide Paired;
    assert ReversalBody(db, op.user, op.transfer, op.reason, op.ids).Ok?;
    UndoRewrites(db, op);
  }

  lemma CreditedWalletsAreRewritten(db: Db, op: Op, w: Uuid)
    requires Paired(db.books) && op.Settle? && Plan(db, op).Commit? && Takes(SettleLocks(db, op), WalletRow(w))
    ensures Rewritten(db.books, Plan(db, op).writes.books, w)
  {
    hide Plan, Paired;
    assert FirstSuccess(db, op);
    SuccessRewrites(db, op);
  }

  /** Every wallet row a committing operation takes, it writes with another balance: taking it
      is the trigger's update and nothing else. */
  lemma PlannedWalletsAreRewritten(db: Db, op: Op, w: Uuid)
    requires Paired(db.books) && (op.Send? || op.Undo? || op.Settle?) && Plan(db, op).Commit?
    requires Takes(LockPlan(db, op), WalletRow(w))
    ensures Rewritten(db.books, Plan(db, op).writes.books, w)
  {
    hide Paired, Takes, Rewritten, SendLocks, UndoLocks, SettleLocks, Plan;
    match op
    case Send(_, _, _, _) => SentWalletsAreRewritten(db, op, w);
    case Undo(_, _, _, _, _) => UndoneWalletsAreRewritten(db, op, w);
    case Settle(_, _, _) => CreditedWalletsAreRewritten(db, op, w);
  }
}
