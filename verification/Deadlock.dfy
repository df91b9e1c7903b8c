/** No deadlock among transfers, reversals, settlements and closes: row locks are taken in one
    global order, except rows that only the holder of an earlier row can want. */
module Deadlock {
  import opened Domain
  import opened Store
  import opened Posting
  import opened Plans
  import opened Ledger
  import opened Business
  import opened Operations
  import opened Runs
  import opened Safety
  import opened Locks
  import opened Frames
  import opened Snapshots
  import opened Decisions
  import opened Interleavings

  // ---------------------------------------------------------------- the order

  function Class(r: Row): nat {
    match r
    case RecordRow(_) => 0
    case TransferRow(_) => 1
    case PaymentRow(_) => 1
    case EventRow(_) => 2
    case AccountRow(_) => 3
    case WalletRow(_) => 4
    case ReversalRow(_) => 4
  }

  /** Accounts are ordered by id; rows of different kinds by kind. */
  predicate Before(r: Row, s: Row) {
    Class(r) < Class(s) || (r.AccountRow? && s.AccountRow? && r.account < s.account)
  }

  predicate Guarded(r: Row) {
    Class(r) == 4
  }

  /** The row a guarded row is only taken under. */
  ghost predicate Guards(db: Db, g: Row, r: Row) {
    match r
    case WalletRow(w) => w in db.books.wallets && g == AccountRow(db.books.wallets[w].account)
    case ReversalRow(id) => g == TransferRow(id)
    case _ => false
  }

  ghost predicate GuardedAt(db: Db, rows: seq<Row>, j: nat)
    requires j < |rows|
  {
    Guarded(rows[j]) ==> exists i :: 0 <= i < j && Guards(db, rows[i], rows[j])
  }

  ghost predicate Orderly(db: Db, rows: seq<Row>) {
    && (forall i, j :: 0 <= i < j < |rows| && !Guarded(rows[j]) ==> Before(rows[i], rows[j]))
    && (forall j :: 0 <= j < |rows| ==> GuardedAt(db, rows, j))
  }

  // ---------------------------------------------------------------- every plan is orderly

  /** A head of at most two rows, two distinct accounts, and rows guarded by one of these. */
  lemma OrderlyPlan(db: Db, head: seq<Row>, a: Uuid, b: Uuid, rest: seq<Row>)
    requires a != b
    requires forall i, j :: 0 <= i < j < |head| ==> Before(head[i], head[j])
    requires forall i :: 0 <= i < |head| ==> Class(head[i]) < 3
    requires forall j :: 0 <= j < |rest| ==>
               (Guarded(rest[j]) && (Guards(db, AccountRow(a), rest[j]) || Guards(db, AccountRow(b), rest[j])
                                     || exists i :: 0 <= i < |head| && Guards(db, head[i], rest[j])))
    ensures Orderly(db, head + AccountLocks(a, b) + rest)
  {
    var rows, n := head + AccountLocks(a, b) + rest, |head|;
    assert rows[n] == AccountLocks(a, b)[0] && rows[n + 1] == AccountLocks(a, b)[1];
    forall j | 0 <= j < |rows| ensures GuardedAt(db, rows, j) {
      if j >= n + 2 {
        assert rows[j] == rest[j - n - 2];
        if Guards(db, AccountRow(a), rows[j]) { assert Guards(db, rows[if a < b then n else n + 1], rows[j]); }
        else if Guards(db, AccountRow(b), rows[j]) { assert Guards(db, rows[if a < b then n + 1 else n], rows[j]); }
        else {
          var i :| 0 <= i < |head| && Guards(db, head[i], rows[j]);
          assert Guards(db, rows[i], rows[j]);
        }
      }
    }
  }

  lemma SendIsOrderly(db: Db, op: Op)
    requires Paired(db.books) && op.Send?
    ensures Orderly(db, SendLocks(db, op))
  {
    hide TransferBody;
    var k, wallets := RecordKey(op.user, InternalTransfer, op.key), db.books.wallets;
    if k !in db.records && Route(db, op.user, op.request).Ok? {
      var (source, target) := Route(db, op.user, op.request).value;
      WalletAccountsDiffer(db.books, source, target);
      OrderlyPlan(db, [RecordRow(k)], wallets[source].account, wallets[target].account,
                  WrittenWallets(TransferBody(db, op.user, op.request, op.ids), source, target));
    }
  }

  lemma UndoIsOrderly(db: Db, op: Op)
    requires Paired(db.books) && op.Undo?
    requires op.transfer in db.transfers ==> db.transfers[op.transfer].source != db.transfers[op.transfer].destination
    ensures Orderly(db, UndoLocks(db, op))
  {
    var k := RecordKey(op.user, TransferReversal, op.key);
    if k !in db.records && op.transfer in db.transfers && Reversible(db, op.user, op.transfer).Ok? {
      var t, body := db.transfers[op.transfer], ReversalBody(db, op.user, op.transfer, op.reason, op.ids);
      WalletAccountsDiffer(db.books, t.source, t.destination);
      OrderlyReversal(db, k, op.transfer, t, UndoneRows(body, t, op.transfer));
    }
  }

  lemma OrderlyReversal(db: Db, k: RecordKey, id: Uuid, t: Transfer, rest: seq<Row>)
    requires t.source in db.books.wallets && t.destination in db.books.wallets
    requires db.books.wallets[t.source].account != db.books.wallets[t.destination].account
    requires forall i :: 0 <= i < |rest| ==> rest[i] in {WalletRow(t.source), WalletRow(t.destination), ReversalRow(id)}
    ensures Orderly(db, [RecordRow(k), TransferRow(id)]
                        + AccountLocks(db.books.wallets[t.source].account, db.books.wallets[t.destination].account) + rest)
  {
    var head := [RecordRow(k), TransferRow(id)];
    assert Guards(db, head[1], ReversalRow(id));
    OrderlyPlan(db, head, db.books.wallets[t.source].account, db.books.wallets[t.destination].account, rest);
  }

  lemma SettleIsOrderly(db: Db, op: Op)
    requires Paired(db.books) && ClearingsAreSystem(db.books) && op.Settle?
    ensures Orderly(db, SettleLocks(db, op))
  {
    hide PlanSettle;
    var rows, e := SettleLocks(db, op), op.evidence;
    if |rows| > 2 {
      var p, wallets := db.payments[e.reference], db.books.wallets;
      var head := [PaymentRow(e.reference), EventRow(EventKey(op.provider, e.event))];
      assert db.books.accounts[wallets[p.wallet].account].kind == WALLET;
      OrderlyPlan(db, head, Clearing(p.currency), wallets[p.wallet].account, []);
      OrderlyPlan(db, head, Clearing(p.currency), wallets[p.wallet].account, [WalletRow(p.wallet)]);
      assert rows == head + AccountLocks(Clearing(p.currency), wallets[p.wallet].account) + rows[4..];
    }
  }

  lemma CloseIsOrderly(db: Db, op: Op)
    requires op.Close?
    ensures Orderly(db, CloseLocks(db, op))
  {
    var rows := CloseLocks(db, op);
    if rows != [] { assert Guards(db, rows[0], rows[1]); }
  }

  lemma PlansAreOrderly(db: Db, op: Op)
    requires Good(db)
    ensures Orderly(db, LockPlan(db, op))
  {
    SystemClearings(db.books);
    match op
    case Send(_, _, _, _) => SendIsOrderly(db, op);
    case Undo(_, _, _, _, _) =>
      assert op.transfer in db.transfers ==> TransferIntact(db, op.transfer);
      UndoIsOrderly(db, op);
    case Settle(_, _, _) => SettleIsOrderly(db, op);
    case Close(_, _) => CloseIsOrderly(db, op);
    case Intend(_, _, _, _, _, _) =>
    case Open(_, _, _) =>
  }

  // ---------------------------------------------------------------- waiting

  /** `t` wants a row that `u` holds. */
  ghost predicate WaitsFor(sys: Sys, t: nat, u: nat) {
    && t in sys.active && u in sys.active && t != u
    && sys.active[t].held < |sys.active[t].needs|
    && Holds(sys.active[u], Wanted(sys, t))
  }

  ghost function Wanted(sys: Sys, t: nat): Row
    requires t in sys.active && sys.active[t].held < |sys.active[t].needs|
  {
    sys.active[t].needs[sys.active[t].held]
  }

  lemma GuardsStay(s: Db, c: Db, g: Row, r: Row)
    requires Grows(s, c) && Guards(s, g, r)
    ensures Guards(c, g, r)
  {
    if r.WalletRow? { assert SameWallet(s.books.wallets[r.wallet], c.books.wallets[r.wallet]); }
  }

  /** A transaction that holds or wants a guarded row holds the guard. */
  lemma GuardHeld(sys: Sys, t: Txn, i: nat)
    requires Sane(t) && SnapshotTrue(sys, t) && i <= t.held && i < |t.needs| && Guarded(t.needs[i])
    ensures exists g :: Guards(sys.db, g, t.needs[i]) && Holds(t, g)
  {
    PlansAreOrderly(t.snapshot, t.op);
    assert GuardedAt(t.snapshot, t.needs, i);
    var k :| 0 <= k < i && Guards(t.snapshot, t.needs[k], t.needs[i]);
    GuardsStay(t.snapshot, sys.db, t.needs[k], t.needs[i]);
    assert Holds(t, t.needs[k]);
  }

  lemma OneGuard(db: Db, g: Row, h: Row, r: Row)
    requires Guards(db, g, r) && Guards(db, h, r)
    ensures g == h
  {}

  /** Nobody waits for a guarded row. */
  lemma GuardedRowsAreFree(sys: Sys, t: nat, u: nat)
    requires Consistent(sys) && WaitsFor(sys, t, u)
    ensures !Guarded(Wanted(sys, t))
  {
    var r := Wanted(sys, t);
    assert Coherent(sys, sys.active[t]) && Coherent(sys, sys.active[u]);
    if Guarded(r) {
      GuardHeld(sys, sys.active[t], sys.active[t].held);
      var g :| Guards(sys.db, g, r) && Holds(sys.active[t], g);
      HeldIsGuarded(sys, sys.active[u], r, g);
      assert false;
    }
  }

  lemma HeldIsGuarded(sys: Sys, t: Txn, r: Row, g: Row)
    requires Sane(t) && SnapshotTrue(sys, t) && Holds(t, r) && Guards(sys.db, g, r)
    ensures Holds(t, g)
  {
    var i :| 0 <= i < t.held && i < |t.needs| && t.needs[i] == r;
    GuardHeld(sys, t, i);
    var h :| Guards(sys.db, h, r) && Holds(t, h);
    OneGuard(sys.db, g, h, r);
  }

  /** Along a chain of waits the wanted rows ascend. */
  lemma WaitsAscend(sys: Sys, t: nat, u: nat, v: nat)
    requires Consistent(sys) && WaitsFor(sys, t, u) && WaitsFor(sys, u, v)
    ensures Before(Wanted(sys, t), Wanted(sys, u))
  {
    GuardedRowsAreFree(sys, u, v);
    var x := sys.active[u];
    assert Coherent(sys, x);
    PlansAreOrderly(x.snapshot, x.op);
    var i :| 0 <= i < x.held && i < |x.needs| && x.needs[i] == Wanted(sys, t);
  }

  ghost predicate WaitChain(sys: Sys, chain: seq<nat>) {
    forall i :: 0 <= i < |chain| - 1 ==> WaitsFor(sys, chain[i], chain[i + 1])
  }

  ghost predicate Ascending(sys: Sys) {
    forall t, u, v :: WaitsFor(sys, t, u) && WaitsFor(sys, u, v) ==> Before(Wanted(sys, t), Wanted(sys, u))
  }

  lemma WaitingAscends(sys: Sys)
    requires Consistent(sys)
    ensures Ascending(sys)
  {
    forall t, u, v | WaitsFor(sys, t, u) && WaitsFor(sys, u, v) ensures Before(Wanted(sys, t), Wanted(sys, u)) {
      WaitsAscend(sys, t, u, v);
    }
  }

  lemma {:induction false} ChainsAscend(sys: Sys, chain: seq<nat>, n: nat)
    requires Ascending(sys) && WaitChain(sys, chain) && 1 <= n < |chain| - 1
    ensures WaitsFor(sys, chain[0], chain[1]) && WaitsFor(sys, chain[n], chain[n + 1])
    ensures Before(Wanted(sys, chain[0]), Wanted(sys, chain[n]))
  {
    assert WaitsFor(sys, chain[0], chain[0 + 1]);
    assert WaitsFor(sys, chain[n - 1], chain[n - 1 + 1]) && WaitsFor(sys, chain[n], chain[n + 1]);
    if n > 1 { ChainsAscend(sys, chain, n - 1); }
  }

  /** Transactions never wait for each other in a circle. */
  lemma NoWaitCycle(sys: Sys, chain: seq<nat>)
    requires Consistent(sys) && |chain| > 1 && WaitChain(sys, chain)
    ensures chain[|chain| - 1] != chain[0]
  {
    hide Sane, SnapshotTrue;
    var n := |chain|;
    WaitingAscends(sys);
    if chain[n - 1] == chain[0] {
      assert WaitsFor(sys, chain[0], chain[0 + 1]);
      var longer := chain + [chain[1]];
      forall i | 0 <= i < |longer| - 1 ensures WaitsFor(sys, longer[i], longer[i + 1]) {
        if i < n - 1 { assert WaitsFor(sys, chain[i], chain[i + 1]); }
      }
      ChainsAscend(sys, longer, n - 1);
    }
  }

  ghost predicate Waiting(sys: Sys, t: nat) {
    t in sys.active && sys.active[t].held < |sys.active[t].needs| && exists u :: WaitsFor(sys, t, u)
  }

  /** Among finitely many wanted rows one is last in the order. */
  lemma {:induction false} LastWanted(wanted: map<nat, Row>) returns (t: nat)
    requires wanted != map[]
    ensures t in wanted && forall u :: u in wanted ==> !Before(wanted[t], wanted[u])
    decreases |wanted|
  {
    var first :| first in wanted;
    t := first;
    var rest := wanted - {first};
    assert |rest| < |wanted| by { assert rest.Keys == wanted.Keys - {first}; }
    if rest != map[] {
      var last := LastWanted(rest);
      if !Before(wanted[last], wanted[first]) { t := last; }
      forall u | u in wanted ensures !Before(wanted[t], wanted[u]) {
        if u != first { assert u in rest && !Before(rest[last], rest[u]); }
      }
    } else {
      assert wanted == map[first := wanted[first]];
    }
  }

  lemma NotAllWait(sys: Sys)
    requires Ascending(sys) && sys.active != map[]
    ensures exists t :: t in sys.active && !Waiting(sys, t)
  {
    var wanted: map<nat, Row> := map t | t in sys.active && Waiting(sys, t) :: Wanted(sys, t);
    if wanted == map[] {
      var t :| t in sys.active;
      assert t !in wanted;
    } else {
      var t := LastWanted(wanted);
      var u :| WaitsFor(sys, t, u);
      LastIsNotWaitedFor(sys, wanted, t, u);
    }
  }

  /** Whoever holds the last wanted row does not wait itself. */
  lemma LastIsNotWaitedFor(sys: Sys, wanted: map<nat, Row>, t: nat, u: nat)
    requires Ascending(sys) && t in wanted && WaitsFor(sys, t, u) && wanted[t] == Wanted(sys, t)
    requires forall v :: v in wanted ==> !Before(wanted[t], wanted[v])
    requires forall v: nat :: Waiting(sys, v) ==> v in wanted && wanted[v] == Wanted(sys, v)
    ensures !Waiting(sys, u)
  {}

  /** Some transaction can always go on: it holds all its rows, or the next is free. */
  lemma SomeoneCanStep(sys: Sys)
    requires Consistent(sys) && sys.active != map[]
    ensures exists t :: t in sys.active
              && (sys.active[t].held == |sys.active[t].needs| || Free(sys, t, Wanted(sys, t)))
  {
    WaitingAscends(sys);
    NotAllWait(sys);
    var t :| t in sys.active && !Waiting(sys, t);
    assert Coherent(sys, sys.active[t]);
    if sys.active[t].held < |sys.active[t].needs| {
      NotWaitingIsFree(sys, t);
    }
  }

  lemma NotWaitingIsFree(sys: Sys, t: nat)
    requires t in sys.active && !Waiting(sys, t) && sys.active[t].held < |sys.active[t].needs|
    ensures Free(sys, t, Wanted(sys, t))
  {
    forall u | u in sys.active && u != t ensures !Holds(sys.active[u], Wanted(sys, t)) {
      assert !WaitsFor(sys, t, u);
    }
  }
}
