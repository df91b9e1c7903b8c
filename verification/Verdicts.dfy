/** Which refusal each failing condition leads to, read off the tables. */
module Verdicts {
  import opened Domain
  import opened Amounts
  import opened Store
  import opened Posting
  import opened Plans
  import opened Ledger
  import opened Business
  import opened Eligibility

  // ---------------------------------------------------------------- one posting

  /** The account a posting names, in the spelling rows are read back with. */
  ghost predicate Finds(b: Books, p: PostingInput) {
    p.account.Uuid4? && p.account.spelling == 0 && p.account.value in b.accounts
  }

  ghost predicate Inactive(b: Books, a: Account) {
    a.kind == WALLET && a.wallet.Some? && a.wallet.value in b.wallets && b.wallets[a.wallet.value].status != ACTIVE
  }

  /** In sound books a posting is refused for a missing account, another currency, an inactive
      wallet, a balance out of range or too little money, in this order, and for nothing else. */
  lemma PostingVerdict(b: Books, c: Currency, p: PostingInput)
    requires Paired(b) && AccountsSound(b) && WalletsSound(b)
    ensures CheckedBalance(b, c, p) ==
              if !Finds(b, p) then Err(AccountMissing)
              else
                var a := b.accounts[p.account.value];
                if a.currency != c then Err(CurrencyMismatch)
                else if Inactive(b, a) then Err(WalletNotActive)
                else if !(MIN_MINOR_UNITS <= a.balance + p.amount <= MAX_MINOR_UNITS) then Err(BalanceOutOfRange)
                else if a.balance + p.amount < 0 && !a.allowNegative then Err(InsufficientFunds)
                else Ok(a.balance + p.amount)
  {
    if Finds(b, p) {
      assert AccountSound(b, p.account.value);
      var a := b.accounts[p.account.value];
      if a.wallet.Some? { assert WalletSound(b, a.wallet.value); }
    }
  }

  // ---------------------------------------------------------------- any posting

  /** The account may change by the amount of the posting. */
  ghost predicate Takes(b: Books, c: Currency, p: PostingInput) {
    Finds(b, p) && CanPost(b, c, p.account.value, p.amount)
  }

  lemma TakenExactlyWhenChecked(b: Books, c: Currency, p: PostingInput)
    requires Paired(b) && AccountsSound(b) && WalletsSound(b)
    ensures CheckedBalance(b, c, p).Ok? <==> Takes(b, c, p)
  {
    if Finds(b, p) {
      assert p == PostingInput(Canonically(p.account.value), p.amount);
      PassesExactlyWhenItCan(b, c, p.account.value, p.amount);
    }
  }

  /** Posting `i` is the first that fails its checks, for this reason. */
  ghost predicate FailsFirst(b: Books, c: Currency, ps: seq<PostingInput>, i: nat, reason: Reason) {
    i < |ps| && CheckedBalance(b, c, ps[i]) == Err(reason) && forall j :: 0 <= j < i ==> CheckedBalance(b, c, ps[j]).Ok?
  }

  lemma {:induction false} FirstFailureDecides(b: Books, c: Currency, ps: seq<PostingInput>)
    ensures match NextBalances(b, c, ps)
            case Ok(_) => forall i :: 0 <= i < |ps| ==> CheckedBalance(b, c, ps[i]).Ok?
            case Err(reason) => exists i: nat :: FailsFirst(b, c, ps, i, reason)
  {
    hide CheckedBalance;
    if ps != [] {
      var front, last := ps[..|ps| - 1], ps[|ps| - 1];
      FirstFailureDecides(b, c, front);
      forall i | 0 <= i < |front| ensures ps[i] == front[i] {}
      match NextBalances(b, c, front) {
        case Err(reason) =>
          var i: nat :| FailsFirst(b, c, front, i, reason);
          assert FailsFirst(b, c, ps, i, reason);
          assert NextBalances(b, c, ps) == Err(reason);
        case Ok(_) =>
          forall i | 0 <= i < |front| ensures CheckedBalance(b, c, ps[i]).Ok? { assert CheckedBalance(b, c, front[i]).Ok?; }
          var checked := CheckedBalance(b, c, last);
          if checked.Err? {
            assert FailsFirst(b, c, ps, |ps| - 1, checked.reason);
            assert NextBalances(b, c, ps) == Err(checked.reason);
          }
      }
    }
  }

  lemma AllFound(b: Books, ps: seq<PostingInput>)
    requires SoundPostings(ps) && forall i :: 0 <= i < |ps| ==> Finds(b, ps[i])
    ensures |FoundAccounts(b, ps)| == |ps|
  {
    DistinctRows(ps);
    forall a ensures a in FoundAccounts(b, ps) <==> a in PostingRows(ps) { RowKeys(ps, a); }
    assert FoundAccounts(b, ps) == PostingRows(ps).Keys;
    assert |PostingRows(ps).Keys| == |PostingRows(ps)|;
  }

  ghost predicate AllTake(b: Books, c: Currency, ps: seq<PostingInput>) {
    forall i :: 0 <= i < |ps| ==> Takes(b, c, ps[i])
  }

  lemma AllTakeOrOneFails(b: Books, c: Currency, ps: seq<PostingInput>)
    requires Paired(b) && AccountsSound(b) && WalletsSound(b)
    ensures match NextBalances(b, c, ps)
            case Ok(_) => AllTake(b, c, ps)
            case Err(reason) => exists i: nat :: FailsFirst(b, c, ps, i, reason) && !Takes(b, c, ps[i])
  {
    hide CheckedBalance, NextBalances, CanPost, Finds, Paired, AccountsSound, WalletsSound;
    FirstFailureDecides(b, c, ps);
    forall i | 0 <= i < |ps| ensures CheckedBalance(b, c, ps[i]).Ok? <==> Takes(b, c, ps[i]) { TakenExactlyWhenChecked(b, c, ps[i]); }
  }

  /** Why a request that obeys the rules is refused: an unknown account comes first, then the
      first posting that fails its checks, then the reference. */
  ghost predicate PostFails(b: Books, r: PostingRequest, reason: Reason) {
    if AllTake(b, r.currency, r.postings) then reason == UniqueViolation && ReferenceUsed(b, TrimmedReference(r.reference))
    else (reason == AccountMissing && exists i :: 0 <= i < |r.postings| && !Finds(b, r.postings[i]))
         || exists i: nat :: FailsFirst(b, r.currency, r.postings, i, reason) && !Takes(b, r.currency, r.postings[i])
  }

  lemma AcceptablePost(b: Books, r: PostingRequest, txId: Uuid)
    requires Paired(b) && AccountsSound(b) && WalletsSound(b) && Acceptable(r)
    ensures match PlanPost(b, r, txId)
            case Ok(_) => AllTake(b, r.currency, r.postings) && !ReferenceUsed(b, TrimmedReference(r.reference))
            case Err(reason) => PostFails(b, r, reason)
  {
    hide CheckedBalance, NextBalances, FoundAccounts, CanPost, Finds, ReferenceUsed, PostingWrites, Paired, AccountsSound, WalletsSound;
    NormalizedExactlyWhenAcceptable(r);
    AllTakeOrOneFails(b, r.currency, r.postings);
    var n := Normalized(r).value;
    hide Normalized, SoundPostings;
    if i :| 0 <= i < |r.postings| && !Finds(b, r.postings[i]) { assert !Takes(b, r.currency, r.postings[i]); }
    else {
      SoundRequest(r);
      AllFound(b, r.postings);
      assert n.reference == TrimmedReference(r.reference);
    }
  }

  /** A ledger posting of any length is accepted exactly when it obeys the rules, every account
      it names can change by its part and its reference is unused; otherwise it says why not. */
  lemma PostVerdict(b: Books, r: PostingRequest, txId: Uuid)
    requires Paired(b) && AccountsSound(b) && WalletsSound(b)
    ensures PlanPost(b, r, txId).Ok? <==> (Acceptable(r) && AllTake(b, r.currency, r.postings) && !ReferenceUsed(b, TrimmedReference(r.reference)))
    ensures PlanPost(b, r, txId).Err? ==>
              if Acceptable(r) then PostFails(b, r, PlanPost(b, r, txId).reason) else Status(PlanPost(b, r, txId).reason) == 400
  {
    NormalizedExactlyWhenAcceptable(r);
    if Acceptable(r) {
      hide PlanPost, FailsFirst, AllTake, Acceptable;
      AcceptablePost(b, r, txId);
      if AllTake(b, r.currency, r.postings) { assert PlanPost(b, r, txId).Err? ==> PostFails(b, r, PlanPost(b, r, txId).reason); }
    }
  }

  lemma SoundRequest(r: PostingRequest)
    requires Acceptable(r)
    ensures SoundPostings(r.postings)
  {}

  // ---------------------------------------------------------------- two postings

  function Leg(a: Uuid, amount: int): PostingInput {
    PostingInput(Canonically(a), amount)
  }

  lemma FirstLegDecides(b: Books, c: Currency, from: Uuid, to: Uuid, amount: int)
    ensures var next, first, second := NextBalances(b, c, TwoPostings(from, to, amount)),
                                       CheckedBalance(b, c, Leg(from, -amount)), CheckedBalance(b, c, Leg(to, amount));
            && (first.Err? ==> next == Err(first.reason))
            && (first.Ok? && second.Err? ==> next == Err(second.reason))
  {
    hide CheckedBalance;
    var ps := TwoPostings(from, to, amount);
    assert ps[..1] == [ps[0]];
    assert [ps[0]][..0] == [];
    assert NextBalances(b, c, []) == Ok(map[]);
    assert ps[0] == Leg(from, -amount) && ps[1] == Leg(to, amount);
    assert NextBalances(b, c, [ps[0]]).Err? <==> CheckedBalance(b, c, ps[0]).Err?;
  }

  /** A posting between two accounts is refused for its first leg, or else for its second. */
  lemma PairRefusal(b: Books, r: PostingRequest, from: Uuid, to: Uuid, amount: int, txId: Uuid)
    requires r.postings == TwoPostings(from, to, amount) && !r.reference.Text? && from != to
    requires r.description.Some? ==> |r.description.value| <= 255
    requires amount != 0 && IsSupported(amount) && IsSupported(-amount) && !ReferenceUsed(b, r.reference)
    requires from in b.accounts && to in b.accounts && PlanPost(b, r, txId).Err?
    ensures CheckedBalance(b, r.currency, Leg(from, -amount)).Err? || CheckedBalance(b, r.currency, Leg(to, amount)).Err?
    ensures var first, second := CheckedBalance(b, r.currency, Leg(from, -amount)), CheckedBalance(b, r.currency, Leg(to, amount));
            PlanPost(b, r, txId) == Err(if first.Err? then first.reason else second.reason)
  {
    hide CheckedBalance, NextBalances, FoundAccounts;
    TwoPostingsNormalize(r, from, to, amount);
    TwoFound(b, from, to, amount);
    FirstLegDecides(b, r.currency, from, to, amount);
    PairPosts(b, r, from, to, amount, txId);
  }

  /** A leg on an active wallet of the right currency fails for too little money when it takes
      some, and for lack of room when it gives some. */
  lemma WalletVerdict(b: Books, w: Uuid, amount: int)
    requires Paired(b) && AccountsSound(b) && WalletsSound(b) && w in b.wallets && b.wallets[w].status == ACTIVE
    requires -MAX_MINOR_UNITS <= amount <= MAX_MINOR_UNITS
    ensures var checked := CheckedBalance(b, b.wallets[w].currency, Leg(b.wallets[w].account, amount));
            && (checked.Err? <==> !(0 <= b.wallets[w].balance + amount <= MAX_MINOR_UNITS))
            && (checked.Err? ==> checked.reason == if amount < 0 then InsufficientFunds else BalanceOutOfRange)
  {
    PostingVerdict(b, b.wallets[w].currency, Leg(b.wallets[w].account, amount));
    assert WalletSound(b, w) && AccountSound(b, b.wallets[w].account);
    assert b.accounts[b.wallets[w].account].wallet == Some(w);
  }

  // ---------------------------------------------------------------- money between wallets

  /** The amount left one wallet for the other; every other wallet, and all but the balances of
      these two, is as it was. */
  ghost predicate Flows(b: Books, after: Books, v: Uuid, w: Uuid, amount: int) {
    && v != w && v in b.wallets && w in b.wallets && after.wallets.Keys == b.wallets.Keys
    && after.wallets[v] == b.wallets[v].(balance := b.wallets[v].balance - amount)
    && after.wallets[w] == b.wallets[w].(balance := b.wallets[w].balance + amount)
    && (forall x :: x in b.wallets && x != v && x != w ==> after.wallets[x] == b.wallets[x])
  }

  lemma MovedMoneyFlows(b: Books, after: Books, reference: Reference, c: Currency, v: Uuid, w: Uuid, amount: int, txId: Uuid)
    requires Paired(b) && v in b.wallets && w in b.wallets && v != w
    requires MoneyMoved(b, after, reference, c, b.wallets[v].account, b.wallets[w].account, amount, txId)
    ensures Flows(b, after, v, w, amount)
  {
    WalletAccountsDiffer(b, v, w);
    forall x | x in b.wallets && x != v && x != w ensures after.wallets[x] == b.wallets[x] {
      WalletAccountsDiffer(b, x, v);
      WalletAccountsDiffer(b, x, w);
    }
  }

  // ---------------------------------------------------------------- records

  /** What a stored record answers to the request hashed. */
  function StoredAnswer(record: Record, digest: Digest): Result<Uuid> {
    if record.digest != digest then Err(KeyReusedWithOtherRequest)
    else match record.state
      case Completed(id) => Ok(id)
      case Refused(reason) => Err(reason)
      case InProgress => Err(StillProcessing)
  }

  /** What is known of a key after a lost race. */
  function Remembered(db: Db, k: RecordKey, digest: Digest): Result<Uuid> {
    if k in db.records then StoredAnswer(db.records[k], digest) else Err(ConcurrentUpdate)
  }
}
