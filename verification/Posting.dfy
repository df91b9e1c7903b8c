/** What a ledger posting decides and writes: request normalisation, the checks made against
    the rows read, and the rows written when all checks pass. */
module Posting {
  import opened Sums
  import opened Domain
  import opened Amounts
  import opened Store

  const MAX_POSTINGS := 50

  datatype PostingInput = PostingInput(account: IdText, amount: int)

  datatype PostingRequest = PostingRequest(reference: Reference, currency: Currency,
                                           description: Option<string>, postings: seq<PostingInput>)

  // ---------------------------------------------------------------- normalisation

  function TrimmedReference(r: Reference): Reference {
    if r.Text? then Text(Trim(r.chars)) else r
  }

  /** Prefixed references hold no blanks and are far below the limit of 120. */
  predicate GoodReference(r: Reference) {
    r.Text? ==> 1 <= |Trim(r.chars)| <= 120
  }

  function TrimmedDescription(d: Option<string>): Option<string> {
    if d.Some? && Trim(d.value) != "" then Some(Trim(d.value)) else None
  }

  /** The first check that posting `i` fails, given the postings before it. */
  function PostingFault(postings: seq<PostingInput>, i: nat): Option<Reason>
    requires i < |postings|
  {
    var p := postings[i];
    if !p.account.Uuid4? then Some(AccountIdNotUuid4)
    else if p.amount == 0 then Some(ZeroAmount)
    else if !IsSupported(p.amount) then Some(AmountOutOfRange)
    else if exists j :: 0 <= j < i && postings[j].account == p.account then Some(AccountRepeated)
    else None
  }

  /** The fault of the first faulty posting. */
  function FirstFault(postings: seq<PostingInput>, n: nat): Option<Reason>
    requires n <= |postings|
  {
    if n == 0 then None
    else
      var earlier := FirstFault(postings, n - 1);
      if earlier.Some? then earlier else PostingFault(postings, n - 1)
  }

  function Total(postings: seq<PostingInput>): int {
    if postings == [] then 0 else Total(postings[..|postings| - 1]) + postings[|postings| - 1].amount
  }

  function Normalized(r: PostingRequest): Result<PostingRequest> {
    var ps := r.postings;
    if !GoodReference(r.reference) then Err(ReferenceLength)
    else if r.description.Some? && |Trim(r.description.value)| > 255 then Err(DescriptionLength)
    else if |ps| < 2 then Err(TooFewPostings)
    else if |ps| > MAX_POSTINGS then Err(TooManyPostings)
    else
      var fault := FirstFault(ps, |ps|);
      if fault.Some? then Err(fault.value)
      else if Total(ps) != 0 then Err(NotBalanced)
      else Ok(PostingRequest(TrimmedReference(r.reference), r.currency, TrimmedDescription(r.description), ps))
  }

  /** The rules a ledger request obeys, stated without an order of checks. */
  ghost predicate Acceptable(r: PostingRequest) {
    && GoodReference(r.reference)
    && (r.description.Some? ==> |Trim(r.description.value)| <= 255)
    && 2 <= |r.postings| <= MAX_POSTINGS
    && SoundPostings(r.postings)
    && Total(r.postings) == 0
  }

  ghost predicate SoundPostings(ps: seq<PostingInput>) {
    && (forall i :: 0 <= i < |ps| ==> ps[i].account.Uuid4? && ps[i].amount != 0 && IsSupported(ps[i].amount))
    && (forall i, j :: 0 <= i < j < |ps| ==> ps[i].account != ps[j].account)
  }

  lemma {:induction false} NoFaultMeansSound(ps: seq<PostingInput>, n: nat)
    requires n <= |ps|
    ensures FirstFault(ps, n).None? <==> SoundPostings(ps[..n])
  {
    if n > 0 {
      NoFaultMeansSound(ps, n - 1);
      assert ps[..n][..n - 1] == ps[..n - 1];
      assert forall i :: 0 <= i < n - 1 ==> ps[..n][i] == ps[..n - 1][i];
      assert ps[..n][n - 1] == ps[n - 1];
    }
  }

  /** A request is refused exactly when it breaks a rule, always as a 400; an accepted one keeps
      its postings and loses the blanks around its texts. */
  lemma NormalizedExactlyWhenAcceptable(r: PostingRequest)
    ensures Normalized(r).Ok? <==> Acceptable(r)
    ensures Normalized(r).Err? ==> Status(Normalized(r).reason) == 400
    ensures Normalized(r).Ok? ==>
              var n := Normalized(r).value;
              && Normalized(n).Ok? && n.postings == r.postings && n.currency == r.currency
              && n.reference == (if r.reference.Text? then Text(Trim(r.reference.chars)) else r.reference)
              && (n.description.None? <==> (r.description.None? || Blank(r.description.value)))
              && (n.description.Some? ==> n.description == Some(Trim(r.description.value)))
  {
    NoFaultMeansSound(r.postings, |r.postings|);
    assert r.postings[..|r.postings|] == r.postings;
    FaultIs400(r.postings, |r.postings|);
    if Normalized(r).Ok? && r.reference.Text? { TrimTwice(r.reference.chars); }
    if r.description.Some? {
      TrimTwice(r.description.value);
      TrimTakesBlanks(r.description.value);
    }
  }

  lemma {:induction false} FaultIs400(ps: seq<PostingInput>, n: nat)
    requires n <= |ps|
    ensures FirstFault(ps, n).Some? ==> Status(FirstFault(ps, n).value) == 400
  {
    if n > 0 { FaultIs400(ps, n - 1); }
  }

  lemma TrimTwice(s: string)
    ensures Trim(Trim(s)) == Trim(s)
  {}

  /** The traversal as the source writes it: one pass with a set of seen ids and a total. */
  method Normalize(r: PostingRequest) returns (result: Result<PostingRequest>)
    ensures result == Normalized(r)
    ensures result.Ok? <==> Acceptable(r)
  {
    NormalizedExactlyWhenAcceptable(r);
    if !GoodReference(r.reference) { return Err(ReferenceLength); }
    var description := TrimmedDescription(r.description);
    if description.Some? && |description.value| > 255 { return Err(DescriptionLength); }
    if |r.postings| < 2 { return Err(TooFewPostings); }
    if |r.postings| > MAX_POSTINGS { return Err(TooManyPostings); }
    var accountIds: set<IdText> := {};
    var total := 0;
    var i := 0;
    while i < |r.postings|
      invariant 0 <= i <= |r.postings|
      invariant accountIds == set j | 0 <= j < i :: r.postings[j].account
      invariant total == Total(r.postings[..i])
      invariant FirstFault(r.postings, i).None?
    {
      var p := r.postings[i];
      assert FirstFault(r.postings, i + 1) == PostingFault(r.postings, i);
      assert r.postings[..i + 1][..i] == r.postings[..i];
      var fault := None;
      if !p.account.Uuid4? { fault := Some(AccountIdNotUuid4); }
      else if p.amount == 0 { fault := Some(ZeroAmount); }
      else if !IsSupported(p.amount) { fault := Some(AmountOutOfRange); }
      else if p.account in accountIds { fault := Some(AccountRepeated); }
      if fault.Some? {
        FaultIsFinal(r.postings, i + 1, |r.postings|);
        return Err(fault.value);
      }
      accountIds := accountIds + {p.account};
      total := total + p.amount;
      i := i + 1;
    }
    assert r.postings[..i] == r.postings;
    if total != 0 { return Err(NotBalanced); }
    return Ok(PostingRequest(TrimmedReference(r.reference), r.currency, description, r.postings));
  }

  lemma {:induction false} FaultIsFinal(ps: seq<PostingInput>, i: nat, n: nat)
    requires i <= n <= |ps| && FirstFault(ps, i).Some?
    ensures FirstFault(ps, n) == FirstFault(ps, i)
  {
    if i < n { FaultIsFinal(ps, i, n - 1); }
  }

  // ---------------------------------------------------------------- checks against the rows read

  /** The balance one posting leads to, or the first check it fails. */
  function CheckedBalance(b: Books, currency: Currency, p: PostingInput): Result<int> {
    if !p.account.Uuid4? || p.account.spelling != 0 || p.account.value !in b.accounts then Err(AccountMissing)
    else
      var account := b.accounts[p.account.value];
      var wallet := LinkedWallet(b, account);
      if account.currency != currency then Err(CurrencyMismatch)
      else if account.kind == WALLET && wallet.None? then Err(WalletUnlinked)
      else if account.kind == WALLET && wallet.value.currency != account.currency then Err(WalletCurrencyInconsistent)
      else if account.kind == WALLET && wallet.value.balance != account.balance then Err(WalletBalanceInconsistent)
      else if account.kind == WALLET && wallet.value.status != ACTIVE then Err(WalletNotActive)
      else if account.kind == SYSTEM && wallet.Some? then Err(SystemAccountLinked)
      else
        var next := account.balance + p.amount;
        if !IsSupported(next) then Err(BalanceOutOfRange)
        else if !account.allowNegative && next < 0 then Err(InsufficientFunds)
        else Ok(next)
  }

  /** The next balance of every posted account; the first failing posting decides. */
  function NextBalances(b: Books, currency: Currency, ps: seq<PostingInput>): Result<map<Uuid, int>> {
    if ps == [] then Ok(map[])
    else
      var last := ps[|ps| - 1];
      var earlier := NextBalances(b, currency, ps[..|ps| - 1]);
      if earlier.Err? then earlier
      else
        var next := CheckedBalance(b, currency, last);
        if next.Err? then Err(next.reason) else Ok(earlier.value[last.account.value := next.value])
  }

  /** The account rows the query finds. */
  function FoundAccounts(b: Books, ps: seq<PostingInput>): set<Uuid> {
    set i | 0 <= i < |ps| && ps[i].account.Uuid4? && ps[i].account.value in b.accounts :: ps[i].account.value
  }

  function PostingRows(ps: seq<PostingInput>): map<Uuid, int> {
    if ps == [] then map[]
    else
      var last := ps[|ps| - 1];
      var earlier := PostingRows(ps[..|ps| - 1]);
      if last.account.Uuid4? then earlier[last.account.value := last.amount] else earlier
  }

  // ---------------------------------------------------------------- rows written

  function WalletsOf(b: Books, accounts: set<Uuid>): set<Uuid> {
    set a | a in accounts && a in b.accounts && b.accounts[a].wallet.Some? :: b.accounts[a].wallet.value
  }

  /** The guard of the trigger that keeps wallets in step with their accounts: it does nothing
      for a balance written back unchanged. */
  predicate Resyncs(b: Books, account: Uuid, balance: int) {
    account in b.accounts && b.accounts[account].kind == WALLET && balance != b.accounts[account].balance
  }

  /** The sealed transaction, the new account balances, and the wallet snapshots the trigger
      rewrites. */
  function PostingWrites(b: Books, r: PostingRequest, next: map<Uuid, int>, txId: Uuid): Books {
    Books(
      map a | a in next && a in b.accounts :: b.accounts[a].(balance := next[a]),
      map w | w in WalletsOf(b, next.Keys) && w in b.wallets && b.wallets[w].account in next
              && Resyncs(b, b.wallets[w].account, next[b.wallets[w].account])
                   :: b.wallets[w].(balance := next[b.wallets[w].account]),
      map[txId := LedgerTransaction(r.reference, r.currency, PostingRows(r.postings), true)])
  }

  /** Everything a posting decides, in the order the code decides it. */
  ghost function PlanPost(b: Books, r: PostingRequest, txId: Uuid): Result<Books> {
    var normalized := Normalized(r);
    if normalized.Err? then Err(normalized.reason)
    else
      var n := normalized.value;
      if |FoundAccounts(b, n.postings)| != |n.postings| then Err(AccountMissing)
      else
        var next := NextBalances(b, n.currency, n.postings);
        if next.Err? then Err(next.reason)
        else if ReferenceUsed(b, n.reference) then Err(UniqueViolation)
        else Ok(PostingWrites(b, n, next.value, txId))
  }
}
