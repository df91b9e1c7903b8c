/** Identifiers, enumerations and refusals shared by every module. */
module Domain {

  datatype Option<+T> = None | Some(value: T)

  /** A refusal carries the reason the source puts into the thrown exception's message. */
  datatype Result<+T> = Ok(value: T) | Err(reason: Reason)

  /** A stored UUID, as the 128-bit number PostgreSQL orders rows by. */
  type Uuid = nat

  /** An account id as the caller spells it. PostgreSQL reads every spelling of a UUID as the
      same value; the service compares texts. Spelling 0 is the lower-case text rows are
      read back with. */
  datatype IdText = NotUuid4(chars: string) | Uuid4(value: Uuid, spelling: nat)

  datatype Currency = USD | NGN
  datatype AccountKind = WALLET | SYSTEM
  datatype WalletStatus = ACTIVE | FROZEN | CLOSED
  datatype PaymentStatus = PENDING | SUCCEEDED | FAILED
  datatype Provider = MOCK | PAYSTACK
  datatype Scope = InternalTransfer | TransferReversal

  /** References are a fixed prefix and a UUID, except those given as free text. */
  datatype Reference =
    | Text(chars: string)
    | TransferRef(id: Uuid)
    | ReversalRef(id: Uuid)
    | PaymentRef(id: Uuid)
    | OpeningRef(wallet: Uuid)

  datatype Reason =
    // ledger request normalisation
    | ReferenceLength | DescriptionLength | TooFewPostings | TooManyPostings
    | AccountIdNotUuid4 | ZeroAmount | AmountOutOfRange | AccountRepeated | NotBalanced
    // ledger posting
    | AccountMissing | CurrencyMismatch | WalletUnlinked | WalletCurrencyInconsistent
    | WalletBalanceInconsistent | WalletNotActive | SystemAccountLinked
    | BalanceOutOfRange | InsufficientFunds
    // transfers
    | DestinationUnclear | AmountNotAnInteger | AmountUnsupported
    | SourceNotFound | SourceInactive | BeneficiaryNotFound | DestinationUnresolved
    | DestinationNotFound | DestinationInactive | WalletsNotDistinct | CurrenciesDiffer
    // reversals
    | TransferNotFound | TransferNotCompleted | AlreadyReversed | WalletsInactive
    // payments
    | PaymentWalletNotFound | PaymentWalletInactive | PaystackIntentRejected
    | PaymentKeyReused | UnknownReference | EvidenceMismatch | EventIdentityReused
    | ConflictingOutcome | SettlementBusy
    // wallets
    | WalletNotFound | WalletFrozen | WalletNotEmpty | WalletExists
    // idempotency
    | KeyReusedWithOtherRequest | StillProcessing | ConcurrentUpdate
    // raised by the database, not by a service
    | UniqueViolation | SerializationFailure

  /** The HTTP status of the exception; 0 for database errors, which are not HTTP exceptions. */
  function Status(r: Reason): nat {
    match r
    case ReferenceLength | DescriptionLength | TooFewPostings | TooManyPostings
      | AccountIdNotUuid4 | ZeroAmount | AmountOutOfRange | AccountRepeated | NotBalanced
      | CurrencyMismatch | DestinationUnclear | AmountNotAnInteger | AmountUnsupported
      | WalletsNotDistinct | CurrenciesDiffer | PaystackIntentRejected => 400
    case AccountMissing | SourceNotFound | BeneficiaryNotFound | DestinationNotFound
      | TransferNotFound | PaymentWalletNotFound | UnknownReference | WalletNotFound => 404
    case WalletUnlinked | WalletCurrencyInconsistent | WalletBalanceInconsistent
      | SystemAccountLinked | DestinationUnresolved => 500
    case SettlementBusy => 503
    case UniqueViolation | SerializationFailure => 0
    case _ => 409
  }

  /** Refusals that transfers and reversals store instead of rolling back. */
  predicate IsClientError(r: Reason) {
    400 <= Status(r) < 500
  }

  /** White space and line terminators, as String.prototype.trim removes them. */
  predicate IsBlank(c: char) {
    '\U{0009}' <= c <= '\U{000D}' || c == ' ' || c == '\U{00A0}' || c == '\U{1680}'
    || '\U{2000}' <= c <= '\U{200A}' || c == '\U{2028}' || c == '\U{2029}' || c == '\U{202F}'
    || c == '\U{205F}' || c == '\U{3000}' || c == '\U{FEFF}'
  }

  function Trim(s: string): (t: string)
    ensures |t| <= |s|
    ensures t != "" ==> !IsBlank(t[0]) && !IsBlank(t[|t| - 1])
  {
    if s == "" then ""
    else if IsBlank(s[0]) then Trim(s[1..])
    else if IsBlank(s[|s| - 1]) then Trim(s[..|s| - 1])
    else s
  }

  ghost predicate Blank(s: string) {
    forall i :: 0 <= i < |s| ==> IsBlank(s[i])
  }

  /** `t` is `s` from `i` to `j`; what is cut off is blank. */
  ghost predicate CutTo(s: string, t: string, i: nat, j: nat) {
    i <= j <= |s| && t == s[i..j] && forall k :: 0 <= k < i || j <= k < |s| ==> IsBlank(s[k])
  }

  /** Trimming takes blanks off both ends and nothing else; a text of blanks becomes empty. */
  lemma TrimTakesBlanks(s: string)
    ensures exists i, j :: CutTo(s, Trim(s), i, j)
    ensures Trim(s) == "" <==> Blank(s)
  {
    var i, j := TrimCuts(s);
    hide Trim, IsBlank;
    if Trim(s) == "" { assert i == j; } else { assert Trim(s)[0] == s[i] && !IsBlank(Trim(s)[0]); }
  }

  lemma {:induction false} TrimCuts(s: string) returns (i: nat, j: nat)
    ensures CutTo(s, Trim(s), i, j)
  {
    hide IsBlank;
    if s != "" && IsBlank(s[0]) {
      var m, n := TrimCuts(s[1..]);
      i, j := m + 1, n + 1;
    } else if s != "" && IsBlank(s[|s| - 1]) { i, j := TrimCuts(s[..|s| - 1]); }
    else { i, j := 0, |s|; }
  }

  function Power2(n: nat): nat {
    if n == 0 then 1 else 2 * Power2(n - 1)
  }
}
