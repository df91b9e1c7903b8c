/** Minor-unit amounts: the signed 64-bit range and the decimal texts that carry an amount
    through JSON, request digests and provider evidence. */
module Amounts {

  const MIN_MINOR_UNITS := -9_223_372_036_854_775_808
  const MAX_MINOR_UNITS := 9_223_372_036_854_775_807
  const MAX_SAFE_INTEGER := 9_007_199_254_740_991

  predicate IsSupported(value: int) {
    MIN_MINOR_UNITS <= value <= MAX_MINOR_UNITS
  }

  predicate IsDigit(c: char) {
    '0' <= c <= '9'
  }

  predicate AllDigits(s: string) {
    forall i :: 0 <= i < |s| ==> IsDigit(s[i])
  }

  function Digit(d: nat): (c: char)
    requires d < 10
    ensures IsDigit(c) && DigitValue(c) == d
  {
    '0' + d as char
  }

  function DigitValue(c: char): (d: nat)
    requires IsDigit(c)
    ensures d < 10
  {
    c as int - '0' as int
  }

  /** The text a bigint prints as. */
  function Print(n: nat): string {
    if n < 10 then [Digit(n)] else Print(n / 10) + [Digit(n % 10)]
  }

  /** The number a text of decimal digits denotes. */
  function Value(s: string): nat
    requires AllDigits(s)
  {
    if s == "" then 0 else 10 * Value(s[..|s| - 1]) + DigitValue(s[|s| - 1])
  }

  /** Texts matching ^[1-9][0-9]*$ of at most `digits` characters and at most `max`. */
  predicate Accepted(s: string, digits: nat, max: nat) {
    1 <= |s| <= digits && s[0] != '0' && AllDigits(s) && Value(s) <= max
  }

  /** The rule shared by payment intents and by transfer requests. */
  predicate AcceptedAmount(s: string) {
    Accepted(s, 19, MAX_MINOR_UNITS)
  }

  /** The rule for intents sent to Paystack, whose amounts travel as JavaScript numbers. */
  predicate AcceptedPaystackAmount(s: string) {
    Accepted(s, 16, MAX_SAFE_INTEGER)
  }

  lemma {:induction false} PrintThenParse(n: nat)
    ensures AllDigits(Print(n)) && Print(n) != "" && Value(Print(n)) == n
    ensures Print(n)[0] == '0' <==> n == 0
  {
    if n >= 10 {
      PrintThenParse(n / 10);
      assert Print(n)[..|Print(n)| - 1] == Print(n / 10);
    } else {
      assert Print(n)[..0] == "";
      assert Value("") == 0;
    }
  }

  lemma {:induction false} ParseThenPrint(s: string)
    requires s != "" && s[0] != '0' && AllDigits(s)
    ensures Value(s) > 0 && Print(Value(s)) == s
  {
    var front, last := s[..|s| - 1], s[|s| - 1];
    if front == "" {
      assert Value(front) == 0;
      assert s == [last];
    } else {
      ParseThenPrint(front);
      assert Value(s) / 10 == Value(front) && Value(s) % 10 == DigitValue(last);
      assert s == front + [last];
    }
  }

  function Power10(k: nat): nat {
    if k == 0 then 1 else 10 * Power10(k - 1)
  }

  lemma {:induction false} PrintLength(n: nat, k: nat)
    requires k >= 1 && n < Power10(k)
    ensures |Print(n)| <= k
  {
    if n >= 10 {
      if k > 1 { PrintLength(n / 10, k - 1); }
    }
  }

  lemma Powers()
    ensures Power10(16) == 10_000_000_000_000_000
    ensures Power10(19) == 10_000_000_000_000_000_000
  {
    assert Power10(4) == 10_000;
    assert Power10(8) == 100_000_000;
    assert Power10(12) == 1_000_000_000_000;
    assert Power10(16) == 10_000_000_000_000_000;
  }

  /** Accepted texts and positive 64-bit amounts correspond one to one: printing is the
      inverse of parsing, in both directions. */
  lemma AcceptedAmountsAreABijection(s: string, n: int)
    ensures (AcceptedAmount(s) && Value(s) == n) <==> (1 <= n <= MAX_MINOR_UNITS && s == Print(n))
  {
    Powers();
    if AcceptedAmount(s) && Value(s) == n {
      ParseThenPrint(s);
    }
    if 1 <= n <= MAX_MINOR_UNITS && s == Print(n) {
      PrintThenParse(n);
      PrintLength(n, 19);
    }
  }

  lemma AcceptedPaystackAmountsAreABijection(s: string, n: int)
    ensures (AcceptedPaystackAmount(s) && Value(s) == n) <==> (1 <= n <= MAX_SAFE_INTEGER && s == Print(n))
  {
    Powers();
    if AcceptedPaystackAmount(s) && Value(s) == n {
      ParseThenPrint(s);
    }
    if 1 <= n <= MAX_SAFE_INTEGER && s == Print(n) {
      PrintThenParse(n);
      PrintLength(n, 16);
    }
  }

  /** Settlement compares the printed stored amount with the evidence text. For evidence the
      mock schema accepts this is numeric equality. */
  lemma MockEvidenceComparesNumerically(stored: nat, evidence: string)
    requires 1 <= stored <= MAX_MINOR_UNITS && AcceptedAmount(evidence)
    ensures Print(stored) == evidence <==> stored == Value(evidence)
  {
    AcceptedAmountsAreABijection(evidence, Value(evidence));
    PrintThenParse(stored);
  }

  /** Paystack evidence is the printed verified number; distinct amounts never print alike. */
  lemma PaystackEvidenceComparesNumerically(stored: nat, verified: nat)
    ensures Print(stored) == Print(verified) <==> stored == verified
  {
    PrintThenParse(stored);
    PrintThenParse(verified);
  }
}
