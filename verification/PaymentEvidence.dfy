/** The evidence a provider gives to confirm a micro-deposit, and the text whose hash identifies it. */
module PaymentEvidence {
  import opened Options

  /** Amounts are in cents; lo is the smaller one. */
  datatype Evidence = Descriptor(code: string) | Amounts(lo: int, hi: int)

  predicate ValidAmount(n: int) {
    1 <= n <= 99
  }

  predicate UpperOrDigit(c: char) {
    'A' <= c <= 'Z' || '0' <= c <= '9'
  }

  /** The pattern SM followed by four capitals or digits. */
  predicate IsDescriptor(s: string) {
    |s| == 6 && s[0] == 'S' && s[1] == 'M' && forall i :: 2 <= i < 6 ==> UpperOrDigit(s[i])
  }

  predicate Valid(e: Evidence) {
    match e
    case Descriptor(code) => IsDescriptor(code)
    case Amounts(lo, hi) => ValidAmount(lo) && ValidAmount(hi) && lo <= hi
  }

  /** What confirmPaymentAccountMicroDeposit makes of its arguments; None where it rejects them. */
  function EvidenceOf(amount1: int, amount2: int, descriptorCode: string): (e: Option<Evidence>)
    ensures e.Some? ==> Valid(e.value)
  {
    if IsDescriptor(descriptorCode) then Some(Descriptor(descriptorCode))
    else if ValidAmount(amount1) && ValidAmount(amount2) then
      Some(if amount1 <= amount2 then Amounts(amount1, amount2) else Amounts(amount2, amount1))
    else None
  }

  /**
   A descriptor code is taken whatever the amounts are; without one, two valid amounts are taken in either
   order, and anything else is refused. Every valid piece of evidence can be given.
   */
  lemma EvidenceAccepted(amount1: int, amount2: int, descriptorCode: string, e: Evidence)
    ensures var given := EvidenceOf(amount1, amount2, descriptorCode);
            && (given.None? <==> !IsDescriptor(descriptorCode) && !(ValidAmount(amount1) && ValidAmount(amount2)))
            && EvidenceOf(amount2, amount1, descriptorCode) == given
            && (e.Descriptor? && Valid(e) ==> EvidenceOf(amount1, amount2, e.code) == Some(e))
            && (e.Amounts? && Valid(e) && !IsDescriptor(descriptorCode)
               ==> EvidenceOf(e.lo, e.hi, descriptorCode) == Some(e))
  {
  }

  function Digit(n: int): char
    requires 0 <= n < 10
  {
    "0123456789"[n]
  }

  function Decimal(n: int): string
    requires ValidAmount(n)
  {
    if n < 10 then [Digit(n)] else [Digit(n / 10), Digit(n % 10)]
  }

  /** Array.prototype.sort without a comparison function compares numbers as text. */
  predicate TextBefore(a: string, b: string) {
    if a == "" then true
    else if b == "" then false
    else if a[0] != b[0] then a[0] < b[0]
    else TextBefore(a[1..], b[1..])
  }

  /** The text that is hashed into the confirmation fingerprint. */
  function FingerprintText(e: Evidence): string
    requires Valid(e)
  {
    match e
    case Descriptor(code) => code
    case Amounts(lo, hi) =>
      var a, b := Decimal(lo), Decimal(hi);
      if TextBefore(a, b) then a + ":" + b else b + ":" + a
  }

  lemma Letters(c: char)
    ensures UpperOrDigit(c) <==> c in "ABCDEFGHIJKLMNOPQRSTUVWXYZ" || c in "0123456789"
  {
    if 'A' <= c <= 'Z' {
      assert c == "ABCDEFGHIJKLMNOPQRSTUVWXYZ"[c as int - 'A' as int];
    }
    if '0' <= c <= '9' {
      assert c == "0123456789"[c as int - '0' as int];
    }
  }

  /** A descriptor code is the letters SM and four capitals or digits. */
  lemma DescriptorForm(s: string)
    ensures IsDescriptor(s) <==>
              && |s| == 6 && s[..2] == "SM"
              && forall i :: 2 <= i < 6 ==> s[i] in "ABCDEFGHIJKLMNOPQRSTUVWXYZ" || s[i] in "0123456789"
  {
    forall c ensures UpperOrDigit(c) <==> c in "ABCDEFGHIJKLMNOPQRSTUVWXYZ" || c in "0123456789" {
      Letters(c);
    }
    hide UpperOrDigit;
  }

  /** Without a descriptor code, two amounts from 1 to 99 are taken, the smaller one first. */
  lemma AmountsTaken(amount1: int, amount2: int, descriptorCode: string)
    requires !IsDescriptor(descriptorCode)
    ensures EvidenceOf(amount1, amount2, descriptorCode)
            == if amount1 < 1 || amount1 > 99 || amount2 < 1 || amount2 > 99 then None
               else if amount1 <= amount2 then Some(Amounts(amount1, amount2)) else Some(Amounts(amount2, amount1))
  {
  }

  /** An amount is written with its decimal digits and no leading zero. */
  lemma DecimalDigits(n: int)
    requires ValidAmount(n)
    ensures var d := Decimal(n);
            && (n < 10 ==> |d| == 1 && d[0] as int == '0' as int + n)
            && (n >= 10 ==> |d| == 2 && d[0] as int == '0' as int + n / 10 && d[1] as int == '0' as int + n % 10)
  {
    hide Decimal;
    DigitValue(n % 10);
    DigitValue(n / 10);
    DecimalParts(n);
  }

  lemma DecimalParts(n: int)
    requires ValidAmount(n)
    ensures Decimal(n) == if n < 10 then [Digit(n % 10)] else [Digit(n / 10), Digit(n % 10)]
  {
  }

  lemma DigitValue(n: int)
    requires 0 <= n < 10
    ensures Digit(n) as int == '0' as int + n
  {
  }

  /** The amounts are joined in the order of their texts, so that 10 comes before 2, but 2 before 20. */
  lemma AmountsText(lo: int, hi: int)
    requires ValidAmount(lo) && ValidAmount(hi) && lo <= hi
    ensures FingerprintText(Amounts(lo, hi))
            == if lo < 10 <= hi && hi / 10 < lo then Decimal(hi) + ":" + Decimal(lo)
               else Decimal(lo) + ":" + Decimal(hi)
  {
    DecimalDigits(lo);
    DecimalDigits(hi);
    TextOrder(Decimal(lo), Decimal(hi));
    hide Decimal, TextBefore;
  }

  /** The order of texts of one or two characters. */
  lemma TextOrder(a: string, b: string)
    requires 1 <= |a| <= 2 && 1 <= |b| <= 2
    ensures TextBefore(a, b)
            <==> a[0] < b[0] || (a[0] == b[0] && (|a| == 1 || (|b| == 2 && a[1] <= b[1])))
  {
    if |a| == 2 {
      assert a[1..][0] == a[1] && a[1..][1..] == "";
    }
    if |b| == 2 {
      assert b[1..][0] == b[1] && b[1..][1..] == "";
    }
  }

  lemma DigitInjective(m: int, n: int)
    requires 0 <= m < 10 && 0 <= n < 10
    ensures Digit(m) == Digit(n) <==> m == n
    ensures '0' <= Digit(m) <= '9'
  {
  }

  lemma DecimalInjective(m: int, n: int)
    requires ValidAmount(m) && ValidAmount(n)
    ensures Decimal(m) == Decimal(n) <==> m == n
    ensures forall i :: 0 <= i < |Decimal(m)| ==> '0' <= Decimal(m)[i] <= '9'
  {
    if m < 10 {
      DigitInjective(m, m);
    } else {
      DigitInjective(m / 10, m / 10);
      DigitInjective(m % 10, m % 10);
    }
    if m < 10 && n < 10 {
      DigitInjective(m, n);
    } else if m >= 10 && n >= 10 {
      DigitInjective(m / 10, n / 10);
      DigitInjective(m % 10, n % 10);
    }
  }

  function ColonIndex(s: string): nat {
    if s == "" || s[0] == ':' then 0 else 1 + ColonIndex(s[1..])
  }

  lemma {:induction false} ColonIndexAfter(a: string, b: string)
    requires ':' !in a
    ensures ColonIndex(a + ":" + b) == |a|
  {
    if a != "" {
      ColonIndexAfter(a[1..], b);
      assert (a + ":" + b)[1..] == a[1..] + ":" + b;
    }
  }

  lemma ColonSplits(a: string, b: string, c: string, d: string)
    requires a + ":" + b == c + ":" + d
    requires ':' !in a && ':' !in c
    ensures a == c && b == d
  {
    ColonIndexAfter(a, b);
    ColonIndexAfter(c, d);
    var text := a + ":" + b;
    assert a == text[..|a|] && c == text[..|c|];
    assert b == text[|a| + 1..] && d == text[|c| + 1..];
  }

  lemma AmountsStartWithDigit(e: Evidence)
    requires Valid(e)
    ensures FingerprintText(e) != "" && ('0' <= FingerprintText(e)[0] <= '9' <==> e.Amounts?)
  {
    if e.Amounts? {
      DecimalInjective(e.lo, e.hi);
      DecimalInjective(e.hi, e.lo);
    }
  }

  /** The text determines the evidence: the descriptor code, or the unordered pair of amounts. */
  lemma FingerprintInjective(e: Evidence, f: Evidence)
    requires Valid(e) && Valid(f)
    ensures FingerprintText(e) == FingerprintText(f) <==> e == f
  {
    AmountsStartWithDigit(e);
    AmountsStartWithDigit(f);
    if FingerprintText(e) == FingerprintText(f) && e.Amounts? {
      var a, b, c, d := Decimal(e.lo), Decimal(e.hi), Decimal(f.lo), Decimal(f.hi);
      DecimalInjective(e.lo, f.lo);
      DecimalInjective(e.lo, f.hi);
      DecimalInjective(e.hi, f.lo);
      DecimalInjective(e.hi, f.hi);
      DecimalInjective(f.lo, f.lo);
      DecimalInjective(f.hi, f.hi);
      var p, q := if TextBefore(a, b) then (a, b) else (b, a), if TextBefore(c, d) then (c, d) else (d, c);
      ColonSplits(p.0, p.1, q.0, q.1);
    }
  }

  predicate SamePair(x: int, y: int, u: int, v: int) {
    (x == u && y == v) || (x == v && y == u)
  }

  /** Entering the two amounts in the other order is the same evidence, and nothing else is. */
  lemma AmountsUnordered(x: int, y: int, u: int, v: int, code: string)
    requires ValidAmount(x) && ValidAmount(y) && ValidAmount(u) && ValidAmount(v) && !IsDescriptor(code)
    ensures var e, f := EvidenceOf(x, y, code), EvidenceOf(u, v, code);
            e.Some? && f.Some? &&
            (FingerprintText(e.value) == FingerprintText(f.value) <==> SamePair(x, y, u, v))
  {
    FingerprintInjective(EvidenceOf(x, y, code).value, EvidenceOf(u, v, code).value);
  }
}
