/**
 Decimal texts of money: the oracle's parser (src/quotes/oracle.rs `decimal`), the printed XMR amount
 (src/quotes.rs `format_xmr`) and the provider's BTC amounts (src/strike.rs).

 Every accepted text is ASCII, so its length in bytes is its length.
 */
module Decimals {
  import opened Wrappers
  import opened Rationals

  const PICONERO_PER_XMR: nat := 1_000_000_000_000
  const MSAT_PER_BTC: nat := 100_000_000_000

  // --- Digits ----------------------------------------------------------------------

  predicate IsDigit(c: char) { '0' <= c <= '9' }

  predicate Digits(s: string) { forall i | 0 <= i < |s| :: IsDigit(s[i]) }

  function DigitValue(c: char): nat
    requires IsDigit(c)
  {
    c as int - '0' as int
  }

  function Digit(d: nat): (c: char)
    requires d < 10
    ensures IsDigit(c) && DigitValue(c) == d
  {
    ('0' as int + d) as char
  }

  function Pow10(n: nat): (p: nat)
    ensures p >= 1
  {
    if n == 0 then 1 else 10 * Pow10(n - 1)
  }

  /** The number a digit string stands for. */
  function Number(s: string): nat
    requires Digits(s)
  {
    if s == "" then 0 else Number(s[..|s| - 1]) * 10 + DigitValue(s[|s| - 1])
  }

  lemma {:induction false} NumberBounded(s: string)
    requires Digits(s)
    ensures Number(s) < Pow10(|s|)
  {
    if s != "" {
      NumberBounded(s[..|s| - 1]);
    }
  }

  lemma TimesTen(n: nat, p: nat)
    ensures n * (10 * p) == 10 * (n * p)
  {
  }

  lemma {:induction false} NumberConcat(a: string, b: string)
    requires Digits(a) && Digits(b)
    ensures Digits(a + b) && Number(a + b) == Number(a) * Pow10(|b|) + Number(b)
  {
    if b == "" {
      assert a + b == a;
    } else {
      NumberConcat(a, b[..|b| - 1]);
      assert (a + b)[..|a + b| - 1] == a + b[..|b| - 1];
      TimesTen(Number(a), Pow10(|b| - 1));
    }
  }

  lemma {:induction false} Pow10Adds(a: nat, b: nat)
    ensures Pow10(a + b) == Pow10(a) * Pow10(b)
  {
    if b > 0 {
      Pow10Adds(a, b - 1);
      assert Pow10(a) * (10 * Pow10(b - 1)) == 10 * (Pow10(a) * Pow10(b - 1));
    }
  }

  lemma {:induction false} Pow10Grows(a: nat, b: nat)
    requires a <= b
    ensures Pow10(a) <= Pow10(b)
  {
    if a < b {
      Pow10Grows(a, b - 1);
    }
  }

  lemma Powers()
    ensures Pow10(11) == MSAT_PER_BTC && Pow10(12) == PICONERO_PER_XMR
    ensures Pow10(18) <= U64_MAX && Pow10(38) <= U128_MAX
  {
    assert Pow10(6) == 1_000_000;
    assert Pow10(11) == 10 * 10 * 10 * 10 * 10 * Pow10(6);
    Pow10Adds(6, 6);
    Pow10Adds(12, 6);
    Pow10Adds(18, 18);
    Pow10Adds(36, 1);
    Pow10Adds(37, 1);
    assert Pow10(1) == 10;
  }

  // --- The oracle's parser -----------------------------------------------------------

  function IndexOf(s: string, c: char): (r: Option<nat>)
    ensures r.Some? ==> r.value < |s| && s[r.value] == c && forall i | 0 <= i < r.value :: s[i] != c
    ensures r.None? ==> forall i | 0 <= i < |s| :: s[i] != c
  {
    if s == "" then None
    else if s[0] == c then Some(0)
    else match IndexOf(s[1..], c)
      case Some(i) => Some(i + 1)
      case None => None
  }

  /** `split_once('.').unwrap_or((value, ""))`. */
  function SplitOnce(s: string): (string, string) {
    match IndexOf(s, '.')
    case Some(i) => (s[..i], s[i + 1..])
    case None => (s, "")
  }

  /** The checked u128 accumulation. */
  function Accumulate(s: string): Result<nat>
    requires Digits(s)
  {
    if s == "" then Ok(0)
    else match Accumulate(s[..|s| - 1])
      case Err => Err
      case Ok(n) =>
        if n * 10 > U128_MAX || n * 10 + DigitValue(s[|s| - 1]) > U128_MAX then Err
        else Ok(n * 10 + DigitValue(s[|s| - 1]))
  }

  /** The texts whose digits the parser reads. */
  predicate Accepted(value: string) {
    var (whole, fraction) := SplitOnce(value);
    && 0 < |value| <= 48
    && 0 < |whole| <= 20 && |fraction| <= 18
    && (IndexOf(value, '.').Some? ==> fraction != "")
    && Digits(whole + fraction)
  }

  function Decimal(value: string): Result<Fraction> {
    if value == "" || |value| > 48 then Err
    else
      var (whole, fraction) := SplitOnce(value);
      if whole == "" || |whole| > 20 || (IndexOf(value, '.').Some? && fraction == "") || |fraction| > 18
         || !Digits(whole + fraction) then Err
      else match Accumulate(whole + fraction)
        case Err => Err
        case Ok(n) =>
          var reduced := Reduce(n, Pow10(|fraction|));
          if reduced.num > U64_MAX || reduced.den > U64_MAX then Err else Ok(reduced)
  }

  lemma NumberFits(s: string)
    requires Digits(s) && |s| <= 38
    ensures Number(s) <= U128_MAX
  {
    NumberBounded(s);
    Pow10Grows(|s|, 38);
    Powers();
  }

  lemma {:induction false} AccumulateIs(s: string)
    requires Digits(s) && |s| <= 38
    ensures Accumulate(s) == Ok(Number(s))
  {
    if s != "" {
      AccumulateIs(s[..|s| - 1]);
      NumberFits(s);
    }
  }

  /** The value of an accepted text, not reduced. */
  function Exact(value: string): Fraction
    requires Accepted(value)
  {
    var (whole, fraction) := SplitOnce(value);
    Fraction(Number(whole + fraction), Pow10(|fraction|))
  }

  lemma DenominatorFits(n: nat)
    requires n <= 18
    ensures Pow10(n) <= U64_MAX
  {
    Pow10Grows(n, 18);
    Powers();
  }

  lemma DecimalOfAccepted(value: string)
    requires Accepted(value)
    ensures var e := Exact(value);
            var r := Reduce(e.num, e.den);
            && Decimal(value) == (if r.num <= U64_MAX then Ok(r) else Err)
            && SameValue(r, e) && LowestTerms(r) && r.den <= U64_MAX
  {
    var (whole, fraction) := SplitOnce(value);
    AccumulateIs(whole + fraction);
    ReduceIsExact(Exact(value).num, Exact(value).den);
    DenominatorFits(|fraction|);
  }

  /**
   38 digits never overflow, so the parser accepts exactly the bounded decimal texts whose reduced
   numerator fits, and returns their exact value in lowest terms.
   */
  lemma DecimalIsExact(value: string)
    ensures Decimal(value).Ok? <==>
              Accepted(value) && Reduce(Exact(value).num, Exact(value).den).num <= U64_MAX
    ensures Decimal(value).Ok? ==>
              && SameValue(Decimal(value).value, Exact(value)) && LowestTerms(Decimal(value).value)
              && Decimal(value).value.den <= U64_MAX && Decimal(value).value.num <= U64_MAX
  {
    if Accepted(value) {
      DecimalOfAccepted(value);
    }
  }

  /** Two accepted spellings have the same value exactly when they parse to the same pair. */
  lemma {:induction false} SpellingsAgree(a: string, b: string)
    requires Decimal(a).Ok? && Decimal(b).Ok?
    ensures Decimal(a) == Decimal(b) <==> Cmp(Exact(a), Exact(b)) == Equal
    ensures Cmp(Decimal(a).value, Decimal(b).value) == Cmp(Exact(a), Exact(b))
  {
    DecimalIsExact(a);
    DecimalIsExact(b);
    var x, y, p, q := Decimal(a).value, Decimal(b).value, Exact(a), Exact(b);
    SameValueSameOrder(x, p, y, q);
    LowestTermsAreUnique(x, y);
  }

  /** Replacing fractions by fractions of the same value does not change their order. */
  lemma SameValueSameOrder(x: Fraction, p: Fraction, y: Fraction, q: Fraction)
    requires x.den > 0 && p.den > 0 && y.den > 0 && q.den > 0
    requires SameValue(x, p) && SameValue(y, q)
    ensures Cmp(x, y) == Cmp(p, q)
  {
    ValuesAgree(x, p);
    ValuesAgree(y, q);
    CmpIsOrder(x, y);
    CmpIsOrder(p, q);
  }

  lemma ValuesAgree(x: Fraction, p: Fraction)
    requires x.den > 0 && p.den > 0 && SameValue(x, p)
    ensures Value(x) == Value(p)
  {
    assert (x.num * p.den) as real == x.num as real * p.den as real;
    assert (p.num * x.den) as real == p.num as real * x.den as real;
    CrossMultiply(x.num as real, x.den as real, p.num as real, p.den as real);
  }

  // --- Printing ----------------------------------------------------------------------

  /** `to_string` on an unsigned integer. */
  function ToText(n: nat): (s: string)
    ensures s != "" && Digits(s)
  {
    if n < 10 then [Digit(n)] else ToText(n / 10) + [Digit(n % 10)]
  }

  /** `{:0width$}` of a number that fits. */
  function Padded(n: nat, width: nat): (s: string)
    ensures |s| == width && Digits(s)
  {
    if width == 0 then "" else Padded(n / 10, width - 1) + [Digit(n % 10)]
  }

  function TrimEndZeros(s: string): string {
    if s != "" && s[|s| - 1] == '0' then TrimEndZeros(s[..|s| - 1]) else s
  }

  lemma {:induction false} ToTextNumber(n: nat)
    ensures Number(ToText(n)) == n
  {
    if n >= 10 {
      ToTextNumber(n / 10);
      var s := ToText(n);
      assert s[..|s| - 1] == ToText(n / 10);
    } else {
      var s := ToText(n);
      assert s[..0] == "";
    }
  }

  lemma {:induction false} ToTextShort(n: nat, k: nat)
    requires n < Pow10(k) && k > 0
    ensures |ToText(n)| <= k
  {
    assert Pow10(1) == 10;
    if n >= 10 {
      ToTextShort(n / 10, k - 1);
    }
  }

  lemma TenthBelow(n: nat, p: nat)
    requires n < 10 * p
    ensures n / 10 < p && n == n / 10 * 10 + n % 10
  {
  }

  lemma DigitAppended(s: string, d: nat)
    requires Digits(s) && d < 10
    ensures Digits(s + [Digit(d)]) && Number(s + [Digit(d)]) == Number(s) * 10 + d
  {
    assert (s + [Digit(d)])[..|s|] == s;
  }

  lemma {:induction false} PaddedNumber(n: nat, width: nat)
    requires n < Pow10(width)
    ensures Number(Padded(n, width)) == n
  {
    if width > 0 {
      var tenth, front := n / 10, Padded(n / 10, width - 1);
      TenthBelow(n, Pow10(width - 1));
      PaddedNumber(tenth, width - 1);
      DigitAppended(front, n % 10);
      assert Padded(n, width) == front + [Digit(n % 10)];
    }
  }

  /** Dropping trailing zeros drops factors of ten and nothing else. */
  lemma {:induction false} TrimIsExact(s: string)
    requires Digits(s)
    ensures |TrimEndZeros(s)| <= |s| && Digits(TrimEndZeros(s))
    ensures Number(s) == Number(TrimEndZeros(s)) * Pow10(|s| - |TrimEndZeros(s)|)
  {
    if s != "" && s[|s| - 1] == '0' {
      var front := s[..|s| - 1];
      TrimIsExact(front);
      var t := TrimEndZeros(front);
      assert TrimEndZeros(s) == t && Number(s) == 10 * Number(front);
      TimesTen(Number(t), Pow10(|front| - |t|));
    } else {
      assert Pow10(0) == 1;
    }
  }

  function FormatXmr(atomic: nat): string {
    FormatParts(atomic / PICONERO_PER_XMR, atomic % PICONERO_PER_XMR)
  }

  function FormatParts(whole: nat, fractional: nat): string {
    if fractional == 0 then ToText(whole) else ToText(whole) + "." + TrimEndZeros(Padded(fractional, 12))
  }

  lemma SplitAt(whole: string, fraction: string)
    requires Digits(whole)
    ensures IndexOf(whole + "." + fraction, '.') == Some(|whole|)
    ensures SplitOnce(whole + "." + fraction) == (whole, fraction)
    ensures IndexOf(whole, '.') == None
  {
    var s := whole + "." + fraction;
    assert s[|whole|] == '.';
    var i := IndexOf(s, '.');
    assert forall k | 0 <= k < |whole| :: s[k] == whole[k];
    assert s[..|whole|] == whole && s[|whole| + 1..] == fraction;
  }

  lemma PiconeroPower(n: nat)
    requires n == 12
    ensures Pow10(n) == PICONERO_PER_XMR
  {
    Powers();
  }

  /** The decimals of a printed amount. */
  lemma TrimmedFraction(whole: nat, fractional: nat)
    requires 0 < fractional < PICONERO_PER_XMR
    ensures var t := TrimEndZeros(Padded(fractional, 12));
            && 0 < |t| <= 12 && Digits(t)
            && SameValue(Fraction(whole * Pow10(|t|) + Number(t), Pow10(|t|)),
                         Fraction(whole * PICONERO_PER_XMR + fractional, PICONERO_PER_XMR))
  {
    var padded := Padded(fractional, 12);
    var t := TrimEndZeros(padded);
    PiconeroPower(|padded|);
    PaddedNumber(fractional, |padded|);
    TrimIsExact(padded);
    var k := |padded| - |t|;
    Pow10Adds(k, |t|);
    FractionScales(whole, Number(t), Pow10(|t|), Pow10(k), fractional);
  }

  lemma WholeText(whole: nat)
    requires whole < 100_000_000
    ensures |ToText(whole)| <= 8 && Number(ToText(whole)) == whole
  {
    assert Pow10(8) == 100_000_000;
    ToTextShort(whole, 8);
    ToTextNumber(whole);
  }

  lemma WholeAmountParses(whole: nat)
    requires whole < 100_000_000 && whole * PICONERO_PER_XMR <= U64_MAX
    ensures Decimal(ToText(whole)) == Ok(Reduce(whole * PICONERO_PER_XMR, PICONERO_PER_XMR))
  {
    var w := ToText(whole);
    WholeText(whole);
    SplitAt(w, "");
    assert w + "" == w && Pow10(0) == 1;
    ReadsBack(w, Fraction(whole, 1), whole * PICONERO_PER_XMR);
  }

  predicate ReadsAs(text: string, f: Fraction) { Accepted(text) && Exact(text) == f }

  lemma ExactOfParts(whole: string, fraction: string)
    requires Digits(whole) && Digits(fraction) && 0 < |whole| <= 20 && 0 < |fraction| <= 18
    ensures ReadsAs(whole + "." + fraction,
                    Fraction(Number(whole) * Pow10(|fraction|) + Number(fraction), Pow10(|fraction|)))
  {
    SplitAt(whole, fraction);
    NumberConcat(whole, fraction);
  }

  lemma FractionalAmountParses(whole: nat, fractional: nat, atomic: nat)
    requires whole < 100_000_000 && 0 < fractional < PICONERO_PER_XMR
    requires atomic == whole * PICONERO_PER_XMR + fractional <= U64_MAX
    ensures Decimal(ToText(whole) + "." + TrimEndZeros(Padded(fractional, 12))) == Ok(Reduce(atomic, PICONERO_PER_XMR))
  {
    var w, t := ToText(whole), TrimEndZeros(Padded(fractional, 12));
    WholeText(whole);
    TrimmedFraction(whole, fractional);
    ExactOfParts(w, t);
    ReadsBack(w + "." + t, Exact(w + "." + t), atomic);
  }

  lemma PartsOfAmount(atomic: nat)
    requires atomic <= U64_MAX
    ensures atomic / PICONERO_PER_XMR < 100_000_000
    ensures atomic == atomic / PICONERO_PER_XMR * PICONERO_PER_XMR + atomic % PICONERO_PER_XMR
  {
  }

  lemma PrintedPartsParse(whole: nat, fractional: nat, atomic: nat)
    requires whole < 100_000_000 && fractional < PICONERO_PER_XMR
    requires atomic == whole * PICONERO_PER_XMR + fractional <= U64_MAX
    ensures Decimal(FormatParts(whole, fractional)) == Ok(Reduce(atomic, PICONERO_PER_XMR))
  {
    if fractional == 0 {
      WholeAmountParses(whole);
    } else {
      FractionalAmountParses(whole, fractional, atomic);
    }
  }

  /** A printed amount is read back exactly: atomic / 10^12 in lowest terms. */
  lemma PrintedXmrParses(atomic: nat)
    requires atomic <= U64_MAX
    ensures Decimal(FormatXmr(atomic)) == Ok(Reduce(atomic, PICONERO_PER_XMR))
  {
    PartsOfAmount(atomic);
    PrintedPartsParse(atomic / PICONERO_PER_XMR, atomic % PICONERO_PER_XMR, atomic);
  }

  lemma FractionScales(whole: nat, part: nat, scale: nat, zeros: nat, fractional: nat)
    requires fractional == part * zeros
    ensures (whole * scale + part) * (zeros * scale) == (whole * (zeros * scale) + fractional) * scale
  {
    calc {
      (whole * scale + part) * (zeros * scale);
      { assert (whole * scale + part) * (zeros * scale) == ((whole * scale + part) * zeros) * scale; }
      ((whole * scale + part) * zeros) * scale;
      { assert (whole * scale + part) * zeros == (whole * scale) * zeros + part * zeros;
        assert (whole * scale) * zeros == whole * (zeros * scale); }
      (whole * (zeros * scale) + fractional) * scale;
    }
  }

  /** A text with the value atomic / 10^12 parses to that value reduced. */
  lemma ReadsBack(text: string, exact: Fraction, atomic: nat)
    requires atomic <= U64_MAX && Accepted(text) && Exact(text) == exact && exact.den > 0
    requires SameValue(exact, Fraction(atomic, PICONERO_PER_XMR))
    ensures Decimal(text) == Ok(Reduce(atomic, PICONERO_PER_XMR))
  {
    var x, y := Reduce(exact.num, exact.den), Reduce(atomic, PICONERO_PER_XMR);
    ReduceIsExact(exact.num, exact.den);
    ReduceIsExact(atomic, PICONERO_PER_XMR);
    SameValueSameOrder(x, exact, y, Fraction(atomic, PICONERO_PER_XMR));
    LowestTermsAreUnique(x, y);
    DecimalIsExact(text);
    LowestTermsAreUnique(x, Reduce(Exact(text).num, Exact(text).den));
    Powers();
    var (whole, fraction) := SplitOnce(text);
    AccumulateIs(whole + fraction);
  }

  // --- Provider BTC amounts ------------------------------------------------------------

  /** `char::is_whitespace`. */
  predicate IsSpace(c: char) {
    var u := c as int;
    || 9 <= u <= 13 || u == 0x20 || u == 0x85 || u == 0xA0 || u == 0x1680 || 0x2000 <= u <= 0x200A
    || u == 0x2028 || u == 0x2029 || u == 0x202F || u == 0x205F || u == 0x3000
  }

  function TrimStart(s: string): string { if s != "" && IsSpace(s[0]) then TrimStart(s[1..]) else s }

  function TrimEnd(s: string): string {
    if s != "" && IsSpace(s[|s| - 1]) then TrimEnd(s[..|s| - 1]) else s
  }

  function Trim(s: string): string { TrimEnd(TrimStart(s)) }

  lemma {:induction false} TrimStartDrops(s: string) returns (i: nat)
    ensures i <= |s| && TrimStart(s) == s[i..]
    ensures forall k | 0 <= k < i :: IsSpace(s[k])
    ensures i < |s| ==> !IsSpace(s[i])
  {
    if s != "" && IsSpace(s[0]) {
      var rest := TrimStartDrops(s[1..]);
      i := rest + 1;
      assert forall k | 1 <= k < i :: s[k] == s[1..][k - 1];
    } else {
      i := 0;
    }
  }

  lemma {:induction false} TrimEndDrops(s: string) returns (j: nat)
    ensures j <= |s| && TrimEnd(s) == s[..j]
    ensures forall k | j <= k < |s| :: IsSpace(s[k])
    ensures j > 0 ==> !IsSpace(s[j - 1])
  {
    if s != "" && IsSpace(s[|s| - 1]) {
      j := TrimEndDrops(s[..|s| - 1]);
      assert forall k | j <= k < |s| - 1 :: s[k] == s[..|s| - 1][k];
    } else {
      j := |s|;
    }
  }

  /** Trimming drops whitespace at both ends, all of it and nothing else. */
  lemma TrimDropsEnds(s: string) returns (i: nat, j: nat)
    ensures i <= j <= |s| && Trim(s) == s[i..j]
    ensures forall k | 0 <= k < i || j <= k < |s| :: IsSpace(s[k])
    ensures i < j ==> !IsSpace(s[i]) && !IsSpace(s[j - 1])
  {
    i := TrimStartDrops(s);
    var length := TrimEndDrops(s[i..]);
    j := i + length;
    assert s[i..][..length] == s[i..j];
    forall k | j <= k < |s| ensures IsSpace(s[k]) {
      assert s[k] == s[i..][k - i];
    }
    if length > 0 {
      assert s[i..][length - 1] == s[j - 1];
    }
  }

  function MsatToBtcDecimal(msat: nat): string {
    ToText(msat / MSAT_PER_BTC) + "." + Padded(msat % MSAT_PER_BTC, 11)
  }

  /** `parse::<u64>` of a nonempty digit string. */
  function ParseU64(s: string): Result<nat>
    requires Digits(s)
  {
    if Number(s) > U64_MAX then Err else Ok(Number(s))
  }

  function Zeros(n: nat): (s: string)
    ensures |s| == n && Digits(s)
  {
    if n == 0 then "" else Zeros(n - 1) + "0"
  }

  function BtcDecimalToMsat(text: string): Result<nat> {
    var value := Trim(text);
    if value == "" || value[0] == '-' || value[0] == '+' then Err
    else
      var (whole, fraction) := SplitOnce(value);
      if IndexOf(fraction, '.').Some? || whole == "" || !Digits(whole) then Err
      else if |fraction| > 11 || !Digits(fraction) then
        // An oversized whole part is refused as well, only with another message.
        Err
      else MsatOfParts(whole, fraction)
  }

  function MsatOfParts(whole: string, fraction: string): Result<nat>
    requires Digits(whole) && Digits(fraction) && |fraction| <= 11
  {
    match ParseU64(whole)
    case Err => Err
    case Ok(base) =>
      match ParseU64(fraction + Zeros(11 - |fraction|))
      case Err => Err
      case Ok(rest) => CheckedMsat(base, rest)
  }

  function CheckedMsat(base: nat, rest: nat): Result<nat> {
    if base * MSAT_PER_BTC > U64_MAX || base * MSAT_PER_BTC + rest > U64_MAX then Err
    else Ok(base * MSAT_PER_BTC + rest)
  }

  lemma {:induction false} ZerosNumber(n: nat)
    ensures Number(Zeros(n)) == 0
  {
    if n > 0 {
      ZerosNumber(n - 1);
      assert Zeros(n)[..n - 1] == Zeros(n - 1);
    }
  }

  /** The texts with at most eleven decimals that stand for an unsigned number. */
  predicate BtcText(value: string) {
    var (whole, fraction) := SplitOnce(value);
    whole != "" && Digits(whole) && |fraction| <= 11 && Digits(fraction)
  }

  /** Millisatoshis of such a text: its digits with the point moved eleven places to the right. */
  function ExactMsat(value: string): nat
    requires BtcText(value)
  {
    var (whole, fraction) := SplitOnce(value);
    Number(whole + fraction + Zeros(11 - |fraction|))
  }

  /** Moving the point multiplies by powers of ten. */
  lemma MovedPoint(digits: string, k: nat)
    requires Digits(digits)
    ensures Number(digits + Zeros(k)) == Number(digits) * Pow10(k)
  {
    NumberConcat(digits, Zeros(k));
    ZerosNumber(k);
  }

  lemma WholeAndPart(whole: string, part: string)
    requires Digits(whole) && Digits(part) && |part| == 11
    ensures Number(part) < 100_000_000_000
    ensures Number(whole + part) == Number(whole) * 100_000_000_000 + Number(part)
  {
    NumberConcat(whole, part);
    NumberBounded(part);
    Powers();
    assert Pow10(|part|) == 100_000_000_000;
  }

  lemma PartsResult(whole: string, fraction: string)
    requires Digits(whole) && Digits(fraction) && |fraction| <= 11
    ensures var exact := Number(whole + fraction + Zeros(11 - |fraction|));
            MsatOfParts(whole, fraction) == if exact <= U64_MAX then Ok(exact) else Err
  {
    var part := fraction + Zeros(11 - |fraction|);
    WholeAndPart(whole, part);
    assert whole + part == whole + fraction + Zeros(11 - |fraction|);
    CheckedSum(Number(whole), Number(part), Number(whole + part));
  }

  lemma CheckedSum(base: nat, rest: nat, exact: nat)
    requires rest < 100_000_000_000 && exact == base * 100_000_000_000 + rest
    ensures rest <= U64_MAX
    ensures (if base > U64_MAX then Err else CheckedMsat(base, rest)) == if exact <= U64_MAX then Ok(exact) else Err
  {
  }

  lemma DigitsHaveNoDot(s: string)
    requires Digits(s)
    ensures IndexOf(s, '.').None?
  {
  }

  lemma WholeFirst(value: string)
    requires SplitOnce(value).0 != ""
    ensures value != "" && value[0] == SplitOnce(value).0[0]
  {
  }

  lemma ScaleBack(n: nat, moved: nat, p: nat, q: nat, unit: nat)
    requires moved == n * p && unit == p * q
    ensures moved * q == n * unit
  {
    Regrouped(n, p, q);
  }

  /** The moved point, as an equation: the written digits are a fraction of Pow10(n). */
  lemma MovedDigits(digits: string, k: nat, n: nat)
    requires Digits(digits)
    ensures Number(digits + Zeros(k)) * Pow10(n) == Number(digits) * Pow10(k + n)
  {
    MovedPoint(digits, k);
    Pow10Adds(k, n);
    ScaleBack(Number(digits), Number(digits + Zeros(k)), Pow10(k), Pow10(n), Pow10(k + n));
  }

  /**
   An amount is accepted exactly when it is such a number within u64. The result is that number exactly:
   result / MSAT_PER_BTC equals the written digits over a power of ten per decimal.
   */
  lemma BtcAmountIsExact(text: string)
    ensures var value := Trim(text);
            BtcDecimalToMsat(text)
            == if BtcText(value) && ExactMsat(value) <= U64_MAX then Ok(ExactMsat(value)) else Err
    ensures BtcDecimalToMsat(text).Ok? ==>
              && BtcText(Trim(text))
              && var (whole, fraction) := SplitOnce(Trim(text));
                 SameValue(Fraction(BtcDecimalToMsat(text).value, 100_000_000_000),
                           Fraction(Number(whole + fraction), Pow10(|fraction|)))
  {
    var value := Trim(text);
    var (whole, fraction) := SplitOnce(value);
    if BtcText(value) {
      WholeFirst(value);
      DigitsHaveNoDot(fraction);
      PartsResult(whole, fraction);
      MovedDigits(whole + fraction, 11 - |fraction|, |fraction|);
      Powers();
    }
  }

  lemma TrimKeeps(s: string)
    requires s != "" && IsDigit(s[0]) && IsDigit(s[|s| - 1])
    ensures Trim(s) == s
  {
  }

  /** Every millisatoshi amount survives the provider's decimal text. */
  lemma BtcAmountRoundTrips(msat: nat)
    requires msat <= U64_MAX
    ensures BtcDecimalToMsat(MsatToBtcDecimal(msat)) == Ok(msat)
  {
    var w, f := ToText(msat / MSAT_PER_BTC), Padded(msat % MSAT_PER_BTC, 11);
    PrintedParts(msat);
    TrimKeeps(w + "." + f);
    SplitAt(w, f);
    assert w + f + Zeros(11 - |f|) == w + f;
    BtcAmountIsExact(w + "." + f);
  }

  lemma PrintedParts(msat: nat)
    ensures Number(ToText(msat / MSAT_PER_BTC) + Padded(msat % MSAT_PER_BTC, 11)) == msat
  {
    Powers();
    ToTextNumber(msat / MSAT_PER_BTC);
    PaddedNumber(msat % MSAT_PER_BTC, 11);
    WholeAndPart(ToText(msat / MSAT_PER_BTC), Padded(msat % MSAT_PER_BTC, 11));
  }
}
