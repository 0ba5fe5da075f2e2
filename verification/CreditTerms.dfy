/**
 Asset amounts and immutable credit valuation (src/domain/credit.rs).

 Amounts are u64 values bounded by the signed 64-bit storage range; products are u128 and checked.
 */
module CreditTerms {
  import opened Wrappers

  const MAX_UNITS: nat := I64_MAX
  const PICONERO_PER_XMR: nat := 1_000_000_000_000

  datatype Asset = Btc | Xmr

  datatype AssetAmount = AssetAmount(asset: Asset, units: nat)

  predicate Stored(a: AssetAmount) { a.units <= MAX_UNITS }

  datatype Terms = Terms(asset: Asset, expected: nat, target: nat)

  predicate Agreed(t: Terms) { 0 < t.expected <= MAX_UNITS && 0 < t.target <= MAX_UNITS }

  function QuotedXmr(expected: nat, target: nat): (r: Result<Terms>)
    ensures r.Ok? <==> Agreed(Terms(Xmr, expected, target))
    ensures r.Ok? ==> r.value == Terms(Xmr, expected, target)
  {
    if expected == 0 || target == 0 then Err
    else if expected > MAX_UNITS || target > MAX_UNITS then Err
    else Ok(Terms(Xmr, expected, target))
  }

  /** `checked_mul` on u128. */
  function CheckedMul(a: nat, b: nat): (r: Result<nat>)
    ensures r.Ok? ==> r.value == a * b
  {
    if a * b > U128_MAX then Err else Ok(a * b)
  }

  function CumulativeSats(t: Terms, eligible: AssetAmount): Result<nat>
    requires Agreed(t)
  {
    if eligible.asset != t.asset then Err
    else match CheckedMul(eligible.units, t.target)
      case Err => Err
      case Ok(product) =>
        var total := product / t.expected;
        if total > MAX_UNITS then Err else Ok(total)
  }

  datatype Update = Update(eligible: AssetAmount, credit: nat, delta: nat)

  function AssessUpdate(t: Terms, previous: AssetAmount, credited: nat, current: AssetAmount): Result<Update>
    requires Agreed(t)
  {
    match CumulativeSats(t, previous)
    case Err => Err
    case Ok(before) =>
      match CumulativeSats(t, current)
      case Err => Err
      case Ok(after) =>
        if before != credited then Err
        else if current.units < previous.units then Err
        else if after < before then Err
        else Ok(Update(current, after, after - before))
  }

  datatype Rate = Rate(numerator: nat, denominator: nat, observedAt: int)

  predicate Priced(r: Rate) {
    0 < r.numerator <= U64_MAX && 0 < r.denominator <= U64_MAX && 0 <= r.observedAt <= I64_MAX
  }

  datatype Quote = Quote(terms: Terms, rate: Rate, issuedAt: int, expiresAt: int)

  /** `XmrBtcRate::quote`. */
  function MakeQuote(r: Rate, target: nat, issuedAt: int, expiresAt: int, maxAge: nat): Result<Quote>
    requires Priced(r)
  {
    if target == 0 || target > MAX_UNITS then Err
    else if issuedAt < 0 || expiresAt <= issuedAt || maxAge == 0 then Err
    else if r.observedAt > issuedAt then Err
    else if issuedAt - r.observedAt > maxAge then Err
    else match CheckedMul(target, PICONERO_PER_XMR)
      case Err => Err
      case Ok(piconero) =>
        match CheckedMul(piconero, r.denominator)
        case Err => Err
        case Ok(numerator) =>
          var required := numerator / r.numerator + if numerator % r.numerator != 0 then 1 else 0;
          if required > MAX_UNITS then Err
          else match QuotedXmr(required, target)
            case Err => Err
            case Ok(terms) => Ok(Quote(terms, r, issuedAt, expiresAt))
  }

  // --- Floor valuation ------------------------------------------------------------

  /** The exact meaning of floor division. */
  lemma FloorDivision(product: nat, divisor: nat, q: nat)
    requires divisor > 0
    ensures q == product / divisor <==> q * divisor <= product < (q + 1) * divisor
  {
    var d := product / divisor;
    assert product == d * divisor + product % divisor;
    assert (d + 1) * divisor == d * divisor + divisor;
    if q * divisor <= product < (q + 1) * divisor && q != d {
      if q < d {
        MulMonotone(q + 1, d, divisor);
      } else {
        MulMonotone(d + 1, q, divisor);
      }
    }
  }

  lemma MulMonotone(a: int, b: int, c: nat)
    requires a <= b
    ensures a * c <= b * c
  {
    assert (b - a) * c >= 0;
    assert (b - a) * c == b * c - a * c;
  }

  /** Within the storage range the u128 product never overflows. */
  lemma ProductFits(a: nat, b: nat)
    requires a <= MAX_UNITS && b <= MAX_UNITS
    ensures a * b <= U128_MAX
  {
    MulMonotone(a, MAX_UNITS, b);
    MulMonotone(b, MAX_UNITS, MAX_UNITS);
    assert a * b <= MAX_UNITS * b;
    assert MAX_UNITS * b == b * MAX_UNITS;
  }

  /**
   The credit of a stored amount is floor(amount * target / expected). It fails for the wrong
   asset or a credit beyond the storage range, never for overflow of the product.
   */
  lemma {:induction false} CumulativeIsFloor(t: Terms, a: AssetAmount)
    requires Agreed(t) && Stored(a)
    ensures a.units * t.target <= U128_MAX
    ensures CumulativeSats(t, a)
            == if a.asset != t.asset || a.units * t.target / t.expected > MAX_UNITS then Err
               else Ok(a.units * t.target / t.expected)
    ensures CumulativeSats(t, a).Ok? ==>
              var credit := CumulativeSats(t, a).value;
              credit * t.expected <= a.units * t.target < (credit + 1) * t.expected
  {
    ProductFits(a.units, t.target);
    if CumulativeSats(t, a).Ok? {
      FloorDivision(a.units * t.target, t.expected, CumulativeSats(t, a).value);
    }
  }

  lemma FloorMonotone(p: nat, q: nat, d: nat)
    requires d > 0 && p <= q
    ensures p / d <= q / d
  {
    var x, y := p / d, q / d;
    FloorDivision(p, d, x);
    FloorDivision(q, d, y);
    if y < x {
      MulMonotone(y + 1, x, d);
      assert false;
    }
  }

  /** More receipts never lower the credit. */
  lemma CumulativeMonotone(t: Terms, a: nat, b: nat)
    requires Agreed(t) && a <= b
    ensures a * t.target / t.expected <= b * t.target / t.expected
  {
    MulMonotone(a, b, t.target);
    FloorMonotone(a * t.target, b * t.target, t.expected);
  }

  /** Paying exactly the expected amount grants exactly the target. */
  lemma {:induction false} ExpectedGrantsTarget(t: Terms)
    requires Agreed(t)
    ensures CumulativeSats(t, AssetAmount(t.asset, t.expected)) == Ok(t.target)
  {
    ProductFits(t.expected, t.target);
    assert (t.target + 1) * t.expected == t.expected * t.target + t.expected;
    FloorDivision(t.expected * t.target, t.expected, t.target);
  }

  /** An assessment from consistent saved credit succeeds exactly when the new total can be stored. */
  lemma {:induction false} AssessFromConsistent(t: Terms, previous: nat, current: nat, before: nat, after: nat)
    requires Agreed(t) && previous <= current <= MAX_UNITS
    requires before == previous * t.target / t.expected && after == current * t.target / t.expected
    requires before <= MAX_UNITS
    ensures before <= after
    ensures AssessUpdate(t, AssetAmount(t.asset, previous), before, AssetAmount(t.asset, current))
            == if after > MAX_UNITS then Err
               else Ok(Update(AssetAmount(t.asset, current), after, after - before))
  {
    CumulativeIsFloor(t, AssetAmount(t.asset, previous));
    CumulativeIsFloor(t, AssetAmount(t.asset, current));
    CumulativeMonotone(t, previous, current);
  }

  // --- Any sequence of receipts telescopes -----------------------------------------

  function Total(amounts: seq<nat>): nat {
    if amounts == [] then 0 else Total(amounts[..|amounts| - 1]) + amounts[|amounts| - 1]
  }

  /** Grants of receipts assessed one after the other; None if one assessment fails. */
  function Deltas(t: Terms, amounts: seq<nat>): Option<seq<nat>>
    requires Agreed(t)
  {
    if amounts == [] then Some([])
    else
      var front := amounts[..|amounts| - 1];
      match Deltas(t, front)
      case None => None
      case Some(deltas) =>
        var update := AssessUpdate(t, AssetAmount(t.asset, Total(front)), Total(deltas),
                                   AssetAmount(t.asset, Total(amounts)));
        if update.Err? then None else Some(deltas + [update.value.delta])
  }

  /** Splitting a payment into receipts, in any way and any order, never changes the credit granted. */
  lemma {:induction false} DeltasTelescope(t: Terms, amounts: seq<nat>)
    requires Agreed(t)
    requires Total(amounts) <= MAX_UNITS && Total(amounts) * t.target / t.expected <= MAX_UNITS
    ensures Deltas(t, amounts).Some?
    ensures |Deltas(t, amounts).value| == |amounts|
    ensures Total(Deltas(t, amounts).value) == Total(amounts) * t.target / t.expected
  {
    if amounts != [] {
      var front := amounts[..|amounts| - 1];
      CumulativeMonotone(t, Total(front), Total(amounts));
      DeltasTelescope(t, front);
      var deltas := Deltas(t, front).value;
      AssessFromConsistent(t, Total(front), Total(amounts), Total(deltas), Total(amounts) * t.target / t.expected);
      var all := Deltas(t, amounts).value;
      assert all[..|deltas|] == deltas;
    } else {
      assert 0 * t.target / t.expected == 0;
    }
  }

  // --- Quotes ---------------------------------------------------------------------

  /** `e` buys the target at the quoted rate: e * numerator >= target * 10^12 * denominator. */
  predicate Buys(r: Rate, target: nat, e: nat) {
    e * r.numerator >= target * PICONERO_PER_XMR * r.denominator
  }

  /** Ceiling division without overflow gives the least sufficient amount. */
  lemma CeilingIsLeast(n: nat, d: nat)
    requires d > 0
    ensures var c := n / d + if n % d != 0 then 1 else 0;
            c * d >= n && c * d < n + d && forall e: nat :: e * d >= n ==> c <= e
  {
    var q := n / d;
    var c := q + if n % d != 0 then 1 else 0;
    assert n == q * d + n % d;
    assert (q + 1) * d == q * d + d;
    forall e: nat | e * d >= n ensures c <= e {
      if e < c {
        assert (e + 1) * d == e * d + d;
        MulMonotone(e + 1, c, d);
        assert false;
      }
    }
  }

  /** A quote asks for the least amount that buys the target, and its terms grant exactly the target for it. */
  lemma {:induction false} QuoteIsLeast(r: Rate, target: nat, issuedAt: int, expiresAt: int, maxAge: nat)
    requires Priced(r)
    ensures var made := MakeQuote(r, target, issuedAt, expiresAt, maxAge);
            made.Ok? ==>
              var q := made.value;
              && Agreed(q.terms) && q.terms.target == target && q.rate == r
              && Buys(r, target, q.terms.expected)
              && q.terms.expected * r.numerator < target * PICONERO_PER_XMR * r.denominator + r.numerator
              && (forall e: nat :: Buys(r, target, e) ==> q.terms.expected <= e)
              && CumulativeSats(q.terms, AssetAmount(Xmr, q.terms.expected)) == Ok(target)
  {
    var made := MakeQuote(r, target, issuedAt, expiresAt, maxAge);
    if made.Ok? {
      CeilingIsLeast(target * PICONERO_PER_XMR * r.denominator, r.numerator);
      ExpectedGrantsTarget(made.value.terms);
    }
  }

  predicate Policy(r: Rate, target: nat, issuedAt: int, expiresAt: int, maxAge: nat) {
    && 0 < target <= MAX_UNITS
    && 0 <= issuedAt < expiresAt && maxAge > 0
    && r.observedAt <= issuedAt && issuedAt - r.observedAt <= maxAge
  }

  /**
   A quote is made exactly when the policy times hold and some storable amount buys the target:
   the checked u128 products overflow only when no storable amount would.
   */
  lemma QuoteExistsExactlyWhenAffordable(r: Rate, target: nat, issuedAt: int, expiresAt: int, maxAge: nat)
    requires Priced(r)
    ensures MakeQuote(r, target, issuedAt, expiresAt, maxAge).Ok? <==>
              && Policy(r, target, issuedAt, expiresAt, maxAge)
              && exists e: nat :: e <= MAX_UNITS && Buys(r, target, e)
  {
    if Policy(r, target, issuedAt, expiresAt, maxAge) {
      var cost := target * PICONERO_PER_XMR * r.denominator;
      var required := cost / r.numerator + if cost % r.numerator != 0 then 1 else 0;
      CeilingIsLeast(cost, r.numerator);
      assert Buys(r, target, required);
      MulMonotone(1, r.denominator, target * PICONERO_PER_XMR);
      assert target * PICONERO_PER_XMR <= U128_MAX;
      if e: nat :| e <= MAX_UNITS && Buys(r, target, e) {
        MulMonotone(e, MAX_UNITS, r.numerator);
        MulMonotone(r.numerator, U64_MAX, MAX_UNITS);
        assert e * r.numerator <= MAX_UNITS * U64_MAX;
        Positive(target, PICONERO_PER_XMR, r.denominator);
        assert required >= 1;
      }
      if MakeQuote(r, target, issuedAt, expiresAt, maxAge).Ok? {
        assert required <= MAX_UNITS;
      }
    }
  }

  lemma Positive(a: nat, b: nat, c: nat)
    requires a > 0 && b > 0 && c > 0
    ensures a * b * c > 0
  {
  }

  /** Rebuilding a stored quote, with no age limit left to apply, gives equal terms. */
  lemma RebuiltQuoteIsEqual(r: Rate, target: nat, issuedAt: int, expiresAt: int, maxAge: nat)
    requires Priced(r) && issuedAt <= I64_MAX
    ensures var made := MakeQuote(r, target, issuedAt, expiresAt, maxAge);
            made.Ok? ==> MakeQuote(r, target, issuedAt, expiresAt, U64_MAX) == made
  {
  }

  /**
   No amount is overvalued against the quoted rate, and up to the quoted amount the donor's loss is
   below one satoshi plus one rounding step: with N = 10^12 * denominator,
   credit * N <= a * numerator < credit * N + N + numerator.
   */
  lemma {:induction false} QuoteIsFair(
      r: Rate, target: nat, issuedAt: int, expiresAt: int, maxAge: nat, a: nat, credit: nat)
    requires Priced(r) && a <= MAX_UNITS
    ensures var made, N := MakeQuote(r, target, issuedAt, expiresAt, maxAge), PICONERO_PER_XMR * r.denominator;
            && made.Ok? && Agreed(made.value.terms)
            && CumulativeSats(made.value.terms, AssetAmount(Xmr, a)) == Ok(credit) ==>
              && credit * N <= a * r.numerator
              && (a <= made.value.terms.expected ==> a * r.numerator - credit * N < N + r.numerator)
  {
    var made := MakeQuote(r, target, issuedAt, expiresAt, maxAge);
    if made.Ok? && CumulativeSats(made.value.terms, AssetAmount(Xmr, a)) == Ok(credit) {
      QuoteIsLeast(r, target, issuedAt, expiresAt, maxAge);
      CumulativeIsFloor(made.value.terms, AssetAmount(Xmr, a));
      var e, n, N := made.value.terms.expected, r.numerator, PICONERO_PER_XMR * r.denominator;
      assert target * PICONERO_PER_XMR * r.denominator == target * N;
      NeverOvervalued(a, credit, e, target, n, N);
      if a <= e {
        ShortfallBounded(a, credit, e, target, n, N);
      }
    }
  }

  lemma CancelFactor(x: int, y: int, e: nat)
    requires e > 0
    ensures x * e <= y * e ==> x <= y
    ensures x * e < y * e ==> x < y
  {
    if y < x {
      MulMonotone(y + 1, x, e);
      assert (y + 1) * e == y * e + e;
    }
  }

  lemma NeverOvervalued(a: nat, c: nat, e: nat, target: nat, n: nat, N: nat)
    requires e > 0 && c * e <= a * target && e * n >= target * N
    ensures c * N <= a * n
  {
    calc {
      (c * N) * e;
      (c * e) * N;
      <= { MulMonotone(c * e, a * target, N); }
      (a * target) * N;
      a * (target * N);
      (target * N) * a;
      <= { MulMonotone(target * N, e * n, a); }
      (e * n) * a;
      (a * n) * e;
    }
    CancelFactor(c * N, a * n, e);
  }

  lemma ShortfallBounded(a: nat, c: nat, e: nat, target: nat, n: nat, N: nat)
    requires 0 < n && a <= e && 0 < e && a * target < (c + 1) * e && e * n < target * N + n
    ensures a * n < (c + 1) * N + n
  {
    if a > 0 {
      ScaledShortfall(a, c, e, target, n, N);
      CancelFactor(a * n, (c + 1) * N + n, e);
    }
  }

  lemma SwapFactors(x: int, y: int, z: int)
    ensures (x * y) * z == (x * z) * y
  {
  }

  lemma Distribute(x: int, y: int, z: int)
    ensures (x + y) * z == x * z + y * z
  {
  }

  /** The bound multiplied by `e`. */
  lemma ScaledShortfall(a: nat, c: nat, e: nat, target: nat, n: nat, N: nat)
    requires 0 < n && 0 < a <= e && a * target < (c + 1) * e && e * n < target * N + n
    ensures (a * n) * e < ((c + 1) * N + n) * e
  {
    var cost, worth, paid, full := e * n, target * N, (a * target) * N, ((c + 1) * e) * N;
    SwapFactors(n, a, e);
    MulMonotone(cost + 1, worth + n, a);
    Distribute(cost, 1, a);
    Distribute(worth, n, a);
    SwapFactors(target, N, a);
    MulMonotone(a, e, n);
    MulMonotone(a * target, (c + 1) * e, N);
    SwapFactors(c + 1, e, N);
    Distribute((c + 1) * N, n, e);
  }

  // --- Exact conditions ----------------------------------------------------------------------

  /**
   On any inputs: an assessment succeeds if and only if both amounts are of the terms' asset, the saved
   credit is the floor of the previous amount, the amount does not shrink and the new floor can be stored.
   */
  lemma AssessmentIsExact(t: Terms, previous: AssetAmount, credited: nat, current: AssetAmount)
    requires Agreed(t) && Stored(previous) && Stored(current)
    ensures var before, after := previous.units * t.target / t.expected, current.units * t.target / t.expected;
            var allowed := previous.asset == t.asset && current.asset == t.asset && before == credited
                           && previous.units <= current.units && after <= 0x7FFF_FFFF_FFFF_FFFF;
            && (AssessUpdate(t, previous, credited, current).Ok? <==> allowed)
            && (allowed ==>
                  before <= after
                  && AssessUpdate(t, previous, credited, current) == Ok(Update(current, after, after - before)))
  {
    CumulativeIsFloor(t, previous);
    CumulativeIsFloor(t, current);
    if previous.units <= current.units {
      CumulativeMonotone(t, previous.units, current.units);
    }
  }

  /** Terms and rates are positive and within their ranges. */
  lemma RangesAreExact(t: Terms, r: Rate, a: AssetAmount)
    ensures Agreed(t) <==> 0 < t.expected <= 0x7FFF_FFFF_FFFF_FFFF && 0 < t.target <= 0x7FFF_FFFF_FFFF_FFFF
    ensures Priced(r) <==>
              && 0 < r.numerator <= 0xFFFF_FFFF_FFFF_FFFF && 0 < r.denominator <= 0xFFFF_FFFF_FFFF_FFFF
              && 0 <= r.observedAt <= 0x7FFF_FFFF_FFFF_FFFF
    ensures Stored(a) <==> a.units <= 0x7FFF_FFFF_FFFF_FFFF
  {
  }

  /**
   A quote is made if and only if target and times are in order, the rate is no newer than the issue and no
   older than allowed, and some storable amount of piconero is worth the target at the rate.
   */
  lemma QuoteIsExact(r: Rate, target: nat, issuedAt: int, expiresAt: int, maxAge: nat)
    requires Priced(r)
    ensures MakeQuote(r, target, issuedAt, expiresAt, maxAge).Ok? <==>
              && 0 < target <= 0x7FFF_FFFF_FFFF_FFFF && 0 <= issuedAt < expiresAt && maxAge > 0
              && 0 <= issuedAt - r.observedAt <= maxAge
              && exists e: nat :: e <= 0x7FFF_FFFF_FFFF_FFFF && Worth(r, target, e)
    ensures MakeQuote(r, target, issuedAt, expiresAt, maxAge).Ok? ==>
              var q := MakeQuote(r, target, issuedAt, expiresAt, maxAge).value;
              && q.issuedAt == issuedAt && q.expiresAt == expiresAt && q.rate == r && q.terms.asset == Xmr
  {
    QuoteExistsExactlyWhenAffordable(r, target, issuedAt, expiresAt, maxAge);
    forall e: nat ensures Buys(r, target, e) <==> Worth(r, target, e) {
    }
  }

  /** `e` piconero, at `numerator / denominator` satoshis for 10^12 of them, are worth the target. */
  predicate Worth(r: Rate, target: nat, e: nat) {
    e * r.numerator >= target * 1_000_000_000_000 * r.denominator
  }
}
