/** The rate of a quote from the newest closed market candle (src/quotes/oracle.rs). */
module Oracle {
  import opened Wrappers
  import opened Rationals
  import opened Decimals
  import C = CreditTerms

  const SATS_PER_BTC: nat := 100_000_000
  const MAX_CANDLES: nat := 720
  const MINUTE: nat := 60

  /** Start, prices and volume as texts, number of trades. */
  datatype Candle = Candle(
    time: int, open: string, high: string, low: string, close: string, vwap: string, volume: string, count: nat)

  /** `btc_per_xmr_decimal_rate`: satoshis per XMR. */
  function SatsRate(price: string, observedAt: int): Result<C.Rate> {
    match Decimal(price)
    case Err => Err
    case Ok(btc) =>
      if btc.num == 0 || btc.den == 0 then Err
      else
        var sats := Reduce(btc.num * SATS_PER_BTC, btc.den);
        if sats.num > U64_MAX || sats.den > U64_MAX || sats.num == 0 || sats.den == 0 || observedAt < 0 then Err
        else Ok(C.Rate(sats.num, sats.den, observedAt))
  }

  /**
   There is a rate if and only if the price parses, is positive and fits in satoshis, and was seen at no
   negative time; it is the printed price times 10^8, in lowest terms.
   */
  lemma {:induction false} SatsRateIsExact(price: string, observedAt: int)
    requires observedAt <= I64_MAX
    ensures Decimal(price).Ok? ==> Decimal(price).value.den > 0
    ensures SatsRate(price, observedAt).Ok? <==>
              && 0 <= observedAt && Decimal(price).Ok? && Decimal(price).value.num > 0
              && Reduce(Decimal(price).value.num * 100_000_000, Decimal(price).value.den).num <= U64_MAX
    ensures SatsRate(price, observedAt).Ok? ==>
              var r := SatsRate(price, observedAt).value;
              && C.Priced(r) && r.observedAt == observedAt
              && LowestTerms(Fraction(r.numerator, r.denominator))
              && Accepted(price) && Value(Fraction(r.numerator, r.denominator)) == Value(Exact(price)) * 100_000_000.0
  {
    DecimalIsExact(price);
    if Decimal(price).Ok? && Decimal(price).value.num > 0 {
      ValuesAgree(Decimal(price).value, Exact(price));
      ReducedSats(Decimal(price).value);
    }
  }

  /** A price in bitcoin, reduced in satoshis. */
  lemma ReducedSats(btc: Fraction)
    requires btc.num > 0 && btc.den > 0
    ensures var sats := Reduce(btc.num * SATS_PER_BTC, btc.den);
            && LowestTerms(sats) && 0 < sats.num && sats.den <= btc.den
            && Value(sats) == Value(btc) * SATS_PER_BTC as real
  {
    var n := btc.num * SATS_PER_BTC;
    ReduceIsExact(n, btc.den);
    ValuesAgree(Reduce(n, btc.den), Fraction(n, btc.den));
    Scaled(btc.num, btc.den, SATS_PER_BTC);
  }

  lemma Scaled(n: nat, d: nat, k: nat)
    requires d > 0
    ensures (n * k) as real / d as real == (n as real / d as real) * k as real
  {
    assert (n * k) as real == n as real * k as real;
  }

  /** `validate_rate`: the configured bounds, in satoshis per XMR. */
  predicate ValidRate(r: C.Rate, minimum: nat, maximum: nat) {
    r.numerator >= minimum * r.denominator && r.numerator <= maximum * r.denominator
  }

  /** Cross multiplication fits 128 bits and accepts exactly the rates between the bounds. */
  lemma {:induction false} ValidRateIsExact(r: C.Rate, minimum: nat, maximum: nat)
    requires C.Priced(r) && minimum <= U64_MAX && maximum <= U64_MAX
    ensures minimum * r.denominator <= U128_MAX && maximum * r.denominator <= U128_MAX
    ensures ValidRate(r, minimum, maximum) <==>
              minimum as real <= Value(Fraction(r.numerator, r.denominator)) <= maximum as real
  {
    var rate := Fraction(r.numerator, r.denominator);
    CmpIsTheOrderOfValues(rate, Fraction(minimum, 1));
    CmpIsTheOrderOfValues(rate, Fraction(maximum, 1));
  }

  // --- Candles -----------------------------------------------------------------------

  predicate Chronological(candles: seq<Candle>, fetchedAt: int) {
    && (forall i | 0 <= i < |candles| ::
          0 <= candles[i].time <= fetchedAt && candles[i].time % MINUTE == 0)
    && (forall i, j | 0 <= i < j < |candles| :: candles[i].time < candles[j].time)
  }

  /** A minute without trades. */
  predicate Quiet(c: Candle) { c.count == 0 && Decimal(c.volume).Ok? && Decimal(c.volume).value.num == 0 }

  /** The newest minute with trades, never the unfinished last row. */
  predicate Newest(candles: seq<Candle>, i: nat) {
    i < |candles| - 1 && !Quiet(candles[i]) && forall k | i < k < |candles| - 1 :: Quiet(candles[k])
  }

  predicate Outside(p: Fraction, low: Fraction, high: Fraction) { Cmp(p, low) == Less || Cmp(p, high) == Greater }

  /** The low is positive and every price lies between low and high. */
  predicate PricesAgree(open: Fraction, high: Fraction, low: Fraction, close: Fraction, vwap: Fraction) {
    && low.num > 0 && Cmp(low, high) != Greater
    && !Outside(open, low, high) && !Outside(close, low, high) && !Outside(vwap, low, high)
  }

  predicate Priced(c: Candle) {
    && Decimal(c.open).Ok? && Decimal(c.high).Ok? && Decimal(c.low).Ok? && Decimal(c.close).Ok? && Decimal(c.vwap).Ok?
    && PricesAgree(Decimal(c.open).value, Decimal(c.high).value, Decimal(c.low).value, Decimal(c.close).value,
                   Decimal(c.vwap).value)
  }

  predicate Traded(c: Candle) { c.count > 0 && Decimal(c.volume).Ok? && Decimal(c.volume).value.num > 0 }

  /** Traded, closed, and with prices that agree with each other and make a rate. */
  predicate Usable(c: Candle, fetchedAt: int) {
    Traded(c) && c.time + MINUTE <= fetchedAt && Priced(c) && SatsRate(c.vwap, c.time).Ok?
  }

  /** The rate of one candle that is not quiet. */
  method CandleRate(c: Candle, fetchedAt: int) returns (r: Result<C.Rate>)
    requires Decimal(c.volume).Ok? && !Quiet(c)
    ensures r == if Usable(c, fetchedAt) then SatsRate(c.vwap, c.time) else Err
  {
    if c.count == 0 || Decimal(c.volume).value.num == 0 {
      return Err;
    }
    if c.time + MINUTE > fetchedAt {
      return Err;
    }
    var open, high, low := Decimal(c.open), Decimal(c.high), Decimal(c.low);
    var close, vwap := Decimal(c.close), Decimal(c.vwap);
    if open.Err? || high.Err? || low.Err? || close.Err? || vwap.Err? {
      return Err;
    }
    if !PricesAgree(open.value, high.value, low.value, close.value, vwap.value) {
      return Err;
    }
    r := SatsRate(c.vwap, c.time);
  }

  method CheckChronology(candles: seq<Candle>, fetchedAt: int) returns (ok: bool)
    ensures ok <==> Chronological(candles, fetchedAt)
  {
    var previous, n := None, 0;
    while n < |candles|
      invariant 0 <= n <= |candles|
      invariant Chronological(candles[..n], fetchedAt)
      invariant previous == if n == 0 then None else Some(candles[n - 1].time)
    {
      var time := candles[n].time;
      if time < 0 || time % MINUTE != 0 || time > fetchedAt || (previous.Some? && previous.value >= time) {
        return false;
      }
      previous := Some(time);
      n := n + 1;
    }
    assert candles[..n] == candles;
    ok := true;
  }

  lemma NewestIsUnique(candles: seq<Candle>, i: nat, j: nat)
    requires Newest(candles, i) && Newest(candles, j)
    ensures i == j
  {
  }

  /** The newest traded minute decides alone: its rate if it is usable, nothing if it is not or is missing. */
  ghost predicate Decides(candles: seq<Candle>, fetchedAt: int, r: Result<C.Rate>) {
    && (forall i: nat | Newest(candles, i) ::
          r == if Usable(candles[i], fetchedAt) then SatsRate(candles[i].vwap, candles[i].time) else Err)
    && (r.Ok? ==> exists i: nat :: Newest(candles, i))
  }

  lemma NewestDecides(candles: seq<Candle>, fetchedAt: int, i: nat, r: Result<C.Rate>)
    requires Newest(candles, i)
    requires r == if Usable(candles[i], fetchedAt) then SatsRate(candles[i].vwap, candles[i].time) else Err
    ensures Decides(candles, fetchedAt, r)
  {
    forall j: nat | Newest(candles, j) ensures j == i {
      NewestIsUnique(candles, i, j);
    }
  }

  /** Search backwards from the last finished row. */
  method NewestRate(candles: seq<Candle>, fetchedAt: int) returns (r: Result<C.Rate>)
    requires |candles| >= 2
    ensures Decides(candles, fetchedAt, r)
  {
    var i := |candles| - 1;
    while i > 0
      invariant 0 <= i <= |candles| - 1
      invariant forall k | i <= k < |candles| - 1 :: Quiet(candles[k])
    {
      i := i - 1;
      if Decimal(candles[i].volume).Err? {
        NewestDecides(candles, fetchedAt, i, Err);
        return Err;
      }
      if !Quiet(candles[i]) {
        r := CandleRate(candles[i], fetchedAt);
        NewestDecides(candles, fetchedAt, i, r);
        return;
      }
    }
    r := Err;
  }

  /**
   `parse_kraken_ohlc` on a decoded response; `clean` is false when the response reports errors or a
   negative cursor. A rate comes from the newest traded minute or from nowhere.
   */
  method ParseOhlc(clean: bool, candles: seq<Candle>, fetchedAt: int) returns (r: Result<C.Rate>)
    ensures if clean && 0 <= fetchedAt && 2 <= |candles| <= MAX_CANDLES && Chronological(candles, fetchedAt)
            then Decides(candles, fetchedAt, r) else r.Err?
  {
    if fetchedAt < 0 || !clean || |candles| < 2 || |candles| > MAX_CANDLES {
      return Err;
    }
    var chronological := CheckChronology(candles, fetchedAt);
    if !chronological {
      return Err;
    }
    r := NewestRate(candles, fetchedAt);
  }

  /** A usable candle's rate lies between the lowest and the highest price traded in it, times 10^8. */
  lemma {:induction false} RateWithinCandle(c: Candle, fetchedAt: int)
    requires Usable(c, fetchedAt) && 0 <= c.time <= I64_MAX
    ensures var r := SatsRate(c.vwap, c.time).value;
            && C.Priced(r) && r.observedAt + MINUTE <= fetchedAt
            && Accepted(c.low) && Accepted(c.high)
            && Value(Exact(c.low)) * SATS_PER_BTC as real
               <= Value(Fraction(r.numerator, r.denominator))
               <= Value(Exact(c.high)) * SATS_PER_BTC as real
  {
    DecimalIsExact(c.low);
    DecimalIsExact(c.high);
    DecimalIsExact(c.vwap);
    SatsRateIsExact(c.vwap, c.time);
    var low, high, vwap := Decimal(c.low).value, Decimal(c.high).value, Decimal(c.vwap).value;
    CmpIsOrder(vwap, low);
    CmpIsOrder(vwap, high);
    ValuesAgree(low, Exact(c.low));
    ValuesAgree(high, Exact(c.high));
    ValuesAgree(vwap, Exact(c.vwap));
  }

  // --- What makes a candle usable --------------------------------------------------------------

  /** The number a price text stands for. */
  ghost function Price(text: string): real
    requires Decimal(text).Ok?
  {
    DecimalIsExact(text);
    Value(Exact(text))
  }

  lemma PriceIsValue(text: string)
    requires Decimal(text).Ok?
    ensures Decimal(text).value.den > 0 && Value(Decimal(text).value) == Price(text)
    ensures Decimal(text).value.num > 0 <==> Price(text) > 0.0
    ensures Decimal(text).value.num <= U64_MAX && Decimal(text).value.den <= U64_MAX
  {
    DecimalIsExact(text);
    ValuesAgree(Decimal(text).value, Exact(text));
    PositiveValue(Decimal(text).value);
  }

  lemma PositiveValue(f: Fraction)
    requires f.den > 0
    ensures f.num > 0 <==> Value(f) > 0.0
  {
    CrossMultiply(0.0, 1.0, f.num as real, f.den as real);
  }

  /** Two texts compare as their numbers. */
  lemma PricesCompare(a: string, b: string)
    requires Decimal(a).Ok? && Decimal(b).Ok?
    ensures Cmp(Decimal(a).value, Decimal(b).value)
            == if Price(a) < Price(b) then Less else if Price(a) == Price(b) then Equal else Greater
  {
    PriceIsValue(a);
    PriceIsValue(b);
    CmpIsTheOrderOfValues(Decimal(a).value, Decimal(b).value);
  }

  predicate AllParse(c: Candle) {
    Decimal(c.open).Ok? && Decimal(c.high).Ok? && Decimal(c.low).Ok? && Decimal(c.close).Ok? && Decimal(c.vwap).Ok?
  }

  /** The low is positive, and open, close and average lie between low and high. */
  ghost predicate InRange(c: Candle)
    requires AllParse(c)
  {
    && 0.0 < Price(c.low) <= Price(c.high)
    && Price(c.low) <= Price(c.open) <= Price(c.high) && Price(c.low) <= Price(c.close) <= Price(c.high)
    && Price(c.low) <= Price(c.vwap) <= Price(c.high)
  }

  lemma PricesAreExact(c: Candle)
    requires AllParse(c)
    ensures Priced(c) <==> InRange(c)
  {
    PriceIsValue(c.low);
    PricesCompare(c.low, c.high);
    PricesCompare(c.open, c.low);
    PricesCompare(c.open, c.high);
    PricesCompare(c.close, c.low);
    PricesCompare(c.close, c.high);
    PricesCompare(c.vwap, c.low);
    PricesCompare(c.vwap, c.high);
  }

  lemma TradedIsExact(c: Candle)
    ensures Traded(c) <==> c.count > 0 && Decimal(c.volume).Ok? && Price(c.volume) > 0.0
  {
    if Decimal(c.volume).Ok? {
      PriceIsValue(c.volume);
    }
  }

  /**
   A candle makes the rate if and only if it was traded for a positive volume, a minute has passed since it
   began, its prices agree as numbers, and the average gives a storable rate.
   */
  lemma UsableIsExact(c: Candle, fetchedAt: int)
    ensures Usable(c, fetchedAt) <==>
              && c.count > 0 && Decimal(c.volume).Ok? && Price(c.volume) > 0.0 && c.time + 60 <= fetchedAt
              && AllParse(c) && InRange(c) && SatsRate(c.vwap, c.time).Ok?
  {
    TradedIsExact(c);
    if AllParse(c) {
      PricesAreExact(c);
    }
  }

  /** A quiet minute had no trades and a zero volume; anything else is a traded one, good or bad. */
  lemma QuietIsExact(c: Candle)
    ensures Quiet(c) <==> c.count == 0 && Decimal(c.volume).Ok? && Price(c.volume) == 0.0
  {
    if Decimal(c.volume).Ok? {
      PriceIsValue(c.volume);
      assert Price(c.volume) >= 0.0 by {
        CrossMultiply(Decimal(c.volume).value.num as real, Decimal(c.volume).value.den as real, 0.0, 1.0);
      }
    }
  }

  /** Rows start at whole minutes, in order, none after the fetch; a response holds 2 to 720 of them. */
  lemma ResponseIsExact(candles: seq<Candle>, fetchedAt: int)
    ensures Chronological(candles, fetchedAt) && 2 <= |candles| <= MAX_CANDLES <==>
              && 2 <= |candles| <= 720
              && (forall i | 0 <= i < |candles| :: 0 <= candles[i].time <= fetchedAt && candles[i].time % 60 == 0)
              && (forall i, j | 0 <= i < j < |candles| :: candles[i].time < candles[j].time)
  {
  }

  /** The row that decides is the last one before the unfinished row that is not quiet. */
  lemma NewestIsExact(candles: seq<Candle>, i: nat)
    ensures Newest(candles, i) <==>
              && i + 1 < |candles| && !Quiet(candles[i])
              && forall k | i < k && k + 1 < |candles| :: Quiet(candles[k])
  {
  }
}
