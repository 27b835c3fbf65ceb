/** Option-chain analytics: where open interest hurts its buyers most, and volatility by bisection. */
module Options {
  import opened Domain

  datatype OptionType = Call | Put

  datatype Entry = Entry(
    underlying: int, expiry: int, instrument: int, quoteInstrument: int, quotedAt: int,
    strike: real, kind: OptionType, openInterest: real)
  {
    predicate Valid() {
      strike > 0.0 && openInterest >= 0.0
    }
  }

  datatype Chain = Chain(underlying: int, expiry: int, timestamp: int, entries: seq<Entry>)

  datatype Error = BadChain | NoEntries | NonPositiveInput | OutsideBounds | NotConverged

  predicate Consistent(chain: Chain) {
    forall i :: 0 <= i < |chain.entries| ==>
      && chain.entries[i].underlying == chain.underlying && chain.entries[i].expiry == chain.expiry
      && chain.entries[i].quoteInstrument == chain.entries[i].instrument && chain.entries[i].quotedAt <= chain.timestamp
  }

  // ----- payout at a settlement -----------------------------------------------------------------

  function Intrinsic(kind: OptionType, strike: real, settlement: real): real {
    if kind == Call then Max(settlement - strike, 0.0) else Max(strike - settlement, 0.0)
  }

  /** What an entry's buyers are paid. */
  function Owed(e: Entry, settlement: real): real {
    Intrinsic(e.kind, e.strike, settlement) * e.openInterest
  }

  function Pain(entries: seq<Entry>, settlement: real): real {
    if entries == [] then 0.0 else Pain(entries[..|entries| - 1], settlement) + Owed(entries[|entries| - 1], settlement)
  }

  method PainAt(entries: seq<Entry>, settlement: real) returns (total: real)
    ensures total == Pain(entries, settlement)
  {
    hide Owed;
    total := 0.0;
    for i := 0 to |entries|
      invariant total == Pain(entries[..i], settlement)
    {
      assert entries[..i + 1][..i] == entries[..i];
      total := total + Owed(entries[i], settlement);
    }
    assert entries[..|entries|] == entries;
  }

  // ----- the distinct strikes, in order ---------------------------------------------------------

  ghost predicate StrictlyUp(s: seq<real>) {
    forall i, j :: 0 <= i < j < |s| ==> s[i] < s[j]
  }

  ghost predicate IsStrike(entries: seq<Entry>, x: real) {
    exists i :: 0 <= i < |entries| && entries[i].strike == x
  }

  function Put1(s: seq<real>, x: real): seq<real> {
    if s == [] || s[|s| - 1] < x then s + [x]
    else if s[|s| - 1] == x then s
    else Put1(s[..|s| - 1], x) + [s[|s| - 1]]
  }

  lemma {:induction false} PutBelow(s: seq<real>, x: real, y: real)
    requires (forall i :: 0 <= i < |s| ==> s[i] < y) && x < y
    ensures forall i :: 0 <= i < |Put1(s, x)| ==> Put1(s, x)[i] < y
  {
    if s != [] && s[|s| - 1] > x {
      PutBelow(s[..|s| - 1], x, y);
    }
  }

  lemma {:induction false} PutSorted(s: seq<real>, x: real)
    requires StrictlyUp(s)
    ensures StrictlyUp(Put1(s, x))
  {
    if s != [] && s[|s| - 1] > x {
      PutSorted(s[..|s| - 1], x);
      PutBelow(s[..|s| - 1], x, s[|s| - 1]);
    }
  }

  lemma {:induction false} PutMembers(s: seq<real>, x: real, y: real)
    ensures y in Put1(s, x) <==> y in s || y == x
  {
    if s != [] && s[|s| - 1] > x {
      PutMembers(s[..|s| - 1], x, y);
      assert s == s[..|s| - 1] + [s[|s| - 1]];
    }
  }

  lemma {:induction false} StrikeAppend(entries: seq<Entry>, n: nat, x: real)
    requires n < |entries|
    ensures IsStrike(entries[..n + 1], x) <==> IsStrike(entries[..n], x) || x == entries[n].strike
  {
    var now, before := entries[..n + 1], entries[..n];
    assert forall i :: 0 <= i < n ==> now[i] == before[i];
    assert now[n] == entries[n];
    if IsStrike(before, x) {
      var i :| 0 <= i < n && before[i].strike == x;
      assert now[i].strike == x;
    }
  }

  method Strikes(entries: seq<Entry>) returns (strikes: seq<real>)
    ensures StrictlyUp(strikes) && forall x :: x in strikes <==> IsStrike(entries, x)
  {
    hide IsStrike, Put1;
    strikes := [];
    NoStrikes(entries);
    for n := 0 to |entries|
      invariant StrictlyUp(strikes)
      invariant forall x :: x in strikes <==> IsStrike(entries[..n], x)
    {
      var strike := entries[n].strike;
      PutSorted(strikes, strike);
      forall x ensures x in Put1(strikes, strike) <==> IsStrike(entries[..n + 1], x) {
        PutMembers(strikes, strike, x);
        StrikeAppend(entries, n, x);
      }
      strikes := Put1(strikes, strike);
    }
    assert entries[..|entries|] == entries;
  }

  lemma {:induction false} NoStrikes(entries: seq<Entry>)
    ensures forall x :: !IsStrike(entries[..0], x)
  {
  }

  // ----- the payout is convex between strikes ---------------------------------------------------

  /** No strike lies strictly between `a` and `b`. */
  ghost predicate NoStrikeBetween(entries: seq<Entry>, a: real, b: real) {
    forall i :: 0 <= i < |entries| ==> entries[i].strike <= a || b <= entries[i].strike
  }

  /** `(s, y)` lies on the line through `(a, ya)` and `(b, yb)`. */
  ghost predicate OnLine(a: real, ya: real, s: real, y: real, b: real, yb: real) {
    y * (b - a) == ya * (b - s) + yb * (s - a)
  }

  lemma {:induction false} OnLineStraight(c: real, m: real, a: real, s: real, b: real)
    ensures OnLine(a, c + m * a, s, c + m * s, b, c + m * b)
  {
  }

  lemma {:induction false} OnLineZero(a: real, s: real, b: real)
    ensures OnLine(a, 0.0, s, 0.0, b, 0.0)
  {
  }

  lemma {:induction false} OnLineScaled(a: real, ya: real, s: real, y: real, b: real, yb: real, k: real)
    requires OnLine(a, ya, s, y, b, yb)
    ensures OnLine(a, ya * k, s, y * k, b, yb * k)
  {
    assert (y * k) * (b - a) == (y * (b - a)) * k;
    assert (ya * k) * (b - s) == (ya * (b - s)) * k && (yb * k) * (s - a) == (yb * (s - a)) * k;
  }

  lemma {:induction false} OnLineAdded(a: real, s: real, b: real, ya: real, y: real, yb: real, za: real, z: real, zb: real)
    requires OnLine(a, ya, s, y, b, yb) && OnLine(a, za, s, z, b, zb)
    ensures OnLine(a, ya + za, s, y + z, b, yb + zb)
  {
  }

  lemma {:induction false} IntrinsicLinear(kind: OptionType, strike: real, a: real, s: real, b: real)
    requires a <= s <= b && (strike <= a || b <= strike)
    ensures OnLine(a, Intrinsic(kind, strike, a), s, Intrinsic(kind, strike, s), b, Intrinsic(kind, strike, b))
  {
    hide OnLine;
    if strike <= a && kind == Call {
      OnLineStraight(-strike, 1.0, a, s, b);
    } else if b <= strike && kind == Put {
      OnLineStraight(strike, -1.0, a, s, b);
    } else {
      OnLineZero(a, s, b);
    }
  }

  lemma {:induction false} PainLinear(entries: seq<Entry>, a: real, s: real, b: real)
    requires a <= s <= b && NoStrikeBetween(entries, a, b)
    ensures OnLine(a, Pain(entries, a), s, Pain(entries, s), b, Pain(entries, b))
  {
    hide OnLine, Intrinsic;
    if entries == [] {
      OnLineZero(a, s, b);
    } else {
      var front, e := entries[..|entries| - 1], entries[|entries| - 1];
      PainLinear(front, a, s, b);
      IntrinsicLinear(e.kind, e.strike, a, s, b);
      OnLineScaled(a, Intrinsic(e.kind, e.strike, a), s, Intrinsic(e.kind, e.strike, s), b, Intrinsic(e.kind, e.strike, b), e.openInterest);
      OnLineAdded(a, s, b, Pain(front, a), Pain(front, s), Pain(front, b), Owed(e, a), Owed(e, s), Owed(e, b));
    }
  }

  /** On a line, one end is no higher than the middle. */
  lemma {:induction false} LowerEnd(a: real, ya: real, s: real, y: real, b: real, yb: real)
    requires a <= s <= b && a < b && OnLine(a, ya, s, y, b, yb)
    ensures ya <= y || yb <= y
  {
    WeightedMean(y, ya, b - s, yb, s - a);
  }

  lemma {:induction false} WeightedMean(y: real, ya: real, p: real, yb: real, q: real)
    requires y * (p + q) == ya * p + yb * q && p >= 0.0 && q >= 0.0 && p + q > 0.0
    ensures ya <= y || yb <= y
  {
    var u, v := ya - y, yb - y;
    Expand(ya, y, p);
    Expand(yb, y, q);
    assert y * (p + q) == y * p + y * q;
    assert u * p + v * q == 0.0;
    if u > 0.0 && v > 0.0 {
      NonNegative(u, p);
      NonNegative(v, q);
      if p > 0.0 {
        Positive(u, p);
      } else {
        Positive(v, q);
      }
      assert false;
    }
  }

  lemma {:induction false} Expand(a: real, b: real, k: real)
    ensures (a - b) * k == a * k - b * k
  {
  }

  lemma {:induction false} Positive(a: real, b: real)
    requires a > 0.0 && b > 0.0
    ensures a * b > 0.0
  {
  }

  lemma {:induction false} NonNegative(a: real, b: real)
    requires a >= 0.0 && b >= 0.0
    ensures a * b >= 0.0
  {
  }

  /** Below every strike, or above every one, moving towards them pays the buyers less. */
  lemma {:induction false} OutsidePays(entries: seq<Entry>, s: real, k: real)
    requires forall i :: 0 <= i < |entries| ==> entries[i].Valid()
    requires (s <= k && forall i :: 0 <= i < |entries| ==> k <= entries[i].strike)
          || (k <= s && forall i :: 0 <= i < |entries| ==> entries[i].strike <= k)
    ensures Pain(entries, k) <= Pain(entries, s)
  {
    if entries != [] {
      var front, e := entries[..|entries| - 1], entries[|entries| - 1];
      assert forall i :: 0 <= i < |front| ==> front[i] == entries[i];
      OutsidePays(front, s, k);
      assert Intrinsic(e.kind, e.strike, k) <= Intrinsic(e.kind, e.strike, s);
      OwedLe(e, k, s);
    }
  }

  lemma {:induction false} OwedLe(e: Entry, k: real, s: real)
    requires e.Valid() && Intrinsic(e.kind, e.strike, k) <= Intrinsic(e.kind, e.strike, s)
    ensures Owed(e, k) <= Owed(e, s)
  {
    hide Intrinsic;
    NonNegative(Intrinsic(e.kind, e.strike, s) - Intrinsic(e.kind, e.strike, k), e.openInterest);
  }

  /** How many strikes lie at or below a price. */
  function Below(strikes: seq<real>, s: real): nat {
    if strikes == [] then 0 else if strikes[|strikes| - 1] <= s then |strikes| else Below(strikes[..|strikes| - 1], s)
  }

  lemma {:induction false} BelowExact(strikes: seq<real>, s: real)
    requires StrictlyUp(strikes)
    ensures Below(strikes, s) <= |strikes|
    ensures forall i :: 0 <= i < |strikes| ==> (i < Below(strikes, s) <==> strikes[i] <= s)
  {
    if strikes != [] && strikes[|strikes| - 1] > s {
      BelowExact(strikes[..|strikes| - 1], s);
    }
  }

  /** For every price some listed strike pays the buyers no more. */
  lemma {:induction false} SomeStrikePaysLess(entries: seq<Entry>, strikes: seq<real>, s: real) returns (k: real)
    requires entries != [] && forall i :: 0 <= i < |entries| ==> entries[i].Valid()
    requires StrictlyUp(strikes) && forall x :: x in strikes <==> IsStrike(entries, x)
    ensures k in strikes && Pain(entries, k) <= Pain(entries, s)
  {
    hide Pain, Below;
    BelowExact(strikes, s);
    var n := Below(strikes, s);
    forall i | 0 <= i < |entries| ensures entries[i].strike in strikes {
      assert IsStrike(entries, entries[i].strike);
    }
    assert entries[0].strike in strikes;
    hide IsStrike;
    if n == 0 {
      k := strikes[0];
      OutsidePays(entries, s, k);
    } else if n == |strikes| {
      k := strikes[n - 1];
      OutsidePays(entries, s, k);
    } else {
      var a, b := strikes[n - 1], strikes[n];
      forall i | 0 <= i < |entries| ensures entries[i].strike <= a || b <= entries[i].strike {
        var j :| 0 <= j < |strikes| && strikes[j] == entries[i].strike;
      }
      PainLinear(entries, a, s, b);
      LowerEnd(a, Pain(entries, a), s, Pain(entries, s), b, Pain(entries, b));
      k := if Pain(entries, a) <= Pain(entries, s) then a else b;
    }
  }

  /** The strike of least pain, and of these the lowest. */
  ghost predicate LowestOfLeast(strikes: seq<real>, entries: seq<Entry>, k: real) {
    && k in strikes
    && (forall x :: x in strikes ==> Pain(entries, k) <= Pain(entries, x))
    && (forall x :: x in strikes && Pain(entries, x) == Pain(entries, k) ==> k <= x)
  }

  method LeastPain(strikes: seq<real>, entries: seq<Entry>) returns (best: real)
    requires strikes != [] && StrictlyUp(strikes)
    ensures LowestOfLeast(strikes, entries, best)
  {
    hide Pain;
    best := strikes[0];
    var least := PainAt(entries, best);
    for i := 1 to |strikes|
      invariant best in strikes[..i] && least == Pain(entries, best)
      invariant forall j :: 0 <= j < i ==> least <= Pain(entries, strikes[j])
      invariant forall j :: 0 <= j < i && Pain(entries, strikes[j]) == least ==> best <= strikes[j]
    {
      var pain := PainAt(entries, strikes[i]);
      assert strikes[..i + 1] == strikes[..i] + [strikes[i]];
      if pain < least {
        best, least := strikes[i], pain;
      }
    }
  }

  /**
   * Max pain is global: no price whatever, listed or not, pays the buyers less in total than the returned strike, and it
   * is the lowest strike that pays so little.
   */
  method MaxPain(chain: Chain) returns (r: Result<real, Error>)
    requires forall i :: 0 <= i < |chain.entries| ==> chain.entries[i].Valid()
    ensures !Consistent(chain) ==> r == Failure(BadChain)
    ensures Consistent(chain) && chain.entries == [] ==> r == Failure(NoEntries)
    ensures Consistent(chain) && chain.entries != [] ==>
              && r.Success? && IsStrike(chain.entries, r.value)
              && (forall s: real :: Pain(chain.entries, r.value) <= Pain(chain.entries, s))
              && (forall x :: IsStrike(chain.entries, x) && Pain(chain.entries, x) == Pain(chain.entries, r.value) ==> r.value <= x)
  {
    hide Pain, IsStrike;
    if !Consistent(chain) {
      return Failure(BadChain);
    }
    if |chain.entries| == 0 {
      return Failure(NoEntries);
    }
    var strikes := Strikes(chain.entries);
    FirstStrike(chain.entries);
    assert chain.entries[0].strike in strikes;
    var best := LeastPain(strikes, chain.entries);
    forall s: real ensures Pain(chain.entries, best) <= Pain(chain.entries, s) {
      var k := SomeStrikePaysLess(chain.entries, strikes, s);
    }
    return Success(best);
  }

  lemma {:induction false} FirstStrike(entries: seq<Entry>)
    requires entries != []
    ensures IsStrike(entries, entries[0].strike)
  {
  }

  // ----- volatility by bisection ----------------------------------------------------------------

  const LOW := 0.000001
  const HIGH := 5.0

  /** The model price at a volatility; any function will do. */
  function PriceAt(price: real -> real, volatility: real): real {
    price(volatility)
  }

  /** The market price is bracketed. */
  ghost predicate Bracketed(price: real -> real, market: real, low: real, high: real) {
    low < high && PriceAt(price, low) <= market <= PriceAt(price, high)
  }

  /** Prices move by at most `slope` for each unit of volatility. */
  ghost predicate Lipschitz(price: real -> real, slope: real) {
    forall a: real, b: real :: LOW <= a <= b <= HIGH ==> Abs(PriceAt(price, b) - PriceAt(price, a)) <= slope * (b - a)
  }

  /** The price moves slowly enough for `n` halvings to bring it within the tolerance. */
  ghost predicate SlowEnough(price: real -> real, slope: real, n: nat, tolerance: real) {
    Lipschitz(price, slope) && slope * Width(n) <= tolerance
  }

  /** The width of the bracket after `n` halvings. */
  function Width(n: nat): real {
    if n == 0 then HIGH - LOW else Width(n - 1) / 2.0
  }

  /** At the middle of a bracket the price is off by no more than the slope over half its width. */
  lemma {:induction false} MiddleClose(price: real -> real, market: real, low: real, high: real, slope: real)
    requires LOW <= low && high <= HIGH && Bracketed(price, market, low, high) && Lipschitz(price, slope)
    ensures Abs(PriceAt(price, (low + high) / 2.0) - market) <= slope * ((high - low) / 2.0)
  {
    var middle := (low + high) / 2.0;
    assert middle - low == (high - low) / 2.0 && high - middle == (high - low) / 2.0;
    assert Abs(PriceAt(price, middle) - PriceAt(price, low)) <= slope * (middle - low);
    assert Abs(PriceAt(price, high) - PriceAt(price, middle)) <= slope * (high - middle);
  }

  /**
   * Bisection keeps the market price bracketed, whatever the price function. What it returns is within the tolerance; and
   * when the price moves slowly enough for the number of iterations, it does return.
   */
  method ImpliedVolatility(market: real, price: real -> real, tolerance: real, iterations: int)
    returns (r: Result<real, Error>)
    ensures market <= 0.0 || tolerance <= 0.0 || iterations <= 0 <==> r == Failure(NonPositiveInput)
    ensures market > 0.0 && tolerance > 0.0 && iterations > 0 ==>
              && (r == Failure(OutsideBounds) <==> !(PriceAt(price, LOW) <= market <= PriceAt(price, HIGH)))
              && (r.Success? ==> LOW <= r.value <= HIGH && Abs(PriceAt(price, r.value) - market) <= tolerance)
              && (forall slope: real :: PriceAt(price, LOW) <= market <= PriceAt(price, HIGH) && SlowEnough(price, slope, iterations, tolerance)
                    ==> r.Success?)
  {
    hide SlowEnough, Width, PriceAt;
    if market <= 0.0 || tolerance <= 0.0 || iterations <= 0 {
      return Failure(NonPositiveInput);
    }
    var low, high := LOW, HIGH;
    if !(PriceAt(price, low) <= market <= PriceAt(price, high)) {
      return Failure(OutsideBounds);
    }
    WidthStep(0);
    for n := 0 to iterations
      invariant LOW <= low < high <= HIGH && Bracketed(price, market, low, high)
      invariant high - low == Width(n)
      invariant n > 0 ==> forall slope: real :: !SlowEnough(price, slope, n, tolerance)
    {
      var middle := (low + high) / 2.0;
      WidthStep(n);
      if Abs(PriceAt(price, middle) - market) <= tolerance {
        return Success(middle);
      }
      NeverSlow(price, market, low, high, n, n + 1, tolerance);
      if PriceAt(price, middle) < market {
        low := middle;
      } else {
        high := middle;
      }
    }
    return Failure(NotConverged);
  }

  lemma {:induction false} NeverSlow(price: real -> real, market: real, low: real, high: real, n: nat, m: nat, tolerance: real)
    requires LOW <= low && high <= HIGH && Bracketed(price, market, low, high) && high - low == Width(n) && m == n + 1
    requires Abs(PriceAt(price, (low + high) / 2.0) - market) > tolerance
    ensures forall slope: real :: !SlowEnough(price, slope, m, tolerance)
  {
    hide Lipschitz;
    forall slope: real | SlowEnough(price, slope, m, tolerance) ensures false {
      MiddleClose(price, market, low, high, slope);
    }
  }

  lemma {:induction false} WidthStep(n: nat)
    ensures Width(n + 1) == Width(n) / 2.0 && Width(0) == HIGH - LOW
  {
  }
}
