/** Values shared by every component: optional and failing results, candles, small real arithmetic. */
module Domain {

  datatype Option<+T> = None | Some(value: T)

  datatype Result<+T, +E> = Success(value: T) | Failure(error: E)

  function Min(a: real, b: real): real {
    if a <= b then a else b
  }

  function Max(a: real, b: real): real {
    if a >= b then a else b
  }

  function Abs(a: real): real {
    if a >= 0.0 then a else -a
  }

  function MinInt(a: int, b: int): int {
    if a <= b then a else b
  }

  function MaxInt(a: int, b: int): int {
    if a >= b then a else b
  }

  /** Sum of a sequence, in order. */
  function Sum(s: seq<real>): real {
    if s == [] then 0.0 else Sum(s[..|s| - 1]) + s[|s| - 1]
  }

  /** A candle; `timestamp` is the start of its interval, in seconds. */
  datatype Candle = Candle(
    instrument: int,
    timestamp: int,
    timeframe: int,
    open: real,
    high: real,
    low: real,
    close: real,
    volume: real,
    openInterest: Option<real>,
    isClosed: bool)
  {
    /** What the domain model's own validators demand of every candle that exists. */
    predicate Valid() {
      && timeframe > 0
      && open > 0.0 && high > 0.0 && low > 0.0 && close > 0.0 && volume >= 0.0
      && (openInterest.Some? ==> openInterest.value >= 0.0)
      && high >= Max(open, close)
      && low <= Min(open, close)
      && high >= low
    }

    /** The first instant at which the candle is known. */
    function ClosedAt(): int {
      timestamp + timeframe
    }
  }

  datatype Side = Buy | Sell

  /** Appending one element to a sum. */
  lemma {:induction false} SumAppend(s: seq<real>, x: real)
    ensures Sum(s + [x]) == Sum(s) + x
  {
    assert (s + [x])[..|s|] == s;
  }

  lemma {:induction false} SumConcat(a: seq<real>, b: seq<real>)
    ensures Sum(a + b) == Sum(a) + Sum(b)
  {
    if b == [] {
      assert a + b == a;
    } else {
      var front := b[..|b| - 1];
      assert (a + b)[..|a + b| - 1] == a + front;
      SumConcat(a, front);
    }
  }
}
