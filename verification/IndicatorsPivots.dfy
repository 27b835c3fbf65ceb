/** Confirmed pivots, and the support and resistance they leave behind. */
module IndicatorsPivots {
  import opened Domain
  import opened Indicators

  function Top(s: seq<real>): real
    requires s != []
  {
    if |s| == 1 then s[0] else Max(Top(s[..|s| - 1]), s[|s| - 1])
  }

  function Bottom(s: seq<real>): real
    requires s != []
  {
    if |s| == 1 then s[0] else Min(Bottom(s[..|s| - 1]), s[|s| - 1])
  }

  lemma {:induction false} TopBounds(s: seq<real>, x: real)
    requires s != []
    ensures x >= Top(s) <==> forall i :: 0 <= i < |s| ==> s[i] <= x
    ensures x <= Bottom(s) <==> forall i :: 0 <= i < |s| ==> x <= s[i]
  {
    if |s| > 1 {
      TopBounds(s[..|s| - 1], x);
      assert forall i :: 0 <= i < |s| - 1 ==> s[..|s| - 1][i] == s[i];
    }
  }

  /** At its last value, the series confirms the value `right` places back as the highest of its neighbourhood. */
  predicate ConfirmsHigh(s: seq<real>, left: nat, right: nat) {
    |s| > left + right && s[|s| - 1 - right] == Top(s[|s| - 1 - right - left..])
  }

  predicate ConfirmsLow(s: seq<real>, left: nat, right: nat) {
    |s| > left + right && s[|s| - 1 - right] == Bottom(s[|s| - 1 - right - left..])
  }

  lemma {:induction false} ConfirmsExact(s: seq<real>, left: nat, right: nat)
    requires |s| > left + right
    ensures ConfirmsHigh(s, left, right) <==> forall i :: |s| - 1 - right - left <= i < |s| ==> s[i] <= s[|s| - 1 - right]
    ensures ConfirmsLow(s, left, right) <==> forall i :: |s| - 1 - right - left <= i < |s| ==> s[|s| - 1 - right] <= s[i]
  {
    var start, at := |s| - 1 - right - left, |s| - 1 - right;
    var window := s[start..];
    TopBounds(window, s[at]);
    TopBounds(window, Top(window));
    TopBounds(window, Bottom(window));
    assert window[left] == s[at];
    assert forall i :: start <= i < |s| ==> s[i] == window[i - start];
  }

  method Pivots(high: seq<real>, low: seq<real>, left: int, right: int) returns (r: Result<(seq<bool>, seq<bool>), Error>)
    ensures left <= 0 || right <= 0 ==> r == Failure(BadPeriod)
    ensures left > 0 && right > 0 && |high| != |low| ==> r == Failure(UnequalLengths)
    ensures left > 0 && right > 0 && |high| == |low| ==>
              r == Success((Causal((p: seq<real>) => ConfirmsHigh(p, left, right), high),
                            Causal((p: seq<real>) => ConfirmsLow(p, left, right), low)))
  {
    hide Causal, Top, Bottom;
    if left <= 0 || right <= 0 {
      return Failure(BadPeriod);
    }
    if |high| != |low| {
      return Failure(UnequalLengths);
    }
    var highs, lows: seq<bool> := [], [];
    NothingYet(high, (p: seq<real>) => ConfirmsHigh(p, left, right));
    NothingYet(low, (p: seq<real>) => ConfirmsLow(p, left, right));
    for confirmed := 0 to |high|
      invariant highs == Causal((p: seq<real>) => ConfirmsHigh(p, left, right), high[..confirmed])
      invariant lows == Causal((p: seq<real>) => ConfirmsLow(p, left, right), low[..confirmed])
    {
      CausalNext((p: seq<real>) => ConfirmsHigh(p, left, right), high, confirmed);
      CausalNext((p: seq<real>) => ConfirmsLow(p, left, right), low, confirmed);
      if confirmed < left + right {
        highs, lows := highs + [false], lows + [false];
      } else {
        var pivot := confirmed - right;
        assert high[..confirmed + 1][pivot - left..] == high[pivot - left..confirmed + 1];
        assert low[..confirmed + 1][pivot - left..] == low[pivot - left..confirmed + 1];
        highs := highs + [high[pivot] == Top(high[pivot - left..confirmed + 1])];
        lows := lows + [low[pivot] == Bottom(low[pivot - left..confirmed + 1])];
      }
    }
    assert high[..|high|] == high && low[..|low|] == low;
    return Success((highs, lows));
  }

  /** The price of the last confirmed high so far. */
  function ResistanceAt(s: seq<real>, left: nat, right: nat): Option<real> {
    if s == [] then None
    else if ConfirmsHigh(s, left, right) then Some(s[|s| - 1 - right])
    else ResistanceAt(s[..|s| - 1], left, right)
  }

  function SupportAt(s: seq<real>, left: nat, right: nat): Option<real> {
    if s == [] then None
    else if ConfirmsLow(s, left, right) then Some(s[|s| - 1 - right])
    else SupportAt(s[..|s| - 1], left, right)
  }

  /** `n` is where the last confirmation happens: none later. */
  ghost predicate LastConfirmed(s: seq<real>, left: nat, right: nat, n: nat) {
    0 < n <= |s| && ConfirmsHigh(s[..n], left, right) && forall m: nat :: n < m <= |s| ==> !ConfirmsHigh(s[..m], left, right)
  }

  /** What resistance is made of: the last confirmation, and the pivot's price there. */
  ghost predicate PivotPrice(s: seq<real>, left: nat, right: nat, n: nat, price: real) {
    LastConfirmed(s, left, right, n) && n > left + right && price == s[n - 1 - right]
  }

  ghost predicate NeverConfirmed(s: seq<real>, left: nat, right: nat) {
    forall n: nat :: n <= |s| ==> !ConfirmsHigh(s[..n], left, right)
  }

  lemma {:induction false} NeverConfirmedStep(s: seq<real>, left: nat, right: nat)
    requires s != []
    ensures NeverConfirmed(s, left, right) <==> NeverConfirmed(s[..|s| - 1], left, right) && !ConfirmsHigh(s, left, right)
  {
    hide ConfirmsHigh;
    var front := s[..|s| - 1];
    assert s[..|s|] == s;
    if NeverConfirmed(s, left, right) {
      forall n: nat | n <= |front| ensures !ConfirmsHigh(front[..n], left, right) {
        assert front[..n] == s[..n];
      }
    } else {
      var n: nat :| n <= |s| && ConfirmsHigh(s[..n], left, right);
      if n < |s| {
        assert front[..n] == s[..n];
      }
    }
  }

  /** Resistance is absent exactly while no pivot is confirmed. */
  lemma {:induction false} ResistanceAbsent(s: seq<real>, left: nat, right: nat)
    ensures ResistanceAt(s, left, right).None? <==> NeverConfirmed(s, left, right)
  {
    hide Top;
    if s != [] {
      hide ConfirmsHigh, NeverConfirmed;
      NeverConfirmedStep(s, left, right);
      ResistanceAbsent(s[..|s| - 1], left, right);
    }
  }

  /** And present, it is the price of the last confirmed pivot. */
  lemma {:induction false} ResistanceIsLastPivot(s: seq<real>, left: nat, right: nat)
    ensures ResistanceAt(s, left, right).Some? ==>
              exists n: nat :: PivotPrice(s, left, right, n, ResistanceAt(s, left, right).value)
  {
    hide Top;
    assert s[..|s|] == s;
    if s != [] && ConfirmsHigh(s, left, right) {
      assert PivotPrice(s, left, right, |s|, ResistanceAt(s, left, right).value);
    } else if s != [] {
      hide ConfirmsHigh;
      var front := s[..|s| - 1];
      ResistanceIsLastPivot(front, left, right);
      if ResistanceAt(front, left, right).Some? {
        var n: nat :| PivotPrice(front, left, right, n, ResistanceAt(front, left, right).value);
        LastKept(s, left, right, n);
        assert PivotPrice(s, left, right, n, ResistanceAt(s, left, right).value);
      }
    }
  }

  lemma {:induction false} LastKept(s: seq<real>, left: nat, right: nat, n: nat)
    requires s != [] && !ConfirmsHigh(s, left, right) && LastConfirmed(s[..|s| - 1], left, right, n)
    ensures LastConfirmed(s, left, right, n)
  {
    hide ConfirmsHigh;
    var front := s[..|s| - 1];
    assert s[..|s|] == s && front[..n] == s[..n];
    forall m: nat | n < m <= |s| ensures !ConfirmsHigh(s[..m], left, right) {
      if m < |s| {
        assert front[..m] == s[..m];
      }
    }
  }

  /** The same of lows. */
  ghost predicate LastLowConfirmed(s: seq<real>, left: nat, right: nat, n: nat) {
    0 < n <= |s| && ConfirmsLow(s[..n], left, right) && forall m: nat :: n < m <= |s| ==> !ConfirmsLow(s[..m], left, right)
  }

  ghost predicate LowPrice(s: seq<real>, left: nat, right: nat, n: nat, price: real) {
    LastLowConfirmed(s, left, right, n) && n > left + right && price == s[n - 1 - right]
  }

  ghost predicate NeverLow(s: seq<real>, left: nat, right: nat) {
    forall n: nat :: n <= |s| ==> !ConfirmsLow(s[..n], left, right)
  }

  lemma {:induction false} NeverLowStep(s: seq<real>, left: nat, right: nat)
    requires s != []
    ensures NeverLow(s, left, right) <==> NeverLow(s[..|s| - 1], left, right) && !ConfirmsLow(s, left, right)
  {
    hide ConfirmsLow;
    var front := s[..|s| - 1];
    assert s[..|s|] == s;
    if NeverLow(s, left, right) {
      forall n: nat | n <= |front| ensures !ConfirmsLow(front[..n], left, right) {
        assert front[..n] == s[..n];
      }
    } else {
      var n: nat :| n <= |s| && ConfirmsLow(s[..n], left, right);
      if n < |s| {
        assert front[..n] == s[..n];
      }
    }
  }

  /** Support is absent exactly while no low is confirmed. */
  lemma {:induction false} SupportAbsent(s: seq<real>, left: nat, right: nat)
    ensures SupportAt(s, left, right).None? <==> NeverLow(s, left, right)
  {
    hide Bottom;
    if s != [] {
      hide ConfirmsLow, NeverLow;
      NeverLowStep(s, left, right);
      SupportAbsent(s[..|s| - 1], left, right);
    }
  }

  /** And present, it is the price of the last confirmed low. */
  lemma {:induction false} SupportIsLastPivot(s: seq<real>, left: nat, right: nat)
    ensures SupportAt(s, left, right).Some? ==>
              exists n: nat :: LowPrice(s, left, right, n, SupportAt(s, left, right).value)
  {
    hide Bottom;
    assert s[..|s|] == s;
    if s != [] && ConfirmsLow(s, left, right) {
      assert LowPrice(s, left, right, |s|, SupportAt(s, left, right).value);
    } else if s != [] {
      hide ConfirmsLow;
      var front := s[..|s| - 1];
      SupportIsLastPivot(front, left, right);
      if SupportAt(front, left, right).Some? {
        var n: nat :| LowPrice(front, left, right, n, SupportAt(front, left, right).value);
        LastLowKept(s, left, right, n);
        assert LowPrice(s, left, right, n, SupportAt(s, left, right).value);
      }
    }
  }

  lemma {:induction false} LastLowKept(s: seq<real>, left: nat, right: nat, n: nat)
    requires s != [] && !ConfirmsLow(s, left, right) && LastLowConfirmed(s[..|s| - 1], left, right, n)
    ensures LastLowConfirmed(s, left, right, n)
  {
    hide ConfirmsLow;
    var front := s[..|s| - 1];
    assert s[..|s|] == s && front[..n] == s[..n];
    forall m: nat | n < m <= |s| ensures !ConfirmsLow(s[..m], left, right) {
      if m < |s| {
        assert front[..m] == s[..m];
      }
    }
  }

  lemma {:induction false} NothingConfirmed(left: nat, right: nat)
    ensures ResistanceAt([], left, right) == None && SupportAt([], left, right) == None
  {
  }

  lemma {:induction false} ResistanceNext(s: seq<real>, left: nat, right: nat, n: nat)
    requires n < |s|
    ensures ConfirmsHigh(s[..n + 1], left, right) ==> n >= right
    ensures ResistanceAt(s[..n + 1], left, right) ==
            if ConfirmsHigh(s[..n + 1], left, right) then Some(s[n - right]) else ResistanceAt(s[..n], left, right)
  {
    hide Top;
    assert s[..n + 1][..n] == s[..n];
  }

  lemma {:induction false} SupportNext(s: seq<real>, left: nat, right: nat, n: nat)
    requires n < |s|
    ensures ConfirmsLow(s[..n + 1], left, right) ==> n >= right
    ensures SupportAt(s[..n + 1], left, right) ==
            if ConfirmsLow(s[..n + 1], left, right) then Some(s[n - right]) else SupportAt(s[..n], left, right)
  {
    hide Bottom;
    assert s[..n + 1][..n] == s[..n];
  }

  method SupportResistance(high: seq<real>, low: seq<real>, left: int, right: int) returns (r: Result<(Line, Line), Error>)
    ensures left <= 0 || right <= 0 ==> r == Failure(BadPeriod)
    ensures left > 0 && right > 0 && |high| != |low| ==> r == Failure(UnequalLengths)
    ensures left > 0 && right > 0 && |high| == |low| ==>
              r == Success((Causal((p: seq<real>) => ResistanceAt(p, left, right), high),
                            Causal((p: seq<real>) => SupportAt(p, left, right), low)))
  {
    hide Causal, ConfirmsHigh, ConfirmsLow, ResistanceAt, SupportAt;
    var pivots := Pivots(high, low, left, right);
    if pivots.Failure? {
      return Failure(pivots.error);
    }
    CausalExact((p: seq<real>) => ConfirmsHigh(p, left, right), high);
    CausalExact((p: seq<real>) => ConfirmsLow(p, left, right), low);
    NothingYet(high, (p: seq<real>) => ResistanceAt(p, left, right));
    NothingYet(low, (p: seq<real>) => SupportAt(p, left, right));
    var resistance, support: Line := [], [];
    var currentHigh, currentLow: Option<real> := None, None;
    NothingConfirmed(left, right);
    for index := 0 to |high|
      invariant resistance == Causal((p: seq<real>) => ResistanceAt(p, left, right), high[..index])
      invariant support == Causal((p: seq<real>) => SupportAt(p, left, right), low[..index])
      invariant currentHigh == ResistanceAt(high[..index], left, right) && currentLow == SupportAt(low[..index], left, right)
    {
      CausalNext((p: seq<real>) => ResistanceAt(p, left, right), high, index);
      CausalNext((p: seq<real>) => SupportAt(p, left, right), low, index);
      ResistanceNext(high, left, right, index);
      SupportNext(low, left, right, index);
      if pivots.value.0[index] {
        currentHigh := Some(high[index - right]);
      }
      if pivots.value.1[index] {
        currentLow := Some(low[index - right]);
      }
      resistance := resistance + [currentHigh];
      support := support + [currentLow];
    }
    assert high[..|high|] == high && low[..|low|] == low;
    return Success((resistance, support));
  }
}
