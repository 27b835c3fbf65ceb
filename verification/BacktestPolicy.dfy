/** Position sizing for backtests, and the streaks of their results. */
module BacktestPolicy {
  import opened Domain
  import opened Backtest
  import opened RiskEngine

  datatype Policy = Policy(maximumRisk: real, maximumNotional: real)

  datatype Fault = DivisionByZero

  function Denied(reason: RiskReason): Result<RiskResult, Fault> {
    Success(RiskResult(false, 0.0, reason))
  }

  predicate StopInvalid(d: Backtest.Decision, fillPrice: real)
    requires d.stop.Some?
  {
    (d.action == Long && d.stop.value >= fillPrice) || (d.action == Short && d.stop.value <= fillPrice)
  }

  predicate TargetInvalid(d: Backtest.Decision, fillPrice: real) {
    d.targets == [] || (d.action == Long && d.targets[0] <= fillPrice) || (d.action == Short && d.targets[0] >= fillPrice)
  }

  /** The smaller of the risk budget and the notional budget, in whole units. */
  function WholeUnits(policy: Policy, riskFraction: real, equity: real, stopDistance: real, fillPrice: real): int
    requires stopDistance > 0.0 && fillPrice != 0.0
  {
    Min(Units(Share(equity, Min(riskFraction, policy.maximumRisk)), stopDistance),
        Share(equity, policy.maximumNotional) / fillPrice).Floor
  }

  function Size(policy: Policy, d: Backtest.Decision, equity: real, fillPrice: real): Result<RiskResult, Fault> {
    if !d.requiresApproval then Denied(DecisionNotEntry)
    else if d.stop.None? || d.riskFraction <= 0.0 then Denied(InvalidRiskRequest)
    else if StopInvalid(d, fillPrice) then Denied(StopInvalidAtFill)
    else if TargetInvalid(d, fillPrice) then Denied(TargetInvalidAtFill)
    else if Abs(fillPrice - d.stop.value) <= 0.0 then Denied(RiskReason.InvalidStopDistance)
    else if fillPrice == 0.0 then Failure(DivisionByZero)
    else
      var quantity := WholeUnits(policy, d.riskFraction, equity, Abs(fillPrice - d.stop.value), fillPrice);
      if quantity <= 0 then Denied(QuantityBelowOne)
      else Success(RiskResult(true, quantity as real, RiskReason.Approved))
  }

  lemma {:induction false} FloorExact(x: real, n: int)
    ensures n <= x.Floor <==> n as real <= x
  {
  }

  lemma {:induction false} NegativeShare(equity: real, fraction: real)
    requires equity <= 0.0 && fraction > 0.0
    ensures Share(equity, fraction) <= 0.0
  {
  }

  lemma {:induction false} NegativePrice(equity: real, fraction: real, price: real)
    requires equity > 0.0 && fraction > 0.0 && price < 0.0
    ensures Share(equity, fraction) / price < 0.0
  {
    PositiveShare(equity, fraction);
    var q := Share(equity, fraction) / price;
    assert q * price == Share(equity, fraction);
    if q >= 0.0 {
      NotionalLe(0.0, q, -price);
      assert false;
    }
  }

  lemma {:induction false} WholeUnitsExact(policy: Policy, riskFraction: real, equity: real, stopDistance: real, fillPrice: real, n: int)
    requires stopDistance > 0.0 && fillPrice > 0.0
    ensures n <= WholeUnits(policy, riskFraction, equity, stopDistance, fillPrice) <==>
              && Notional(n as real, stopDistance) <= Share(equity, Min(riskFraction, policy.maximumRisk))
              && Notional(n as real, fillPrice) <= Share(equity, policy.maximumNotional)
  {
    hide Notional, Share, Min;
    var risk := Share(equity, Min(riskFraction, policy.maximumRisk));
    UnitsExact(n as real, risk, stopDistance);
    UnitsExact(n as real, Share(equity, policy.maximumNotional), fillPrice);
    FloorOfMin(Units(risk, stopDistance), Units(Share(equity, policy.maximumNotional), fillPrice), n);
  }

  lemma {:induction false} FloorOfMin(a: real, b: real, n: int)
    ensures n <= Min(a, b).Floor <==> n as real <= a && n as real <= b
  {
  }

  lemma {:induction false} WholeUnitsPositive(policy: Policy, riskFraction: real, equity: real, stopDistance: real, fillPrice: real)
    requires policy.maximumRisk > 0.0 && policy.maximumNotional > 0.0 && riskFraction > 0.0
    requires stopDistance > 0.0 && fillPrice != 0.0 && WholeUnits(policy, riskFraction, equity, stopDistance, fillPrice) > 0
    ensures equity > 0.0 && fillPrice > 0.0
  {
    hide Share;
    var risk := Share(equity, Min(riskFraction, policy.maximumRisk));
    UnitsPositive(risk, stopDistance);
    hide Units;
    FloorExact(Min(Units(risk, stopDistance), Share(equity, policy.maximumNotional) / fillPrice), 1);
    if equity <= 0.0 {
      NegativeShare(equity, Min(riskFraction, policy.maximumRisk));
      assert false;
    }
    if fillPrice < 0.0 {
      NegativePrice(equity, policy.maximumNotional, fillPrice);
      assert false;
    }
  }

  /**
   * A sized entry risks at the stop no more than the allowed fraction, costs no more than the allowed notional, has its
   * stop on the losing and its target on the winning side, and is the largest whole quantity that does.
   */
  lemma {:induction false} SizedEntryBounded(policy: Policy, d: Backtest.Decision, equity: real, fillPrice: real, n: int)
    requires policy.maximumRisk > 0.0 && policy.maximumNotional > 0.0 && d.action in {Long, Short}
    requires Size(policy, d, equity, fillPrice).Success? && Size(policy, d, equity, fillPrice).value.approved
    ensures equity > 0.0 && fillPrice > 0.0 && d.stop.Some? && d.targets != []
    ensures if d.action == Long then d.stop.value < fillPrice < d.targets[0] else d.targets[0] < fillPrice < d.stop.value
    ensures Size(policy, d, equity, fillPrice).value.quantity >= 1.0
    ensures n as real <= Size(policy, d, equity, fillPrice).value.quantity <==>
              && Notional(n as real, Abs(fillPrice - d.stop.value)) <= Share(equity, Min(d.riskFraction, policy.maximumRisk))
              && Notional(n as real, fillPrice) <= Share(equity, policy.maximumNotional)
  {
    hide Notional, Share, WholeUnits;
    WholeUnitsPositive(policy, d.riskFraction, equity, Abs(fillPrice - d.stop.value), fillPrice);
    WholeUnitsExact(policy, d.riskFraction, equity, Abs(fillPrice - d.stop.value), fillPrice, n);
  }

  // ----- streaks --------------------------------------------------------------------------------

  predicate Counts(x: real, winning: bool) {
    if winning then x > 0.0 else x < 0.0
  }

  /** The streak that is running after the last result; a result of zero neither extends nor ends it. */
  function Current(s: seq<real>, winning: bool): nat {
    if s == [] then 0
    else
      var before, x := Current(s[..|s| - 1], winning), s[|s| - 1];
      if Counts(x, winning) then before + 1 else if Counts(x, !winning) then 0 else before
  }

  function Longest(s: seq<real>, winning: bool): nat {
    if s == [] then 0
    else
      var before, now := Longest(s[..|s| - 1], winning), Current(s, winning);
      if now > before then now else before
  }

  method CountStreaks(s: seq<real>) returns (wins: nat, losses: nat)
    ensures wins == Longest(s, true) && losses == Longest(s, false)
  {
    wins, losses := 0, 0;
    var currentWins, currentLosses := 0, 0;
    for i := 0 to |s|
      invariant currentWins == Current(s[..i], true) && currentLosses == Current(s[..i], false)
      invariant wins == Longest(s[..i], true) && losses == Longest(s[..i], false)
    {
      assert s[..i + 1][..i] == s[..i];
      if s[i] > 0.0 {
        currentWins, currentLosses := currentWins + 1, 0;
      } else if s[i] < 0.0 {
        currentLosses, currentWins := currentLosses + 1, 0;
      }
      wins := if currentWins > wins then currentWins else wins;
      losses := if currentLosses > losses then currentLosses else losses;
    }
    assert s[..|s|] == s;
  }

  function Tally(s: seq<real>, winning: bool): nat {
    if s == [] then 0 else Tally(s[..|s| - 1], winning) + (if Counts(s[|s| - 1], winning) then 1 else 0)
  }

  ghost predicate Unbroken(s: seq<real>, winning: bool) {
    forall i :: 0 <= i < |s| ==> !Counts(s[i], !winning)
  }

  /** The running streak counts the results since the last one that went the other way. */
  lemma {:induction false} CurrentExact(s: seq<real>, winning: bool, i: nat)
    requires i <= |s|
    ensures Unbroken(s[i..], winning) ==> Tally(s[i..], winning) <= Current(s, winning)
    ensures exists k :: 0 <= k <= |s| && Unbroken(s[k..], winning) && Tally(s[k..], winning) == Current(s, winning)
    decreases |s|
  {
    if s == [] {
      assert s[0..] == [];
      assert Unbroken(s[0..], winning) && Tally(s[0..], winning) == Current(s, winning);
    } else {
      var front, x := s[..|s| - 1], s[|s| - 1];
      if Counts(x, !winning) {
        assert s[|s|..] == [];
        assert Unbroken(s[|s|..], winning) && Tally(s[|s|..], winning) == Current(s, winning);
        if i < |s| {
          assert s[i..][|s| - 1 - i] == x;
        }
      } else {
        CurrentExact(front, winning, if i < |s| then i else 0);
        var k :| 0 <= k <= |front| && Unbroken(front[k..], winning) && Tally(front[k..], winning) == Current(front, winning);
        SuffixTally(s, winning, k);
        assert Unbroken(s[k..], winning) && Tally(s[k..], winning) == Current(s, winning);
        if i < |s| {
          SuffixTally(s, winning, i);
        } else {
          assert s[i..] == [];
        }
      }
    }
  }

  lemma {:induction false} SuffixTally(s: seq<real>, winning: bool, k: nat)
    requires s != [] && k < |s|
    ensures s[k..] == s[..|s| - 1][k..] + [s[|s| - 1]]
    ensures Tally(s[k..], winning) == Tally(s[..|s| - 1][k..], winning) + (if Counts(s[|s| - 1], winning) then 1 else 0)
    ensures !Counts(s[|s| - 1], !winning) ==> (Unbroken(s[k..], winning) <==> Unbroken(s[..|s| - 1][k..], winning))
  {
    var front := s[..|s| - 1];
    assert s[k..] == front[k..] + [s[|s| - 1]];
    assert s[k..][..|s[k..]| - 1] == front[k..];
    assert forall i :: 0 <= i < |front[k..]| ==> s[k..][i] == front[k..][i];
  }

  /** A stretch with `n` results one way and none the other. */
  ghost predicate Stretch(s: seq<real>, winning: bool, k: nat, l: nat, n: nat) {
    k <= l <= |s| && Unbroken(s[k..l], winning) && Tally(s[k..l], winning) == n
  }

  lemma {:induction false} StretchInFront(s: seq<real>, winning: bool, k: nat, l: nat, n: nat, m: nat)
    requires m <= |s| && l <= m
    ensures Stretch(s[..m], winning, k, l, n) <==> Stretch(s, winning, k, l, n)
  {
    hide Unbroken, Tally;
    if k <= l {
      assert s[..m][k..l] == s[k..l];
    }
  }

  lemma {:induction false} StretchToEnd(s: seq<real>, winning: bool, k: nat)
    requires k <= |s| && Unbroken(s[k..], winning)
    ensures Stretch(s, winning, k, |s|, Tally(s[k..], winning))
  {
    hide Unbroken, Tally;
    assert s[k..|s|] == s[k..];
  }

  /** No stretch is longer than the longest streak. */
  lemma {:induction false} LongestBounds(s: seq<real>, winning: bool, i: nat, j: nat, n: nat)
    requires Stretch(s, winning, i, j, n)
    ensures n <= Longest(s, winning)
    decreases |s|
  {
    hide Unbroken, Tally, Current;
    if s == [] {
      EmptyStretch(s, winning, i, j, n);
    } else if j < |s| {
      StretchInFront(s, winning, i, j, n, |s| - 1);
      LongestBounds(s[..|s| - 1], winning, i, j, n);
    } else {
      assert s[i..j] == s[i..];
      CurrentExact(s, winning, i);
    }
  }

  lemma {:induction false} EmptyStretch(s: seq<real>, winning: bool, i: nat, j: nat, n: nat)
    requires s == [] && Stretch(s, winning, i, j, n)
    ensures n == 0
  {
  }

  /** And some stretch is that long. */
  lemma {:induction false} LongestAttained(s: seq<real>, winning: bool)
    ensures exists k: nat, l: nat :: Stretch(s, winning, k, l, Longest(s, winning))
  {
    if s == [] {
      assert s[0..0] == [];
      assert Stretch(s, winning, 0, 0, Longest(s, winning));
    } else {
      hide Unbroken, Tally, Current, Stretch;
      var front := s[..|s| - 1];
      CurrentExact(s, winning, 0);
      LongestAttained(front, winning);
      if Longest(s, winning) == Current(s, winning) {
        var k :| 0 <= k <= |s| && Unbroken(s[k..], winning) && Tally(s[k..], winning) == Current(s, winning);
        StretchToEnd(s, winning, k);
      } else {
        var k: nat, l: nat :| Stretch(front, winning, k, l, Longest(front, winning));
        StretchBounds(front, winning, k, l, Longest(front, winning));
        StretchInFront(s, winning, k, l, Longest(front, winning), |s| - 1);
      }
    }
  }

  lemma {:induction false} StretchBounds(s: seq<real>, winning: bool, k: nat, l: nat, n: nat)
    requires Stretch(s, winning, k, l, n)
    ensures k <= l <= |s|
  {
  }

  /** The longest streak is the most results one way in any stretch with none the other way. */
  lemma {:induction false} LongestExact(s: seq<real>, winning: bool)
    ensures exists k: nat, l: nat :: Stretch(s, winning, k, l, Longest(s, winning))
    ensures forall k: nat, l: nat, n: nat :: Stretch(s, winning, k, l, n) ==> n <= Longest(s, winning)
  {
    hide Stretch, Longest;
    LongestAttained(s, winning);
    forall k: nat, l: nat, n: nat | Stretch(s, winning, k, l, n) ensures n <= Longest(s, winning) {
      LongestBounds(s, winning, k, l, n);
    }
  }
}
