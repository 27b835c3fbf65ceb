/** Robustness checks of a backtest: shuffled trade sequences, drawdowns, and leakage-free folds. */
module MonteCarlo {
  import opened Domain
  import opened Drawdowns

  const MODULUS := 0x1_0000_0000

  // ----- the deterministic shuffle --------------------------------------------------------------

  function NextState(state: int): int {
    (1664525 * state + 1013904223) % MODULUS
  }

  function Swap(s: seq<real>, i: int, j: int): seq<real>
    requires 0 <= i < |s| && 0 <= j < |s|
  {
    s[i := s[j]][j := s[i]]
  }

  /** Fisher-Yates from `index` down, with the generator's state. */
  function ShuffleDown(s: seq<real>, index: int, state: int): (seq<real>, int)
    requires index < |s|
    decreases index
  {
    if index <= 0 then (s, state)
    else
      var next := NextState(state);
      ShuffleDown(Swap(s, index, next % (index + 1)), index - 1, next)
  }

  function Shuffled(s: seq<real>, state: int): (seq<real>, int) {
    if s == [] then (s, state) else ShuffleDown(s, |s| - 1, state)
  }

  lemma {:induction false} SumUpdate(s: seq<real>, i: nat, x: real)
    requires i < |s|
    ensures Sum(s[i := x]) == Sum(s) - s[i] + x
  {
    var n := |s| - 1;
    if i == n {
      assert s[i := x][..n] == s[..n];
    } else {
      SumUpdate(s[..n], i, x);
      assert s[i := x][..n] == s[..n][i := x];
    }
  }

  lemma {:induction false} SwapKeeps(s: seq<real>, i: int, j: int)
    requires 0 <= i < |s| && 0 <= j < |s|
    ensures |Swap(s, i, j)| == |s| && multiset(Swap(s, i, j)) == multiset(s) && Sum(Swap(s, i, j)) == Sum(s)
  {
    SumUpdate(s, i, s[j]);
    SumUpdate(s[i := s[j]], j, s[i]);
  }

  lemma {:induction false} ShuffleDownKeeps(s: seq<real>, index: int, state: int)
    requires index < |s|
    ensures var r := ShuffleDown(s, index, state).0;
            |r| == |s| && multiset(r) == multiset(s) && Sum(r) == Sum(s)
    decreases index
  {
    hide NextState, Swap;
    if index > 0 {
      var next := NextState(state);
      SwapKeeps(s, index, next % (index + 1));
      ShuffleDownKeeps(Swap(s, index, next % (index + 1)), index - 1, next);
    }
  }

  /** For every seed the shuffle is a permutation, so it keeps the total. */
  lemma {:induction false} ShuffleIsPermutation(s: seq<real>, state: int)
    ensures var r := Shuffled(s, state).0;
            |r| == |s| && multiset(r) == multiset(s) && Sum(r) == Sum(s)
  {
    hide ShuffleDown;
    if s != [] {
      ShuffleDownKeeps(s, |s| - 1, state);
    }
  }

  method SwapInPlace(a: array<real>, i: int, j: int)
    requires 0 <= i < a.Length && 0 <= j < a.Length
    modifies a
    ensures a[..] == Swap(old(a[..]), i, j)
  {
    a[i], a[j] := a[j], a[i];
  }

  lemma {:induction false} ShuffleDownStep(s: seq<real>, index: int, state: int)
    requires 0 < index < |s|
    ensures 0 <= NextState(state) % (index + 1) <= index
    ensures ShuffleDown(s, index, state) ==
            ShuffleDown(Swap(s, index, NextState(state) % (index + 1)), index - 1, NextState(state))
  {
    hide NextState, Swap;
  }

  lemma {:induction false} ShuffleDownEnd(s: seq<real>, index: int, state: int)
    requires index < |s| && index <= 0
    ensures ShuffleDown(s, index, state) == (s, state)
  {
  }

  /** The shuffle, swapping in place in a copy. */
  method Shuffle(values: seq<real>, state0: int) returns (result: array<real>, state: int)
    ensures fresh(result) && (result[..], state) == Shuffled(values, state0)
  {
    hide NextState, Swap, ShuffleDown;
    result := new real[|values|](i requires 0 <= i < |values| => values[i]);
    state := state0;
    assert result[..] == values;
    if |values| == 0 {
      return;
    }
    var index := |values| - 1;
    while index > 0
      invariant 0 <= index < |values| == result.Length
      invariant Shuffled(values, state0) == ShuffleDown(result[..], index, state)
    {
      ShuffleDownStep(result[..], index, state);
      state := NextState(state);
      var selected := state % (index + 1);
      SwapInPlace(result, index, selected);
      index := index - 1;
    }
    ShuffleDownEnd(result[..], index, state);
  }

  // ----- one pass of drawdown -------------------------------------------------------------------

  function Peak(path: seq<real>): real
    requires path != []
  {
    if |path| == 1 then path[0] else Max(Peak(path[..|path| - 1]), path[|path| - 1])
  }

  function MaximumDrawdown(path: seq<real>): real {
    if path == [] then 0.0
    else
      var before, peak := MaximumDrawdown(path[..|path| - 1]), Peak(path);
      if peak > 0.0 then Max(before, Fall(peak, path[|path| - 1])) else before
  }

  method ComputeDrawdown(path: seq<real>) returns (maximum: real)
    requires path != []
    ensures maximum == MaximumDrawdown(path)
  {
    hide Fall;
    var peak := path[0];
    maximum := 0.0;
    for i := 0 to |path|
      invariant peak == if i == 0 then path[0] else Peak(path[..i])
      invariant maximum == MaximumDrawdown(path[..i])
    {
      assert path[..i + 1][..i] == path[..i];
      assert i == 0 ==> path[..i + 1] == [path[0]];
      peak := Max(peak, path[i]);
      if peak > 0.0 {
        maximum := Max(maximum, Fall(peak, path[i]));
      }
    }
    assert path[..|path|] == path;
  }

  lemma {:induction false} PeakExact(path: seq<real>)
    requires path != []
    ensures forall i :: 0 <= i < |path| ==> path[i] <= Peak(path)
    ensures exists i :: 0 <= i < |path| && path[i] == Peak(path)
  {
    if |path| > 1 {
      var front := path[..|path| - 1];
      PeakExact(front);
      assert forall i :: 0 <= i < |front| ==> front[i] == path[i];
      var i :| 0 <= i < |front| && front[i] == Peak(front);
      assert path[i] == Peak(front);
      assert path[|path| - 1] == Peak(path) || path[i] == Peak(path);
    } else {
      assert path[0] == Peak(path);
    }
  }

  /** `d` is the largest fall from any earlier positive point to any later one. */
  ghost predicate DeepestFall(path: seq<real>, d: real) {
    && (forall i, j :: 0 <= i <= j < |path| && path[i] > 0.0 ==> Fall(path[i], path[j]) <= d)
    && (d == 0.0 || exists i, j :: FallOf(path, d, i, j))
  }

  ghost predicate FallOf(path: seq<real>, d: real, i: int, j: int) {
    0 <= i <= j < |path| && path[i] > 0.0 && Fall(path[i], path[j]) == d
  }

  /** The fall the one pass looks at when it reaches a point: the one from the highest value so far. */
  ghost predicate PeakFall(path: seq<real>, d: real, j: int) {
    0 <= j < |path| && Peak(path[..j + 1]) > 0.0 && Fall(Peak(path[..j + 1]), path[j]) == d
  }

  /** The one-pass figure is the largest of the falls it looks at, or nothing. */
  lemma {:induction false} PassExact(path: seq<real>)
    ensures MaximumDrawdown(path) >= 0.0
    ensures forall j: nat :: j < |path| && Peak(path[..j + 1]) > 0.0 ==> Fall(Peak(path[..j + 1]), path[j]) <= MaximumDrawdown(path)
    ensures MaximumDrawdown(path) == 0.0 || exists j: nat :: PeakFall(path, MaximumDrawdown(path), j)
  {
    hide Fall, Peak;
    if path != [] {
      var n, d := |path| - 1, MaximumDrawdown(path);
      var front := path[..n];
      PassExact(front);
      assert path[..n + 1] == path;
      forall j: nat | j < n ensures front[..j + 1] == path[..j + 1] && front[j] == path[j] {
      }
      if d != 0.0 && d == MaximumDrawdown(front) {
        var j: nat :| PeakFall(front, d, j);
        assert PeakFall(path, d, j);
      } else if d != 0.0 {
        assert PeakFall(path, d, n);
      }
    }
  }

  /** A fall from the peak is a fall from some point. */
  lemma {:induction false} PeakFallIsFall(path: seq<real>, d: real, j: nat)
    requires PeakFall(path, d, j)
    ensures exists i :: FallOf(path, d, i, j)
  {
    hide Fall, Peak;
    PeakExact(path[..j + 1]);
    var i :| 0 <= i <= j && path[..j + 1][i] == Peak(path[..j + 1]);
    assert FallOf(path, d, i, j);
  }

  /** The fall from the peak to this point is the deepest one ending here. */
  ghost predicate PeakFallDeepest(path: seq<real>, j: nat)
    requires j < |path| && Peak(path[..j + 1]) > 0.0
  {
    forall i :: 0 <= i <= j && path[i] > 0.0 ==> Fall(path[i], path[j]) <= Fall(Peak(path[..j + 1]), path[j])
  }

  /** Nothing positive up to here but the peak itself. */
  ghost predicate OnePositiveLevel(path: seq<real>, j: nat)
    requires j < |path|
  {
    forall i :: 0 <= i <= j && path[i] > 0.0 ==> path[i] == Peak(path[..j + 1])
  }

  /** The one pass looks at the right fall at a point if and only if the point is not below zero or there is only one to look at. */
  lemma {:induction false} PeakFallDeepestExactly(path: seq<real>, j: nat)
    requires j < |path| && Peak(path[..j + 1]) > 0.0
    ensures PeakFallDeepest(path, j) <==> path[j] >= 0.0 || OnePositiveLevel(path, j)
  {
    hide Fall, Peak;
    var peak := Peak(path[..j + 1]);
    PeakExact(path[..j + 1]);
    forall i | 0 <= i <= j && path[i] > 0.0
      ensures path[i] <= peak
      ensures path[j] >= 0.0 ==> Fall(path[i], path[j]) <= Fall(peak, path[j])
      ensures path[j] < 0.0 && path[i] != peak ==> Fall(path[i], path[j]) > Fall(peak, path[j])
    {
      assert path[i] == path[..j + 1][i];
      if path[j] >= 0.0 {
        FallGrows(path[i], peak, path[j]);
      } else if path[i] != peak {
        FallShrinks(path[i], peak, path[j]);
      }
    }
  }

  /** No value below zero comes after a positive one. */
  ghost predicate NeverBelowZero(path: seq<real>) {
    forall i, k :: 0 <= i <= k < |path| && path[i] > 0.0 ==> path[k] >= 0.0
  }

  /** One fall that the pass looks at, to a point with one positive level before it, is as deep as any. */
  ghost predicate DeepestAtOneLevel(path: seq<real>, j: nat) {
    && j < |path| && Peak(path[..j + 1]) > 0.0 && OnePositiveLevel(path, j)
    && forall i, k :: 0 <= i <= k < |path| && path[i] > 0.0 ==> Fall(path[i], path[k]) <= Fall(Peak(path[..j + 1]), path[j])
  }

  /** A point after a positive one has a positive peak before it. */
  lemma {:induction false} PeakPositive(path: seq<real>, i: nat, k: nat)
    requires i <= k < |path| && path[i] > 0.0
    ensures Peak(path[..k + 1]) > 0.0 && path[k] <= Peak(path[..k + 1])
  {
    PeakExact(path[..k + 1]);
    assert path[i] == path[..k + 1][i] && path[k] == path[..k + 1][k];
  }

  lemma {:induction false} DeepestWhenBounded(path: seq<real>)
    requires forall i: nat, k: nat :: i <= k < |path| && path[i] > 0.0 ==> Fall(path[i], path[k]) <= MaximumDrawdown(path)
    ensures DeepestFall(path, MaximumDrawdown(path))
  {
    hide Fall, Peak, PeakFall;
    var d := MaximumDrawdown(path);
    PassExact(path);
    if d != 0.0 {
      var j: nat :| PeakFall(path, d, j);
      PeakFallIsFall(path, d, j);
    }
  }

  lemma {:induction false} DeepestAboveZero(path: seq<real>)
    requires NeverBelowZero(path)
    ensures DeepestFall(path, MaximumDrawdown(path)) && MaximumDrawdown(path) <= 1.0
  {
    hide Fall, Peak, PeakFall, DeepestFall;
    var d := MaximumDrawdown(path);
    PassExact(path);
    forall i: nat, k: nat | i <= k < |path| && path[i] > 0.0 ensures Fall(path[i], path[k]) <= d {
      PeakPositive(path, i, k);
      PeakFallDeepestExactly(path, k);
    }
    DeepestWhenBounded(path);
    if d != 0.0 {
      var j: nat :| PeakFall(path, d, j);
      PeakFallAboveZero(path, d, j);
    }
  }

  lemma {:induction false} PeakFallAboveZero(path: seq<real>, d: real, j: nat)
    requires NeverBelowZero(path) && PeakFall(path, d, j)
    ensures d <= 1.0
  {
    hide Fall, Peak;
    PeakExact(path[..j + 1]);
    var i: nat :| i <= j && path[..j + 1][i] == Peak(path[..j + 1]);
    assert path[i] > 0.0;
    PeakPositive(path, i, j);
    FallRange(Peak(path[..j + 1]), path[j]);
  }

  /** When some positive value is followed by one below zero and the figure is right, it was found with one positive level. */
  lemma {:induction false} FoundAtOneLevel(path: seq<real>)
    requires DeepestFall(path, MaximumDrawdown(path)) && !NeverBelowZero(path)
    ensures exists j: nat :: DeepestAtOneLevel(path, j)
  {
    hide Fall, Peak;
    var d := MaximumDrawdown(path);
    var i: nat, k: nat :| i <= k < |path| && path[i] > 0.0 && path[k] < 0.0;
    FallRange(path[i], path[k]);
    assert d > 1.0;
    PassExact(path);
    var j: nat :| PeakFall(path, d, j);
    PeakExact(path[..j + 1]);
    assert path[j] == path[..j + 1][j];
    FallRange(Peak(path[..j + 1]), path[j]);
    PeakFallDeepestExactly(path, j);
    assert DeepestAtOneLevel(path, j);
  }

  /**
   * On any path, the one-pass figure is the deepest fall of all if and only if nothing falls below zero from above it,
   * or some fall as deep as any ends where everything positive so far stood at one level. It is never negative, and on
   * a path of the first kind no more than one.
   */
  lemma {:induction false} DrawdownExact(path: seq<real>)
    ensures DeepestFall(path, MaximumDrawdown(path)) <==> NeverBelowZero(path) || exists j: nat :: DeepestAtOneLevel(path, j)
    ensures MaximumDrawdown(path) >= 0.0 && (NeverBelowZero(path) ==> MaximumDrawdown(path) <= 1.0)
  {
    hide Fall, Peak, DeepestFall, NeverBelowZero;
    PassExact(path);
    if NeverBelowZero(path) {
      DeepestAboveZero(path);
    } else if j: nat :| DeepestAtOneLevel(path, j) {
      DeepestWhenBounded(path);
    } else if DeepestFall(path, MaximumDrawdown(path)) {
      FoundAtOneLevel(path);
    }
  }

  /** Below zero the one pass misses falls: from 1 to -1 is deeper than from the peak 2 to -1. */
  lemma {:induction false} DrawdownBelowZero()
    ensures MaximumDrawdown([1.0, 2.0, -1.0]) == 1.5 && Fall(1.0, -1.0) == 2.0
    ensures !DeepestFall([1.0, 2.0, -1.0], MaximumDrawdown([1.0, 2.0, -1.0]))
  {
    var path := [1.0, 2.0, -1.0];
    assert path[..2] == [1.0, 2.0] && [1.0, 2.0][..1] == [1.0] && [1.0][..0] == [];
    assert Peak([1.0, 2.0]) == 2.0 && Peak(path) == 2.0;
    assert MaximumDrawdown([1.0]) == 0.0;
    assert MaximumDrawdown([1.0, 2.0]) == 0.0;
    assert Fall(path[0], path[2]) == 2.0;
  }

  // ----- the simulations ------------------------------------------------------------------------

  /** The equity path of a list of results. */
  function PathOf(initial: real, pnls: seq<real>): seq<real> {
    if pnls == [] then [initial]
    else
      var before := PathOf(initial, pnls[..|pnls| - 1]);
      if before == [] then [] else before + [before[|before| - 1] + pnls[|pnls| - 1]]
  }

  lemma {:induction false} PathEnds(initial: real, pnls: seq<real>)
    ensures |PathOf(initial, pnls)| == |pnls| + 1 && PathOf(initial, pnls)[|pnls|] == initial + Sum(pnls)
    ensures forall i :: 0 <= i <= |pnls| ==> PathOf(initial, pnls)[i] == initial + Sum(pnls[..i])
  {
    if pnls == [] {
      assert pnls[..0] == [];
    } else {
      var front := pnls[..|pnls| - 1];
      PathEnds(initial, front);
      assert forall i :: 0 <= i <= |front| ==> front[..i] == pnls[..i];
      assert pnls[..|pnls|] == pnls;
    }
  }

  method BuildPath(initial: real, pnls: seq<real>) returns (path: seq<real>)
    ensures path == PathOf(initial, pnls) && path != []
  {
    path := [initial];
    for i := 0 to |pnls|
      invariant path == PathOf(initial, pnls[..i]) && path != []
    {
      assert pnls[..i + 1][..i] == pnls[..i];
      path := path + [path[|path| - 1] + pnls[i]];
    }
    assert pnls[..|pnls|] == pnls;
  }

  /** The generator's state after `n` simulations. */
  function StateAfter(pnls: seq<real>, state: int, n: nat): int {
    if n == 0 then state else Shuffled(pnls, StateAfter(pnls, state, n - 1)).1
  }

  function PathAt(pnls: seq<real>, initial: real, state: int, n: nat): seq<real> {
    PathOf(initial, Shuffled(pnls, StateAfter(pnls, state, n)).0)
  }

  datatype Summary = Summary(
    medianFinal: real, fifth: real, ninetyFifth: real, medianDrawdown: real, worstDrawdown: real, lossProbability: real)

  datatype Error = NoTrades | NonPositiveInput

  ghost predicate SortedUp(s: seq<real>) {
    forall i, j :: 0 <= i < j < |s| ==> s[i] <= s[j]
  }

  function Placed(s: seq<real>, x: real): seq<real> {
    if s == [] || s[|s| - 1] <= x then s + [x] else Placed(s[..|s| - 1], x) + [s[|s| - 1]]
  }

  ghost predicate NoneAbove(s: seq<real>, y: real) {
    forall i :: 0 <= i < |s| ==> s[i] <= y
  }

  lemma {:induction false} PlacedBounded(s: seq<real>, x: real, y: real)
    requires NoneAbove(s, y) && x <= y
    ensures NoneAbove(Placed(s, x), y)
  {
    if s != [] && s[|s| - 1] > x {
      PlacedBounded(s[..|s| - 1], x, y);
    }
  }

  lemma {:induction false} PlacedKeeps(s: seq<real>, x: real)
    ensures multiset(Placed(s, x)) == multiset(s) + multiset{x} && |Placed(s, x)| == |s| + 1
  {
    if s != [] && s[|s| - 1] > x {
      PlacedKeeps(s[..|s| - 1], x);
      assert s == s[..|s| - 1] + [s[|s| - 1]];
    }
  }

  lemma {:induction false} PlacedSorted(s: seq<real>, x: real)
    requires SortedUp(s)
    ensures SortedUp(Placed(s, x))
  {
    if s != [] && s[|s| - 1] > x {
      PlacedSorted(s[..|s| - 1], x);
      PlacedBounded(s[..|s| - 1], x, s[|s| - 1]);
    }
  }

  method Sort(s: seq<real>) returns (r: seq<real>)
    ensures SortedUp(r) && multiset(r) == multiset(s) && |r| == |s|
  {
    r := [];
    for i := 0 to |s|
      invariant SortedUp(r) && multiset(r) == multiset(s[..i]) && |r| == i
    {
      PlacedSorted(r, s[i]);
      assert s[..i + 1] == s[..i] + [s[i]];
      PlacedKeeps(r, s[i]);
      r := Placed(r, s[i]);
    }
    assert s[..|s|] == s;
  }

  function Median(s: seq<real>): real
    requires s != []
  {
    if |s| % 2 == 1 then s[|s| / 2] else (s[|s| / 2 - 1] + s[|s| / 2]) / 2.0
  }

  function RoundHalfUp(x: real): int {
    (x + 0.5).Floor
  }

  function Percentile(s: seq<real>, p: real): (r: real)
    requires s != [] && 0.0 <= p <= 1.0
    ensures r in s
  {
    PercentileIndex(|s|, p);
    s[RoundHalfUp((|s| - 1) as real * p)]
  }

  lemma {:induction false} PercentileIndex(n: int, p: real)
    requires n > 0 && 0.0 <= p <= 1.0
    ensures 0 <= RoundHalfUp((n - 1) as real * p) < n
  {
    var m := (n - 1) as real;
    PartOf(m, p);
    RoundWithin(m * p, n - 1);
  }

  lemma {:induction false} PartOf(m: real, p: real)
    requires m >= 0.0 && 0.0 <= p <= 1.0
    ensures 0.0 <= m * p <= m
  {
    var rest := 1.0 - p;
    assert m * rest >= 0.0;
    assert m * p == m - m * rest;
  }

  lemma {:induction false} RoundWithin(x: real, m: int)
    requires 0.0 <= x <= m as real
    ensures 0 <= RoundHalfUp(x) <= m
  {
  }

  lemma {:induction false} AllSame(s: seq<real>, r: seq<real>, x: real)
    requires multiset(r) == multiset(s) && |r| == |s| && forall i :: 0 <= i < |s| ==> s[i] == x
    ensures forall i :: 0 <= i < |r| ==> r[i] == x
  {
    forall i | 0 <= i < |r| ensures r[i] == x {
      assert r[i] in multiset(r);
      assert r[i] in s;
    }
  }

  /** The simulated figures, by simulation. */
  method Simulate(pnls: seq<real>, initial: real, simulations: nat, state0: int)
    returns (finals: seq<real>, drawdowns: seq<real>, losing: nat)
    ensures |finals| == |drawdowns| == simulations
    ensures forall k: nat :: k < simulations ==> finals[k] == initial + Sum(pnls)
    ensures forall k: nat :: k < simulations ==> drawdowns[k] == MaximumDrawdown(PathAt(pnls, initial, state0, k))
    ensures losing == if Sum(pnls) < 0.0 then simulations else 0
  {
    hide Shuffled, Sum, MaximumDrawdown, PathOf;
    finals, drawdowns, losing := [], [], 0;
    var state := state0;
    for n := 0 to simulations
      invariant |finals| == |drawdowns| == n && state == StateAfter(pnls, state0, n)
      invariant forall k: nat :: k < n ==> finals[k] == initial + Sum(pnls)
      invariant forall k: nat :: k < n ==> drawdowns[k] == MaximumDrawdown(PathAt(pnls, initial, state0, k))
      invariant losing == if Sum(pnls) < 0.0 then n else 0
    {
      ShuffleIsPermutation(pnls, state);
      var shuffled, next := Shuffle(pnls, state);
      var path := BuildPath(initial, shuffled[..]);
      PathEnds(initial, shuffled[..]);
      var drawdown := ComputeDrawdown(path);
      var final := path[|path| - 1];
      finals := finals + [final];
      drawdowns := drawdowns + [drawdown];
      if final < initial {
        losing := losing + 1;
      }
      state := next;
    }
  }

  /**
   * Shuffling the trades tells nothing about the final equity: its median and both percentiles are the capital plus the
   * total result, and the probability of a loss is zero or one. Only the drawdowns vary, and the worst is one of them.
   */
  method MonteCarloTradeSequences(pnls: seq<real>, initial: real, simulations: int, seed: int) returns (r: Result<Summary, Error>)
    ensures pnls == [] ==> r == Failure(NoTrades)
    ensures pnls != [] && (initial <= 0.0 || simulations <= 0) ==> r == Failure(NonPositiveInput)
    ensures pnls != [] && initial > 0.0 && simulations > 0 ==>
              && r.Success?
              && r.value.medianFinal == r.value.fifth == r.value.ninetyFifth == initial + Sum(pnls)
              && r.value.lossProbability == (if Sum(pnls) < 0.0 then 1.0 else 0.0)
              && (forall k: nat :: k < simulations ==> MaximumDrawdown(PathAt(pnls, initial, seed % MODULUS, k)) <= r.value.worstDrawdown)
              && (exists k: nat :: k < simulations && MaximumDrawdown(PathAt(pnls, initial, seed % MODULUS, k)) == r.value.worstDrawdown)
              && r.value.medianDrawdown <= r.value.worstDrawdown
  {
    hide Sum, MaximumDrawdown, PathAt, StateAfter;
    if |pnls| == 0 {
      return Failure(NoTrades);
    }
    if initial <= 0.0 || simulations <= 0 {
      return Failure(NonPositiveInput);
    }
    var unsortedFinals, unsortedDrawdowns, losing := Simulate(pnls, initial, simulations, seed % MODULUS);
    hide Median, Percentile;
    var finals := Sort(unsortedFinals);
    var drawdowns := Sort(unsortedDrawdowns);
    AllSame(unsortedFinals, finals, initial + Sum(pnls));
    SameStatistics(finals, initial + Sum(pnls));
    WorstIsLast(unsortedDrawdowns, drawdowns);
    var worst := drawdowns[|drawdowns| - 1];
    ghost var k: nat :| k < simulations && unsortedDrawdowns[k] == worst;
    assert MaximumDrawdown(PathAt(pnls, initial, seed % MODULUS, k)) == worst;
    Ratio(losing, simulations);
    return Success(Summary(
      Median(finals), Percentile(finals, 0.05), Percentile(finals, 0.95), Median(drawdowns), worst,
      losing as real / simulations as real));
  }

  lemma {:induction false} Ratio(losing: nat, simulations: nat)
    requires simulations > 0
    ensures losing == simulations ==> losing as real / simulations as real == 1.0
    ensures losing == 0 ==> losing as real / simulations as real == 0.0
  {
  }

  lemma {:induction false} SameStatistics(s: seq<real>, x: real)
    requires s != [] && forall i :: 0 <= i < |s| ==> s[i] == x
    ensures Median(s) == x && Percentile(s, 0.05) == x && Percentile(s, 0.95) == x
  {
    hide Percentile;
    assert Percentile(s, 0.05) in s && Percentile(s, 0.95) in s;
  }

  lemma {:induction false} WorstIsLast(s: seq<real>, r: seq<real>)
    requires SortedUp(r) && multiset(r) == multiset(s) && |r| == |s| > 0
    ensures forall k: nat :: k < |s| ==> s[k] <= r[|r| - 1]
    ensures exists k: nat :: k < |s| && s[k] == r[|r| - 1]
    ensures Median(r) <= r[|r| - 1]
  {
    forall k: nat | k < |s| ensures s[k] <= r[|r| - 1] {
      assert s[k] in multiset(s);
      assert s[k] in r;
    }
    assert r[|r| - 1] in multiset(r);
    assert r[|r| - 1] in s;
  }

  // ----- leakage-free splits --------------------------------------------------------------------

  datatype Fold<T> = Fold(train: seq<T>, validation: seq<T>, test: seq<T>)

  datatype FoldError = BadWindow | BadStep | TooFewValues

  /** The fold that starts `offset` values in. */
  function FoldAt<T>(values: seq<T>, train: int, validation: int, test: int, expanding: bool, offset: int): Fold<T>
    requires 0 <= offset && train > 0 && validation > 0 && test > 0 && offset + train + validation + test <= |values|
  {
    Fold(values[(if expanding then 0 else offset)..offset + train],
         values[offset + train..offset + train + validation],
         values[offset + train + validation..offset + train + validation + test])
  }

  /** Where the k-th fold starts. */
  function Offset(k: int, step: int): int {
    k * step
  }

  lemma {:induction false} OffsetNext(k: int, step: int)
    ensures Offset(k + 1, step) == Offset(k, step) + step && Offset(0, step) == 0
  {
  }

  ghost predicate AreFolds<T>(folds: seq<Fold<T>>, values: seq<T>, train: int, validation: int, test: int, step: int, expanding: bool)
    requires train > 0 && validation > 0 && test > 0
  {
    forall k :: 0 <= k < |folds| ==>
      && 0 <= Offset(k, step) && Offset(k, step) + train + validation + test <= |values|
      && folds[k] == FoldAt(values, train, validation, test, expanding, Offset(k, step))
  }

  lemma {:induction false} AreFoldsNext<T>(
    folds: seq<Fold<T>>, values: seq<T>, train: int, validation: int, test: int, step: int, expanding: bool)
    requires train > 0 && validation > 0 && test > 0 && AreFolds(folds, values, train, validation, test, step, expanding)
    requires 0 <= Offset(|folds|, step) && Offset(|folds|, step) + train + validation + test <= |values|
    ensures AreFolds(folds + [FoldAt(values, train, validation, test, expanding, Offset(|folds|, step))],
                     values, train, validation, test, step, expanding)
  {
    hide Offset, FoldAt;
  }

  /**
   * The folds start at 0, step, 2 * step and so on, as long as a whole fold fits, and at no other place; in each, all of
   * training comes before all of validation and that before all of test, with nothing between.
   */
  method WalkForwardFolds<T>(values: seq<T>, train: int, validation: int, test: int, stepSize: Option<int>, expanding: bool)
    returns (r: Result<seq<Fold<T>>, FoldError>)
    ensures train <= 0 || validation <= 0 || test <= 0 <==> r == Failure(BadWindow)
    ensures train > 0 && validation > 0 && test > 0 ==>
              var step := if stepSize.Some? && stepSize.value != 0 then stepSize.value else test;
              && (step <= 0 <==> r == Failure(BadStep))
              && (step > 0 && train + validation + test > |values| ==> r == Failure(TooFewValues))
              && (step > 0 && train + validation + test <= |values| ==>
                    && r.Success?
                    && |r.value| > 0
                    && Offset(|r.value| - 1, step) + train + validation + test <= |values| < Offset(|r.value|, step) + train + validation + test
                    && AreFolds(r.value, values, train, validation, test, step, expanding))
  {
    hide Offset;
    if train <= 0 || validation <= 0 || test <= 0 {
      return Failure(BadWindow);
    }
    var step := if stepSize.Some? && stepSize.value != 0 then stepSize.value else test;
    if step <= 0 {
      return Failure(BadStep);
    }
    var folds: seq<Fold<T>> := [];
    var offset := 0;
    OffsetNext(0, step);
    while offset + train + validation + test <= |values|
      invariant offset == Offset(|folds|, step) && offset >= 0
      invariant |folds| > 0 ==> Offset(|folds| - 1, step) + train + validation + test <= |values|
      invariant AreFolds(folds, values, train, validation, test, step, expanding)
      decreases |values| - offset
    {
      hide AreFolds, FoldAt;
      AreFoldsNext(folds, values, train, validation, test, step, expanding);
      folds := folds + [FoldAt(values, train, validation, test, expanding, offset)];
      OffsetNext(|folds| - 1, step);
      offset := offset + step;
    }
    if |folds| == 0 {
      return Failure(TooFewValues);
    }
    return Success(folds);
  }

  /** Nothing a fold is tested on was trained or validated on, and, stepping by the test size or more, no observation falls into two test ranges. */
  lemma {:induction false} FoldsLeakNothing<T>(
    values: seq<T>, train: int, validation: int, test: int, expanding: bool, a: int, b: int)
    requires train > 0 && validation > 0 && test > 0 && 0 <= a && a + test <= b && b + train + validation + test <= |values|
    ensures var f, g := FoldAt(values, train, validation, test, expanding, a), FoldAt(values, train, validation, test, expanding, b);
            && f.train + f.validation + f.test == values[(if expanding then 0 else a)..a + train + validation + test]
            && |f.test| == |g.test| == test
            && f.test + values[a + train + validation + test..b + train + validation] + g.test ==
               values[a + train + validation..b + train + validation + test]
  {
  }
}
