/** Point-in-time streams: lists built candle by candle, each item stamped with its candle's close. */
module Stream {
  import opened Domain

  /** A series the engine accepts: closed candles of one stream, strictly chronological. */
  predicate Series(c: seq<Candle>) {
    && (forall i :: 0 <= i < |c| ==> c[i].Valid() && c[i].isClosed)
    && (forall i :: 0 <= i < |c| ==> c[i].instrument == c[0].instrument && c[i].timeframe == c[0].timeframe)
    && (forall i, j :: 0 <= i < j < |c| ==> c[i].timestamp < c[j].timestamp)
  }

  lemma {:induction false} SeriesPrefix(c: seq<Candle>, k: nat)
    requires Series(c) && k <= |c|
    ensures Series(c[..k])
  {
  }

  /** Everything emitted by the first `n` candles, in order. */
  function Collect<T>(emit: nat -> seq<T>, n: nat): seq<T> {
    if n == 0 then [] else Collect(emit, n - 1) + emit(n - 1)
  }

  ghost predicate Agree<T>(a: nat -> seq<T>, b: nat -> seq<T>, n: nat) {
    forall i: nat :: i < n ==> a(i) == b(i)
  }

  /** Every item carries the close of the candle that emitted it. */
  ghost predicate Stamped<T(!new)>(emit: nat -> seq<T>, time: T -> int, c: seq<Candle>) {
    forall i: nat, x: T :: i < |c| && x in emit(i) ==> time(x) == c[i].ClosedAt()
  }

  lemma {:induction false} CollectAgree<T>(a: nat -> seq<T>, b: nat -> seq<T>, n: nat)
    requires Agree(a, b, n)
    ensures Collect(a, n) == Collect(b, n)
  {
    if n > 0 {
      CollectAgree(a, b, n - 1);
    }
  }

  lemma {:induction false} CollectGrows<T>(emit: nat -> seq<T>, n: nat, m: nat)
    requires n <= m
    ensures Collect(emit, n) <= Collect(emit, m)
  {
    if n < m {
      CollectGrows(emit, n, m - 1);
    }
  }

  lemma {:induction false} CollectMember<T>(emit: nat -> seq<T>, n: nat, x: T)
    ensures x in Collect(emit, n) <==> exists i: nat :: i < n && x in emit(i)
  {
    if n > 0 {
      CollectMember(emit, n - 1, x);
      if x in emit(n - 1) {
      }
      if i: nat :| i < n && x in emit(i) {
        assert i == n - 1 || i < n - 1;
      }
    }
  }

  lemma {:induction false} CollectedBefore<T(!new)>(emit: nat -> seq<T>, time: T -> int, c: seq<Candle>, n: nat, x: T)
    requires Series(c) && Stamped(emit, time, c) && n <= |c| && x in Collect(emit, n)
    ensures n > 0 && time(x) <= c[n - 1].ClosedAt()
  {
    CollectMember(emit, n, x);
    var i: nat :| i < n && x in emit(i);
  }

  lemma {:induction false} CollectedAfter<T(!new)>(emit: nat -> seq<T>, time: T -> int, c: seq<Candle>, n: nat, m: nat, i: nat)
    requires Series(c) && Stamped(emit, time, c) && n <= m <= |c|
    requires |Collect(emit, n)| <= i < |Collect(emit, m)|
    ensures n < |c| && time(Collect(emit, m)[i]) >= c[n].ClosedAt()
    decreases m
  {
    if n < m {
      if i < |Collect(emit, m - 1)| {
        CollectedAfter(emit, time, c, n, m - 1, i);
      } else {
        var x := Collect(emit, m)[i];
        assert x == emit(m - 1)[i - |Collect(emit, m - 1)|];
        assert x in emit(m - 1);
      }
    }
  }

  /** `a` is the part of `b` already known at `asOf`: a prefix, with every later item stamped later. */
  ghost predicate KnownAt<T>(a: seq<T>, b: seq<T>, time: T -> int, asOf: int) {
    && a <= b
    && (forall i :: 0 <= i < |a| ==> time(b[i]) <= asOf)
    && (forall i :: |a| <= i < |b| ==> time(b[i]) > asOf)
  }

  lemma {:induction false} KnownAtLater<T>(a: seq<T>, b: seq<T>, extra: seq<T>, time: T -> int, asOf: int)
    requires KnownAt(a, b, time, asOf) && forall i :: 0 <= i < |extra| ==> time(extra[i]) > asOf
    ensures KnownAt(a, b + extra, time, asOf)
  {
  }

  lemma {:induction false} KnownAtAll<T>(a: seq<T>, extra: seq<T>, time: T -> int, asOf: int)
    requires KnownAt(a, a, time, asOf) && forall i :: 0 <= i < |extra| ==> time(extra[i]) <= asOf
    ensures KnownAt(a + extra, a + extra, time, asOf)
  {
  }

  /** A stream whose emissions look only at the past is point-in-time. */
  lemma {:induction false} CollectKnownAt<T(!new)>(
    whole: nat -> seq<T>, part: nat -> seq<T>, time: T -> int, c: seq<Candle>, k: nat)
    requires Series(c) && 0 < k <= |c|
    requires Stamped(whole, time, c) && Agree(part, whole, k)
    ensures KnownAt(Collect(part, k), Collect(whole, |c|), time, c[k - 1].ClosedAt())
  {
    CollectAgree(part, whole, k);
    CollectGrows(whole, k, |c|);
    var a, b := Collect(whole, k), Collect(whole, |c|);
    forall i | 0 <= i < |a| ensures time(b[i]) <= c[k - 1].ClosedAt() {
      assert a[i] in a;
      CollectedBefore(whole, time, c, k, a[i]);
    }
    forall i | |a| <= i < |b| ensures time(b[i]) > c[k - 1].ClosedAt() {
      CollectedAfter(whole, time, c, k, |c|, i);
    }
  }

  /** Items stamped strictly before `t`, in order. */
  function Before<T>(s: seq<T>, time: T -> int, t: int): seq<T> {
    if s == [] then []
    else Before(s[..|s| - 1], time, t) + (if time(s[|s| - 1]) < t then [s[|s| - 1]] else [])
  }

  lemma {:induction false} BeforeSplit<T>(a: seq<T>, s: seq<T>, time: T -> int, t: int)
    requires a <= s
    requires forall i :: 0 <= i < |a| ==> time(s[i]) < t
    requires forall i :: |a| <= i < |s| ==> time(s[i]) >= t
    ensures Before(s, time, t) == a
    decreases |s|
  {
    if |a| < |s| {
      BeforeSplit(a, s[..|s| - 1], time, t);
    } else if s != [] {
      BeforeSplit(a[..|a| - 1], s[..|s| - 1], time, t);
    }
  }

  /** At candle `i`, the items stamped before its close are exactly those of the candles before it. */
  lemma {:induction false} BeforeCollect<T(!new)>(emit: nat -> seq<T>, time: T -> int, c: seq<Candle>, m: nat, i: nat)
    requires Series(c) && Stamped(emit, time, c) && i < m <= |c|
    ensures Before(Collect(emit, m), time, c[i].ClosedAt()) == Collect(emit, i)
  {
    var a, s := Collect(emit, i), Collect(emit, m);
    CollectGrows(emit, i, m);
    forall j | 0 <= j < |a| ensures time(s[j]) < c[i].ClosedAt() {
      assert a[j] in a;
      CollectedBefore(emit, time, c, i, a[j]);
    }
    forall j | |a| <= j < |s| ensures time(s[j]) >= c[i].ClosedAt() {
      CollectedAfter(emit, time, c, i, m, j);
    }
    BeforeSplit(a, s, time, c[i].ClosedAt());
  }

  /** Appending nothing but the emission of candle `n`. */
  lemma {:induction false} CollectStep<T>(emit: nat -> seq<T>, n: nat)
    ensures Collect(emit, n + 1) == Collect(emit, n) + emit(n)
  {
  }

  lemma {:induction false} CollectNothing<T>(emit: nat -> seq<T>, n: nat)
    requires forall i: nat :: i < n ==> emit(i) == []
    ensures Collect(emit, n) == []
  {
    if n > 0 {
      CollectNothing(emit, n - 1);
    }
  }

  // ----- first hits -----------------------------------------------------------------------------

  /** `i` is the first candle satisfying `hit`. */
  ghost predicate IsFirst(c: seq<Candle>, hit: Candle -> bool, i: nat) {
    i < |c| && hit(c[i]) && forall j: nat :: j < i ==> !hit(c[j])
  }

  /** `at` is the close of the first of the first `n` candles satisfying `hit`, or nothing when none does. */
  ghost predicate FirstHit(c: seq<Candle>, hit: Candle -> bool, n: nat, at: Option<int>)
    requires n <= |c|
  {
    match at
    case None => forall j: nat :: j < n ==> !hit(c[j])
    case Some(t) => exists i: nat :: i < n && IsFirst(c, hit, i) && t == c[i].ClosedAt()
  }

  /** A first hit is never rewritten by later candles. */
  lemma {:induction false} FirstHitStable(c: seq<Candle>, hit: Candle -> bool, n: nat, m: nat, a: Option<int>, b: Option<int>)
    requires n <= m <= |c| && FirstHit(c, hit, n, a) && FirstHit(c, hit, m, b)
    ensures a.Some? ==> b == a
    ensures b.Some? && a.None? ==> exists i: nat :: n <= i < m && IsFirst(c, hit, i) && b.value == c[i].ClosedAt()
  {
    if a.Some? {
      var i: nat :| i < n && IsFirst(c, hit, i) && a.value == c[i].ClosedAt();
      if b.Some? {
        var j: nat :| j < m && IsFirst(c, hit, j) && b.value == c[j].ClosedAt();
        assert i == j;
      }
    }
  }

  /** One more candle. */
  lemma {:induction false} FirstHitStep(c: seq<Candle>, hit: Candle -> bool, n: nat, a: Option<int>)
    requires n < |c| && FirstHit(c, hit, n, a)
    ensures FirstHit(c, hit, n + 1, if a.None? && hit(c[n]) then Some(c[n].ClosedAt()) else a)
  {
    if a.None? && hit(c[n]) {
      assert IsFirst(c, hit, n);
    } else if a.Some? {
      var i: nat :| i < n && IsFirst(c, hit, i) && a.value == c[i].ClosedAt();
      assert i < n + 1 && IsFirst(c, hit, i);
    }
  }
}
