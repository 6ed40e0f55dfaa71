/** The largest fall of a P&L path from its peak, and which order of results makes it largest. */
module Drawdown {
  import opened Prelude

  datatype Walk = Walk(equity: real, peak: real, drawdown: real)

  function Fall(peak: real, equity: real): real
    requires peak > 0.0
  {
    (peak - Max(0.0, equity)) / peak * 100.0
  }

  /** One result: equity moves, the peak follows, the deepest fall is kept. */
  function Step(w: Walk, value: real): Walk
    requires w.peak > 0.0
  {
    var equity := w.equity + value;
    var peak := Max(w.peak, equity);
    Walk(equity, peak, Max(w.drawdown, Fall(peak, equity)))
  }

  function Walked(pnl: seq<real>, initial: real): (w: Walk)
    requires initial > 0.0
    ensures w.peak >= initial
  {
    if pnl == [] then Walk(initial, initial, 0.0) else Step(Walked(pnl[..|pnl| - 1], initial), pnl[|pnl| - 1])
  }

  function MaximumDrawdown(pnl: seq<real>, initial: real): real
    requires initial > 0.0
  {
    Walked(pnl, initial).drawdown
  }

  /** The loop that computes it; an initial equity that is not positive raises. */
  method MaximumDrawdownPercent(pnl: seq<real>, initial: real) returns (r: Option<real>)
    ensures r.None? <==> initial <= 0.0
    ensures r.Some? ==> r.value == MaximumDrawdown(pnl, initial)
  {
    if initial <= 0.0 { return None; }
    hide Fall;
    var equity, peak, drawdown := initial, initial, 0.0;
    for i := 0 to |pnl|
      invariant peak >= initial && Walk(equity, peak, drawdown) == Walked(pnl[..i], initial)
    {
      assert pnl[..i + 1][..i] == pnl[..i];
      equity := equity + pnl[i];
      peak := Max(peak, equity);
      drawdown := Max(drawdown, Fall(peak, equity));
    }
    assert pnl[..|pnl|] == pnl;
    return Some(drawdown);
  }

  /** A total over the results of a path. */
  function Total(f: real -> real, pnl: seq<real>): real
  {
    if pnl == [] then 0.0 else Total(f, pnl[..|pnl| - 1]) + f(pnl[|pnl| - 1])
  }

  function Loss(value: real): real { Max(0.0, -value) }

  function Gain(value: real): real { Max(0.0, value) }

  /** The losses of a path, as a positive total. */
  function Losses(pnl: seq<real>): real { Total(Loss, pnl) }

  function Gains(pnl: seq<real>): real { Total(Gain, pnl) }

  /** The most a path with these losses can fall by, whatever the order. */
  function WorstFall(pnl: seq<real>, initial: real): real
    requires initial > 0.0
  {
    Min(Losses(pnl), initial) / initial * 100.0
  }

  // ------------------------------------------------------------------- what it is

  /** The equity after the first k results. */
  function EquityAt(pnl: seq<real>, initial: real, k: nat): real
    requires k <= |pnl|
  {
    initial + Sum(pnl[..k])
  }

  /** From the equity after i results to that after j the path falls by this percentage. */
  ghost predicate FallsBy(pnl: seq<real>, initial: real, i: nat, j: nat, percent: real)
    requires i <= j <= |pnl|
  {
    percent * EquityAt(pnl, initial, i) == 100.0 * (EquityAt(pnl, initial, i) - Max(0.0, EquityAt(pnl, initial, j)))
  }

  /** The peak is the highest equity so far. */
  lemma {:induction false} PeakIsHighest(pnl: seq<real>, initial: real) returns (i: nat)
    requires initial > 0.0
    ensures Walked(pnl, initial).equity == EquityAt(pnl, initial, |pnl|)
    ensures i <= |pnl| && Walked(pnl, initial).peak == EquityAt(pnl, initial, i)
    ensures forall k :: 0 <= k <= |pnl| ==> EquityAt(pnl, initial, k) <= Walked(pnl, initial).peak
  {
    i := 0;
    assert pnl[..|pnl|] == pnl;
    if pnl != [] {
      var init := pnl[..|pnl| - 1];
      var before := PeakIsHighest(init, initial);
      forall k | 0 <= k <= |init| ensures EquityAt(pnl, initial, k) == EquityAt(init, initial, k) {
        assert pnl[..k] == init[..k];
      }
      i := if Walked(pnl, initial).peak == Walked(init, initial).peak then before else |pnl|;
    }
  }

  lemma FallOfPeak(peak: real, equity: real)
    requires peak > 0.0
    ensures Fall(peak, equity) * peak == 100.0 * (peak - Max(0.0, equity))
  {
    var drop := peak - Max(0.0, equity);
    assert drop / peak * peak == drop;
    assert drop / peak * 100.0 * peak == drop / peak * peak * 100.0;
  }

  /** A fall to one equity is deepest from the highest. */
  lemma DeepestFromPeak(peak: real, high: real, equity: real)
    requires 0.0 < high <= peak
    ensures Fall(peak, equity) * high >= 100.0 * (high - Max(0.0, equity))
  {
    var (low, ratio) := (Max(0.0, equity), Fall(peak, equity) / 100.0);
    FallOfPeak(peak, equity);
    assert Fall(peak, equity) <= 100.0 by { FallAtMostAll(Fall(peak, equity), peak, low); }
    Shortened(Fall(peak, equity), peak, high, low);
  }

  lemma FallAtMostAll(fall: real, peak: real, low: real)
    requires peak > 0.0 && low >= 0.0 && fall * peak == 100.0 * (peak - low)
    ensures fall <= 100.0
  {
    NotPositive(fall - 100.0, peak);
  }

  lemma NotPositive(x: real, peak: real)
    requires peak > 0.0 && x * peak <= 0.0
    ensures x <= 0.0
  {
  }

  lemma Shortened(fall: real, peak: real, high: real, low: real)
    requires high <= peak && fall <= 100.0 && fall * peak == 100.0 * (peak - low)
    ensures fall * high >= 100.0 * (high - low)
  {
    assert (100.0 - fall) * (peak - high) >= 0.0;
  }

  /** Up to the last result the equities of a path are those of the shorter one. */
  lemma SameBefore(pnl: seq<real>, initial: real, k: nat)
    requires pnl != [] && k < |pnl|
    ensures EquityAt(pnl, initial, k) == EquityAt(pnl[..|pnl| - 1], initial, k)
  {
    assert pnl[..k] == pnl[..|pnl| - 1][..k];
  }

  /** No fall is deeper than the drawdown. */
  lemma {:induction false} NothingDeeper(pnl: seq<real>, initial: real, i: nat, j: nat)
    requires initial > 0.0 && i <= j <= |pnl| && EquityAt(pnl, initial, i) > 0.0
    ensures MaximumDrawdown(pnl, initial) * EquityAt(pnl, initial, i)
         >= 100.0 * (EquityAt(pnl, initial, i) - Max(0.0, EquityAt(pnl, initial, j)))
  {
    hide Fall, EquityAt, Max;
    var high, now := EquityAt(pnl, initial, i), Walked(pnl, initial);
    if pnl == [] {
      NoFall(initial);
    } else {
      var init := pnl[..|pnl| - 1];
      var before := Walked(init, initial);
      if j == |pnl| {
        var highest := PeakIsHighest(pnl, initial);
        DeepestFromPeak(now.peak, high, now.equity);
        KeepsDeepest(before, pnl[|pnl| - 1]);
        assert now == Step(before, pnl[|pnl| - 1]) && now.equity == EquityAt(pnl, initial, j);
        Deeper(now.drawdown, Fall(now.peak, now.equity), high);
        assert MaximumDrawdown(pnl, initial) * high == now.drawdown * high;
      } else {
        SameBefore(pnl, initial, i);
        SameBefore(pnl, initial, j);
        NothingDeeper(init, initial, i, j);
        KeepsDeepest(before, pnl[|pnl| - 1]);
        Deeper(now.drawdown, before.drawdown, high);
      }
    }
  }

  lemma NoFall(initial: real)
    requires initial > 0.0
    ensures EquityAt([], initial, 0) == initial == Max(0.0, initial)
  {
  }

  lemma KeepsDeepest(w: Walk, value: real)
    requires w.peak > 0.0
    ensures Step(w, value).peak > 0.0 && Step(w, value).drawdown >= w.drawdown
    ensures Step(w, value).drawdown >= Fall(Step(w, value).peak, Step(w, value).equity)
    ensures Step(w, value).drawdown in {w.drawdown, Fall(Step(w, value).peak, Step(w, value).equity)}
  {
    hide Fall;
  }

  /** Some fall is as deep as the drawdown. */
  lemma {:induction false} SomeAsDeep(pnl: seq<real>, initial: real) returns (i: nat, j: nat)
    requires initial > 0.0
    ensures i <= j <= |pnl| && EquityAt(pnl, initial, i) > 0.0
    ensures FallsBy(pnl, initial, i, j, MaximumDrawdown(pnl, initial))
  {
    hide Fall, EquityAt, Max;
    i, j := 0, 0;
    if pnl == [] {
      NoFall(initial);
    } else {
      var init := pnl[..|pnl| - 1];
      var (before, now) := (Walked(init, initial), Walked(pnl, initial));
      KeepsDeepest(before, pnl[|pnl| - 1]);
      if now.drawdown == before.drawdown {
        i, j := SomeAsDeep(init, initial);
        SameBefore(pnl, initial, i);
        SameBefore(pnl, initial, j);
      } else {
        i := PeakIsHighest(pnl, initial);
        j := |pnl|;
        FallOfPeak(now.peak, now.equity);
      }
    }
  }

  /**
   * The drawdown of a path is its deepest fall from any positive equity to any later one: no such fall is
   * deeper, and one is as deep.
   */
  lemma DrawdownIsDeepest(pnl: seq<real>, initial: real)
    requires initial > 0.0
    ensures forall i, j :: 0 <= i <= j <= |pnl| && EquityAt(pnl, initial, i) > 0.0 ==>
      MaximumDrawdown(pnl, initial) * EquityAt(pnl, initial, i)
      >= 100.0 * (EquityAt(pnl, initial, i) - Max(0.0, EquityAt(pnl, initial, j)))
    ensures exists i, j :: 0 <= i <= j <= |pnl| && EquityAt(pnl, initial, i) > 0.0
                           && FallsBy(pnl, initial, i, j, MaximumDrawdown(pnl, initial))
  {
    hide EquityAt, MaximumDrawdown, Max, FallsBy;
    forall i, j | 0 <= i <= j <= |pnl| && EquityAt(pnl, initial, i) > 0.0
      ensures MaximumDrawdown(pnl, initial) * EquityAt(pnl, initial, i)
           >= 100.0 * (EquityAt(pnl, initial, i) - Max(0.0, EquityAt(pnl, initial, j)))
    {
      NothingDeeper(pnl, initial, i, j);
    }
    var i, j := SomeAsDeep(pnl, initial);
  }

  lemma Deeper(a: real, b: real, high: real)
    requires a >= b && high > 0.0
    ensures a * high >= b * high
  {
  }

  // --------------------------------------------------------------------- upper bound

  lemma FallBounded(peak: real, equity: real, losses: real, initial: real)
    requires peak >= initial > 0.0 && losses >= 0.0 && peak - equity <= losses
    ensures Fall(peak, equity) <= Min(losses, initial) / initial * 100.0
  {
    var m := Min(losses, initial);
    var drop := peak - Max(0.0, equity);
    ShareMonotone(drop, peak, m, initial);
  }

  lemma ShareMonotone(drop: real, peak: real, m: real, initial: real)
    requires peak >= initial > 0.0 && 0.0 <= m <= initial
    requires drop <= peak && (drop <= m || m == initial)
    ensures drop / peak <= m / initial
  {
    if m == initial {
      assert m / initial == 1.0;
      Quotient(drop, peak, peak);
    } else {
      Quotient(drop, m, peak);
      assert m / peak <= m / initial by { Larger(m, initial, peak); }
    }
  }

  lemma Quotient(a: real, b: real, d: real)
    requires a <= b && d > 0.0
    ensures a / d <= b / d
  {
    assert (b - a) / d >= 0.0;
  }

  lemma Larger(m: real, small: real, large: real)
    requires m >= 0.0 && 0.0 < small <= large
    ensures m / large <= m / small
  {
    assert m / small * small == m;
    assert m / large * large == m;
    var x, y := m / large, m / small;
    assert x >= 0.0;
    assert x * large >= x * small by { assert x * (large - small) >= 0.0; }
    assert x * small <= y * small;
    assert x > y ==> (x - y) * small > 0.0;
  }

  lemma {:induction false} LossesNonNegative(pnl: seq<real>)
    ensures Losses(pnl) >= 0.0
  {
    if pnl != [] { LossesNonNegative(pnl[..|pnl| - 1]); }
  }

  /** No path ever stands further below its peak than its losses so far. */
  lemma {:induction false} DrawdownBounded(pnl: seq<real>, initial: real)
    requires initial > 0.0
    ensures var w := Walked(pnl, initial);
      && 0.0 <= w.peak - w.equity <= Losses(pnl) && w.drawdown <= WorstFall(pnl, initial)
  {
    hide Fall;
    if pnl == [] {
      assert Min(0.0, initial) / initial * 100.0 == 0.0;
    } else {
      var init, last := pnl[..|pnl| - 1], pnl[|pnl| - 1];
      DrawdownBounded(init, initial);
      LossesNonNegative(init);
      var w := Walked(pnl, initial);
      FallBounded(w.peak, w.equity, Losses(pnl), initial);
      Quotient(Min(Losses(init), initial), Min(Losses(pnl), initial), initial);
    }
  }

  // ------------------------------------------------------------------ worst first

  ghost predicate Ascending(pnl: seq<real>)
  {
    forall i, j :: 0 <= i < j < |pnl| ==> pnl[i] <= pnl[j]
  }

  /** With all losses first, the path falls from the start by everything that can be lost. */
  lemma {:induction false} LossesFirstAttain(pnl: seq<real>, initial: real, k: nat)
    requires initial > 0.0 && k <= |pnl|
    requires forall i :: 0 <= i < k ==> pnl[i] < 0.0
    requires forall i :: k <= i < |pnl| ==> pnl[i] >= 0.0
    ensures MaximumDrawdown(pnl, initial) == WorstFall(pnl, initial)
  {
    DrawdownBounded(pnl, initial);
    AllLosses(pnl[..k], initial);
    assert pnl[..k] + pnl[k..] == pnl;
    GainsKeep(pnl[..k], pnl[k..], initial);
  }

  lemma {:induction false} AllLosses(pnl: seq<real>, initial: real)
    requires initial > 0.0 && forall i :: 0 <= i < |pnl| ==> pnl[i] < 0.0
    ensures var w := Walked(pnl, initial);
      && w.peak == initial && w.equity == initial - Losses(pnl) && w.drawdown >= WorstFall(pnl, initial)
  {
    if pnl == [] {
      assert Min(0.0, initial) / initial * 100.0 == 0.0;
    } else {
      AllLosses(pnl[..|pnl| - 1], initial);
      LossesNonNegative(pnl[..|pnl| - 1]);
    }
  }

  /** Gains neither add to the losses nor undo a drawdown already seen. */
  lemma {:induction false} GainsKeep(pnl: seq<real>, gains: seq<real>, initial: real)
    requires initial > 0.0 && forall i :: 0 <= i < |gains| ==> gains[i] >= 0.0
    ensures Losses(pnl + gains) == Losses(pnl)
    ensures MaximumDrawdown(pnl + gains, initial) >= MaximumDrawdown(pnl, initial)
  {
    hide Fall;
    if gains == [] {
      assert pnl + gains == pnl;
    } else {
      GainsKeep(pnl, gains[..|gains| - 1], initial);
      assert (pnl + gains)[..|pnl + gains| - 1] == pnl + gains[..|gains| - 1];
    }
  }

  // -------------------------------------------------------------- sampling orders

  datatype Mode = WORST_FIRST | LOSS_CLUSTER | WIN_CLUSTER

  /** The sort key order of each mode: values, gains after losses, or losses after gains. */
  predicate Before(mode: Mode, a: real, b: real)
  {
    match mode
    case WORST_FIRST => a <= b
    case LOSS_CLUSTER => (a < 0.0 && b >= 0.0) || ((a >= 0.0 <==> b >= 0.0) && a <= b)
    case WIN_CLUSTER => (a >= 0.0 && b < 0.0) || ((a < 0.0 <==> b < 0.0) && a >= b)
  }

  /** Stable insertion. */
  function Insert(mode: Mode, s: seq<real>, x: real): seq<real>
  {
    if s == [] || Before(mode, s[|s| - 1], x) then s + [x] else Insert(mode, s[..|s| - 1], x) + [s[|s| - 1]]
  }

  function SamplePath(mode: Mode, pnl: seq<real>): seq<real>
  {
    if pnl == [] then [] else Insert(mode, SamplePath(mode, pnl[..|pnl| - 1]), pnl[|pnl| - 1])
  }

  lemma {:induction false} InsertKeeps(mode: Mode, s: seq<real>, x: real)
    ensures multiset(Insert(mode, s, x)) == multiset(s) + multiset{x}
    ensures forall v :: v in Insert(mode, s, x) <==> v in s || v == x
  {
    if s != [] {
      assert s == s[..|s| - 1] + [s[|s| - 1]];
      if !Before(mode, s[|s| - 1], x) { InsertKeeps(mode, s[..|s| - 1], x); }
    }
  }

  /** Every mode only reorders the results. */
  lemma {:induction false} SampleKeeps(mode: Mode, pnl: seq<real>)
    ensures multiset(SamplePath(mode, pnl)) == multiset(pnl)
  {
    if pnl != [] {
      SampleKeeps(mode, pnl[..|pnl| - 1]);
      InsertKeeps(mode, SamplePath(mode, pnl[..|pnl| - 1]), pnl[|pnl| - 1]);
      assert pnl == pnl[..|pnl| - 1] + [pnl[|pnl| - 1]];
    }
  }

  lemma {:induction false} InsertSorts(s: seq<real>, x: real)
    requires Ascending(s)
    ensures Ascending(Insert(WORST_FIRST, s, x))
  {
    if s != [] && s[|s| - 1] > x {
      var init, last := s[..|s| - 1], s[|s| - 1];
      InsertSorts(init, x);
      InsertKeeps(WORST_FIRST, init, x);
      var r := Insert(WORST_FIRST, init, x);
      forall i | 0 <= i < |r| ensures r[i] <= last {
        assert r[i] in r;
      }
    }
  }

  lemma {:induction false} SampleSorts(pnl: seq<real>)
    ensures Ascending(SamplePath(WORST_FIRST, pnl))
  {
    if pnl != [] {
      SampleSorts(pnl[..|pnl| - 1]);
      InsertSorts(SamplePath(WORST_FIRST, pnl[..|pnl| - 1]), pnl[|pnl| - 1]);
    }
  }

  lemma {:induction false} ClusterInserts(s: seq<real>, x: real)
    ensures Insert(LOSS_CLUSTER, s, x) == Insert(WORST_FIRST, s, x)
  {
    if s != [] { ClusterInserts(s[..|s| - 1], x); }
  }

  /** Clustering the losses gives the very same path. */
  lemma {:induction false} LossClusterIsWorstFirst(pnl: seq<real>)
    ensures SamplePath(LOSS_CLUSTER, pnl) == SamplePath(WORST_FIRST, pnl)
  {
    if pnl != [] {
      LossClusterIsWorstFirst(pnl[..|pnl| - 1]);
      ClusterInserts(SamplePath(WORST_FIRST, pnl[..|pnl| - 1]), pnl[|pnl| - 1]);
    }
  }

  lemma {:induction false} TotalConcat(f: real -> real, a: seq<real>, b: seq<real>)
    ensures Total(f, a + b) == Total(f, a) + Total(f, b)
  {
    if b == [] {
      assert a + b == a;
    } else {
      TotalConcat(f, a, b[..|b| - 1]);
      assert (a + b)[..|a + b| - 1] == a + b[..|b| - 1];
    }
  }

  lemma {:induction false} TotalOfPermutation(f: real -> real, a: seq<real>, b: seq<real>)
    requires multiset(a) == multiset(b)
    ensures Total(f, a) == Total(f, b)
  {
    if a == [] {
      assert |multiset(b)| == |b| && |multiset(a)| == |a|;
    } else {
      var init, x := a[..|a| - 1], a[|a| - 1];
      assert a == init + [x];
      var (l, r) := Around(b, x);
      TotalOfPermutation(f, init, l + r);
      TotalConcat(f, init, [x]);
      TotalConcat(f, l + [x], r);
      TotalConcat(f, l, [x]);
      TotalConcat(f, l, r);
    }
  }

  /** How many of an ascending path's results are losses. */
  function LossCount(pnl: seq<real>): (k: nat)
    requires Ascending(pnl)
    ensures k <= |pnl| && (forall i :: 0 <= i < k ==> pnl[i] < 0.0) && forall i :: k <= i < |pnl| ==> pnl[i] >= 0.0
  {
    if pnl == [] then 0
    else if pnl[|pnl| - 1] < 0.0 then |pnl| else LossCount(pnl[..|pnl| - 1])
  }

  /**
   * Worst first is the worst order there is: no permutation of the results draws down further, and
   * what it reaches is what can be lost, as a share of the initial equity.
   */
  lemma WorstFirstIsWorst(pnl: seq<real>, order: seq<real>, initial: real)
    requires initial > 0.0 && multiset(order) == multiset(pnl)
    ensures MaximumDrawdown(order, initial) <= MaximumDrawdown(SamplePath(WORST_FIRST, pnl), initial)
    ensures MaximumDrawdown(SamplePath(WORST_FIRST, pnl), initial) == WorstFall(pnl, initial)
    ensures MaximumDrawdown(SamplePath(LOSS_CLUSTER, pnl), initial) == WorstFall(pnl, initial)
  {
    hide Total, Walked;
    var sorted := SamplePath(WORST_FIRST, pnl);
    SampleSorts(pnl);
    SampleKeeps(WORST_FIRST, pnl);
    LossesFirstAttain(sorted, initial, LossCount(sorted));
    TotalOfPermutation(Loss, sorted, pnl);
    TotalOfPermutation(Loss, order, pnl);
    DrawdownBounded(order, initial);
    LossClusterIsWorstFirst(pnl);
  }

  // -------------------------------------------------------------- gains clustered

  ghost predicate WinsFirst(pnl: seq<real>)
  {
    forall i, j :: 0 <= i < j < |pnl| && pnl[i] < 0.0 ==> pnl[j] < 0.0
  }

  lemma {:induction false} InsertWinsFirst(s: seq<real>, x: real)
    requires WinsFirst(s)
    ensures WinsFirst(Insert(WIN_CLUSTER, s, x))
  {
    if s != [] && !Before(WIN_CLUSTER, s[|s| - 1], x) {
      var init, last := s[..|s| - 1], s[|s| - 1];
      InsertWinsFirst(init, x);
      InsertKeeps(WIN_CLUSTER, init, x);
      var r := Insert(WIN_CLUSTER, init, x);
      forall i | 0 <= i < |r| && r[i] < 0.0 ensures last < 0.0 {
        assert r[i] in r;
      }
    }
  }

  lemma {:induction false} SampleWinsFirst(pnl: seq<real>)
    ensures WinsFirst(SamplePath(WIN_CLUSTER, pnl))
  {
    if pnl != [] {
      SampleWinsFirst(pnl[..|pnl| - 1]);
      InsertWinsFirst(SamplePath(WIN_CLUSTER, pnl[..|pnl| - 1]), pnl[|pnl| - 1]);
    }
  }

  lemma {:induction false} OnlyGains(pnl: seq<real>)
    requires forall i :: 0 <= i < |pnl| ==> pnl[i] >= 0.0
    ensures Losses(pnl) == 0.0
  {
    if pnl != [] { OnlyGains(pnl[..|pnl| - 1]); }
  }

  /** What losing this much from a peak amounts to. */
  function FallFrom(peak: real, losses: real): real
    requires peak > 0.0
  {
    Min(losses, peak) / peak * 100.0
  }

  lemma FallIs(peak: real, losses: real, more: real)
    requires peak > 0.0 && 0.0 <= losses <= more
    ensures Fall(peak, peak - losses) == FallFrom(peak, losses) <= FallFrom(peak, more)
    ensures FallFrom(peak, 0.0) == 0.0
  {
    Quotient(Min(losses, peak), Min(more, peak), peak);
  }

  /** Gains lift the peak first, and the losses are then taken from it. */
  lemma {:induction false} WinsFirstWalk(pnl: seq<real>, initial: real)
    requires initial > 0.0 && WinsFirst(pnl)
    ensures var (w, peak) := (Walked(pnl, initial), initial + Gains(pnl));
      && w.peak == peak >= initial && w.equity == peak - Losses(pnl)
      && w.drawdown == FallFrom(peak, Losses(pnl))
  {
    hide Fall, FallFrom;
    FallIs(initial, 0.0, 0.0);
    if pnl != [] {
      var init, last := pnl[..|pnl| - 1], pnl[|pnl| - 1];
      WinsFirstWalk(init, initial);
      LossesNonNegative(init);
      var peak := initial + Gains(pnl);
      if last >= 0.0 {
        OnlyGains(init);
        FallIs(peak, 0.0, 0.0);
        FallIs(initial + Gains(init), 0.0, 0.0);
      } else {
        FallIs(peak, Losses(init), Losses(pnl));
        FallIs(peak, Losses(pnl), Losses(pnl));
      }
    }
  }

  /**
   * With the gains clustered first the path falls from its final peak, the initial equity with all
   * gains added, by everything that is lost; never further than worst first.
   */
  lemma WinClusterFallsFromThePeak(pnl: seq<real>, initial: real)
    requires initial > 0.0
    ensures var peak := initial + Gains(pnl);
      && peak >= initial
      && MaximumDrawdown(SamplePath(WIN_CLUSTER, pnl), initial) == FallFrom(peak, Losses(pnl))
      && MaximumDrawdown(SamplePath(WIN_CLUSTER, pnl), initial)
         <= MaximumDrawdown(SamplePath(WORST_FIRST, pnl), initial)
  {
    hide Total, Walked, FallFrom;
    var order := SamplePath(WIN_CLUSTER, pnl);
    SampleKeeps(WIN_CLUSTER, pnl);
    SampleWinsFirst(pnl);
    WinsFirstWalk(order, initial);
    TotalOfPermutation(Loss, order, pnl);
    TotalOfPermutation(Gain, order, pnl);
    WorstFirstIsWorst(pnl, order, initial);
  }
}
