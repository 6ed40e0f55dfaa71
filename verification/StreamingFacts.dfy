/**
 * Why bounded windows and running sums are enough: how each part of the batch analysis of
 * h + [c] follows from that of h, or from the last few candles.
 */
module StreamingFacts {
  import opened Prelude
  import opened Candles
  import opened BatchAnalysis

  // ------------------------------------------------------------ running series

  lemma {:induction false} ClosesSnoc(h: seq<Candle>, c: Candle)
    ensures Closes(h + [c]) == Closes(h) + [c.close]
  {
  }

  lemma {:induction false} ClosesOfLast(h: seq<Candle>, n: nat)
    ensures Closes(Last(h, n)) == Last(Closes(h), n)
  {
  }

  lemma {:induction false} EmaSeriesSnoc(v: seq<real>, x: real, period: nat)
    requires period > 0
    ensures EmaSeries(v + [x], period)
         == EmaSeries(v, period) + if |v| + 1 < period then [] else [EmaValue(v + [x], period)]
  {
    var w := v + [x];
    if |w| >= period {
      assert w[..|w|] == w;
      forall i | 0 <= i <= |v| - period
        ensures EmaSeries(w, period)[i] == EmaSeries(v, period)[i]
      {
        assert w[..period + i] == v[..period + i];
      }
    }
  }

  lemma {:induction false} DifferencesSnoc(f: seq<real>, s: seq<real>, a: real, b: real, k: nat)
    requires |f| == |s| + k
    ensures Differences((f + [a])[k..], s + [b]) == Differences(f[k..], s) + [a - b]
  {
    assert (f + [a])[k..] == f[k..] + [a];
  }

  /** The aligned MACD series grows by exactly one difference per close from the 26th on. */
  lemma {:induction false} MacdSeriesSnoc(v: seq<real>, x: real)
    ensures |v| + 1 < SLOW ==> MacdSeries(v + [x]) == []
    ensures |v| + 1 >= SLOW ==>
      MacdSeries(v + [x])
      == MacdSeries(v) + [EmaValue(v + [x], FAST) - EmaValue(v + [x], SLOW)]
  {
    if |v| + 1 >= SLOW {
      EmaSeriesSnoc(v, x, FAST);
      EmaSeriesSnoc(v, x, SLOW);
      var a, b := EmaValue(v + [x], FAST), EmaValue(v + [x], SLOW);
      DifferencesSnoc(EmaSeries(v, FAST), EmaSeries(v, SLOW), a, b, SLOW - FAST);
    }
  }

  // --------------------------------------------------------- bounded windows

  lemma {:induction false} RsiWindow(v: seq<real>, n: nat)
    requires n >= PERIOD + 1
    ensures Rsi(Last(v, n)) == Rsi(v)
  {
    if |v| > n {
      var w := Last(v, n);
      assert Changes(w, PERIOD) == Changes(v, PERIOD);
      assert Gains(w, PERIOD) == Gains(v, PERIOD);
      assert Losses(w, PERIOD) == Losses(v, PERIOD);
    }
  }

  lemma {:induction false} PairwiseAt(f: (Candle, Candle) -> real, h: seq<Candle>, i: nat)
    requires i + 1 < |h|
    ensures Pairwise(f, h)[i] == f(h[i], h[i + 1])
  {
  }

  /** The last k values of neighbouring candles need only the last k + 1 candles. */
  lemma {:induction false} PairwiseWindow(f: (Candle, Candle) -> real, h: seq<Candle>, n: nat, k: nat)
    requires k < n
    ensures Last(Pairwise(f, Last(h, n)), k) == Last(Pairwise(f, h), k)
  {
    hide Pairwise;
    if |h| > n {
      var w := Last(h, n);
      var a, b := Last(Pairwise(f, w), k), Last(Pairwise(f, h), k);
      forall i | 0 <= i < k
        ensures a[i] == b[i]
      {
        var p, q := n - 1 - k + i, |h| - 1 - k + i;
        PairwiseAt(f, w, p);
        PairwiseAt(f, h, q);
        assert w[p] == h[q] && w[p + 1] == h[q + 1];
      }
    }
  }

  lemma {:induction false} AtrWindow(h: seq<Candle>, n: nat)
    requires n >= PERIOD + 1
    ensures Atr(Last(h, n)) == Atr(h)
  {
    if |h| > n {
      PairwiseWindow(TrueRange, h, n, PERIOD);
      assert |TrueRanges(Last(h, n))| == n - 1 && |TrueRanges(h)| == |h| - 1;
    }
  }

  lemma {:induction false} AdxWindow(h: seq<Candle>, n: nat)
    requires n >= PERIOD + 2
    ensures Adx(Last(h, n)) == Adx(h)
  {
    PairwiseWindow(TrueRange, h, n, PERIOD);
    PairwiseWindow(PlusMove, h, n, PERIOD);
    PairwiseWindow(MinusMove, h, n, PERIOD);
  }

  lemma {:induction false} SmaWindow(v: seq<real>, n: nat, period: nat)
    requires 0 < period <= n
    ensures Sma(Last(v, n), period) == Sma(v, period)
  {
    LastOfLast(v, n, period);
  }

  lemma {:induction false} VwapWindow(h: seq<Candle>)
    ensures Vwap(Last(h, 20)) == Vwap(h)
    ensures VolumeAverage(Last(h, 20)) == VolumeAverage(h)
  {
    LastOfLast(h, 20, 20);
  }

  lemma {:induction false} BollingerWindow(sqrt: Root, v: seq<real>)
    ensures Bollinger(sqrt, Last(v, 20)) == Bollinger(sqrt, v)
  {
    LastOfLast(v, 20, 20);
  }

  /** Structure, liquidity and regime read no further back than the windows kept for them. */
  lemma {:induction false} CompositeWindows(h: seq<Candle>, trend: TrendResult)
    requires h != []
    ensures AnalyzeStructure(Last(h, 20)) == AnalyzeStructure(h)
    ensures AnalyzeLiquidity(Last(h, 21)) == AnalyzeLiquidity(h)
    ensures ClassifyRegime(Last(h, 20), trend) == ClassifyRegime(h, trend)
  {
    LastOfLast(h, 20, 20);
    LastOfLast(h, 21, 21);
  }

  // ----------------------------------------------------------------- swings

  /** A swing is decided by the candles up to pivot after it; later ones do not matter. */
  lemma {:induction false} HighsStable(h: seq<Candle>, c: Candle, pivot: nat, n: nat)
    requires 0 < pivot && (n <= pivot || n + pivot <= |h|)
    ensures HighsBefore(h + [c], pivot, n) == HighsBefore(h, pivot, n)
  {
    if n > pivot {
      HighsStable(h, c, pivot, n - 1);
      var g := h + [c];
      assert forall j :: 0 <= j < |h| ==> g[j] == h[j];
      assert IsSwingHigh(g, pivot, n - 1) <==> IsSwingHigh(h, pivot, n - 1);
    }
  }

  lemma {:induction false} LowsStable(h: seq<Candle>, c: Candle, pivot: nat, n: nat)
    requires 0 < pivot && (n <= pivot || n + pivot <= |h|)
    ensures LowsBefore(h + [c], pivot, n) == LowsBefore(h, pivot, n)
  {
    if n > pivot {
      LowsStable(h, c, pivot, n - 1);
      var g := h + [c];
      assert forall j :: 0 <= j < |h| ==> g[j] == h[j];
      assert IsSwingLow(g, pivot, n - 1) <==> IsSwingLow(h, pivot, n - 1);
    }
  }

  /** Whether the middle of five candles is a swing is all a new candle can add. */
  lemma {:induction false} SwingsSnoc(h: seq<Candle>, c: Candle)
    ensures |h| + 1 < 5 ==> SwingHighs(h + [c], PIVOT) == SwingHighs(h, PIVOT)
    ensures |h| + 1 < 5 ==> SwingLows(h + [c], PIVOT) == SwingLows(h, PIVOT)
    ensures |h| + 1 >= 5 ==>
      var w, i := Last(h + [c], 5), |h| - 2;
      SwingHighs(h + [c], PIVOT)
      == SwingHighs(h, PIVOT)
         + (if IsSwingHigh(w, PIVOT, 2) then [SwingPoint(HIGH, w[2].timestamp, w[2].high, i)] else [])
      && SwingLows(h + [c], PIVOT)
      == SwingLows(h, PIVOT)
         + if IsSwingLow(w, PIVOT, 2) then [SwingPoint(LOW, w[2].timestamp, w[2].low, i)] else []
  {
    hide IsSwingHigh, IsSwingLow;
    var g := h + [c];
    if |g| >= 5 {
      var w, i := Last(g, 5), |h| - 2;
      HighsStable(h, c, PIVOT, i);
      LowsStable(h, c, PIVOT, i);
      assert Confirmed(g, PIVOT) == i + 1 && Confirmed(h, PIVOT) == i;
      assert forall k :: 0 <= k < 5 ==> w[k] == g[i - 2 + k];
      SwingInWindow(g, w, i);
    }
  }

  lemma {:induction false} SwingInWindow(g: seq<Candle>, w: seq<Candle>, i: nat)
    requires |w| == 5 && 2 <= i && i + 2 < |g|
    requires forall k :: 0 <= k < 5 ==> w[k] == g[i - 2 + k]
    ensures IsSwingHigh(w, PIVOT, 2) <==> IsSwingHigh(g, PIVOT, i)
    ensures IsSwingLow(w, PIVOT, 2) <==> IsSwingLow(g, PIVOT, i)
  {
    assert g[i - 2] == w[0] && g[i - 1] == w[1] && g[i] == w[2] && g[i + 1] == w[3] && g[i + 2] == w[4];
  }
}
