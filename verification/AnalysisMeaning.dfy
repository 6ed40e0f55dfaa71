/**
 * What every part of a market snapshot says about the candles, without the functions that compute it:
 * averages as weighted sums over indexes, the structure by the latest swings, the scores by their points.
 */
module AnalysisMeaning {
  import opened Prelude
  import opened Candles
  import opened BatchAnalysis

  // ------------------------------------------------------------------ sums over indexes

  /** The total of count values from one place on. */
  ghost function Over(s: seq<real>, from: nat, count: nat): real
    requires from + count <= |s|
  {
    if count == 0 then 0.0 else Over(s, from, count - 1) + s[from + count - 1]
  }

  /** The total of the last n values. */
  ghost function Latest(s: seq<real>, n: nat): real
    requires n <= |s|
  {
    Over(s, |s| - n, n)
  }

  lemma {:induction false} SumOver(part: seq<real>, s: seq<real>, from: nat)
    requires from + |part| <= |s| && forall i {:trigger part[i]} :: 0 <= i < |part| ==> part[i] == s[from + i]
    ensures Sum(part) == Over(s, from, |part|)
  {
    if part != [] { SumOver(part[..|part| - 1], s, from); }
  }

  function Times(a: real, b: real): real { a * b }

  lemma TimesRules(q: real, x: real, y: real)
    ensures Times(q, x + y) == Times(q, x) + Times(q, y) && Times(q, 0.0) == 0.0
    ensures Times(x, y) == Times(y, x)
  {
  }

  lemma {:induction false} OverScaled(s: seq<real>, t: seq<real>, q: real, from: nat, count: nat)
    requires from + count <= |s| && from + count <= |t|
    requires forall i {:trigger s[i]} :: from <= i < from + count ==> s[i] == Times(q, t[i])
    ensures Over(s, from, count) == Times(q, Over(t, from, count))
  {
    hide Times;
    if count > 0 {
      OverScaled(s, t, q, from, count - 1);
      TimesRules(q, Over(t, from, count - 1), t[from + count - 1]);
    } else {
      TimesRules(q, 0.0, 0.0);
    }
  }

  lemma {:induction false} OverAdded(s: seq<real>, t: seq<real>, sum: seq<real>, from: nat, count: nat)
    requires from + count <= |s| && from + count <= |t| && from + count <= |sum|
    requires forall i {:trigger sum[i]} :: from <= i < from + count ==> sum[i] == s[i] + t[i]
    ensures Over(sum, from, count) == Over(s, from, count) + Over(t, from, count)
  {
    if count > 0 { OverAdded(s, t, sum, from, count - 1); }
  }

  ghost function CloseOf(h: seq<Candle>): (r: seq<real>)
    ensures |r| == |h|
  {
    seq(|h|, i requires 0 <= i < |h| => h[i].close)
  }

  ghost function VolumeOf(h: seq<Candle>): (r: seq<real>)
    ensures |r| == |h|
  {
    seq(|h|, i requires 0 <= i < |h| => h[i].volume)
  }

  /** The last closes, and their sum. */
  lemma LastClosesOver(h: seq<Candle>, n: nat)
    requires n <= |h|
    ensures Sum(Last(Closes(h), n)) == Latest(CloseOf(h), n)
  {
    SumOver(Last(Closes(h), n), CloseOf(h), |h| - n);
  }

  lemma LastVolumesOver(h: seq<Candle>, n: nat)
    requires n <= |h|
    ensures Sum(Volumes(Last(h, n))) == Latest(VolumeOf(h), n)
  {
    SumOver(Volumes(Last(h, n)), VolumeOf(h), |h| - n);
  }

  // ----------------------------------------------------------------- plain averages

  lemma MeanOf(h: seq<Candle>, n: nat)
    requires n > 0
    ensures Sma(Closes(h), n).Some? <==> |h| >= n
    ensures |h| >= n ==> n as real * Sma(Closes(h), n).value == Latest(CloseOf(h), n)
  {
    if |h| >= n { LastClosesOver(h, n); }
    hide Over, Sum;
  }

  /** The simple averages exist exactly for enough candles, and are the mean of the last of them. */
  lemma AveragesSay(h: seq<Candle>)
    ensures Sma(Closes(h), 50).Some? <==> |h| >= 50
    ensures |h| >= 50 ==> 50.0 * Sma(Closes(h), 50).value == Latest(CloseOf(h), 50)
    ensures VolumeAverage(h).Some? <==> |h| >= 20
    ensures |h| >= 20 ==> 20.0 * VolumeAverage(h).value == Latest(VolumeOf(h), 20)
  {
    hide Over, Sum, Sma;
    MeanOf(h, 50);
    if |h| >= 20 { LastVolumesOver(h, 20); }
  }

  // ------------------------------------------------------------- exponential averages

  ghost function Power(x: real, n: nat): real { if n == 0 then 1.0 else x * Power(x, n - 1) }

  /** How much of the average one more value takes, and how much it leaves. */
  ghost function Taken(period: nat): real { 2.0 / (period + 1) as real }

  ghost function Kept(period: nat): real { 1.0 - Taken(period) }

  /**
   * What value i of n counts in the exponential average: the first ones share a plain mean, every later
   * one takes its part, and each further value leaves only part of what was there.
   */
  ghost function Weight(period: nat, n: nat, i: nat): real
    requires 0 < period <= n && i < n
  {
    if i < period then Power(Kept(period), n - period) / period as real
    else Taken(period) * Power(Kept(period), n - 1 - i)
  }

  ghost function Weighted(v: seq<real>, period: nat): (r: seq<real>)
    requires 0 < period <= |v|
    ensures |r| == |v|
  {
    seq(|v|, i requires 0 <= i < |v| => Weight(period, |v|, i) * v[i])
  }

  lemma WeightFades(period: nat, n: nat, i: nat)
    requires 0 < period <= n && i < n
    ensures Weight(period, n + 1, i) == Kept(period) * Weight(period, n, i)
    ensures Weight(period, n + 1, n) == Taken(period)
  {
    hide Power, Kept, Taken;
    var q := Kept(period);
    if i < period {
      PowerStep(q, n - period);
      ScaledShare(q, Power(q, n - period), Power(q, n - period + 1), period as real);
    } else {
      PowerStep(q, n - 1 - i);
      ScaledProduct(q, Power(q, n - 1 - i), Power(q, n - i), Taken(period));
    }
    PowerStep(q, 0);
    Whole(Taken(period), Power(q, 0));
  }

  lemma PowerStep(x: real, n: nat)
    ensures Power(x, 0) == 1.0 && Power(x, n + 1) == x * Power(x, n)
  {
  }

  lemma ScaledShare(q: real, power: real, next: real, period: real)
    requires period > 0.0 && next == q * power
    ensures next / period == q * (power / period)
  {
  }

  lemma ScaledProduct(q: real, power: real, next: real, taken: real)
    requires next == q * power
    ensures taken * next == q * (taken * power)
  {
  }

  lemma Whole(taken: real, one: real)
    requires one == 1.0
    ensures taken * one == taken
  {
  }

  lemma SeedWeight(v: seq<real>, period: nat, i: nat)
    requires 0 < period == |v| && i < period
    ensures Weighted(v, period)[i] == Times(1.0 / period as real, v[i])
  {
    assert Power(Kept(period), 0) == 1.0;
  }

  lemma SeedIsWeighted(v: seq<real>, period: nat)
    requires 0 < period == |v|
    ensures Sum(v) / period as real == Over(Weighted(v, period), 0, period)
  {
    hide Weighted, Times;
    SumOver(v, v, 0);
    var share := 1.0 / period as real;
    forall i | 0 <= i < period ensures Weighted(v, period)[i] == Times(share, v[i]) { SeedWeight(v, period, i); }
    OverScaled(Weighted(v, period), v, share, 0, period);
    ShareOf(Sum(v), period);
  }

  lemma ShareOf(x: real, n: nat)
    requires n > 0
    ensures x / n as real == Times(1.0 / n as real, x)
  {
  }

  lemma EarlierFade(v: seq<real>, init: seq<real>, period: nat, i: nat)
    requires 0 < period < |v| && init == v[..|v| - 1] && i < |init|
    ensures Weighted(v, period)[i] == Times(Kept(period), Weighted(init, period)[i])
  {
    hide Kept, Taken;
    WeightFades(period, |init|, i);
    hide Weight;
    Reassociate(Kept(period), Weight(period, |init|, i), v[i]);
  }

  lemma Reassociate(a: real, b: real, c: real)
    ensures a * b * c == Times(a, b * c)
  {
  }

  lemma LastTaken(v: seq<real>, period: nat)
    requires 0 < period < |v|
    ensures Weighted(v, period)[|v| - 1] == Times(Taken(period), v[|v| - 1])
  {
    WeightFades(period, |v| - 1, 0);
    hide Weight, Kept, Taken;
  }

  lemma OneMoreIsWeighted(v: seq<real>, period: nat)
    requires 0 < period < |v|
    ensures Over(Weighted(v, period), 0, |v|)
         == Times(Kept(period), Over(Weighted(v[..|v| - 1], period), 0, |v| - 1)) + Times(Taken(period), v[|v| - 1])
  {
    hide Weighted, Kept, Taken, Times;
    var n, init := |v|, v[..|v| - 1];
    forall i | 0 <= i < n - 1 ensures Weighted(v, period)[i] == Times(Kept(period), Weighted(init, period)[i]) {
      EarlierFade(v, init, period, i);
    }
    OverScaled(Weighted(v, period), Weighted(init, period), Kept(period), 0, n - 1);
    LastTaken(v, period);
  }

  lemma SmoothIs(e: real, x: real, period: nat)
    ensures Smooth(e, x, period) == Times(Kept(period), e) + Times(Taken(period), x)
  {
  }

  /** The exponential average is the sum of all values, each counted by its weight. */
  lemma {:induction false} EmaIsWeighted(v: seq<real>, period: nat)
    requires 0 < period <= |v|
    ensures EmaValue(v, period) == Over(Weighted(v, period), 0, |v|)
  {
    hide Over, Weighted, Kept, Taken, Smooth, Times;
    if |v| == period {
      SeedIsWeighted(v, period);
    } else {
      EmaIsWeighted(v[..|v| - 1], period);
      OneMoreIsWeighted(v, period);
      SmoothIs(EmaValue(v[..|v| - 1], period), v[|v| - 1], period);
    }
  }

  /** The weighted mean of the first n closes. */
  ghost function MeanClose(h: seq<Candle>, period: nat, n: nat): real
    requires 0 < period <= n <= |h|
  {
    Over(Weighted(CloseOf(h[..n]), period), 0, n)
  }

  lemma ClosesAre(h: seq<Candle>, n: nat)
    requires n <= |h|
    ensures Closes(h)[..n] == CloseOf(h[..n])
  {
  }

  lemma EmaOfCloses(h: seq<Candle>, period: nat)
    requires period > 0
    ensures Ema(Closes(h), period).Some? <==> |h| >= period
    ensures |h| >= period ==> Ema(Closes(h), period).value == MeanClose(h, period, |h|)
  {
    if |h| >= period {
      ClosesAre(h, |h|);
      assert h[..|h|] == h && Closes(h)[..|h|] == Closes(h);
      EmaIsWeighted(Closes(h), period);
    }
  }

  /** Element j of the difference of the fast and the slow average, both of the first 26 + j closes. */
  ghost function FastMinusSlow(h: seq<Candle>, j: nat): real
    requires 26 + j <= |h|
  {
    MeanClose(h, 12, 26 + j) - MeanClose(h, 26, 26 + j)
  }

  lemma MacdSeriesAt(h: seq<Candle>, j: nat)
    requires 26 + j <= |h|
    ensures |MacdSeries(Closes(h))| == |h| - 25
    ensures MacdSeries(Closes(h))[j] == FastMinusSlow(h, j)
  {
    hide EmaValue, Over, Weighted;
    var n := 26 + j;
    ClosesAre(h, n);
    EmaIsWeighted(CloseOf(h[..n]), 12);
    EmaIsWeighted(CloseOf(h[..n]), 26);
    assert EmaSeries(Closes(h), FAST)[SLOW - FAST..][j] == EmaSeries(Closes(h), FAST)[SLOW - FAST + j];
  }

  /** Everything the signal averages: the differences of all candles that have both averages. */
  ghost function SignalTerms(h: seq<Candle>): (r: seq<real>)
    requires |h| >= 34
    ensures |r| == |h| - 25
  {
    seq(|h| - 25, j requires 0 <= j < |h| - 25 => Weight(9, |h| - 25, j) * FastMinusSlow(h, j))
  }

  lemma SignalOver(h: seq<Candle>, series: seq<real>)
    requires |h| >= 34 && series == MacdSeries(Closes(h))
    ensures |series| == |h| - 25 && EmaValue(series, 9) == Over(SignalTerms(h), 0, |h| - 25)
  {
    hide MeanClose, Weight, EmaValue, MacdSeries, FastMinusSlow, Over;
    MacdSeriesAt(h, 0);
    forall j: nat | j < |series| ensures series[j] == FastMinusSlow(h, j) {
      MacdSeriesAt(h, j);
    }
    EmaIsWeighted(series, 9);
    forall j: nat | j < |series| ensures Weighted(series, 9)[j] == SignalTerms(h)[j] {
      SignalTermAt(h, series, j);
    }
    hide Weighted, SignalTerms;
    assert Weighted(series, 9) == SignalTerms(h);
  }

  lemma SignalTermAt(h: seq<Candle>, series: seq<real>, j: nat)
    requires |h| >= 34 && |series| == |h| - 25 && j < |series| && series[j] == FastMinusSlow(h, j)
    ensures Weighted(series, 9)[j] == SignalTerms(h)[j]
  {
    hide Weight, FastMinusSlow;
    SameProduct(Weight(9, |series|, j), series[j], FastMinusSlow(h, j));
  }

  /**
   * From the 34th candle on: the line is the fast average less the slow one, the signal their weighted mean
   * over all candles that have both, and the histogram what lies between; before it there is nothing.
   */
  lemma MacdSays(h: seq<Candle>)
    ensures |h| < 34 ==> Macd(Closes(h)) == MacdResult(None, None, None)
    ensures |h| >= 34 ==>
      var (m, signal) := (Macd(Closes(h)), Over(SignalTerms(h), 0, |h| - 25));
      && m.line == Some(MeanClose(h, 12, |h|) - MeanClose(h, 26, |h|)) && m.signal == Some(signal)
      && m.histogram == Some(MeanClose(h, 12, |h|) - MeanClose(h, 26, |h|) - signal)
  {
    hide MacdSeries, MeanClose, Over, SignalTerms, Closes, EmaValue;
    if |h| >= 34 {
      MacdSeriesAt(h, |h| - 26);
      SignalOver(h, MacdSeries(Closes(h)));
    }
  }

  // --------------------------------------------------------------------- strength

  /** What the close of candle i has moved since the one before, and how far. */
  ghost function Change(h: seq<Candle>): (r: seq<real>)
    ensures |r| == |h|
  {
    seq(|h|, i requires 0 <= i < |h| => if i > 0 then h[i].close - h[i - 1].close else 0.0)
  }

  ghost function Travel(h: seq<Candle>): (r: seq<real>)
    ensures |r| == |h|
  {
    seq(|h|, i requires 0 <= i < |h| => if i > 0 then Abs(h[i].close - h[i - 1].close) else 0.0)
  }

  lemma {:induction false} ChangesTelescope(h: seq<Candle>, from: nat, count: nat)
    requires 0 < from && from + count <= |h|
    ensures Over(Change(h), from, count) == h[from + count - 1].close - h[from - 1].close
  {
    if count > 0 { ChangesTelescope(h, from, count - 1); }
  }

  lemma StrengthIs(gain: real, loss: real)
    requires gain >= 0.0 && loss >= 0.0
    ensures gain + loss == 0.0 ==> RelativeStrength(gain / 14.0, loss / 14.0) == 50.0
    ensures (RelativeStrength(gain / 14.0, loss / 14.0) - 50.0) * (gain + loss) == 50.0 * (gain - loss)
  {
    var g, l := gain / 14.0, loss / 14.0;
    var r := RelativeStrength(g, l);
    if l != 0.0 {
      var ratio := g / l;
      assert ratio * l == g;
      assert 1.0 + ratio > 0.0;
      assert 100.0 / (1.0 + ratio) * (1.0 + ratio) == 100.0;
      var part := 100.0 / (1.0 + ratio);
      assert part * (1.0 + ratio) * l == part * (l + ratio * l);
      assert part * (l + g) == 100.0 * l;
      assert r == 100.0 - part;
      assert (r - 50.0) * (g + l) == 50.0 * (g + l) - part * (g + l);
      assert (r - 50.0) * (g + l) == 50.0 * (g - l);
      assert (r - 50.0) * (gain + loss) == 14.0 * ((r - 50.0) * (g + l));
    }
  }

  lemma SplitChange(x: real)
    ensures Max(x, 0.0) + Max(-x, 0.0) == Abs(x) && Max(x, 0.0) - Max(-x, 0.0) == x
  {
  }

  /** Every change is its gain or its loss, and its way is its size. */
  ghost predicate Split(changes: seq<real>, ways: seq<real>, gains: seq<real>, losses: seq<real>)
  {
    && |gains| == |losses| == |ways| == |changes|
    && forall i :: 0 <= i < |changes| ==>
         gains[i] == Max(changes[i], 0.0) && losses[i] == Max(-changes[i], 0.0) && ways[i] == Abs(changes[i])
  }

  /** Gains less losses are the net change, and together they are the way travelled. */
  lemma {:induction false} GainsAndLosses(changes: seq<real>, ways: seq<real>, gains: seq<real>, losses: seq<real>)
    requires Split(changes, ways, gains, losses)
    ensures Sum(gains) - Sum(losses) == Over(changes, 0, |changes|)
    ensures Sum(gains) + Sum(losses) == Over(ways, 0, |ways|)
  {
    var n := |changes|;
    if n > 0 {
      GainsAndLosses(changes[..n - 1], ways[..n - 1], gains[..n - 1], losses[..n - 1]);
      SplitChange(changes[n - 1]);
      OverPrefix(changes, n - 1);
      OverPrefix(ways, n - 1);
    }
  }

  lemma {:induction false} OverPrefix(s: seq<real>, count: nat)
    requires count <= |s|
    ensures Over(s[..count], 0, count) == Over(s, 0, count)
    decreases count
  {
    if count > 0 {
      OverPrefix(s, count - 1);
      OverPrefix(s[..count], count - 1);
      assert s[..count][..count - 1] == s[..count - 1];
    }
  }

  lemma {:induction false} OverShift(s: seq<real>, from: nat, count: nat)
    requires from + count <= |s|
    ensures Over(s[from..from + count], 0, count) == Over(s, from, count)
  {
    if count > 0 {
      OverShift(s, from, count - 1);
      OverPrefix(s[from..from + count], count - 1);
      assert s[from..from + count][..count - 1] == s[from..from + count - 1];
    }
  }

  lemma LatestOf(s: seq<real>, n: nat)
    requires n <= |s|
    ensures Latest(s, n) == Over(s[|s| - n..], 0, n)
  {
    OverShift(s, |s| - n, n);
    assert s[|s| - n..] == s[|s| - n..|s| - n + n];
  }

  lemma ChangeAt(h: seq<Candle>, n: nat, i: nat)
    requires i < n < |h|
    ensures Changes(Closes(h), n)[i] == Change(h)[|h| - n..][i]
    ensures Travel(h)[|h| - n..][i] == Abs(Changes(Closes(h), n)[i])
    ensures Gains(Closes(h), n)[i] == Max(Changes(Closes(h), n)[i], 0.0)
    ensures Losses(Closes(h), n)[i] == Max(-Changes(Closes(h), n)[i], 0.0)
  {
  }

  lemma SplitsInto(h: seq<Candle>, n: nat)
    requires 0 < n < |h|
    ensures Split(Change(h)[|h| - n..], Travel(h)[|h| - n..], Gains(Closes(h), n), Losses(Closes(h), n))
  {
    var gains, losses := Gains(Closes(h), n), Losses(Closes(h), n);
    assert |gains| == |losses| == n;
    hide Travel, Change, Closes, Changes, Gains, Losses;
    var ways, net := Travel(h)[|h| - n..], Change(h)[|h| - n..];
    forall i | 0 <= i < |net|
      ensures gains[i] == Max(net[i], 0.0) && losses[i] == Max(-net[i], 0.0) && ways[i] == Abs(net[i])
    {
      ChangeAt(h, n, i);
    }
  }

  lemma GainsOver(h: seq<Candle>, n: nat)
    requires 0 < n < |h|
    ensures var (gain, loss) := (Sum(Gains(Closes(h), n)), Sum(Losses(Closes(h), n)));
      && gain - loss == h[|h| - 1].close - h[|h| - 1 - n].close
      && gain + loss == Latest(Travel(h), n)
  {
    hide Over, Sum, Latest, Travel, Change, Closes, Changes, Gains, Losses, Split;
    SplitsInto(h, n);
    GainsAndLosses(Change(h)[|h| - n..], Travel(h)[|h| - n..], Gains(Closes(h), n), Losses(Closes(h), n));
    LatestOf(Change(h), n);
    LatestOf(Travel(h), n);
    LatestChange(h, n);
  }

  lemma LatestChange(h: seq<Candle>, n: nat)
    requires 0 < n < |h|
    ensures Latest(Change(h), n) == h[|h| - 1].close - h[|h| - 1 - n].close
  {
    ChangesTelescope(h, |h| - n, n);
  }

  lemma GainsNonNegative(v: seq<real>, n: nat)
    requires n < |v|
    ensures Sum(Gains(v, n)) >= 0.0 && Sum(Losses(v, n)) >= 0.0
  {
    SumNonNegative(Gains(v, n));
    SumNonNegative(Losses(v, n));
  }

  /** The index stands above or below 50 as the net change of the last 14 steps stands to all their movement. */
  lemma RsiSays(h: seq<Candle>)
    ensures Rsi(Closes(h)).Some? <==> |h| >= 15
    ensures |h| >= 15 ==>
      var (net, travel) := (h[|h| - 1].close - h[|h| - 15].close, Latest(Travel(h), 14));
      && (travel == 0.0 ==> Rsi(Closes(h)).value == 50.0)
      && (Rsi(Closes(h)).value - 50.0) * travel == 50.0 * net
  {
    hide Over, Sum, Gains, Losses, RelativeStrength, Closes;
    if |h| >= 15 {
      GainsOver(h, 14);
      GainsNonNegative(Closes(h), 14);
      var (gain, loss) := (Sum(Gains(Closes(h), 14)), Sum(Losses(Closes(h), 14)));
      StrengthIs(gain, loss);
      var r := RelativeStrength(gain / 14.0, loss / 14.0);
      assert Rsi(Closes(h)) == Some(r);
      SameProduct(r - 50.0, gain + loss, Latest(Travel(h), 14));
    }
  }

  lemma SameProduct(a: real, x: real, y: real)
    requires x == y
    ensures a * x == a * y
  {
  }

  // ----------------------------------------------------------------- ranges and movement

  /** The width of the smallest interval that holds candle i and the close before it. */
  ghost function Span(h: seq<Candle>): (r: seq<real>)
    ensures |r| == |h|
  {
    seq(|h|, i requires 0 <= i < |h| =>
               if i > 0 then Max(h[i].high, h[i - 1].close) - Min(h[i].low, h[i - 1].close) else 0.0)
  }

  /** How far a candle rose above, or fell below, the one before, where that is the larger of the two. */
  function Risen(before: Candle, c: Candle): real
  {
    if c.high - before.high > Max(before.low - c.low, 0.0) then c.high - before.high else 0.0
  }

  function Fallen(before: Candle, c: Candle): real
  {
    if before.low - c.low > Max(c.high - before.high, 0.0) then before.low - c.low else 0.0
  }

  ghost function Rise(h: seq<Candle>): (r: seq<real>)
    ensures |r| == |h|
  {
    seq(|h|, i requires 0 <= i < |h| => if i > 0 then Risen(h[i - 1], h[i]) else 0.0)
  }

  ghost function Fall(h: seq<Candle>): (r: seq<real>)
    ensures |r| == |h|
  {
    seq(|h|, i requires 0 <= i < |h| => if i > 0 then Fallen(h[i - 1], h[i]) else 0.0)
  }

  ghost predicate ShapedFrom(h: seq<Candle>, from: int)
  {
    forall i :: 0 <= i < |h| && from <= i ==> h[i].low <= h[i].high
  }

  lemma RangeIs(before: Candle, c: Candle)
    requires c.low <= c.high
    ensures TrueRange(before, c) == Max(c.high, before.close) - Min(c.low, before.close)
    ensures PlusMove(before, c) == Risen(before, c) && MinusMove(before, c) == Fallen(before, c)
  {
  }

  lemma MoveIs(before: Candle, c: Candle)
    ensures PlusMove(before, c) == Risen(before, c) && MinusMove(before, c) == Fallen(before, c)
  {
  }

  lemma RangeAt(h: seq<Candle>, n: nat, i: nat)
    requires i < n < |h| && ShapedFrom(h, |h| - n)
    ensures |TrueRanges(h)| == |h| - 1
    ensures Last(TrueRanges(h), n)[i] == Span(h)[|h| - n + i]
  {
    hide TrueRange;
    var k := |h| - n + i;
    assert Last(TrueRanges(h), n)[i] == TrueRange(h[k - 1], h[k]);
    RangeIs(h[k - 1], h[k]);
  }

  lemma RangesOver(h: seq<Candle>, n: nat)
    requires 0 < n < |h| && ShapedFrom(h, |h| - n)
    ensures |TrueRanges(h)| == |h| - 1
    ensures Sum(Last(TrueRanges(h), n)) == Latest(Span(h), n)
  {
    hide TrueRange, TrueRanges, Sum, Over, Last, ShapedFrom;
    RangeAt(h, n, 0);
    var part := Last(TrueRanges(h), n);
    forall i | 0 <= i < n ensures part[i] == Span(h)[|h| - n + i] { RangeAt(h, n, i); }
    SumOver(part, Span(h), |h| - n);
  }

  lemma RisesOver(h: seq<Candle>, n: nat)
    requires n < |h|
    ensures Sum(Last(Pairwise(PlusMove, h), n)) == Latest(Rise(h), n)
  {
    hide Sum, Over, Risen;
    var part := Last(Pairwise(PlusMove, h), n);
    forall i | 0 <= i < n ensures part[i] == Rise(h)[|h| - n + i] {
      var k := |h| - n + i;
      assert part[i] == PlusMove(h[k - 1], h[k]);
      MoveIs(h[k - 1], h[k]);
    }
    SumOver(part, Rise(h), |h| - n);
  }

  lemma FallsOver(h: seq<Candle>, n: nat)
    requires n < |h|
    ensures Sum(Last(Pairwise(MinusMove, h), n)) == Latest(Fall(h), n)
  {
    hide Sum, Over, Fallen;
    var part := Last(Pairwise(MinusMove, h), n);
    forall i | 0 <= i < n ensures part[i] == Fall(h)[|h| - n + i] {
      var k := |h| - n + i;
      assert part[i] == MinusMove(h[k - 1], h[k]);
      MoveIs(h[k - 1], h[k]);
    }
    SumOver(part, Fall(h), |h| - n);
  }

  /** The average range is the mean width of the last 14 spans. */
  lemma AtrSays(h: seq<Candle>)
    ensures Atr(h).Some? <==> |h| >= 15
    ensures |h| >= 15 && ShapedFrom(h, |h| - 14) ==> 14.0 * Atr(h).value == Latest(Span(h), 14)
  {
    hide Over, Sum;
    if |h| >= 15 && ShapedFrom(h, |h| - 14) { RangesOver(h, 14); }
  }

  lemma IndexIs(range: real, plus: real, minus: real)
    requires plus >= 0.0 && minus >= 0.0
    ensures range <= 0.0 || plus + minus == 0.0 ==> DirectionalIndex(range, plus, minus) == 0.0
    ensures range > 0.0 ==> DirectionalIndex(range, plus, minus) * (plus + minus) == 100.0 * Abs(plus - minus)
  {
    if range > 0.0 {
      var p, m := 100.0 * plus / range, 100.0 * minus / range;
      assert p * range == 100.0 * plus && m * range == 100.0 * minus;
      assert (p + m) * range == 100.0 * (plus + minus);
      assert p >= 0.0 && m >= 0.0;
      var index := DirectionalIndex(range, plus, minus);
      if p + m > 0.0 {
        assert index * (p + m) == 100.0 * Abs(p - m);
        assert index * (p + m) * range == index * ((p + m) * range);
        assert Abs(p - m) * range == 100.0 * Abs(plus - minus) by { Scaled(p - m, range, plus - minus); }
        assert 100.0 * Abs(p - m) * range == 100.0 * (Abs(p - m) * range);
      } else {
        assert p == 0.0 && m == 0.0;
      }
    }
  }

  lemma Scaled(x: real, range: real, y: real)
    requires range > 0.0 && x * range == 100.0 * y
    ensures Abs(x) * range == 100.0 * Abs(y)
  {
    if x < 0.0 { assert x * range < 0.0; } else { assert x * range >= 0.0; }
    assert -x * range == -(x * range);
  }

  lemma {:induction false} OverNonNegative(s: seq<real>, from: nat, count: nat)
    requires from + count <= |s| && forall i :: 0 <= i < |s| ==> s[i] >= 0.0
    ensures Over(s, from, count) >= 0.0
  {
    if count > 0 { OverNonNegative(s, from, count - 1); }
  }

  /** The directional index is the excess of rises over falls, or the reverse, as a share of both together. */
  lemma AdxSays(h: seq<Candle>, up: real, down: real)
    requires |h| >= 16 ==> up == Latest(Rise(h), 14) && down == Latest(Fall(h), 14)
    ensures Adx(h).Some? <==> |h| >= 16
    ensures |h| >= 16 && ShapedFrom(h, |h| - 14) ==>
      if Latest(Span(h), 14) <= 0.0 || up + down == 0.0 then Adx(h).value == 0.0
      else Adx(h).value * (up + down) == 100.0 * Abs(up - down)
  {
    hide Over, Sum, DirectionalIndex, Pairwise, Last;
    if |h| >= 16 && ShapedFrom(h, |h| - 14) {
      RangesOver(h, 14);
      RisesOver(h, 14);
      FallsOver(h, 14);
      OverNonNegative(Rise(h), |h| - 14, 14);
      OverNonNegative(Fall(h), |h| - 14, 14);
      hide Rise, Fall, Span;
      IndexIs(Latest(Span(h), 14), up, down);
    }
  }

  // ------------------------------------------------------------------ volume and bands

  /** What the candles weigh on the average price, seen from this price. */
  ghost function Pull(h: seq<Candle>, price: real): (r: seq<real>)
    ensures |r| == |h|
  {
    seq(|h|, i requires 0 <= i < |h| => h[i].volume * ((h[i].high + h[i].low + h[i].close) / 3.0 - price))
  }

  ghost function Typical(h: seq<Candle>): (r: seq<real>)
    ensures |r| == |h|
  {
    seq(|h|, i requires 0 <= i < |h| => (h[i].high + h[i].low + h[i].close) / 3.0 * h[i].volume)
  }

  lemma TypicalOver(h: seq<Candle>, n: nat)
    requires n <= |h|
    ensures Sum(Map((c: Candle) => (c.high + c.low + c.close) / 3.0 * c.volume, Last(h, n)))
         == Latest(Typical(h), n)
  {
    SumOver(Map((c: Candle) => (c.high + c.low + c.close) / 3.0 * c.volume, Last(h, n)), Typical(h), |h| - n);
  }

  lemma Balance(typical: real, volume: real, price: real, rest: real)
    ensures volume * (typical - price) == typical * volume - price * volume
    ensures price * (rest + volume) == price * rest + price * volume
  {
  }

  lemma {:induction false} PullOver(h: seq<Candle>, price: real, from: nat, count: nat)
    requires from + count <= |h|
    ensures Over(Pull(h, price), from, count)
         == Over(Typical(h), from, count) - price * Over(VolumeOf(h), from, count)
  {
    if count > 0 {
      PullOver(h, price, from, count - 1);
      var c := h[from + count - 1];
      Balance((c.high + c.low + c.close) / 3.0, c.volume, price, Over(VolumeOf(h), from, count - 1));
      SameProduct(price, Over(VolumeOf(h), from, count), Over(VolumeOf(h), from, count - 1) + c.volume);
    }
  }

  /** The volume-weighted price is where the last 20 candles balance, each with its volume. */
  lemma VwapSays(h: seq<Candle>)
    ensures Vwap(h).Some? <==> |h| >= 20 && Latest(VolumeOf(h), 20) > 0.0
    ensures Vwap(h).Some? ==> Latest(Pull(h, Vwap(h).value), 20) == 0.0
  {
    hide Over, Sum, Last, Volumes, Typical, VolumeOf, Pull;
    if |h| >= 20 {
      LastVolumesOver(h, 20);
      TypicalOver(h, 20);
      var total, weighed := Latest(VolumeOf(h), 20), Latest(Typical(h), 20);
      if total > 0.0 {
        assert Vwap(h) == Some(weighed / total);
        QuotientBack(weighed, total);
        PullOver(h, weighed / total, |h| - 20, 20);
      }
    }
  }

  lemma QuotientBack(x: real, d: real)
    requires d != 0.0
    ensures x / d * d == x
  {
  }

  ghost function SquareOf(h: seq<Candle>): (r: seq<real>)
    ensures |r| == |h|
  {
    seq(|h|, i requires 0 <= i < |h| => h[i].close * h[i].close)
  }

  ghost function Deviation(h: seq<Candle>, m: real): (r: seq<real>)
    ensures |r| == |h|
  {
    seq(|h|, i requires 0 <= i < |h| => (h[i].close - m) * (h[i].close - m))
  }

  lemma SquareApart(x: real, m: real)
    ensures (x - m) * (x - m) == x * x - 2.0 * Times(m, x) + Times(m, m)
  {
  }

  lemma OneMoreTimes(count: nat, x: real)
    requires count > 0
    ensures Times(count as real, x) == Times((count - 1) as real, x) + x
  {
  }

  lemma {:induction false} DeviationsOver(h: seq<Candle>, m: real, from: nat, count: nat)
    requires from + count <= |h|
    ensures Over(Deviation(h, m), from, count)
         == Over(SquareOf(h), from, count) - 2.0 * Times(m, Over(CloseOf(h), from, count))
            + Times(count as real, Times(m, m))
  {
    hide Times, Deviation, SquareOf, CloseOf;
    if count == 0 {
      TimesRules(m, 0.0, 0.0);
      TimesRules(Times(m, m), 0.0, 0.0);
      TimesRules(0.0, 0.0, Times(m, m));
    } else {
      DeviationsOver(h, m, from, count - 1);
      DeviationAt(h, m, from + count - 1);
      OneMoreTimes(count, Times(m, m));
      TimesRules(m, Over(CloseOf(h), from, count - 1), h[from + count - 1].close);
    }
  }

  lemma DeviationAt(h: seq<Candle>, m: real, i: nat)
    requires i < |h|
    ensures CloseOf(h)[i] == h[i].close
    ensures Deviation(h, m)[i] == SquareOf(h)[i] - 2.0 * Times(m, h[i].close) + Times(m, m)
  {
    SquareApart(h[i].close, m);
    hide Times;
  }

  lemma SquaredOver(h: seq<Candle>, m: real, n: nat)
    requires n <= |h|
    ensures Sum(SquaredFrom(m, Last(Closes(h), n))) == Latest(Deviation(h, m), n)
  {
    hide Sum, Over;
    var part := SquaredFrom(m, Last(Closes(h), n));
    forall i | 0 <= i < n ensures part[i] == Deviation(h, m)[|h| - n + i] {
      SameSquare(Last(Closes(h), n)[i], h[|h| - n + i].close, m);
    }
    SumOver(part, Deviation(h, m), |h| - n);
  }

  lemma SameSquare(x: real, y: real, m: real)
    requires x == y
    ensures (x - m) * (x - m) == (y - m) * (y - m)
  {
  }

  lemma TwentyTimes(m: real, sum: real)
    requires 20.0 * m == sum
    ensures Times(m, sum) == 20.0 * Times(m, m) && Times(20.0, Times(m, m)) == 20.0 * Times(m, m)
  {
    assert m * (20.0 * m) == 20.0 * (m * m);
    SameProduct(m, sum, 20.0 * m);
  }

  lemma SpreadIs(h: seq<Candle>, m: real, n: nat, sum: real, squares: real)
    requires n == 20 <= |h| && sum == Latest(CloseOf(h), n) && squares == Latest(SquareOf(h), n)
    requires 20.0 * m == sum
    ensures Sum(SquaredFrom(m, Last(Closes(h), n))) / 20.0 == squares / 20.0 - Times(m, m)
  {
    SquaredOver(h, m, n);
    DeviationsOver(h, m, |h| - n, n);
    TwentyTimes(m, sum);
    assert n as real == 20.0;
    hide Times, Over, Sum;
  }

  lemma SameRoot(sqrt: Root, x: real, y: real)
    requires x == y
    ensures sqrt(x) == sqrt(y)
  {
  }

  /**
   * The middle band m is the mean of the last 20 closes, and the others lie twice the deviation on both
   * sides of it: the root of their mean square less the square of the mean.
   */
  lemma BandsSay(sqrt: Root, h: seq<Candle>, m: real, sum: real, squares: real, variance: real)
    requires |h| >= 20 ==> sum == Latest(CloseOf(h), 20) && squares == Latest(SquareOf(h), 20)
    requires 20.0 * m == sum && variance == squares / 20.0 - m * m
    ensures |h| < 20 ==> Bollinger(sqrt, Closes(h)) == Bands(None, None, None)
    ensures |h| >= 20 ==>
      Bollinger(sqrt, Closes(h)) == Bands(Some(m), Some(m + 2.0 * sqrt(variance)), Some(m - 2.0 * sqrt(variance)))
  {
    hide Latest, Sum, SquareOf, CloseOf, Closes, Last, SquaredFrom, Sma;
    MeanOf(h, 20);
    if |h| >= 20 {
      var middle := Sma(Closes(h), 20).value;
      assert middle == m;
      SpreadIs(h, middle, 20, sum, squares);
      SquareIs(middle, m);
      SameRoot(sqrt, Sum(SquaredFrom(middle, Last(Closes(h), 20))) / 20.0, variance);
    }
  }

  lemma SquareIs(x: real, y: real)
    requires x == y
    ensures Times(x, x) == y * y
  {
  }

  /** The direction follows the order of the two averages unless the close is too far against it. */
  lemma SupertrendSays(h: seq<Candle>)
    ensures Supertrend(h).Some? <==> |h| >= 50
    ensures |h| >= 50 ==>
      var (fast, slow, last) := (MeanClose(h, 20, |h|), MeanClose(h, 50, |h|), h[|h| - 1]);
      var off := last.close - (last.high + last.low) / 2.0;
      Atr(h).Some?
      && Supertrend(h) == Some(if fast > slow && off >= -3.0 * Atr(h).value then BULLISH
                               else if fast < slow && off <= 3.0 * Atr(h).value then BEARISH else NEUTRAL)
  {
    EmaOfCloses(h, 20);
    EmaOfCloses(h, 50);
    AtrSays(h);
    hide Ema, Atr, MeanClose;
  }
}
