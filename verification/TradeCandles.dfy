/** What the live candles are, said about the trades alone: which are admitted and what a bar says of them. */
module TradeCandles {
  import opened Prelude
  import opened CandleBuilders

  /**
   * Which trades count: the well-formed ones for which no earlier one that counts, of the same symbol
   * in any letter case, falls into a later step.
   */
  ghost predicate Admitted(step: nat, trades: seq<Trade>, i: nat)
    requires step > 0 && i < |trades|
    decreases i
  {
    && trades[i].symbol != "" && trades[i].price > 0.0 && trades[i].quantity >= 0.0
    && forall k: nat :: k < i && SameName(trades[k].symbol, trades[i].symbol) && Admitted(step, trades, k) ==>
         trades[k].time / step <= trades[i].time / step
  }

  /** The ticks are exactly the counting trades of the symbol, as far as the run went. */
  ghost predicate TicksAre(step: nat, trades: seq<Trade>, n: nat, symbol: string, ticks: seq<Bar>)
    requires step > 0 && n <= |trades|
  {
    && (forall k :: 0 <= k < |ticks| ==> IsTick(step, trades, n, symbol, ticks[k]))
    && forall i :: 0 <= i < n && Symbol(trades[i]) == symbol && Admitted(step, trades, i) ==> TickOf(trades[i]) in ticks
  }

  ghost predicate IsTick(step: nat, trades: seq<Trade>, n: nat, symbol: string, b: Bar)
    requires step > 0 && n <= |trades|
  {
    exists i :: 0 <= i < n && Symbol(trades[i]) == symbol && Admitted(step, trades, i) && TickOf(trades[i]) == b
  }

  lemma SameStep(a: int, b: int, seconds: nat)
    requires seconds > 0
    ensures BucketStart(a, seconds) <= BucketStart(b, seconds) <==> a / seconds <= b / seconds
  {
    var p, q := a / seconds, b / seconds;
    StartUnique(a, seconds, p);
    StartUnique(b, seconds, q);
    if p <= q { TimesMonotone(seconds, p, q); } else { TimesMonotone(seconds, q + 1, p); }
  }

  /** What the first builder's series makes of the next trade. */
  lemma TakenExactly(series: seq<seq<Bar>>, steps: seq<nat>, ticks: seq<Bar>, time: int)
    requires Aligned(series, steps, 0) && series[0] == Grouped(ticks, steps[0]) && InOrder(ticks, steps[0])
    ensures Taken(series, steps, time) == |steps|
      <==> forall k :: 0 <= k < |ticks| ==> ticks[k].start / steps[0] <= time / steps[0]
  {
    hide Taken, BucketStart, Grouped, Aligned, Pushed;
    assert |series| == |steps| && Positive(steps) && 0 < |steps| by { AlignedShape(series, steps, 0); }
    FinestFirst(series, steps, 0, Bar(time, 0.0, 0.0, 0.0, 0.0, 0.0));
    if ticks == [] {
      GroupedNothing(steps[0]);
    } else {
      LastBucket(ticks, steps[0]);
      var last := ticks[|ticks| - 1];
      SameStep(last.start, time, steps[0]);
      forall k | 0 <= k < |ticks| ensures ticks[k].start / steps[0] <= last.start / steps[0] {
        SameStep(ticks[k].start, last.start, steps[0]);
      }
    }
  }

  /** New builders with a finest step in front. */
  ghost predicate FinestInFront(steps: seq<nat>)
  {
    |steps| > 0 && Positive(steps) && forall j :: 0 <= j < |steps| ==> Nested(steps[0], steps[j])
  }

  lemma NewAligned(steps: seq<nat>)
    requires FinestInFront(steps)
    ensures Aligned(NoBars(|steps|), steps, 0)
  {
    hide Nested;
    forall j | 0 <= j < |steps| ensures Grouped([], steps[j]) == [] { GroupedNothing(steps[j]); }
  }

  /** The state before trade n, as the trades so far make it. */
  lemma StateIs(steps: seq<nat>, trades: seq<Trade>, symbol: string, j: nat)
    requires FinestInFront(steps) && j < |steps|
    ensures var series, ticks := Offers(NoBars(|steps|), steps, trades, symbol),
                                 AcceptedTicks(NoBars(|steps|), steps, trades, symbol);
      Aligned(series, steps, 0) && series[j] == Grouped(ticks, steps[j]) && InOrder(ticks, steps[j])
  {
    hide FinestInFront, Offers, AcceptedTicks, TicksOf, Grouped, InOrder, Aligned;
    NewAligned(steps);
    assert Positive(steps) by { AlignedShape(NoBars(|steps|), steps, 0); }
    AllTakeTheAccepted(NoBars(|steps|), steps, trades, symbol, 0, j);
    GroupedNothing(steps[j]);
    assert InOrder([], steps[j]) by { NothingInOrder(steps[j]); }
    SeriesIsGrouped(NoBars(|steps|), steps, trades, symbol, j, []);
    var ticks := TicksOf(NoBars(|steps|), steps, trades, symbol, j);
    assert [] + ticks == ticks;
  }

  lemma NothingInOrder(seconds: nat)
    requires seconds > 0
    ensures InOrder([], seconds)
  {
  }

  /** All builders take trade i, coming after those before it. */
  ghost predicate TakenByAll(steps: seq<nat>, trades: seq<Trade>, i: nat)
    requires Positive(steps) && i < |trades|
  {
    ValidTrade(trades[i])
    && Taken(Offers(NoBars(|steps|), steps, trades[..i], Symbol(trades[i])), steps, trades[i].time) == |steps|
  }

  lemma {:induction false} TicksSay(steps: seq<nat>, trades: seq<Trade>, n: nat, symbol: string)
    requires FinestInFront(steps) && n <= |trades|
    ensures TicksAre(steps[0], trades, n, symbol, AcceptedTicks(NoBars(|steps|), steps, trades[..n], symbol))
    decreases n, 0
  {
    hide FinestInFront, Admitted, Taken, Offers, ValidTrade, Symbol;
    assert Positive(steps) && |steps| > 0 by { NewAligned(steps); AlignedShape(NoBars(|steps|), steps, 0); }
    if n > 0 {
      var t := trades[n - 1];
      assert trades[..n][..n - 1] == trades[..n - 1];
      TicksSay(steps, trades, n - 1, symbol);
      AdmittedExactly(steps, trades, n - 1);
      var before := AcceptedTicks(NoBars(|steps|), steps, trades[..n - 1], symbol);
      var ticks := AcceptedTicks(NoBars(|steps|), steps, trades[..n], symbol);
      forall k | 0 <= k < |ticks| ensures IsTick(steps[0], trades, n, symbol, ticks[k]) {
        if k < |before| {
          assert IsTick(steps[0], trades, n - 1, symbol, before[k]);
          assert ticks[k] == before[k];
        }
      }
      forall i | 0 <= i < n && Symbol(trades[i]) == symbol && Admitted(steps[0], trades, i)
        ensures TickOf(trades[i]) in ticks
      {
        if i == n - 1 {
          assert ticks[|before|] == TickOf(t);
        } else {
          assert TickOf(trades[i]) in before;
        }
      }
    }
  }

  /**
   * A trade is accepted exactly when it is well formed and no accepted earlier trade of its symbol
   * falls into a later step of the finest timeframe.
   */
  lemma {:induction false} AdmittedExactly(steps: seq<nat>, trades: seq<Trade>, i: nat)
    requires FinestInFront(steps) && i < |trades|
    ensures Positive(steps) && (TakenByAll(steps, trades, i) <==> Admitted(steps[0], trades, i))
    decreases i, 1
  {
    hide FinestInFront, Taken, Offers, Symbol, Aligned;
    assert Positive(steps) && |steps| > 0 by { NewAligned(steps); AlignedShape(NoBars(|steps|), steps, 0); }
    var t, symbol := trades[i], Symbol(trades[i]);
    var ticks := AcceptedTicks(NoBars(|steps|), steps, trades[..i], symbol);
    StateIs(steps, trades[..i], symbol, 0);
    TicksSay(steps, trades, i, symbol);
    TakenExactly(Offers(NoBars(|steps|), steps, trades[..i], symbol), steps, ticks, t.time);
    EarlierTicks(steps[0], trades, i, ticks);
  }

  /** Looking at the ticks is looking at the admitted trades of the symbol. */
  lemma EarlierTicks(step: nat, trades: seq<Trade>, i: nat, ticks: seq<Bar>)
    requires step > 0 && i < |trades| && TicksAre(step, trades, i, Symbol(trades[i]), ticks)
    ensures (forall k :: 0 <= k < |ticks| ==> ticks[k].start / step <= trades[i].time / step)
      <==> (forall k: nat :: k < i && SameName(trades[k].symbol, trades[i].symbol) && Admitted(step, trades, k) ==>
              trades[k].time / step <= trades[i].time / step)
  {
    hide Admitted, SameName;
    var t := trades[i];
    if forall k :: 0 <= k < |ticks| ==> ticks[k].start / step <= t.time / step {
      forall k: nat | k < i && SameName(trades[k].symbol, t.symbol) && Admitted(step, trades, k)
        ensures trades[k].time / step <= t.time / step
      {
        FoldsCase(trades[k].symbol, t.symbol);
        assert TickOf(trades[k]) in ticks;
      }
    }
    if forall k: nat :: k < i && SameName(trades[k].symbol, t.symbol) && Admitted(step, trades, k) ==>
         trades[k].time / step <= t.time / step {
      forall k | 0 <= k < |ticks| ensures ticks[k].start / step <= t.time / step {
        assert IsTick(step, trades, i, Symbol(t), ticks[k]);
        var m :| 0 <= m < i && Symbol(trades[m]) == Symbol(t) && Admitted(step, trades, m)
                 && TickOf(trades[m]) == ticks[k];
        FoldsCase(trades[m].symbol, t.symbol);
      }
    }
  }

  // ------------------------------------------------------------- what a bar says

  /** The trades of a symbol that count and fall into one step of a timeframe, in order of arrival. */
  ghost function TradesIn(
    step: nat, trades: seq<Trade>, n: nat, symbol: string, start: int, seconds: nat): (r: seq<Trade>)
    requires step > 0 && n <= |trades|
  {
    if n == 0 then []
    else
      var t := trades[n - 1];
      TradesIn(step, trades, n - 1, symbol, start, seconds)
      + if SameName(t.symbol, symbol) && Admitted(step, trades, n - 1) && start <= t.time < start + seconds
        then [t] else []
  }

  function Quantities(trades: seq<Trade>): real
  {
    if trades == [] then 0.0 else Quantities(trades[..|trades| - 1]) + trades[|trades| - 1].quantity
  }

  /** First and last price, the extremes, each of them traded, and the total quantity. */
  ghost predicate Says(b: Bar, trades: seq<Trade>)
  {
    && trades != []
    && b.open == trades[0].price && b.close == trades[|trades| - 1].price
    && (forall i :: 0 <= i < |trades| ==> b.low <= trades[i].price <= b.high)
    && (exists i :: 0 <= i < |trades| && trades[i].price == b.high)
    && (exists i :: 0 <= i < |trades| && trades[i].price == b.low)
    && b.volume == Quantities(trades)
  }

  function Ticks(trades: seq<Trade>): seq<Bar>
  {
    seq(|trades|, i requires 0 <= i < |trades| => TickOf(trades[i]))
  }

  lemma SaysMore(b: Bar, trades: seq<Trade>, t: Trade)
    requires Says(b, trades)
    ensures Says(Absorb(b, TickOf(t)), trades + [t])
  {
    var all, next := trades + [t], Absorb(b, TickOf(t));
    assert all[..|trades|] == trades && all[|trades|] == t && all[0] == trades[0];
    var h :| 0 <= h < |trades| && trades[h].price == b.high;
    var l :| 0 <= l < |trades| && trades[l].price == b.low;
    assert all[if b.high >= t.price then h else |trades|].price == next.high;
    assert all[if b.low <= t.price then l else |trades|].price == next.low;
  }

  /** The merge of some ticks says what their trades say. */
  lemma {:induction false} MergeSays(trades: seq<Trade>)
    requires trades != []
    ensures Says(MergeBars(Ticks(trades)), trades)
  {
    var init, t := trades[..|trades| - 1], trades[|trades| - 1];
    hide MergeBars, Absorb;
    if init == [] {
      OneBar(TickOf(t));
      assert Ticks(trades) == [TickOf(t)];
      assert Quantities(init) == 0.0;
      assert trades[0].price == t.price;
    } else {
      hide Says;
      MergeSays(init);
      MergeSnoc(Ticks(init), TickOf(t));
      assert Ticks(trades) == Ticks(init) + [TickOf(t)];
      SaysMore(MergeBars(Ticks(init)), init, t);
      assert init + [t] == trades;
    }
  }

  lemma InStep(time: int, start: int, seconds: nat, q: int)
    requires seconds > 0 && start == seconds * q
    ensures BucketStart(time, seconds) == start <==> start <= time < start + seconds
  {
    if start <= time < start + seconds { StartUnique(time, seconds, q); }
  }

  lemma {:induction false} TicksInBucket(
    steps: seq<nat>, trades: seq<Trade>, n: nat, symbol: string, start: int, seconds: nat, q: int)
    requires FinestInFront(steps) && n <= |trades| && seconds > 0 && start == seconds * q
    ensures InBucket(AcceptedTicks(NoBars(|steps|), steps, trades[..n], Uppercase(symbol)), start, seconds)
         == Ticks(TradesIn(steps[0], trades, n, symbol, start, seconds))
  {
    hide FinestInFront, Admitted, Taken, Offers, ValidTrade, BucketStart, SameName, Uppercase;
    assert Positive(steps) && |steps| > 0 by { NewAligned(steps); AlignedShape(NoBars(|steps|), steps, 0); }
    if n > 0 {
      var t := trades[n - 1];
      assert trades[..n][..n - 1] == trades[..n - 1];
      TicksInBucket(steps, trades, n - 1, symbol, start, seconds, q);
      AdmittedExactly(steps, trades, n - 1);
      FoldsCase(t.symbol, symbol);
      InStep(t.time, start, seconds, q);
      var before := AcceptedTicks(NoBars(|steps|), steps, trades[..n - 1], Uppercase(symbol));
      var counted := TradesIn(steps[0], trades, n - 1, symbol, start, seconds);
      assert (before + [TickOf(t)])[..|before|] == before;
      assert Ticks(counted + [t]) == Ticks(counted) + [TickOf(t)];
      if SameName(t.symbol, symbol) && Admitted(steps[0], trades, n - 1) {
        assert AcceptedTicks(NoBars(|steps|), steps, trades[..n], Uppercase(symbol)) == before + [TickOf(t)];
      } else {
        assert AcceptedTicks(NoBars(|steps|), steps, trades[..n], Uppercase(symbol)) == before;
      }
    }
  }

  /**
   * The bars of a symbol in every timeframe: one after the other, each starting on a multiple of the
   * step and saying exactly what the counting trades of that step say, and every such trade has one.
   */
  ghost predicate CandlesOf(bars: seq<Bar>, step: nat, trades: seq<Trade>, symbol: string, seconds: nat)
    requires step > 0 && seconds > 0
  {
    && (forall i, k :: 0 <= i < k < |bars| ==> bars[i].start < bars[k].start)
    && (forall i :: 0 <= i < |bars| ==>
          bars[i].start % seconds == 0
          && Says(bars[i], TradesIn(step, trades, |trades|, symbol, bars[i].start, seconds)))
    && forall i :: 0 <= i < |trades| && SameName(trades[i].symbol, symbol) && Admitted(step, trades, i) ==>
         HasBar(bars, trades[i].time - trades[i].time % seconds)
  }

  lemma BarSays(steps: seq<nat>, trades: seq<Trade>, symbol: string, j: nat, b: Bar)
    requires FinestInFront(steps) && j < |steps| && steps[j] > 0
    requires var ticks := AcceptedTicks(NoBars(|steps|), steps, trades, Uppercase(symbol));
      InBucket(ticks, b.start, steps[j]) != []
      && b == MergeBars(InBucket(ticks, b.start, steps[j])).(start := b.start)
    ensures b.start % steps[j] == 0
    ensures Says(b, TradesIn(steps[0], trades, |trades|, symbol, b.start, steps[j]))
  {
    hide FinestInFront, Admitted, AcceptedTicks, BucketStart, MergeBars, Uppercase;
    assert Positive(steps) && |steps| > 0 by { NewAligned(steps); AlignedShape(NoBars(|steps|), steps, 0); }
    var ticks := AcceptedTicks(NoBars(|steps|), steps, trades, Uppercase(symbol));
    StartIsMultiple(ticks, b.start, steps[j]);
    TicksInBucket(steps, trades, |trades|, symbol, b.start, steps[j], b.start / steps[j]);
    assert trades[..|trades|] == trades;
    hide InBucket;
    MergeSays(TradesIn(steps[0], trades, |trades|, symbol, b.start, steps[j]));
  }

  lemma {:induction false} StartIsMultiple(bars: seq<Bar>, start: int, seconds: nat)
    requires seconds > 0 && InBucket(bars, start, seconds) != []
    ensures start % seconds == 0 && start == seconds * (start / seconds)
  {
    var last := bars[|bars| - 1];
    if BucketStart(last.start, seconds) == start {
      var q := last.start / seconds;
      assert start == seconds * q;
      QuotientUnique(seconds, start / seconds, start % seconds, q, 0);
    } else {
      StartIsMultiple(bars[..|bars| - 1], start, seconds);
    }
  }

  /** What any trades make of new builders with a finest step in front, said about the trades alone. */
  lemma CandlesSay(steps: seq<nat>, trades: seq<Trade>, symbol: string, j: nat)
    requires FinestInFront(steps) && j < |steps|
    ensures Positive(steps)
      && CandlesOf(Offers(NoBars(|steps|), steps, trades, Uppercase(symbol))[j], steps[0], trades, symbol, steps[j])
  {
    hide Admitted, Offers, AcceptedTicks, InBucket, MergeBars, Uppercase, Says, Nested, HasBar, TicksAre;
    var bars := Offers(NoBars(|steps|), steps, trades, Uppercase(symbol))[j];
    NoTradeLostOrTwice(steps, trades, Uppercase(symbol), 0, j);
    forall i | 0 <= i < |bars|
      ensures bars[i].start % steps[j] == 0
              && Says(bars[i], TradesIn(steps[0], trades, |trades|, symbol, bars[i].start, steps[j]))
    {
      BarSays(steps, trades, symbol, j, bars[i]);
    }
    forall i | 0 <= i < |trades| && SameName(trades[i].symbol, symbol) && Admitted(steps[0], trades, i)
      ensures HasBar(bars, trades[i].time - trades[i].time % steps[j])
    {
      TradeHasBar(steps, trades, symbol, j, i);
    }
  }

  lemma TradeHasBar(steps: seq<nat>, trades: seq<Trade>, symbol: string, j: nat, i: nat)
    requires FinestInFront(steps) && j < |steps| && i < |trades| && Positive(steps)
    requires SameName(trades[i].symbol, symbol) && Admitted(steps[0], trades, i)
    ensures HasBar(Offers(NoBars(|steps|), steps, trades, Uppercase(symbol))[j],
                   trades[i].time - trades[i].time % steps[j])
  {
    hide Admitted, Offers, AcceptedTicks, Uppercase, Merged, HasBar, SameName;
    var ticks := AcceptedTicks(NoBars(|steps|), steps, trades, Uppercase(symbol));
    NoTradeLostOrTwice(steps, trades, Uppercase(symbol), 0, j);
    TicksSay(steps, trades, |trades|, Uppercase(symbol));
    assert trades[..|trades|] == trades;
    FoldsCase(trades[i].symbol, symbol);
    var k :| 0 <= k < |ticks| && ticks[k] == TickOf(trades[i]);
    assert HasBar(Offers(NoBars(|steps|), steps, trades, Uppercase(symbol))[j], BucketStart(ticks[k].start, steps[j]));
  }

  /** New builders with a finest step in front: what is accepted, and what the bars then say. */
  method IngestFromStart(steps: seq<nat>, trades: seq<Trade>)
    returns (builders: seq<CandleBuilder>, accepted: seq<bool>, closed: seq<seq<Bar>>)
    requires FinestInFront(steps)
    ensures fresh(builders) && Ready(builders) && |builders| == |steps| && |accepted| == |closed| == |trades|
    ensures Positive(steps) && forall i :: 0 <= i < |trades| ==> (accepted[i] <==> Admitted(steps[0], trades, i))
    ensures forall s, j :: 0 <= j < |steps| ==>
      BarsOf(Series(builders[j].series, s), AcceptedTicks(NoBars(|steps|), steps, trades, s), steps[j])
    ensures forall name, j :: 0 <= j < |steps| ==>
      CandlesOf(Series(builders[j].series, Uppercase(name)), steps[0], trades, name, steps[j])
  {
    hide AllAligned, Ready, BarsOf, AcceptedTicks, Offers, KeepsAligned, Nested, CandlesOf, Uppercase, Admitted,
      Taken, ValidTrade, ClosedBy;
    builders := MakeBuilders(steps, 0);
    ghost var all := Held(builders);
    accepted, closed := IngestAll(builders, trades, 0);
    forall i | 0 <= i < |trades| ensures accepted[i] <==> Admitted(steps[0], trades, i) {
      AdmittedExactly(steps, trades, i);
      assert AnswersAt(all, steps, trades, i, accepted[i], closed[i]);
      assert SeriesIn(all, Symbol(trades[i])) == NoBars(|steps|);
    }
    hide AnswersAt;
    forall s ensures SeriesIn(all, s) == NoBars(|steps|) { }
    forall s, j | 0 <= j < |steps|
      ensures BarsOf(Series(builders[j].series, s), AcceptedTicks(NoBars(|steps|), steps, trades, s), steps[j])
      ensures Series(builders[j].series, s) == Offers(NoBars(|steps|), steps, trades, s)[j]
    {
      NoTradeLostOrTwice(steps, trades, s, 0, j);
      assert SeriesIn(Held(builders), s) == Offers(SeriesIn(all, s), steps, trades, s);
      assert SeriesIn(Held(builders), s)[j] == Series(builders[j].series, s);
    }
    forall name, j | 0 <= j < |steps|
      ensures CandlesOf(Series(builders[j].series, Uppercase(name)), steps[0], trades, name, steps[j])
    {
      CandlesSay(steps, trades, name, j);
    }
  }
}
