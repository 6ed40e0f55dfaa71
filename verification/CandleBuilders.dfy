/** Live trades into candles of several nested timeframes at once. */
module CandleBuilders {
  import opened Prelude

  datatype Trade = Trade(symbol: string, price: real, quantity: real, time: int)

  datatype Bar = Bar(start: int, open: real, high: real, low: real, close: real, volume: real)

  function BucketStart(time: int, seconds: nat): int
    requires seconds > 0
  {
    time - time % seconds
  }

  function TickOf(t: Trade): Bar { Bar(t.time, t.price, t.price, t.price, t.price, t.quantity) }

  /** A later bar absorbed into an earlier one: the OHLCV merge of the two. */
  function Absorb(a: Bar, b: Bar): Bar
  {
    Bar(a.start, a.open, Max(a.high, b.high), Min(a.low, b.low), b.close, a.volume + b.volume)
  }

  function Symbol(t: Trade): string { Uppercase(t.symbol) }

  // ----------------------------------------------------------------- one builder

  /** A builder that has a current bar accepts only trades of its bucket or of a later one. */
  predicate Accepts(current: Option<Bar>, seconds: nat, time: int)
    requires seconds > 0
  {
    current.None? || current.value.start <= BucketStart(time, seconds)
  }

  function Current(m: map<string, Bar>, symbol: string): Option<Bar>
  {
    if symbol in m then Some(m[symbol]) else None
  }

  function Series(m: map<string, seq<Bar>>, symbol: string): seq<Bar>
  {
    if symbol in m then m[symbol] else []
  }

  function LastBar(series: seq<Bar>): Option<Bar>
  {
    if series == [] then None else Some(series[|series| - 1])
  }

  /** The current bars are the last ones of the series. */
  ghost predicate Tracks(current: map<string, Bar>, series: map<string, seq<Bar>>)
  {
    forall s :: Current(current, s) == LastBar(Series(series, s))
  }

  /** The current bar once this trade is in it, or the new one it starts. */
  function NextBar(now: Option<Bar>, seconds: nat, tick: Bar): Bar
    requires seconds > 0
  {
    var bucket := BucketStart(tick.start, seconds);
    if now.Some? && now.value.start == bucket then Absorb(now.value, tick) else tick.(start := bucket)
  }

  /** The bar a trade of this time closes: the current one, when the trade starts a later bucket. */
  function ClosedBar(now: Option<Bar>, seconds: nat, time: int): Option<Bar>
    requires seconds > 0
  {
    if now.Some? && now.value.start < BucketStart(time, seconds) then now else None
  }

  lemma TracksPush(current: map<string, Bar>, series: map<string, seq<Bar>>, symbol: string, seconds: nat, tick: Bar)
    requires seconds > 0 && Tracks(current, series) && Accepts(Current(current, symbol), seconds, tick.start)
    ensures Tracks(current[symbol := NextBar(Current(current, symbol), seconds, tick)],
                   series[symbol := Pushed(Series(series, symbol), seconds, tick)])
  {
    hide BucketStart, Absorb;
    var next, pushed := current[symbol := NextBar(Current(current, symbol), seconds, tick)],
                        series[symbol := Pushed(Series(series, symbol), seconds, tick)];
    forall s ensures Current(next, s) == LastBar(Series(pushed, s)) {
      assert Current(current, s) == LastBar(Series(series, s));
    }
  }

  class CandleBuilder {
    const seconds: nat
    var current: map<string, Bar>
    /** All bars of a symbol so far, the current one last. */
    ghost var series: map<string, seq<Bar>>

    ghost predicate Valid()
      reads this
    {
      seconds > 0 && Tracks(current, series)
    }

    constructor (step: nat)
      requires step > 0
      ensures Valid() && seconds == step && series == map[] && current == map[]
    {
      seconds, current, series := step, map[], map[];
    }

    /** The trade goes into the current bar, or closes it and starts a new one, or is too late. */
    method AddTrade(t: Trade) returns (accepted: bool, closed: Option<Bar>)
      requires Valid()
      modifies this
      ensures Valid()
      ensures accepted <==> Accepts(LastBar(Series(old(series), Symbol(t))), seconds, t.time)
      ensures !accepted ==> current == old(current) && series == old(series) && closed == None
      ensures accepted ==>
                series == old(series)[Symbol(t) := Pushed(Series(old(series), Symbol(t)), seconds, TickOf(t))]
      ensures accepted ==> closed == ClosedBar(LastBar(Series(old(series), Symbol(t))), seconds, t.time)
      ensures closed.Some? ==>
        closed == LastBar(Series(old(series), Symbol(t))) && closed.value.start < BucketStart(t.time, seconds)
      ensures accepted && closed.None? ==>
        var last := LastBar(Series(old(series), Symbol(t)));
        last.Some? ==> last.value.start == BucketStart(t.time, seconds)
    {
      hide BucketStart, Absorb, Pushed;
      var symbol, bucket, tick := Symbol(t), BucketStart(t.time, seconds), TickOf(t);
      var now := Current(current, symbol);
      assert now == LastBar(Series(series, symbol));
      if now.Some? && bucket < now.value.start { return false, None; }
      TracksPush(current, series, symbol, seconds, tick);
      current := current[symbol := NextBar(now, seconds, tick)];
      series := series[symbol := Pushed(Series(series, symbol), seconds, tick)];
      return true, if now.Some? && bucket != now.value.start then now else None;
    }
  }

  /** A bar pushed into a series of buckets; one that belongs to a closed bucket changes nothing. */
  function Pushed(series: seq<Bar>, seconds: nat, b: Bar): seq<Bar>
    requires seconds > 0
  {
    var bucket := BucketStart(b.start, seconds);
    if series == [] || series[|series| - 1].start < bucket then series + [b.(start := bucket)]
    else if series[|series| - 1].start == bucket then series[..|series| - 1] + [Absorb(series[|series| - 1], b)]
    else series
  }

  /** The bars grouped into buckets, in their order. */
  function Grouped(bars: seq<Bar>, seconds: nat): seq<Bar>
    requires seconds > 0
  {
    if bars == [] then [] else Pushed(Grouped(bars[..|bars| - 1], seconds), seconds, bars[|bars| - 1])
  }

  // ------------------------------------------------------------ bucket arithmetic

  /** The bucket of a time is the one multiple of the step that starts no more than a step before it. */
  lemma StartUnique(time: int, seconds: nat, q: int)
    requires seconds > 0 && seconds * q <= time < seconds * q + seconds
    ensures BucketStart(time, seconds) == seconds * q
  {
    QuotientUnique(seconds, time / seconds, time % seconds, q, time - seconds * q);
  }

  ghost function Quotient(time: int, seconds: nat): (q: int)
    requires seconds > 0
    ensures BucketStart(time, seconds) == seconds * q
    ensures seconds * q <= time < seconds * q + seconds
  {
    time / seconds
  }

  lemma Regroup(fine: nat, k: nat, b: int)
    ensures fine * (k * b) == fine * k * b
  {
  }

  /** A coarse bucket is found just as well from the start of the fine one. */
  lemma NestedStart(time: int, fine: nat, k: nat)
    requires fine > 0 && k > 0
    ensures fine * k > 0 && BucketStart(BucketStart(time, fine), fine * k) == BucketStart(time, fine * k)
  {
    var coarse := fine * k;
    assert coarse > 0;
    hide BucketStart;
    var q, b := Quotient(time, fine), Quotient(time, coarse);
    Regroup(fine, k, b);
    Regroup(fine, k, b + 1);
    if q < k * b { TimesMonotone(fine, q + 1, k * b); }
    if q >= k * (b + 1) { TimesMonotone(fine, k * (b + 1), q); }
    TimesMonotone(fine, k * b, q);
    StartUnique(fine * q, coarse, b);
  }

  lemma StartMonotone(a: int, b: int, seconds: nat)
    requires seconds > 0 && a <= b
    ensures BucketStart(a, seconds) <= BucketStart(b, seconds)
  {
    hide BucketStart;
    var p, q := Quotient(a, seconds), Quotient(b, seconds);
    if p > q { TimesMonotone(seconds, q + 1, p); }
    TimesMonotone(seconds, p, if p <= q then q else p);
  }

  // ------------------------------------------------------------- nested timeframes

  ghost predicate Ordered(bars: seq<Bar>)
  {
    forall i, j :: 0 <= i < j < |bars| ==> bars[i].start <= bars[j].start
  }

  /** In order of their buckets; inside a bucket bars may come in any order. */
  ghost predicate InOrder(bars: seq<Bar>, seconds: nat)
    requires seconds > 0
  {
    forall i, j :: 0 <= i < j < |bars| ==> BucketStart(bars[i].start, seconds) <= BucketStart(bars[j].start, seconds)
  }

  lemma OrderedBuckets(bars: seq<Bar>, seconds: nat)
    requires seconds > 0 && Ordered(bars)
    ensures InOrder(bars, seconds)
  {
    hide BucketStart;
    forall i, j | 0 <= i < j < |bars|
      ensures BucketStart(bars[i].start, seconds) <= BucketStart(bars[j].start, seconds)
    {
      StartMonotone(bars[i].start, bars[j].start, seconds);
    }
  }

  lemma GroupedSnoc(bars: seq<Bar>, b: Bar, seconds: nat)
    requires seconds > 0
    ensures Grouped(bars + [b], seconds) == Pushed(Grouped(bars, seconds), seconds, b)
  {
    assert (bars + [b])[..|bars|] == bars;
  }

  /** The last bucket of a grouping is that of its last bar. */
  lemma {:induction false} LastBucket(bars: seq<Bar>, seconds: nat)
    requires seconds > 0 && bars != [] && InOrder(bars, seconds)
    ensures Grouped(bars, seconds) != []
    ensures Grouped(bars, seconds)[|Grouped(bars, seconds)| - 1].start == BucketStart(bars[|bars| - 1].start, seconds)
  {
    hide BucketStart, Absorb;
    var init, last := bars[..|bars| - 1], bars[|bars| - 1];
    if init == [] {
      GroupedNothing(seconds);
    } else {
      assert init[|init| - 1] == bars[|bars| - 2];
      LastBucket(init, seconds);
      assert BucketStart(bars[|bars| - 2].start, seconds) <= BucketStart(last.start, seconds);
    }
    PushedEnds(Grouped(init, seconds), seconds, last);
    hide Pushed;
    assert Grouped(bars, seconds) == Pushed(Grouped(init, seconds), seconds, last);
  }

  lemma PushedEnds(series: seq<Bar>, seconds: nat, b: Bar)
    requires seconds > 0 && (series != [] ==> series[|series| - 1].start <= BucketStart(b.start, seconds))
    ensures Pushed(series, seconds, b) != []
    ensures Pushed(series, seconds, b)[|Pushed(series, seconds, b)| - 1].start == BucketStart(b.start, seconds)
  {
    hide BucketStart;
  }

  /** Pushing into the fine series and regrouping is pushing into the coarse one. */
  lemma PushCommutes(fineSeries: seq<Bar>, b: Bar, fine: nat, coarse: nat)
    requires Nested(fine, coarse) && Ordered(fineSeries)
    requires fineSeries != [] ==> fineSeries[|fineSeries| - 1].start <= BucketStart(b.start, fine)
    ensures Grouped(Pushed(fineSeries, fine, b), coarse) == Pushed(Grouped(fineSeries, coarse), coarse, b)
  {
    hide BucketStart, Grouped, Pushed, Absorb;
    NestedIn(b.start, fine, coarse);
    hide Nested;
    if fineSeries == [] || fineSeries[|fineSeries| - 1].start < BucketStart(b.start, fine) {
      NewFineBucket(fineSeries, b, fine, coarse);
    } else {
      SameFineBucket(fineSeries, b, fine, coarse);
    }
  }

  lemma NewFineBucket(fineSeries: seq<Bar>, b: Bar, fine: nat, coarse: nat)
    requires fine > 0 && coarse > 0 && Ordered(fineSeries)
    requires BucketStart(BucketStart(b.start, fine), coarse) == BucketStart(b.start, coarse)
    requires fineSeries == [] || fineSeries[|fineSeries| - 1].start < BucketStart(b.start, fine)
    ensures Grouped(Pushed(fineSeries, fine, b), coarse) == Pushed(Grouped(fineSeries, coarse), coarse, b)
  {
    hide BucketStart, Grouped, Ordered;
    GroupedSnoc(fineSeries, b.(start := BucketStart(b.start, fine)), coarse);
    if fineSeries != [] {
      OrderedBuckets(fineSeries, coarse);
      LastBucket(fineSeries, coarse);
      StartMonotone(fineSeries[|fineSeries| - 1].start, BucketStart(b.start, fine), coarse);
    }
  }

  lemma SameFineBucket(fineSeries: seq<Bar>, b: Bar, fine: nat, coarse: nat)
    requires fine > 0 && coarse > 0 && Ordered(fineSeries)
    requires BucketStart(BucketStart(b.start, fine), coarse) == BucketStart(b.start, coarse)
    requires fineSeries != [] && fineSeries[|fineSeries| - 1].start == BucketStart(b.start, fine)
    ensures Grouped(Pushed(fineSeries, fine, b), coarse) == Pushed(Grouped(fineSeries, coarse), coarse, b)
  {
    hide BucketStart, Grouped, Absorb;
    var init, last := fineSeries[..|fineSeries| - 1], fineSeries[|fineSeries| - 1];
    assert fineSeries == init + [last];
    assert Pushed(fineSeries, fine, b) == init + [Absorb(last, b)];
    GroupedSnoc(init, last, coarse);
    GroupedSnoc(init, Absorb(last, b), coarse);
    GroupedNothing(coarse);
    if init != [] {
      OrderedBuckets(init, coarse);
      LastBucket(init, coarse);
      assert init[|init| - 1].start <= last.start;
      StartMonotone(init[|init| - 1].start, last.start, coarse);
    }
    hide Pushed, Ordered;
    AbsorbedTwice(Grouped(init, coarse), last, b, coarse);
  }

  /** Every coarse bucket is a whole number of fine ones. */
  ghost predicate Nested(fine: nat, coarse: nat)
  {
    fine > 0 && coarse > 0 && exists k: nat :: k > 0 && Multiple(fine, k) == coarse
  }

  function Multiple(fine: nat, k: nat): nat { fine * k }

  lemma NestedIn(time: int, fine: nat, coarse: nat)
    requires Nested(fine, coarse)
    ensures BucketStart(BucketStart(time, fine), coarse) == BucketStart(time, coarse)
  {
    hide BucketStart;
    var k: nat :| k > 0 && Multiple(fine, k) == coarse;
    NestedStart(time, fine, k);
  }

  lemma AbsorbedTwice(series: seq<Bar>, last: Bar, b: Bar, coarse: nat)
    requires coarse > 0 && BucketStart(last.start, coarse) == BucketStart(b.start, coarse)
    requires series != [] ==> series[|series| - 1].start <= BucketStart(last.start, coarse)
    ensures Pushed(series, coarse, Absorb(last, b)) == Pushed(Pushed(series, coarse, last), coarse, b)
  {
    hide BucketStart;
  }

  // -------------------------------------------------- all timeframes of the platform

  lemma GroupedNothing(seconds: nat)
    requires seconds > 0
    ensures Grouped([], seconds) == []
  {
  }

  predicate Positive(steps: seq<nat>)
  {
    forall j :: 0 <= j < |steps| ==> steps[j] > 0
  }

  /**
   * Every series is the one of the finest timeframe, wherever it stands, regrouped: nothing is lost
   * and nothing counted twice.
   */
  ghost predicate Aligned(series: seq<seq<Bar>>, steps: seq<nat>, finest: nat)
  {
    && |series| == |steps| && finest < |steps| && Positive(steps) && Ordered(series[finest])
    && (forall j :: 0 <= j < |steps| ==> Nested(steps[finest], steps[j]))
    && forall j :: 0 <= j < |steps| ==> series[j] == Grouped(series[finest], steps[j])
  }

  predicate AcceptedBy(series: seq<seq<Bar>>, steps: seq<nat>, j: nat, time: int)
    requires j < |series| == |steps| && steps[j] > 0
  {
    Accepts(LastBar(series[j]), steps[j], time)
  }

  /** What the finest builder accepts, every coarser builder accepts. */
  lemma AcceptedByAll(series: seq<seq<Bar>>, steps: seq<nat>, finest: nat, j: nat, time: int)
    requires Aligned(series, steps, finest) && j < |steps| && AcceptedBy(series, steps, finest, time)
    ensures AcceptedBy(series, steps, j, time)
  {
    hide BucketStart, Grouped;
    var fine := series[finest];
    if fine == [] {
      GroupedNothing(steps[j]);
    } else {
      OrderedBuckets(fine, steps[j]);
      LastBucket(fine, steps[j]);
      NestedIn(time, steps[finest], steps[j]);
      StartMonotone(fine[|fine| - 1].start, BucketStart(time, steps[finest]), steps[j]);
    }
  }

  function PushedAll(series: seq<seq<Bar>>, steps: seq<nat>, b: Bar): seq<seq<Bar>>
    requires |series| == |steps| && Positive(steps)
  {
    seq(|series|, j requires 0 <= j < |series| => Pushed(series[j], steps[j], b))
  }

  /** An accepted trade keeps every coarse series the regrouping of the fine one. */
  lemma PushKeepsAligned(series: seq<seq<Bar>>, steps: seq<nat>, finest: nat, b: Bar)
    requires Aligned(series, steps, finest) && AcceptedBy(series, steps, finest, b.start)
    ensures Aligned(PushedAll(series, steps, b), steps, finest)
  {
    hide BucketStart, Grouped, Nested, Absorb, Pushed;
    var next := PushedAll(series, steps, b);
    forall j | 0 <= j < |steps| ensures next[j] == Grouped(next[finest], steps[j]) {
      PushCommutes(series[finest], b, steps[finest], steps[j]);
    }
    PushedOrdered(series[finest], steps[finest], b);
  }

  lemma PushedOrdered(series: seq<Bar>, seconds: nat, b: Bar)
    requires seconds > 0 && Ordered(series)
    ensures Ordered(Pushed(series, seconds, b))
  {
    hide BucketStart;
  }

  // ----------------------------------------------- offering a trade builder by builder

  /** How many builders take the trade before one refuses it. */
  function Taken(series: seq<seq<Bar>>, steps: seq<nat>, time: int): (n: nat)
    requires |series| == |steps| && Positive(steps)
    ensures n <= |steps|
    ensures forall j :: 0 <= j < n ==> AcceptedBy(series, steps, j, time)
    ensures n < |steps| ==> !AcceptedBy(series, steps, n, time)
  {
    TakenFrom(series, steps, time, 0)
  }

  function TakenFrom(series: seq<seq<Bar>>, steps: seq<nat>, time: int, from: nat): (n: nat)
    requires |series| == |steps| && Positive(steps) && from <= |steps|
    ensures from <= n <= |steps|
    ensures forall j :: from <= j < n ==> AcceptedBy(series, steps, j, time)
    ensures n < |steps| ==> !AcceptedBy(series, steps, n, time)
    decreases |steps| - from
  {
    if from == |steps| || !AcceptedBy(series, steps, from, time) then from else TakenFrom(series, steps, time, from + 1)
  }

  /** The series after the offer: those before the first refusal have taken the trade. */
  function Offered(series: seq<seq<Bar>>, steps: seq<nat>, b: Bar): (r: seq<seq<Bar>>)
    requires |series| == |steps| && Positive(steps)
    ensures |r| == |series|
  {
    var n := Taken(series, steps, b.start);
    seq(|series|, j requires 0 <= j < |series| => if j < n then Pushed(series[j], steps[j], b) else series[j])
  }

  /** The bars the first n builders close when they take a trade of this time. */
  function ClosedBy(series: seq<seq<Bar>>, steps: seq<nat>, time: int, n: nat): seq<Bar>
    requires n <= |series| == |steps| && Positive(steps)
  {
    if n == 0 then [] else ClosedBy(series, steps, time, n - 1) + ClosedOne(series[n - 1], steps[n - 1], time)
  }

  function ClosedOne(series: seq<Bar>, seconds: nat, time: int): seq<Bar>
    requires seconds > 0
  {
    match ClosedBar(LastBar(series), seconds, time)
    case Some(bar) => [bar]
    case None => []
  }

  lemma NothingClosed(series: seq<seq<Bar>>, steps: seq<nat>, time: int)
    requires |series| == |steps| && Positive(steps)
    ensures ClosedBy(series, steps, time, 0) == []
  {
  }

  lemma ClosedStep(series: seq<seq<Bar>>, steps: seq<nat>, time: int, n: nat, bar: Option<Bar>)
    requires n < |series| == |steps| && Positive(steps) && bar == ClosedBar(LastBar(series[n]), steps[n], time)
    ensures ClosedBy(series, steps, time, n + 1)
         == ClosedBy(series, steps, time, n) + if bar.Some? then [bar.value] else []
  {
  }

  /** The trade reaches every builder or none. */
  predicate AllOrNothing(series: seq<seq<Bar>>, steps: seq<nat>, time: int)
    requires |series| == |steps| && Positive(steps)
  {
    Taken(series, steps, time) in {0, |steps|}
  }

  /**
   * In any order of the timeframes a trade reaches all builders or none exactly when the first
   * builder refuses it or the finest accepts it; when all take it they stay aligned.
   */
  lemma AllOrNothingExactly(series: seq<seq<Bar>>, steps: seq<nat>, finest: nat, b: Bar)
    requires Aligned(series, steps, finest)
    ensures AllOrNothing(series, steps, b.start)
      <==> !AcceptedBy(series, steps, 0, b.start) || AcceptedBy(series, steps, finest, b.start)
    ensures AcceptedBy(series, steps, finest, b.start) ==>
      Offered(series, steps, b) == PushedAll(series, steps, b) && Aligned(Offered(series, steps, b), steps, finest)
    ensures !AcceptedBy(series, steps, 0, b.start) ==> Offered(series, steps, b) == series
  {
    if AcceptedBy(series, steps, finest, b.start) {
      forall j | 0 <= j < |steps| ensures AcceptedBy(series, steps, j, b.start) {
        AcceptedByAll(series, steps, finest, j, b.start);
      }
      PushKeepsAligned(series, steps, finest, b);
    }
    hide Aligned, Accepts, Pushed;
    assert Taken(series, steps, b.start) == 0 ==> Offered(series, steps, b) == series;
  }

  /** One fine bar of the second fine bucket and the coarse bar it makes; the time is that of the first. */
  function LateFine(fine: nat): seq<Bar> { [Bar(fine, 1.0, 1.0, 1.0, 1.0, 1.0)] }

  /** Whatever the two timeframes, a late trade can be taken by the coarse and refused by the fine one. */
  lemma LateTradeSplits(fine: nat, coarse: nat)
    requires Nested(fine, coarse) && coarse != fine
    ensures var coarseSeries := Grouped(LateFine(fine), coarse);
      && Ordered(LateFine(fine)) && Grouped(LateFine(fine), fine) == LateFine(fine)
      && Accepts(LastBar(coarseSeries), coarse, 0) && !Accepts(LastBar(LateFine(fine)), fine, 0)
  {
    var k: nat :| k > 0 && Multiple(fine, k) == coarse;
    assert k > 1;
    TimesMonotone(fine, 2, k);
    StartUnique(0, fine, 0);
    StartUnique(fine, fine, 1);
    StartUnique(0, coarse, 0);
    StartUnique(fine, coarse, 0);
    assert LateFine(fine)[..0] == [];
  }

  /** The state of all builders in which the trade at time 0 is late. */
  function LateSeries(steps: seq<nat>, fine: nat): (r: seq<seq<Bar>>)
    requires Positive(steps)
    ensures |r| == |steps| && forall j :: 0 <= j < |steps| ==> r[j] == Grouped(LateFine(fine), steps[j])
  {
    seq(|steps|, j requires 0 <= j < |steps| => Grouped(LateFine(fine), steps[j]))
  }

  /**
   * An order of nested timeframes keeps every trade all-or-nothing, in every aligned state, exactly
   * when the first builder has the finest step.
   */
  lemma FinestFirstExactly(steps: seq<nat>, finest: nat)
    requires finest < |steps| && Positive(steps) && forall j :: 0 <= j < |steps| ==> Nested(steps[finest], steps[j])
    ensures (forall series, time :: Aligned(series, steps, finest) ==> AllOrNothing(series, steps, time))
      <==> steps[0] == steps[finest]
  {
    hide Grouped, BucketStart, Accepts;
    if steps[0] == steps[finest] {
      forall series, time | Aligned(series, steps, finest) ensures AllOrNothing(series, steps, time) {
        assert series[0] == series[finest];
        AllOrNothingExactly(series, steps, finest, Bar(time, 0.0, 0.0, 0.0, 0.0, 0.0));
      }
    } else {
      var fine := steps[finest];
      var series := LateSeries(steps, fine);
      LateTradeSplits(fine, steps[0]);
      assert series[finest] == LateFine(fine);
      assert Aligned(series, steps, finest);
      AllOrNothingExactly(series, steps, finest, Bar(0, 0.0, 0.0, 0.0, 0.0, 0.0));
    }
  }

  /** For one: with the hour before the quarter a late trade is counted by the hour only. */
  lemma CoarseFirstCountsRefused()
    ensures var hour, quarter := Bar(0, 5.0, 5.0, 5.0, 5.0, 1.0), Bar(900, 5.0, 5.0, 5.0, 5.0, 1.0);
      var late := Bar(100, 7.0, 7.0, 7.0, 7.0, 1.0);
      Offered([[hour], [quarter]], [3600, 900], late) == [[Absorb(hour, late)], [quarter]]
      && Offered([[quarter], [hour]], [900, 3600], late) == [[quarter], [hour]]
  {
    var hour, quarter := Bar(0, 5.0, 5.0, 5.0, 5.0, 1.0), Bar(900, 5.0, 5.0, 5.0, 5.0, 1.0);
    var late := Bar(100, 7.0, 7.0, 7.0, 7.0, 1.0);
    assert BucketStart(100, 3600) == 0 && BucketStart(100, 900) == 0;
    assert Pushed([hour], 3600, late) == [Absorb(hour, late)];
    assert AcceptedBy([[hour], [quarter]], [3600, 900], 0, 100);
    assert !AcceptedBy([[hour], [quarter]], [3600, 900], 1, 100);
    assert !AcceptedBy([[quarter], [hour]], [900, 3600], 0, 100);
    assert Taken([[hour], [quarter]], [3600, 900], 100) == 1 && Taken([[quarter], [hour]], [900, 3600], 100) == 0;
  }

  // ------------------------------------------------------------- the live builders

  /** All series a builder has made, by symbol. */
  type Made = map<string, seq<Bar>>

  /** What the builders hold, as values. */
  ghost function Held(builders: seq<CandleBuilder>): (r: seq<Made>)
    reads builders
    ensures |r| == |builders| && forall j :: 0 <= j < |r| ==> r[j] == builders[j].series
  {
    if builders == [] then [] else Held(builders[..|builders| - 1]) + [builders[|builders| - 1].series]
  }

  ghost function SeriesIn(all: seq<Made>, symbol: string): (r: seq<seq<Bar>>)
    ensures |r| == |all| && forall j :: 0 <= j < |r| ==> r[j] == Series(all[j], symbol)
  {
    seq(|all|, j requires 0 <= j < |all| => Series(all[j], symbol))
  }

  ghost function Steps(builders: seq<CandleBuilder>): (r: seq<nat>)
    ensures |r| == |builders| && forall j :: 0 <= j < |r| ==> r[j] == builders[j].seconds
  {
    seq(|builders|, j requires 0 <= j < |builders| => builders[j].seconds)
  }

  /** The builders are different objects in good order. */
  ghost predicate Ready(builders: seq<CandleBuilder>)
    reads builders
  {
    && (forall i, j :: 0 <= i < j < |builders| ==> builders[i] != builders[j])
    && forall i :: 0 <= i < |builders| ==> builders[i].Valid()
  }

  /** For every symbol the coarser series are the finest one regrouped. */
  ghost predicate AllAligned(all: seq<Made>, steps: seq<nat>, finest: nat)
  {
    forall s :: Aligned(SeriesIn(all, s), steps, finest)
  }

  predicate ValidTrade(t: Trade)
  {
    t.symbol != "" && t.price > 0.0 && t.quantity >= 0.0
  }

  /** Offer the trade to one builder after the other; the first refusal raises. */
  method Offer(builders: seq<CandleBuilder>, t: Trade, ghost before: seq<seq<Bar>>, ghost steps: seq<nat>)
    returns (taken: nat, closed: seq<Bar>)
    requires Ready(builders) && |before| == |steps| == |builders| && Positive(steps)
    requires forall j :: 0 <= j < |builders| ==>
      steps[j] == builders[j].seconds && before[j] == Series(builders[j].series, Symbol(t))
    modifies builders
    ensures Ready(builders) && taken == Taken(before, steps, t.time)
    ensures closed == ClosedBy(before, steps, t.time, taken)
    ensures forall j :: 0 <= j < taken ==>
      builders[j].series == old(builders[j].series)[Symbol(t) := Pushed(before[j], steps[j], TickOf(t))]
    ensures forall j :: taken <= j < |builders| ==> builders[j].series == old(builders[j].series)
  {
    hide Pushed, Accepts, Tracks, BucketStart, Taken, Symbol, ClosedBar, ClosedBy;
    taken, closed := 0, [];
    assert ClosedBy(before, steps, t.time, 0) == [] by { NothingClosed(before, steps, t.time); }
    while taken < |builders|
      invariant taken <= |builders| && Ready(builders) && closed == ClosedBy(before, steps, t.time, taken)
      invariant forall j :: 0 <= j < taken ==> AcceptedBy(before, steps, j, t.time)
      invariant forall j :: 0 <= j < taken ==>
        builders[j].series == old(builders[j].series)[Symbol(t) := Pushed(before[j], steps[j], TickOf(t))]
      invariant forall j :: taken <= j < |builders| ==> builders[j].series == old(builders[j].series)
    {
      var accepted, bar := builders[taken].AddTrade(t);
      assert accepted <==> AcceptedBy(before, steps, taken, t.time);
      if !accepted { return; }
      ClosedStep(before, steps, t.time, taken, bar);
      if bar.Some? { closed := closed + [bar.value]; }
      taken := taken + 1;
    }
  }

  /** What a trade makes of everything held: the offer for its symbol, nothing for any other. */
  ghost predicate Ingested(all: seq<Made>, next: seq<Made>, steps: seq<nat>, t: Trade)
    requires |all| == |steps| && Positive(steps)
  {
    && |next| == |all|
    && SeriesIn(next, Symbol(t))
       == (if ValidTrade(t) then Offered(SeriesIn(all, Symbol(t)), steps, TickOf(t)) else SeriesIn(all, Symbol(t)))
    && forall s :: s != Symbol(t) ==> SeriesIn(next, s) == SeriesIn(all, s)
  }

  /**
   * One live trade to all builders.  Whatever their order, those before the first refusal have taken
   * it and no other symbol is touched.  Only a trade that all of them take hands on the bars it closes.
   */
  method IngestTrade(builders: seq<CandleBuilder>, t: Trade) returns (accepted: bool, closed: seq<Bar>)
    requires Ready(builders)
    modifies builders
    ensures Ready(builders) && Positive(Steps(builders))
    ensures accepted <==>
      ValidTrade(t) && Taken(SeriesIn(old(Held(builders)), Symbol(t)), Steps(builders), t.time) == |builders|
    ensures Ingested(old(Held(builders)), Held(builders), Steps(builders), t)
    ensures closed == if accepted
                      then ClosedBy(SeriesIn(old(Held(builders)), Symbol(t)), Steps(builders), t.time, |builders|)
                      else []
  {
    ghost var steps, all := Steps(builders), Held(builders);
    ghost var before := SeriesIn(all, Symbol(t));
    hide Pushed, Accepts, Tracks, BucketStart, Taken, Symbol, Offered, ClosedBy;
    if !ValidTrade(t) { return false, []; }
    var taken;
    taken, closed := Offer(builders, t, before, steps);
    accepted := taken == |builders|;
    if !accepted { closed := []; }
    OfferedSeries(all, Held(builders), before, steps, Symbol(t), TickOf(t), taken);
  }

  lemma OfferedSeries(
    all: seq<Made>, next: seq<Made>, before: seq<seq<Bar>>, steps: seq<nat>, symbol: string, tick: Bar, taken: nat)
    requires |all| == |next| == |before| == |steps| && Positive(steps) && before == SeriesIn(all, symbol)
    requires taken == Taken(before, steps, tick.start)
    requires forall j :: 0 <= j < taken ==> next[j] == all[j][symbol := Pushed(before[j], steps[j], tick)]
    requires forall j :: taken <= j < |all| ==> next[j] == all[j]
    ensures SeriesIn(next, symbol) == Offered(before, steps, tick)
    ensures forall s :: s != symbol ==> SeriesIn(next, s) == SeriesIn(all, s)
  {
    hide Pushed, Taken;
  }

  /**
   * With a finest step in front a trade reaches all builders or changes none, exactly as the finest
   * decides, and the series of every symbol stay aligned.
   */
  lemma IngestKeepsAligned(all: seq<Made>, next: seq<Made>, steps: seq<nat>, t: Trade, finest: nat)
    requires |all| == |steps| && Positive(steps) && finest < |steps| && steps[0] == steps[finest]
    requires AllAligned(all, steps, finest) && Ingested(all, next, steps, t)
    ensures AllAligned(next, steps, finest)
    ensures var before := SeriesIn(all, Symbol(t));
      && (Taken(before, steps, t.time) == |steps| <==> AcceptedBy(before, steps, finest, t.time))
      && (Taken(before, steps, t.time) != |steps| ==> SeriesIn(next, Symbol(t)) == before)
  {
    hide Aligned, Offered, Taken, Symbol, Accepts;
    assert Aligned(SeriesIn(all, Symbol(t)), steps, finest);
    FinestFirst(SeriesIn(all, Symbol(t)), steps, finest, TickOf(t));
    forall s ensures Aligned(SeriesIn(next, s), steps, finest) {
      assert Aligned(SeriesIn(all, s), steps, finest);
    }
  }

  /** With a finest step in front, the offer is the push to all or nothing at all. */
  lemma FinestFirst(series: seq<seq<Bar>>, steps: seq<nat>, finest: nat, b: Bar)
    requires Aligned(series, steps, finest) && steps[0] == steps[finest]
    ensures Aligned(Offered(series, steps, b), steps, finest)
    ensures Taken(series, steps, b.start) == |steps| <==> AcceptedBy(series, steps, finest, b.start)
    ensures Taken(series, steps, b.start) != |steps| ==> Offered(series, steps, b) == series
  {
    assert series[0] == series[finest];
    hide Accepts, Pushed;
    AllOrNothingExactly(series, steps, finest, b);
    assert AcceptedBy(series, steps, 0, b.start) <==> AcceptedBy(series, steps, finest, b.start);
  }

  /** New builders of nested steps start aligned for every symbol. */
  method MakeBuilders(steps: seq<nat>, ghost finest: nat) returns (builders: seq<CandleBuilder>)
    requires Positive(steps) && finest < |steps|
    requires forall j :: 0 <= j < |steps| ==> Nested(steps[finest], steps[j])
    ensures Ready(builders) && fresh(builders) && |builders| == |steps| && Steps(builders) == steps
    ensures AllAligned(Held(builders), steps, finest)
    ensures forall s :: SeriesIn(Held(builders), s) == NoBars(|steps|)
  {
    hide Nested, Tracks;
    builders := [];
    for i := 0 to |steps|
      invariant |builders| == i && fresh(builders) && Ready(builders)
      invariant forall j :: 0 <= j < i ==> builders[j].seconds == steps[j] && builders[j].series == map[]
    {
      var b := new CandleBuilder(steps[i]);
      builders := builders + [b];
    }
    NothingAligned(Held(builders), steps, finest);
  }

  lemma NothingAligned(all: seq<Made>, steps: seq<nat>, finest: nat)
    requires |all| == |steps| && Positive(steps) && finest < |steps|
    requires forall j :: 0 <= j < |steps| ==> Nested(steps[finest], steps[j]) && all[j] == map[]
    ensures AllAligned(all, steps, finest)
  {
    hide Nested;
    forall j | 0 <= j < |steps| ensures Grouped([], steps[j]) == [] { GroupedNothing(steps[j]); }
  }

  const PLATFORM_STEPS := [900, 3600, 14400, 86400]

  /** The timeframes of 15 minutes, 1 hour, 4 hours and 1 day are nested in the first. */
  lemma PlatformFramesNested()
    ensures Positive(PLATFORM_STEPS)
    ensures forall j :: 0 <= j < |PLATFORM_STEPS| ==> Nested(PLATFORM_STEPS[0], PLATFORM_STEPS[j])
  {
    assert Multiple(900, 1) == 900 && Multiple(900, 4) == 3600;
    assert Multiple(900, 16) == 14400 && Multiple(900, 96) == 86400;
  }

  // -------------------------------------------------------- what regrouping means

  function VolumeOf(bars: seq<Bar>): real
  {
    if bars == [] then 0.0 else VolumeOf(bars[..|bars| - 1]) + bars[|bars| - 1].volume
  }

  function InBucket(bars: seq<Bar>, start: int, seconds: nat): seq<Bar>
    requires seconds > 0
  {
    if bars == [] then []
    else
      var last := bars[|bars| - 1];
      InBucket(bars[..|bars| - 1], start, seconds) + if BucketStart(last.start, seconds) == start then [last] else []
  }

  /** The OHLCV merge of some bars. */
  function MergeBars(bars: seq<Bar>): Bar
    requires bars != []
  {
    if |bars| == 1 then bars[0] else Absorb(MergeBars(bars[..|bars| - 1]), bars[|bars| - 1])
  }

  /** No volume is lost or counted twice. */
  lemma {:induction false} GroupedVolume(bars: seq<Bar>, seconds: nat)
    requires seconds > 0 && InOrder(bars, seconds)
    ensures VolumeOf(Grouped(bars, seconds)) == VolumeOf(bars)
  {
    hide BucketStart, Pushed;
    if bars != [] {
      var init, last := bars[..|bars| - 1], bars[|bars| - 1];
      GroupedVolume(init, seconds);
      if init != [] {
        LastBucket(init, seconds);
        assert BucketStart(bars[|bars| - 2].start, seconds) <= BucketStart(last.start, seconds);
      }
      PushedVolume(Grouped(init, seconds), seconds, last);
    }
  }

  /** The groups start at ever later buckets. */
  lemma {:induction false} GroupedStarts(bars: seq<Bar>, seconds: nat)
    requires seconds > 0 && InOrder(bars, seconds)
    ensures forall i, j :: 0 <= i < j < |Grouped(bars, seconds)| ==>
      Grouped(bars, seconds)[i].start < Grouped(bars, seconds)[j].start
  {
    hide BucketStart;
    if bars != [] { GroupedStarts(bars[..|bars| - 1], seconds); }
  }

  /** Every coarse bar is the merge of exactly the fine bars of its bucket. */
  lemma {:induction false} GroupedIsMerge(bars: seq<Bar>, seconds: nat, i: nat)
    requires seconds > 0 && InOrder(bars, seconds) && i < |Grouped(bars, seconds)|
    ensures var g := Grouped(bars, seconds)[i];
      InBucket(bars, g.start, seconds) != [] && g == MergeBars(InBucket(bars, g.start, seconds)).(start := g.start)
  {
    hide BucketStart, MergeBars;
    var init, last := bars[..|bars| - 1], bars[|bars| - 1];
    var before, bucket := Grouped(init, seconds), BucketStart(last.start, seconds);
    GroupedStarts(init, seconds);
    if init != [] {
      LastBucket(init, seconds);
      assert BucketStart(bars[|bars| - 2].start, seconds) <= BucketStart(last.start, seconds);
    }
    OneBar(last);
    if i == |before| {
      NoneInLater(init, bucket, seconds);
      assert InBucket(bars, bucket, seconds) == [last];
    } else {
      var start := before[i].start;
      GroupedIsMerge(init, seconds, i);
      var members := InBucket(init, start, seconds);
      assert Grouped(bars, seconds)[i].start == start;
      if start == bucket {
        assert InBucket(bars, start, seconds) == members + [last];
        MergeSnoc(members, last);
        assert Grouped(bars, seconds)[i] == Absorb(before[i], last);
      } else {
        assert InBucket(bars, start, seconds) == members;
        assert Grouped(bars, seconds)[i] == before[i];
      }
    }
  }

  lemma OneBar(b: Bar)
    ensures MergeBars([b]) == b
  {
  }

  lemma MergeSnoc(bars: seq<Bar>, b: Bar)
    requires bars != []
    ensures MergeBars(bars + [b]) == Absorb(MergeBars(bars), b)
  {
    assert (bars + [b])[..|bars|] == bars;
  }

  lemma {:induction false} NoneInLater(bars: seq<Bar>, bucket: int, seconds: nat)
    requires seconds > 0 && InOrder(bars, seconds)
    requires bars != [] ==> BucketStart(bars[|bars| - 1].start, seconds) < bucket
    ensures InBucket(bars, bucket, seconds) == []
  {
    hide BucketStart;
    if |bars| > 1 {
      assert BucketStart(bars[|bars| - 2].start, seconds) <= BucketStart(bars[|bars| - 1].start, seconds);
    }
    if bars != [] {
      NoneInLater(bars[..|bars| - 1], bucket, seconds);
    }
  }

  // ------------------------------------------------------- from the trades to the bars

  function NoBars(n: nat): (r: seq<seq<Bar>>)
    ensures |r| == n && forall j :: 0 <= j < n ==> r[j] == []
  {
    seq(n, _ => [])
  }

  predicate Counts(t: Trade, symbol: string)
  {
    ValidTrade(t) && Symbol(t) == symbol
  }

  /** The series of one symbol after these trades, each offered builder by builder. */
  function Offers(series: seq<seq<Bar>>, steps: seq<nat>, trades: seq<Trade>, symbol: string): (r: seq<seq<Bar>>)
    requires |series| == |steps| && Positive(steps)
    ensures |r| == |series|
  {
    if trades == [] then series
    else
      var before, t := Offers(series, steps, trades[..|trades| - 1], symbol), trades[|trades| - 1];
      if Counts(t, symbol) then Offered(before, steps, TickOf(t)) else before
  }

  /** The trades of the symbol that builder j took, in order of arrival. */
  function TicksOf(series: seq<seq<Bar>>, steps: seq<nat>, trades: seq<Trade>, symbol: string, j: nat): seq<Bar>
    requires |series| == |steps| && Positive(steps)
  {
    if trades == [] then []
    else
      var init, t := trades[..|trades| - 1], trades[|trades| - 1];
      TicksOf(series, steps, init, symbol, j)
      + if Counts(t, symbol) && j < Taken(Offers(series, steps, init, symbol), steps, t.time) then [TickOf(t)] else []
  }

  /** The trades of the symbol that were accepted, that is taken by every builder, in order of arrival. */
  function AcceptedTicks(series: seq<seq<Bar>>, steps: seq<nat>, trades: seq<Trade>, symbol: string): seq<Bar>
    requires |series| == |steps| && Positive(steps)
  {
    if trades == [] then []
    else
      var init, t := trades[..|trades| - 1], trades[|trades| - 1];
      AcceptedTicks(series, steps, init, symbol)
      + if Counts(t, symbol) && Taken(Offers(series, steps, init, symbol), steps, t.time) == |steps|
        then [TickOf(t)] else []
  }

  /** The bars of builder j that accepted trades of the symbol closed, as they were handed on. */
  function HandedOn(series: seq<seq<Bar>>, steps: seq<nat>, trades: seq<Trade>, symbol: string, j: nat): seq<Bar>
    requires |series| == |steps| && Positive(steps) && j < |steps|
  {
    if trades == [] then []
    else
      var init, t := trades[..|trades| - 1], trades[|trades| - 1];
      var before := Offers(series, steps, init, symbol);
      HandedOn(series, steps, init, symbol, j)
      + if Counts(t, symbol) && Taken(before, steps, t.time) == |steps|
        then ClosedOne(before[j], steps[j], t.time) else []
  }

  lemma PushedVolume(bars: seq<Bar>, seconds: nat, b: Bar)
    requires seconds > 0 && Accepts(LastBar(bars), seconds, b.start)
    ensures VolumeOf(Pushed(bars, seconds, b)) == VolumeOf(bars) + b.volume
  {
    hide BucketStart;
  }

  lemma VolumeSnoc(bars: seq<Bar>, b: Bar)
    ensures VolumeOf(bars + [b]) == VolumeOf(bars) + b.volume
  {
    assert (bars + [b])[..|bars|] == bars;
  }

  /**
   * In any order of the builders and from any state, the volume of every builder's series grows by
   * exactly the quantities of the trades it took.
   */
  lemma {:induction false} VolumeGrows(
    series: seq<seq<Bar>>, steps: seq<nat>, trades: seq<Trade>, symbol: string, j: nat)
    requires |series| == |steps| && Positive(steps) && j < |steps|
    ensures VolumeOf(Offers(series, steps, trades, symbol)[j])
         == VolumeOf(series[j]) + VolumeOf(TicksOf(series, steps, trades, symbol, j))
  {
    hide Pushed, Accepts, Taken, Counts, VolumeOf;
    assert VolumeOf([]) == 0.0 by { NoVolume(); }
    if trades != [] {
      var init, t := trades[..|trades| - 1], trades[|trades| - 1];
      var before := Offers(series, steps, init, symbol);
      VolumeGrows(series, steps, init, symbol, j);
      if Counts(t, symbol) && j < Taken(before, steps, t.time) {
        assert AcceptedBy(before, steps, j, t.time);
        PushedVolume(before[j], steps[j], TickOf(t));
        VolumeSnoc(TicksOf(series, steps, init, symbol, j), TickOf(t));
      } else {
        assert TicksOf(series, steps, trades, symbol, j) == TicksOf(series, steps, init, symbol, j);
      }
    }
  }

  lemma NoVolume()
    ensures VolumeOf([]) == 0.0
  {
  }

  lemma InOrderSnoc(bars: seq<Bar>, seconds: nat, b: Bar)
    requires seconds > 0 && InOrder(bars, seconds) && Accepts(LastBar(Grouped(bars, seconds)), seconds, b.start)
    ensures InOrder(bars + [b], seconds)
  {
    hide BucketStart, Grouped;
    if bars != [] { LastBucket(bars, seconds); }
    var all := bars + [b];
    forall i, k | 0 <= i < k < |all|
      ensures BucketStart(all[i].start, seconds) <= BucketStart(all[k].start, seconds)
    {
      if k == |bars| && i < |bars| - 1 {
        assert BucketStart(bars[i].start, seconds) <= BucketStart(bars[|bars| - 1].start, seconds);
      }
    }
  }

  /** A series grouped from some ticks goes on being the grouping of those and the ones taken since. */
  lemma {:induction false} SeriesIsGrouped(
    series: seq<seq<Bar>>, steps: seq<nat>, trades: seq<Trade>, symbol: string, j: nat, past: seq<Bar>)
    requires |series| == |steps| && Positive(steps) && j < |steps|
    requires series[j] == Grouped(past, steps[j]) && InOrder(past, steps[j])
    ensures var ticks := past + TicksOf(series, steps, trades, symbol, j);
      Offers(series, steps, trades, symbol)[j] == Grouped(ticks, steps[j]) && InOrder(ticks, steps[j])
  {
    hide Pushed, Accepts, Taken, Counts, Grouped, InOrder;
    var taken := TicksOf(series, steps, trades, symbol, j);
    if trades == [] {
      assert past + taken == past;
    } else {
      var init, t := trades[..|trades| - 1], trades[|trades| - 1];
      var before, earlier := Offers(series, steps, init, symbol), TicksOf(series, steps, init, symbol, j);
      SeriesIsGrouped(series, steps, init, symbol, j, past);
      if Counts(t, symbol) && j < Taken(before, steps, t.time) {
        assert AcceptedBy(before, steps, j, t.time);
        assert past + taken == past + earlier + [TickOf(t)];
        GroupedSnoc(past + earlier, TickOf(t), steps[j]);
        InOrderSnoc(past + earlier, steps[j], TickOf(t));
      } else {
        assert taken == earlier;
      }
    }
  }

  ghost predicate HasBar(bars: seq<Bar>, start: int)
  {
    exists i :: 0 <= i < |bars| && bars[i].start == start
  }

  /** Every bar belongs to a bucket that the grouping has. */
  lemma {:induction false} BucketHasBar(bars: seq<Bar>, seconds: nat, k: nat)
    requires seconds > 0 && InOrder(bars, seconds) && k < |bars|
    ensures HasBar(Grouped(bars, seconds), BucketStart(bars[k].start, seconds))
  {
    hide BucketStart;
    var init, before := bars[..|bars| - 1], Grouped(bars[..|bars| - 1], seconds);
    if k == |bars| - 1 {
      LastBucket(bars, seconds);
    } else {
      BucketHasBar(init, seconds, k);
      var i :| 0 <= i < |before| && before[i].start == BucketStart(bars[k].start, seconds);
      assert Grouped(bars, seconds)[i].start == before[i].start;
    }
  }

  /** The bars start one after the other, each the merge, in order of arrival, of all ticks of its bucket. */
  ghost predicate Merged(bars: seq<Bar>, ticks: seq<Bar>, seconds: nat)
    requires seconds > 0
  {
    && (forall i, k :: 0 <= i < k < |bars| ==> bars[i].start < bars[k].start)
    && forall i :: 0 <= i < |bars| ==>
         InBucket(ticks, bars[i].start, seconds) != []
         && bars[i] == MergeBars(InBucket(ticks, bars[i].start, seconds)).(start := bars[i].start)
  }

  /** The bars are these ticks: each in exactly one of them, and nothing else in any. */
  ghost predicate BarsOf(bars: seq<Bar>, ticks: seq<Bar>, seconds: nat)
    requires seconds > 0
  {
    && Merged(bars, ticks, seconds)
    && (forall k :: 0 <= k < |ticks| ==> HasBar(bars, BucketStart(ticks[k].start, seconds)))
    && VolumeOf(bars) == VolumeOf(ticks)
  }

  lemma GroupedMerged(ticks: seq<Bar>, seconds: nat)
    requires seconds > 0 && InOrder(ticks, seconds)
    ensures Merged(Grouped(ticks, seconds), ticks, seconds)
  {
    hide BucketStart, Grouped, InBucket, MergeBars, InOrder;
    GroupedStarts(ticks, seconds);
    forall i | 0 <= i < |Grouped(ticks, seconds)|
      ensures var bar := Grouped(ticks, seconds)[i];
        InBucket(ticks, bar.start, seconds) != []
        && bar == MergeBars(InBucket(ticks, bar.start, seconds)).(start := bar.start)
    {
      GroupedIsMerge(ticks, seconds, i);
    }
  }

  lemma GroupedAreBarsOf(ticks: seq<Bar>, seconds: nat)
    requires seconds > 0 && InOrder(ticks, seconds)
    ensures BarsOf(Grouped(ticks, seconds), ticks, seconds)
  {
    hide BucketStart, Grouped, Merged, InOrder, VolumeOf, HasBar;
    GroupedVolume(ticks, seconds);
    GroupedMerged(ticks, seconds);
    forall k | 0 <= k < |ticks| ensures HasBar(Grouped(ticks, seconds), BucketStart(ticks[k].start, seconds)) {
      BucketHasBar(ticks, seconds, k);
    }
  }

  /** In whatever order new builders stand, the bars of each are exactly the trades it took. */
  lemma BarsAreTrades(steps: seq<nat>, trades: seq<Trade>, symbol: string, j: nat)
    requires Positive(steps) && j < |steps|
    ensures BarsOf(Offers(NoBars(|steps|), steps, trades, symbol)[j],
                   TicksOf(NoBars(|steps|), steps, trades, symbol, j), steps[j])
  {
    hide Offers, TicksOf, BarsOf;
    var taken := TicksOf(NoBars(|steps|), steps, trades, symbol, j);
    GroupedNothing(steps[j]);
    SeriesIsGrouped(NoBars(|steps|), steps, trades, symbol, j, []);
    assert [] + taken == taken;
    GroupedAreBarsOf(taken, steps[j]);
  }

  /** With a finest step in front every builder takes exactly the accepted trades. */
  lemma {:induction false} AllTakeTheAccepted(
    series: seq<seq<Bar>>, steps: seq<nat>, trades: seq<Trade>, symbol: string, finest: nat, j: nat)
    requires Aligned(series, steps, finest) && steps[0] == steps[finest] && j < |steps|
    ensures Aligned(Offers(series, steps, trades, symbol), steps, finest)
    ensures TicksOf(series, steps, trades, symbol, j) == AcceptedTicks(series, steps, trades, symbol)
  {
    hide Aligned, Offered, Counts;
    assert |series| == |steps| && Positive(steps) by { AlignedShape(series, steps, finest); }
    if trades != [] {
      var init, t := trades[..|trades| - 1], trades[|trades| - 1];
      var before := Offers(series, steps, init, symbol);
      AllTakeTheAccepted(series, steps, init, symbol, finest, j);
      AlignedShape(before, steps, finest);
      FinestFirst(before, steps, finest, TickOf(t));
      NoneOrAll(before, steps, finest, t.time);
    }
  }

  lemma AlignedShape(series: seq<seq<Bar>>, steps: seq<nat>, finest: nat)
    requires Aligned(series, steps, finest)
    ensures |series| == |steps| && Positive(steps) && finest < |steps|
  {
  }

  lemma NoneOrAll(series: seq<seq<Bar>>, steps: seq<nat>, finest: nat, time: int)
    requires Aligned(series, steps, finest) && steps[0] == steps[finest]
    ensures AllOrNothing(series, steps, time)
  {
    assert series[0] == series[finest];
    AllOrNothingExactly(series, steps, finest, Bar(time, 0.0, 0.0, 0.0, 0.0, 0.0));
  }

  /**
   * No trade is lost and none counted twice.  With a finest step in front of new builders, whatever
   * trades arrive, the bars of every builder are exactly the accepted trades of their bucket, merged
   * in order of arrival, and their volume is the accepted quantity.
   */
  lemma NoTradeLostOrTwice(steps: seq<nat>, trades: seq<Trade>, symbol: string, finest: nat, j: nat)
    requires Positive(steps) && finest < |steps| && j < |steps| && steps[0] == steps[finest]
    requires forall i :: 0 <= i < |steps| ==> Nested(steps[finest], steps[i])
    ensures BarsOf(Offers(NoBars(|steps|), steps, trades, symbol)[j],
                   AcceptedTicks(NoBars(|steps|), steps, trades, symbol), steps[j])
  {
    hide Offers, TicksOf, AcceptedTicks, BarsOf, Nested;
    forall i | 0 <= i < |steps| ensures Grouped([], steps[i]) == [] { GroupedNothing(steps[i]); }
    assert Aligned(NoBars(|steps|), steps, finest);
    AllTakeTheAccepted(NoBars(|steps|), steps, trades, symbol, finest, j);
    BarsAreTrades(steps, trades, symbol, j);
  }

  /** The bars of a series that will not change any more. */
  function Finished(series: seq<Bar>): seq<Bar>
  {
    if series == [] then [] else series[..|series| - 1]
  }

  lemma FinishedStep(series: seq<Bar>, seconds: nat, b: Bar)
    requires seconds > 0 && Accepts(LastBar(series), seconds, b.start)
    ensures Finished(Pushed(series, seconds, b)) == Finished(series) + ClosedOne(series, seconds, b.start)
  {
    hide BucketStart;
    if series != [] {
      assert series == series[..|series| - 1] + [series[|series| - 1]];
    }
  }

  /** Every finished bar is handed on exactly once, as it finally is and in its order. */
  lemma {:induction false} FinishedBarsHandedOn(
    series: seq<seq<Bar>>, steps: seq<nat>, trades: seq<Trade>, symbol: string, finest: nat, j: nat)
    requires Aligned(series, steps, finest) && steps[0] == steps[finest] && j < |steps|
    ensures Aligned(Offers(series, steps, trades, symbol), steps, finest)
    ensures Finished(Offers(series, steps, trades, symbol)[j])
         == Finished(series[j]) + HandedOn(series, steps, trades, symbol, j)
  {
    hide Aligned, Counts, Pushed, Accepts, ClosedOne, Finished;
    AlignedShape(series, steps, finest);
    AllTakeTheAccepted(series, steps, trades, symbol, finest, j);
    if trades != [] {
      var init, t := trades[..|trades| - 1], trades[|trades| - 1];
      var before := Offers(series, steps, init, symbol);
      FinishedBarsHandedOn(series, steps, init, symbol, finest, j);
      NoneOrAll(before, steps, finest, t.time);
      if Counts(t, symbol) && Taken(before, steps, t.time) == |steps| {
        assert AcceptedBy(before, steps, j, t.time);
        FinishedStep(before[j], steps[j], TickOf(t));
      }
    }
  }

  // ---------------------------------------------------------------- many trades

  /** Trade i, coming after those before it, is accepted by all builders. */
  ghost predicate AcceptedAt(all: seq<Made>, steps: seq<nat>, trades: seq<Trade>, i: nat)
    requires |all| == |steps| && Positive(steps) && i < |trades|
  {
    var t := trades[i];
    ValidTrade(t)
    && Taken(Offers(SeriesIn(all, Symbol(t)), steps, trades[..i], Symbol(t)), steps, t.time) == |steps|
  }

  /** The bars that trade i closes and hands on. */
  ghost function ClosedAt(all: seq<Made>, steps: seq<nat>, trades: seq<Trade>, i: nat): seq<Bar>
    requires |all| == |steps| && Positive(steps) && i < |trades|
  {
    var t := trades[i];
    if AcceptedAt(all, steps, trades, i)
    then ClosedBy(Offers(SeriesIn(all, Symbol(t)), steps, trades[..i], Symbol(t)), steps, t.time, |steps|) else []
  }

  /** Every symbol's series are now what these trades make of them. */
  ghost predicate RunsTo(all: seq<Made>, now: seq<Made>, steps: seq<nat>, trades: seq<Trade>)
    requires |all| == |steps| && Positive(steps)
  {
    |now| == |all| && forall s :: SeriesIn(now, s) == Offers(SeriesIn(all, s), steps, trades, s)
  }

  /** The answer to trade i is the specified one. */
  ghost predicate AnswersAt(
    all: seq<Made>, steps: seq<nat>, trades: seq<Trade>, i: nat, accepted: bool, closed: seq<Bar>)
    requires |all| == |steps| && Positive(steps) && i < |trades|
  {
    (accepted <==> AcceptedAt(all, steps, trades, i)) && closed == ClosedAt(all, steps, trades, i)
  }

  lemma RunsNowhere(all: seq<Made>, steps: seq<nat>)
    requires |all| == |steps| && Positive(steps)
    ensures RunsTo(all, all, steps, [])
  {
  }

  lemma RunsOn(all: seq<Made>, before: seq<Made>, next: seq<Made>, steps: seq<nat>, trades: seq<Trade>, i: nat)
    requires |all| == |steps| && Positive(steps) && i < |trades|
    requires RunsTo(all, before, steps, trades[..i]) && Ingested(before, next, steps, trades[i])
    ensures RunsTo(all, next, steps, trades[..i + 1])
  {
    hide Offered, ValidTrade, Symbol;
    assert trades[..i + 1][..i] == trades[..i];
    forall s ensures SeriesIn(next, s) == Offers(SeriesIn(all, s), steps, trades[..i + 1], s) {
      assert SeriesIn(before, s) == Offers(SeriesIn(all, s), steps, trades[..i], s);
    }
  }

  lemma AnswersNow(
    all: seq<Made>, before: seq<Made>, steps: seq<nat>, trades: seq<Trade>, i: nat, accepted: bool, closed: seq<Bar>)
    requires |all| == |steps| && Positive(steps) && i < |trades| && RunsTo(all, before, steps, trades[..i])
    requires var series := SeriesIn(before, Symbol(trades[i]));
      && (accepted <==> ValidTrade(trades[i]) && Taken(series, steps, trades[i].time) == |steps|)
      && closed == if accepted then ClosedBy(series, steps, trades[i].time, |steps|) else []
    ensures AnswersAt(all, steps, trades, i, accepted, closed)
  {
    hide Offers, ValidTrade, Symbol, Taken, ClosedBy;
  }

  lemma ReadyPositive(builders: seq<CandleBuilder>)
    requires Ready(builders)
    ensures Positive(Steps(builders))
  {
  }

  /** All series stay aligned when they were and a finest step is in front. */
  ghost predicate KeepsAligned(all: seq<Made>, now: seq<Made>, steps: seq<nat>, finest: nat)
  {
    finest < |steps| && AllAligned(all, steps, finest) && steps[0] == steps[finest] ==> AllAligned(now, steps, finest)
  }

  lemma KeepsOn(all: seq<Made>, before: seq<Made>, next: seq<Made>, steps: seq<nat>, t: Trade, finest: nat)
    requires |before| == |steps| && Positive(steps)
    requires KeepsAligned(all, before, steps, finest) && Ingested(before, next, steps, t)
    ensures KeepsAligned(all, next, steps, finest)
  {
    hide AllAligned, Ingested;
    if finest < |steps| && AllAligned(before, steps, finest) && steps[0] == steps[finest] {
      IngestKeepsAligned(before, next, steps, t, finest);
    }
  }

  /**
   * Any number of trades of any symbols, late ones included.  In whatever order the builders stand,
   * every symbol's series are what the trades make of them; with a finest step in front they stay aligned.
   */
  method IngestAll(builders: seq<CandleBuilder>, trades: seq<Trade>, ghost finest: nat)
    returns (accepted: seq<bool>, closed: seq<seq<Bar>>)
    requires Ready(builders)
    modifies builders
    ensures Ready(builders) && Positive(Steps(builders)) && |accepted| == |closed| == |trades|
    ensures RunsTo(old(Held(builders)), Held(builders), Steps(builders), trades)
    ensures forall i :: 0 <= i < |trades| ==>
      AnswersAt(old(Held(builders)), Steps(builders), trades, i, accepted[i], closed[i])
    ensures KeepsAligned(old(Held(builders)), Held(builders), Steps(builders), finest)
  {
    hide AllAligned, Ready, Ingested, ValidTrade, Taken, ClosedBy, Symbol, RunsTo, AnswersAt, KeepsAligned;
    ghost var all, steps := Held(builders), Steps(builders);
    accepted, closed := [], [];
    ReadyPositive(builders);
    RunsNowhere(all, steps);
    assert KeepsAligned(all, all, steps, finest) by { KeptAligned(all, steps, finest); }
    for i := 0 to |trades|
      invariant Ready(builders) && |accepted| == |closed| == i
      invariant RunsTo(all, Held(builders), steps, trades[..i])
      invariant forall k :: 0 <= k < i ==> AnswersAt(all, steps, trades, k, accepted[k], closed[k])
      invariant KeepsAligned(all, Held(builders), steps, finest)
    {
      ghost var before := Held(builders);
      var ok, bars := IngestTrade(builders, trades[i]);
      RunsOn(all, before, Held(builders), steps, trades, i);
      AnswersNow(all, before, steps, trades, i, ok, bars);
      KeepsOn(all, before, Held(builders), steps, trades[i], finest);
      accepted, closed := accepted + [ok], closed + [bars];
    }
    assert trades[..|trades|] == trades;
  }

  lemma KeptAligned(all: seq<Made>, steps: seq<nat>, finest: nat)
    ensures KeepsAligned(all, all, steps, finest)
  {
  }
}
