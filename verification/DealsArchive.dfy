/** Rebuilding five-minute candles from an archive of deals, and coarser series from those. */
module DealsArchive {
  import opened Prelude
  import opened Candles
  import opened CandleQuality

  datatype Deal = Deal(time: real, id: int, price: real, amount: real)

  type EventKey = (real, int)

  function KeyOf(d: Deal): EventKey { (d.time, d.id) }

  predicate Before(a: EventKey, b: EventKey)
  {
    a.0 < b.0 || (a.0 == b.0 && a.1 < b.1)
  }

  /** A bucket with at least one trade. */
  datatype Bar = Bar(
    openKey: EventKey, closeKey: EventKey, open: real, high: real, low: real, close: real, volume: real, count: nat)

  function QuoteAmount(d: Deal): real { d.price * d.amount }

  function Pushed(b: Option<Bar>, d: Deal): Option<Bar>
  {
    match b
    case None => Some(Bar(KeyOf(d), KeyOf(d), d.price, d.price, d.price, d.price, QuoteAmount(d), 1))
    case Some(bar) =>
      var opens, closes := Before(KeyOf(d), bar.openKey), Before(bar.closeKey, KeyOf(d));
      Some(Bar(if opens then KeyOf(d) else bar.openKey, if closes then KeyOf(d) else bar.closeKey,
               if opens then d.price else bar.open, Max(bar.high, d.price), Min(bar.low, d.price),
               if closes then d.price else bar.close, bar.volume + QuoteAmount(d), bar.count + 1))
  }

  /** The bucket after these trades, in this order of arrival. */
  function Folded(deals: seq<Deal>): Option<Bar>
  {
    if deals == [] then None else Pushed(Folded(deals[..|deals| - 1]), deals[|deals| - 1])
  }

  /** No two trades share an id. */
  ghost predicate DistinctIds(deals: multiset<Deal>)
  {
    (forall d :: deals[d] <= 1) && forall d, e :: d in deals && e in deals && d.id == e.id ==> d == e
  }

  lemma FewerDistinct(deals: multiset<Deal>, fewer: multiset<Deal>)
    requires DistinctIds(deals) && fewer <= deals
    ensures DistinctIds(fewer)
  {
  }

  // ------------------------------------------------------------- order of arrival

  /** Open and close each come from one of the trades. */
  lemma {:induction false} EndsAreTrades(deals: seq<Deal>)
    requires deals != []
    ensures Folded(deals).Some?
    ensures exists d :: d in deals && KeyOf(d) == Folded(deals).value.openKey && d.price == Folded(deals).value.open
    ensures exists d :: d in deals && KeyOf(d) == Folded(deals).value.closeKey && d.price == Folded(deals).value.close
  {
    hide QuoteAmount;
    var init := deals[..|deals| - 1];
    assert deals == init + [deals[|deals| - 1]];
    assert deals[|deals| - 1] in deals;
    if init != [] {
      EndsAreTrades(init);
      var o :| o in init && KeyOf(o) == Folded(init).value.openKey && o.price == Folded(init).value.open;
      var c :| c in init && KeyOf(c) == Folded(init).value.closeKey && c.price == Folded(init).value.close;
      assert o in deals && c in deals;
    }
  }

  lemma PushesCommute(b: Option<Bar>, x: Deal, y: Deal)
    requires x.id != y.id && (b.Some? ==> b.value.openKey.1 !in {x.id, y.id} && b.value.closeKey.1 !in {x.id, y.id})
    ensures Pushed(Pushed(b, x), y) == Pushed(Pushed(b, y), x)
  {
    hide QuoteAmount;
  }

  lemma {:induction false} MoveToEnd(x: seq<Deal>, d: Deal, y: seq<Deal>)
    requires DistinctIds(multiset(x) + multiset{d} + multiset(y))
    ensures Folded(x + [d] + y) == Folded(x + y + [d])
  {
    hide Pushed, Folded, DistinctIds;
    if y == [] {
      assert x + [d] + y == x + y + [d];
    } else {
      var init, e := y[..|y| - 1], y[|y| - 1];
      var all := multiset(x) + multiset{d} + multiset(y);
      assert y == init + [e];
      FewerDistinct(all, multiset(x) + multiset{d} + multiset(init));
      MoveToEnd(x, d, init);
      FoldedSnoc(x + [d] + init, e);
      FoldedSnoc(x + init + [d], e);
      assert x + [d] + y == x + [d] + init + [e] && x + y + [d] == x + init + [e] + [d];
      assert multiset(x + init) + multiset{d} + multiset{e} == all;
      SwapLast(x + init, d, e);
    }
  }

  lemma FoldedSnoc(deals: seq<Deal>, d: Deal)
    ensures Folded(deals + [d]) == Pushed(Folded(deals), d)
  {
    assert (deals + [d])[..|deals|] == deals;
  }

  lemma SwapLast(deals: seq<Deal>, d: Deal, e: Deal)
    requires DistinctIds(multiset(deals) + multiset{d} + multiset{e})
    ensures Folded(deals + [d] + [e]) == Folded(deals + [e] + [d])
  {
    hide Pushed;
    FoldedSnoc(deals, d);
    FoldedSnoc(deals, e);
    FoldedSnoc(deals + [d], e);
    FoldedSnoc(deals + [e], d);
    var all := multiset(deals) + multiset{d} + multiset{e};
    assert d == e ==> all[d] >= 2;
    forall z | z in deals ensures z.id != d.id && z.id != e.id {
      assert z in all && d in all && e in all;
      assert z == d ==> all[d] >= 2;
      assert z == e ==> all[e] >= 2;
    }
    if deals != [] { EndsAreTrades(deals); }
    PushesCommute(Folded(deals), d, e);
  }

  /** The candle of a bucket is the same for every order in which its trades arrive. */
  lemma {:induction false} ArrivalOrderIrrelevant(a: seq<Deal>, b: seq<Deal>)
    requires multiset(a) == multiset(b) && DistinctIds(multiset(a))
    ensures Folded(a) == Folded(b)
  {
    hide Pushed, Folded, DistinctIds;
    if a == [] {
      assert |multiset(b)| == |b| && |multiset(a)| == |a|;
    } else {
      var init, d := a[..|a| - 1], a[|a| - 1];
      assert a == init + [d];
      var (x, y) := Around(b, d);
      MoveToEnd(x, d, y) by { assert multiset(x) + multiset{d} + multiset(y) == multiset(a); }
      FewerDistinct(multiset(a), multiset(init));
      ArrivalOrderIrrelevant(init, x + y);
      FoldedSnoc(x + y, d);
      FoldedSnoc(init, d);
    }
  }

  /** What the bucket holds: earliest and latest trade key, and the total quote volume. */
  lemma {:induction false} FoldedIsOhlcv(deals: seq<Deal>)
    requires deals != []
    ensures var r := Folded(deals);
      && r.Some? && r.value.count == |deals| && r.value.volume == TotalQuote(deals)
      && forall d :: d in deals ==> !Before(KeyOf(d), r.value.openKey) && !Before(r.value.closeKey, KeyOf(d))
  {
    hide QuoteAmount;
    var init, last := deals[..|deals| - 1], deals[|deals| - 1];
    assert deals == init + [last];
    if init != [] { FoldedIsOhlcv(init); }
  }

  /** Its high and low are the extreme trade prices, and open and close lie between them. */
  lemma {:induction false} FoldedExtremes(deals: seq<Deal>)
    requires deals != []
    ensures Folded(deals).Some?
    ensures var b := Folded(deals).value;
      && (forall d :: d in deals ==> b.low <= d.price <= b.high)
      && b.low <= b.open <= b.high && b.low <= b.close <= b.high
      && (exists d :: d in deals && d.price == b.high) && (exists d :: d in deals && d.price == b.low)
  {
    hide QuoteAmount, Before;
    var init, last := deals[..|deals| - 1], deals[|deals| - 1];
    assert deals == init + [last] && last in deals;
    if init != [] {
      FoldedExtremes(init);
      var before := Folded(init).value;
      var h :| h in init && h.price == before.high;
      var l :| l in init && l.price == before.low;
      assert h in deals && l in deals;
    }
  }

  function TotalQuote(deals: seq<Deal>): real
  {
    if deals == [] then 0.0 else TotalQuote(deals[..|deals| - 1]) + QuoteAmount(deals[|deals| - 1])
  }

  // ----------------------------------------------------------------- the archive

  const STEP := 300

  /** One archive row; the side is only checked. */
  datatype Row = Row(deal: Deal, side: string)

  datatype ArchiveError =
    | InvalidPriceOrAmount | InvalidSide | DuplicateDeal | NoTrades | MissingBucket | OutOfRangeBucket | BadQuality
    | Misaligned | NotContiguous

  predicate ValidRow(r: Row)
  {
    r.deal.price > 0.0 && r.deal.amount >= 0.0 && r.side in {"1", "2"}
  }

  /** Whole seconds, cut toward zero. */
  function Truncated(x: real): int { if x >= 0.0 then x.Floor else -((-x).Floor) }

  function Stamp(d: Deal): int
  {
    var whole := Truncated(d.time);
    whole - whole % STEP
  }

  function InRange(rows: seq<Row>, start: int, end: int): seq<Deal>
  {
    if rows == [] then []
    else
      var d := rows[|rows| - 1].deal;
      InRange(rows[..|rows| - 1], start, end) + if start as real <= d.time < end as real then [d] else []
  }

  function OfBucket(deals: seq<Deal>, stamp: int): seq<Deal>
  {
    if deals == [] then []
    else OfBucket(deals[..|deals| - 1], stamp) + if Stamp(deals[|deals| - 1]) == stamp then [deals[|deals| - 1]] else []
  }

  /** The grid of bucket starts from the start up to the end. */
  function Expected(start: int, end: int): seq<int>
    decreases end - start
  {
    if start >= end then [] else [start] + Expected(start + STEP, end)
  }

  /** The archive can be rebuilt: clean rows, no id twice, a trade in every bucket and none outside. */
  ghost predicate Complete(rows: seq<Row>, start: int, end: int)
  {
    var deals := InRange(rows, start, end);
    && AllValid(rows) && deals != [] && DistinctIds(multiset(deals))
    && (forall stamp :: stamp in Expected(start, end) ==> OfBucket(deals, stamp) != [])
    && (forall i :: 0 <= i < |deals| ==> Stamp(deals[i]) in Expected(start, end))
  }

  function CandleAt(symbol: string, stamp: int, b: Bar): Candle
  {
    Candle(symbol, M5, stamp, b.open, b.high, b.low, b.close, b.volume)
  }

  function Rebuilt(symbol: string, deals: seq<Deal>, stamps: seq<int>): seq<Candle>
    requires forall stamp :: stamp in stamps ==> OfBucket(deals, stamp) != []
  {
    if stamps == [] then []
    else
      var bucket := OfBucket(deals, stamps[|stamps| - 1]);
      EndsAreTrades(bucket);
      Rebuilt(symbol, deals, stamps[..|stamps| - 1]) + [CandleAt(symbol, stamps[|stamps| - 1], Folded(bucket).value)]
  }

  lemma {:induction false} InRangeCounts(rows: seq<Row>, start: int, end: int, d: Deal)
    ensures multiset(InRange(rows, start, end))[d]
         == if start as real <= d.time < end as real then multiset(Deals(rows))[d] else 0
  {
    if rows != [] {
      InRangeCounts(rows[..|rows| - 1], start, end, d);
    }
  }

  function Deals(rows: seq<Row>): seq<Deal>
  {
    if rows == [] then [] else Deals(rows[..|rows| - 1]) + [rows[|rows| - 1].deal]
  }

  lemma {:induction false} OfBucketCounts(deals: seq<Deal>, stamp: int, d: Deal)
    ensures multiset(OfBucket(deals, stamp))[d] == if Stamp(d) == stamp then multiset(deals)[d] else 0
  {
    hide Stamp;
    if deals != [] {
      OfBucketCounts(deals[..|deals| - 1], stamp, d);
      assert deals == deals[..|deals| - 1] + [deals[|deals| - 1]];
    }
  }

  /** Two archives with the same deals in any order rebuild to the same candles. */
  lemma {:induction false} RebuildIgnoresOrder(symbol: string, a: seq<Deal>, b: seq<Deal>, stamps: seq<int>)
    requires multiset(a) == multiset(b) && DistinctIds(multiset(a))
    requires forall stamp :: stamp in stamps ==> OfBucket(a, stamp) != [] && OfBucket(b, stamp) != []
    ensures Rebuilt(symbol, a, stamps) == Rebuilt(symbol, b, stamps)
  {
    hide Folded, OfBucket, DistinctIds;
    if stamps != [] {
      var stamp := stamps[|stamps| - 1];
      RebuildIgnoresOrder(symbol, a, b, stamps[..|stamps| - 1]);
      forall d ensures multiset(OfBucket(a, stamp))[d] == multiset(OfBucket(b, stamp))[d] <= multiset(a)[d] {
        OfBucketCounts(a, stamp, d);
        OfBucketCounts(b, stamp, d);
      }
      FewerDistinct(multiset(a), multiset(OfBucket(a, stamp)));
      ArrivalOrderIrrelevant(OfBucket(a, stamp), OfBucket(b, stamp));
    }
  }

  lemma ReorderedArchive(symbol: string, a: seq<Row>, b: seq<Row>, start: int, end: int)
    requires multiset(a) == multiset(b) && Complete(a, start, end)
    ensures Complete(b, start, end)
    ensures Rebuilt(symbol, InRange(a, start, end), Expected(start, end))
         == Rebuilt(symbol, InRange(b, start, end), Expected(start, end))
  {
    hide OfBucket, DistinctIds, Stamp, ValidRow, Rebuilt;
    var x, y := InRange(a, start, end), InRange(b, start, end);
    forall d ensures multiset(x)[d] == multiset(y)[d] {
      SameDeals(a, b);
      InRangeCounts(a, start, end, d);
      InRangeCounts(b, start, end, d);
    }
    assert multiset(x) == multiset(y);
    forall i | 0 <= i < |b| ensures ValidRow(b[i]) {
      assert b[i] in multiset(a);
    }
    assert x[0] in multiset(y);
    forall i | 0 <= i < |y| ensures Stamp(y[i]) in Expected(start, end) {
      assert y[i] in multiset(x);
    }
    forall stamp | stamp in Expected(start, end) ensures OfBucket(y, stamp) != [] {
      var d := OfBucket(x, stamp)[0];
      OfBucketCounts(x, stamp, d);
      OfBucketCounts(y, stamp, d);
      assert d in multiset(OfBucket(x, stamp));
      assert d in multiset(OfBucket(y, stamp));
    }
    RebuildIgnoresOrder(symbol, x, y, Expected(start, end));
  }

  lemma {:induction false} SameDeals(a: seq<Row>, b: seq<Row>)
    requires multiset(a) == multiset(b)
    ensures multiset(Deals(a)) == multiset(Deals(b))
  {
    hide Deals;
    if a == [] {
      assert |multiset(b)| == |b| && |multiset(a)| == |a|;
    } else {
      var init, r := a[..|a| - 1], a[|a| - 1];
      assert a == init + [r];
      var (x, y) := Around(b, r);
      SameDeals(init, x + y);
      DealsInsert(init, r, []);
      DealsInsert(x, r, y);
      assert init + [r] + [] == a && init + [] == init;
    }
  }

  lemma DealsInsert(x: seq<Row>, r: Row, y: seq<Row>)
    ensures multiset(Deals(x + [r] + y)) == multiset(Deals(x + y)) + multiset{r.deal}
  {
    assert Deals([r]) == [r.deal];
    hide Deals;
    DealsConcat(x + [r], y);
    DealsConcat(x, [r]);
    DealsConcat(x, y);
  }

  lemma {:induction false} DealsConcat(a: seq<Row>, b: seq<Row>)
    ensures Deals(a + b) == Deals(a) + Deals(b)
  {
    if b == [] {
      assert a + b == a;
    } else {
      DealsConcat(a, b[..|b| - 1]);
      assert (a + b)[..|a + b| - 1] == a + b[..|b| - 1];
    }
  }

  /** What is rebuilt is one candle a step, in order, each of a possible shape. */
  lemma {:induction false} RebuiltShape(symbol: string, deals: seq<Deal>, stamps: seq<int>)
    requires forall stamp :: stamp in stamps ==> OfBucket(deals, stamp) != []
    requires forall d :: d in deals ==> d.price > 0.0 && d.amount >= 0.0
    ensures var candles := Rebuilt(symbol, deals, stamps);
      && |candles| == |stamps|
      && forall i :: 0 <= i < |stamps| ==>
           candles[i].timestamp == stamps[i] && candles[i].timeframe == M5 && Shaped(candles[i])
  {
    hide Folded, OfBucket, TotalQuote;
    if stamps != [] {
      var stamp := stamps[|stamps| - 1];
      var bucket := OfBucket(deals, stamp);
      RebuiltShape(symbol, deals, stamps[..|stamps| - 1]);
      assert forall d :: d in bucket ==> d in deals by { OfBucketSubset(deals, stamp); }
      FoldedExtremes(bucket);
      FoldedIsOhlcv(bucket);
      QuoteNonNegative(bucket);
    }
  }

  lemma {:induction false} OfBucketSubset(deals: seq<Deal>, stamp: int)
    ensures forall d :: d in OfBucket(deals, stamp) ==> d in deals
  {
    if deals != [] {
      OfBucketSubset(deals[..|deals| - 1], stamp);
      assert deals == deals[..|deals| - 1] + [deals[|deals| - 1]];
    }
  }

  lemma {:induction false} QuoteNonNegative(deals: seq<Deal>)
    requires forall d :: d in deals ==> d.price > 0.0 && d.amount >= 0.0
    ensures TotalQuote(deals) >= 0.0
  {
    if deals != [] {
      assert deals == deals[..|deals| - 1] + [deals[|deals| - 1]];
      QuoteNonNegative(deals[..|deals| - 1]);
    }
  }

  lemma {:induction false} ExpectedGrid(start: int, end: int)
    ensures start < end ==> Expected(start, end) != [] && Expected(start, end)[0] == start
    ensures forall i :: 0 < i < |Expected(start, end)| ==> Expected(start, end)[i] == Expected(start, end)[i - 1] + STEP
    ensures Expected(start, end) != [] ==> start < end
    decreases end - start
  {
    if start < end {
      ExpectedGrid(start + STEP, end);
      var rest := Expected(start + STEP, end);
      forall i | 0 < i < |Expected(start, end)|
        ensures Expected(start, end)[i] == Expected(start, end)[i - 1] + STEP
      {
        assert Expected(start, end)[i] == rest[i - 1];
        if i > 1 { assert Expected(start, end)[i - 1] == rest[i - 2]; }
      }
    }
  }

  lemma {:induction false} InRangeValid(rows: seq<Row>, start: int, end: int)
    requires forall i :: 0 <= i < |rows| ==> ValidRow(rows[i])
    ensures forall d :: d in InRange(rows, start, end) ==> d.price > 0.0 && d.amount >= 0.0
  {
    if rows != [] { InRangeValid(rows[..|rows| - 1], start, end); }
  }

  /** The quality check at the end can never reject what was rebuilt. */
  lemma RebuiltIsValid(symbol: string, rows: seq<Row>, start: int, end: int)
    requires Complete(rows, start, end)
    ensures ValidSeries(Rebuilt(symbol, InRange(rows, start, end), Expected(start, end)), M5)
  {
    hide OfBucket, DistinctIds, Expected, InRange, Rebuilt, Stamp, ValidRow;
    var deals := InRange(rows, start, end);
    InRangeValid(rows, start, end);
    RebuiltShape(symbol, deals, Expected(start, end));
    ExpectedGrid(start, end);
    assert Stamp(deals[0]) in Expected(start, end);
  }

  // ------------------------------------------------------------ the parsing loop

  class FiveMinuteBucket {
    const stamp: int
    var openKey: Option<EventKey>
    var closeKey: Option<EventKey>
    var open: real
    var high: real
    var low: real
    var close: real
    var quoteVolume: real
    var tradeCount: nat

    predicate Started()
      reads this
    {
      openKey.Some? && closeKey.Some?
    }

    function View(): Option<Bar>
      reads this
    {
      if Started() then Some(Bar(openKey.value, closeKey.value, open, high, low, close, quoteVolume, tradeCount))
      else None
    }

    constructor (start: int)
      ensures stamp == start && View() == None && openKey == None && closeKey == None
      ensures quoteVolume == 0.0 && tradeCount == 0
    {
      stamp := start;
      openKey, closeKey := None, None;
      open, high, low, close, quoteVolume, tradeCount := 0.0, 0.0, 0.0, 0.0, 0.0, 0;
    }

    method Push(d: Deal)
      requires Started() || (openKey == None && closeKey == None && quoteVolume == 0.0 && tradeCount == 0)
      modifies this
      ensures View() == Pushed(old(View()), d) && Started()
    {
      hide QuoteAmount;
      var first := !Started();
      if openKey.None? || Before(KeyOf(d), openKey.value) { openKey, open := Some(KeyOf(d)), d.price; }
      if closeKey.None? || Before(closeKey.value, KeyOf(d)) { closeKey, close := Some(KeyOf(d)), d.price; }
      high := if first then d.price else Max(high, d.price);
      low := if first then d.price else Min(low, d.price);
      quoteVolume := quoteVolume + QuoteAmount(d);
      tradeCount := tradeCount + 1;
    }
  }

  /** The buckets hold exactly the deals so far, each in its own object. */
  ghost predicate Holds(buckets: map<int, FiveMinuteBucket>, deals: seq<Deal>)
    reads buckets.Values
  {
    && (forall k :: k in buckets <==> OfBucket(deals, k) != [])
    && (forall k :: k in buckets ==> buckets[k].Started() && buckets[k].View() == Folded(OfBucket(deals, k)))
  }

  predicate Separate(buckets: map<int, FiveMinuteBucket>)
  {
    forall j, k :: j in buckets && k in buckets && j != k ==> buckets[j] != buckets[k]
  }

  /** One deal goes to the bucket of its time, which is made when it is the first there. */
  method PushDeal(buckets: map<int, FiveMinuteBucket>, ghost deals: seq<Deal>, d: Deal)
    returns (next: map<int, FiveMinuteBucket>)
    requires Holds(buckets, deals) && Separate(buckets)
    modifies buckets.Values
    ensures Holds(next, deals + [d]) && Separate(next)
    ensures fresh(next.Values - buckets.Values)
  {
    hide Folded, OfBucket, Pushed;
    var stamp := Stamp(d);
    forall k ensures OfBucket(deals + [d], k) == if k == stamp then OfBucket(deals, k) + [d] else OfBucket(deals, k) {
      OfBucketSnoc(deals, d, k);
    }
    forall k ensures Folded(OfBucket(deals, k) + [d]) == Pushed(Folded(OfBucket(deals, k)), d) {
      FoldedSnoc(OfBucket(deals, k), d);
    }
    next := buckets;
    if stamp !in buckets {
      assert Folded(OfBucket(deals, stamp)) == None by { NothingFolded(); }
      var bucket := new FiveMinuteBucket(stamp);
      bucket.Push(d);
      next := next[stamp := bucket];
    } else {
      buckets[stamp].Push(d);
    }
  }

  lemma NothingFolded()
    ensures Folded([]) == None
  {
  }

  lemma OfBucketSnoc(deals: seq<Deal>, d: Deal, k: int)
    ensures OfBucket(deals + [d], k) == if k == Stamp(d) then OfBucket(deals, k) + [d] else OfBucket(deals, k)
  {
    hide Stamp;
    assert (deals + [d])[..|deals|] == deals && OfBucket(deals, k) + [] == OfBucket(deals, k);
  }

  /** One row is checked, filtered, deduplicated by id and bucketed. */
  method TakeRow(
    buckets: map<int, FiveMinuteBucket>, seen: set<int>, row: Row, start: int, end: int, ghost deals: seq<Deal>)
    returns (next: map<int, FiveMinuteBucket>, ids: set<int>, error: Option<ArchiveError>)
    requires Holds(buckets, deals) && Separate(buckets) && SeenIds(seen, deals) && DistinctIds(multiset(deals))
    modifies buckets.Values
    ensures fresh(next.Values - buckets.Values)
    ensures error.None? ==> ValidRow(row) && DistinctIds(multiset(Taken(deals, row, start, end)))
    ensures error.None? ==> Holds(next, Taken(deals, row, start, end)) && Separate(next)
    ensures error.None? ==> SeenIds(ids, Taken(deals, row, start, end))
    ensures error.Some? ==> !ValidRow(row) || !DistinctIds(multiset(Taken(deals, row, start, end)))
  {
    hide Folded, OfBucket, DistinctIds, SeenIds;
    var d := row.deal;
    next, ids, error := buckets, seen, None;
    if !(d.price > 0.0 && d.amount >= 0.0) { return next, ids, Some(InvalidPriceOrAmount); }
    if row.side !in {"1", "2"} { return next, ids, Some(InvalidSide); }
    if start as real <= d.time < end as real {
      OneMore(deals, seen, d);
      if d.id in seen { return next, ids, Some(DuplicateDeal); }
      ids := seen + {d.id};
      next := PushDeal(buckets, deals, d);
    }
  }

  /** The deals in range once this row is taken. */
  function Taken(deals: seq<Deal>, row: Row, start: int, end: int): seq<Deal>
  {
    if start as real <= row.deal.time < end as real then deals + [row.deal] else deals
  }

  ghost predicate AllValid(rows: seq<Row>)
  {
    forall i :: 0 <= i < |rows| ==> ValidRow(rows[i])
  }

  /** Nothing in these rows is refused. */
  ghost predicate Clean(rows: seq<Row>, start: int, end: int)
  {
    AllValid(rows) && DistinctIds(multiset(InRange(rows, start, end)))
  }

  /** The buckets and ids after these rows. */
  ghost predicate Reading(
    buckets: map<int, FiveMinuteBucket>, seen: set<int>, rows: seq<Row>, start: int, end: int)
    reads buckets.Values
  {
    && Clean(rows, start, end) && Separate(buckets)
    && Holds(buckets, InRange(rows, start, end)) && SeenIds(seen, InRange(rows, start, end))
  }

  lemma CleanNext(rows: seq<Row>, row: Row, start: int, end: int)
    ensures InRange(rows + [row], start, end) == Taken(InRange(rows, start, end), row, start, end)
    ensures AllValid(rows + [row]) <==> AllValid(rows) && ValidRow(row)
  {
    hide ValidRow;
    assert (rows + [row])[..|rows|] == rows && InRange(rows, start, end) + [] == InRange(rows, start, end);
    if AllValid(rows + [row]) {
      forall k | 0 <= k < |rows| ensures ValidRow(rows[k]) { assert (rows + [row])[k] == rows[k]; }
      assert (rows + [row])[|rows|] == row;
    }
  }

  method ReadRow(
    buckets: map<int, FiveMinuteBucket>, seen: set<int>, ghost rows: seq<Row>, row: Row, start: int, end: int)
    returns (next: map<int, FiveMinuteBucket>, ids: set<int>, error: Option<ArchiveError>)
    requires Reading(buckets, seen, rows, start, end)
    modifies buckets.Values
    ensures fresh(next.Values - buckets.Values)
    ensures error.None? ==> Reading(next, ids, rows + [row], start, end)
    ensures error.Some? ==> !Clean(rows + [row], start, end)
  {
    hide Holds, DistinctIds, AllValid, ValidRow, SeenIds, Taken, Separate, InRange;
    CleanNext(rows, row, start, end);
    next, ids, error := TakeRow(buckets, seen, row, start, end, InRange(rows, start, end));
  }

  method ReadRows(rows: seq<Row>, start: int, end: int)
    returns (buckets: map<int, FiveMinuteBucket>, error: Option<ArchiveError>)
    ensures error.None? <==> Clean(rows, start, end)
    ensures error.None? ==> Holds(buckets, InRange(rows, start, end)) && Separate(buckets)
    ensures fresh(buckets.Values)
  {
    buckets, error := map[], None;
    var seen: set<int> := {};
    EmptyBuckets();
    assert Reading(buckets, seen, [], start, end);
    hide Clean, Holds;
    for i := 0 to |rows|
      invariant error.None? && fresh(buckets.Values)
      invariant Reading(buckets, seen, rows[..i], start, end)
    {
      hide Reading;
      assert rows[..i + 1] == rows[..i] + [rows[i]];
      buckets, seen, error := ReadRow(buckets, seen, rows[..i], rows[i], start, end);
      if error.Some? {
        if Clean(rows, start, end) { CleanPrefix(rows, start, end, i + 1); }
        return;
      }
    }
    assert rows[..|rows|] == rows;
  }

  ghost predicate SeenIds(seen: set<int>, deals: seq<Deal>)
  {
    forall id :: id in seen <==> exists d :: d in deals && d.id == id
  }

  lemma EmptyBuckets()
    ensures DistinctIds(multiset{}) && (forall k :: OfBucket([], k) == []) && SeenIds({}, [])
  {
  }

  lemma OneMore(deals: seq<Deal>, seen: set<int>, d: Deal)
    requires DistinctIds(multiset(deals)) && SeenIds(seen, deals)
    ensures DistinctIds(multiset(deals + [d])) <==> d.id !in seen
    ensures SeenIds(seen + {d.id}, deals + [d])
  {
    var all := multiset(deals + [d]);
    assert all == multiset(deals) + multiset{d};
    forall e | e in deals && e.id == d.id ensures !DistinctIds(all) {
      assert e in all && d in all;
      if e == d { assert all[d] >= 2; }
    }
    forall id ensures id in seen + {d.id} <==> exists e :: e in deals + [d] && e.id == id {
      if id in seen {
        var e :| e in deals && e.id == id;
        assert e in deals + [d];
      }
      assert d in deals + [d];
    }
  }

  lemma CleanPrefix(rows: seq<Row>, start: int, end: int, k: nat)
    requires k <= |rows| && Clean(rows, start, end)
    ensures Clean(rows[..k], start, end)
    decreases |rows|
  {
    hide DistinctIds, ValidRow;
    if k == |rows| {
      assert rows[..k] == rows;
    } else {
      var init := rows[..|rows| - 1];
      assert init[..k] == rows[..k];
      FewerDistinct(multiset(InRange(rows, start, end)), multiset(InRange(init, start, end)));
      CleanPrefix(init, start, end, k);
    }
  }

  /** The whole reconstruction: it succeeds exactly for a complete archive. */
  method ParseArchive(symbol: string, rows: seq<Row>, start: int, end: int)
    returns (r: Result<seq<Candle>, ArchiveError>)
    ensures r.Ok? <==> Complete(rows, start, end)
    ensures r.Ok? ==> r.value == Rebuilt(symbol, InRange(rows, start, end), Expected(start, end))
  {
    hide Folded, OfBucket, DistinctIds, AllValid, InRange;
    var buckets, error := ReadRows(rows, start, end);
    if error.Some? { return Err(error.value); }
    ghost var deals := InRange(rows, start, end);
    if deals == [] {
      NoDealNoBucket(deals);
      forall k ensures k !in buckets {
        assert OfBucket(deals, k) == [];
      }
      assert buckets.Keys == {};
    }
    if buckets.Keys == {} {
      assert deals == [] by { NoBucketNoDeal(deals); }
      return Err(NoTrades);
    }
    var stamps := Expected(start, end);
    if exists stamp :: stamp in stamps && stamp !in buckets { return Err(MissingBucket); }
    if exists stamp :: stamp in buckets && stamp !in stamps {
      var k :| k in buckets && k !in stamps;
      assert OfBucket(deals, k) != [];
      InABucket(deals, k);
      return Err(OutOfRangeBucket);
    }
    forall i | 0 <= i < |deals| ensures Stamp(deals[i]) in stamps { DealHasBucket(deals, i); }
    var candles := Collect(symbol, buckets, deals, stamps);
    RebuiltIsValid(symbol, rows, start, end);
    var reasons := ValidateCandles(candles, M5);
    if reasons != [] { return Err(BadQuality); }
    return Ok(candles);
  }

  method Collect(symbol: string, buckets: map<int, FiveMinuteBucket>, ghost deals: seq<Deal>, stamps: seq<int>)
    returns (candles: seq<Candle>)
    requires Holds(buckets, deals) && forall stamp :: stamp in stamps ==> stamp in buckets
    ensures forall stamp :: stamp in stamps ==> OfBucket(deals, stamp) != []
    ensures candles == Rebuilt(symbol, deals, stamps)
  {
    hide Folded, OfBucket;
    candles := [];
    for i := 0 to |stamps|
      invariant candles == Rebuilt(symbol, deals, stamps[..i])
    {
      assert stamps[..i + 1][..i] == stamps[..i];
      candles := candles + [CandleAt(symbol, stamps[i], buckets[stamps[i]].View().value)];
    }
    assert stamps[..|stamps|] == stamps;
  }

  lemma {:induction false} DealHasBucket(deals: seq<Deal>, i: nat)
    requires i < |deals|
    ensures OfBucket(deals, Stamp(deals[i])) != []
  {
    hide Stamp;
    if i < |deals| - 1 { DealHasBucket(deals[..|deals| - 1], i); }
  }

  lemma NoDealNoBucket(deals: seq<Deal>)
    requires deals == []
    ensures forall k :: OfBucket(deals, k) == []
  {
  }

  lemma NoBucketNoDeal(deals: seq<Deal>)
    requires forall k :: OfBucket(deals, k) == []
    ensures deals == []
  {
    hide OfBucket;
    if deals != [] { DealHasBucket(deals, 0); }
  }

  lemma {:induction false} InABucket(deals: seq<Deal>, k: int)
    requires OfBucket(deals, k) != []
    ensures exists i :: 0 <= i < |deals| && Stamp(deals[i]) == k
  {
    hide Stamp;
    if Stamp(deals[|deals| - 1]) != k { InABucket(deals[..|deals| - 1], k); }
  }
}
