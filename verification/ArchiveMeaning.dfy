/** What a rebuilt candle says about the rows of the archive. */
module ArchiveMeaning {
  import opened Prelude
  import opened Candles
  import opened CandleQuality
  import opened DealsArchive

  /** The whole seconds of a time, toward zero. */
  lemma TruncatedIs(x: real)
    ensures x >= 0.0 ==> Truncated(x) as real <= x < (Truncated(x) + 1) as real
    ensures x < 0.0 ==> (Truncated(x) - 1) as real < x <= Truncated(x) as real
  {
  }

  /** The row lies in the range asked for and in the five minutes from this time on. */
  predicate Falls(row: Row, start: int, end: int, from: int)
  {
    start as real <= row.deal.time < end as real && from <= Truncated(row.deal.time) < from + 300
  }

  /** The deals of those five minutes, in the order of the archive. */
  function Falling(rows: seq<Row>, start: int, end: int, from: int): seq<Deal>
  {
    if rows == [] then []
    else
      var row := rows[|rows| - 1];
      Falling(rows[..|rows| - 1], start, end, from) + if Falls(row, start, end, from) then [row.deal] else []
  }

  /** The quote currency that changed hands. */
  function Turnover(deals: seq<Deal>): real
  {
    if deals == [] then 0.0
    else Turnover(deals[..|deals| - 1]) + deals[|deals| - 1].price * deals[|deals| - 1].amount
  }

  /** Earlier in time, or at the same time with a smaller id. */
  predicate Earlier(a: Deal, b: Deal)
  {
    a.time < b.time || (a.time == b.time && a.id < b.id)
  }

  /** Open and close are the prices of the earliest and latest deal, high and low are the extremes. */
  ghost predicate Says(c: Candle, deals: seq<Deal>)
  {
    && (exists d :: d in deals && d.price == c.open && forall e :: e in deals ==> !Earlier(e, d))
    && (exists d :: d in deals && d.price == c.close && forall e :: e in deals ==> !Earlier(d, e))
    && (forall d :: d in deals ==> c.low <= d.price <= c.high)
    && (exists d :: d in deals && d.price == c.high) && (exists d :: d in deals && d.price == c.low)
    && c.volume == Turnover(deals)
  }

  lemma InStep(time: int, from: int, q: int)
    requires from == 300 * q
    ensures time - time % 300 == from <==> from <= time < from + 300
  {
    if from <= time < from + 300 { QuotientUnique(300, time / 300, time % 300, q, time - from); }
  }

  lemma {:induction false} BucketIsFalling(rows: seq<Row>, start: int, end: int, from: int, q: int)
    requires from == 300 * q
    ensures OfBucket(InRange(rows, start, end), from) == Falling(rows, start, end, from)
  {
    hide Truncated;
    if rows != [] {
      var init, row := rows[..|rows| - 1], rows[|rows| - 1];
      var before := InRange(init, start, end);
      BucketIsFalling(init, start, end, from, q);
      InStep(Truncated(row.deal.time), from, q);
      assert before + [] == before && (before + [row.deal])[..|before|] == before;
    }
  }

  lemma {:induction false} TurnoverIs(deals: seq<Deal>)
    ensures TotalQuote(deals) == Turnover(deals)
  {
    if deals != [] { TurnoverIs(deals[..|deals| - 1]); }
  }

  /** The candle of one bucket. */
  lemma BucketSays(symbol: string, stamp: int, deals: seq<Deal>)
    requires deals != []
    ensures Folded(deals).Some? && Says(CandleAt(symbol, stamp, Folded(deals).value), deals)
  {
    hide Folded, Turnover, TotalQuote;
    EndsAreTrades(deals);
    FoldedIsOhlcv(deals);
    FoldedExtremes(deals);
    TurnoverIs(deals);
  }

  lemma {:induction false} RebuiltAt(symbol: string, deals: seq<Deal>, stamps: seq<int>, k: nat)
    requires forall stamp :: stamp in stamps ==> OfBucket(deals, stamp) != []
    requires k < |stamps|
    ensures |Rebuilt(symbol, deals, stamps)| == |stamps|
    ensures var bucket := OfBucket(deals, stamps[k]);
      Folded(bucket).Some? && Rebuilt(symbol, deals, stamps)[k] == CandleAt(symbol, stamps[k], Folded(bucket).value)
  {
    hide Folded, OfBucket;
    var init := stamps[..|stamps| - 1];
    if init != [] { RebuiltAt(symbol, deals, init, if k < |init| then k else 0); }
    EndsAreTrades(OfBucket(deals, stamps[k]));
  }

  lemma {:induction false} GridAt(start: int, end: int, k: nat)
    requires k < |Expected(start, end)|
    ensures Expected(start, end)[k] == start + 300 * k < end
    ensures |Expected(start, end)| == k + 1 ==> end <= start + 300 * (k + 1)
    decreases k
  {
    if k > 0 { GridAt(start + STEP, end, k - 1); }
  }

  lemma Aligned(rows: seq<Row>, start: int, end: int, k: nat)
    requires Complete(rows, start, end) && k < |Expected(start, end)|
    ensures exists q :: Expected(start, end)[k] == 300 * q
  {
    hide Truncated, InRange, OfBucket, AllValid, DistinctIds;
    var deals := InRange(rows, start, end);
    assert Stamp(deals[0]) in Expected(start, end);
    var i :| 0 <= i < |Expected(start, end)| && Expected(start, end)[i] == Stamp(deals[0]);
    GridAt(start, end, i);
    GridAt(start, end, k);
    var whole := Truncated(deals[0].time);
    assert whole - whole % 300 == 300 * (whole / 300);
    assert Expected(start, end)[k] == 300 * (whole / 300 - i + k);
  }

  /**
   * Candle k of a rebuilt archive starts 300 k seconds after the start and says exactly what the deals
   * of its five minutes say.
   */
  lemma ArchiveSays(symbol: string, rows: seq<Row>, start: int, end: int, k: nat)
    requires Complete(rows, start, end) && k < |Expected(start, end)|
    ensures var candles := Rebuilt(symbol, InRange(rows, start, end), Expected(start, end));
      && |candles| == |Expected(start, end)|
      && candles[k].symbol == symbol && candles[k].timeframe == M5 && candles[k].timestamp == start + 300 * k
      && Falling(rows, start, end, start + 300 * k) != []
      && Says(candles[k], Falling(rows, start, end, start + 300 * k))
  {
    hide Folded, Says, Falling, InRange, OfBucket, AllValid, DistinctIds, Stamp;
    GridAt(start, end, k);
    RebuiltAt(symbol, InRange(rows, start, end), Expected(start, end), k);
    Aligned(rows, start, end, k);
    var q :| Expected(start, end)[k] == 300 * q;
    BucketIsFalling(rows, start, end, start + 300 * k, q);
    BucketSays(symbol, start + 300 * k, OfBucket(InRange(rows, start, end), start + 300 * k));
  }

  // -------------------------------------------------------------- what is accepted

  /** Row i lies in the range and has the id of row k, which does too. */
  predicate SameId(rows: seq<Row>, start: int, end: int, i: nat, k: nat)
    requires i < |rows| && k < |rows|
  {
    && start as real <= rows[i].deal.time < end as real && start as real <= rows[k].deal.time < end as real
    && rows[i].deal.id == rows[k].deal.id
  }

  lemma InRangeSnoc(rows: seq<Row>, start: int, end: int)
    requires rows != []
    ensures InRange(rows, start, end) == Taken(InRange(rows[..|rows| - 1], start, end), rows[|rows| - 1], start, end)
  {
    var before := InRange(rows[..|rows| - 1], start, end);
    assert before + [] == before;
  }

  lemma {:induction false} InRangeHas(rows: seq<Row>, start: int, end: int, d: Deal)
    ensures d in InRange(rows, start, end)
      <==> exists i :: 0 <= i < |rows| && rows[i].deal == d && start as real <= d.time < end as real
  {
    if rows != [] {
      var init := rows[..|rows| - 1];
      InRangeHas(init, start, end, d);
      if d in InRange(init, start, end) {
        var i :| 0 <= i < |init| && init[i].deal == d && start as real <= d.time < end as real;
        assert rows[i].deal == d;
      }
    }
  }

  /** The ids in range are distinct exactly when no two rows in range share one. */
  lemma {:induction false} DistinctExactly(rows: seq<Row>, start: int, end: int)
    ensures DistinctIds(multiset(InRange(rows, start, end)))
      <==> forall i, k :: 0 <= i < k < |rows| ==> !SameId(rows, start, end, i, k)
  {
    hide InRange, DistinctIds, SameId;
    if rows == [] {
      NoRows(start, end);
    } else {
      var init, last := rows[..|rows| - 1], rows[|rows| - 1];
      DistinctExactly(init, start, end);
      InRangeSnoc(rows, start, end);
      forall i: nat, k: nat | i < k < |init|
        ensures SameId(rows, start, end, i, k) == SameId(init, start, end, i, k)
      {
        SameRows(rows, start, end, i, k);
      }
      if start as real <= last.deal.time < end as real {
        OneMoreDistinct(InRange(init, start, end), last.deal);
        LastRepeats(rows, start, end);
      } else {
        LastOutside(rows, start, end);
      }
    }
  }

  lemma NoRows(start: int, end: int)
    ensures DistinctIds(multiset(InRange([], start, end)))
  {
  }

  lemma SameRows(rows: seq<Row>, start: int, end: int, i: nat, k: nat)
    requires i < k < |rows| - 1
    ensures SameId(rows, start, end, i, k) == SameId(rows[..|rows| - 1], start, end, i, k)
  {
  }

  lemma LastOutside(rows: seq<Row>, start: int, end: int)
    requires rows != [] && !(start as real <= rows[|rows| - 1].deal.time < end as real)
    ensures forall i: nat, k: nat :: i < k == |rows| - 1 ==> !SameId(rows, start, end, i, k)
  {
  }

  lemma LastRepeats(rows: seq<Row>, start: int, end: int)
    requires rows != [] && start as real <= rows[|rows| - 1].deal.time < end as real
    ensures (exists d :: d in InRange(rows[..|rows| - 1], start, end) && d.id == rows[|rows| - 1].deal.id)
      <==> exists i: nat, k: nat :: i < k == |rows| - 1 && SameId(rows, start, end, i, k)
  {
    hide InRange;
    var init, last := rows[..|rows| - 1], rows[|rows| - 1].deal;
    if d :| d in InRange(init, start, end) && d.id == last.id {
      InRangeHas(init, start, end, d);
      var i :| 0 <= i < |init| && init[i].deal == d && start as real <= d.time < end as real;
      assert SameId(rows, start, end, i, |rows| - 1);
    }
    if i: nat, k: nat :| i < k == |rows| - 1 && SameId(rows, start, end, i, k) {
      assert init[i] == rows[i];
      InRangeHas(init, start, end, rows[i].deal);
    }
  }

  lemma OneMoreDistinct(deals: seq<Deal>, d: Deal)
    ensures DistinctIds(multiset(deals + [d]))
      <==> DistinctIds(multiset(deals)) && forall e :: e in deals ==> e.id != d.id
  {
    var all := multiset(deals + [d]);
    assert all == multiset(deals) + multiset{d};
    if DistinctIds(all) {
      FewerDistinct(all, multiset(deals));
      forall e | e in deals ensures e.id != d.id {
        assert e in all && d in all && all[d] <= 1;
        assert e in multiset(deals);
      }
    }
    if DistinctIds(multiset(deals)) && forall e :: e in deals ==> e.id != d.id {
      assert d !in multiset(deals);
      forall x, y | x in all && y in all && x.id == y.id ensures x == y {
        assert x == d || x in deals;
        assert y == d || y in deals;
      }
      forall x ensures all[x] <= 1 { }
    }
  }

  /**
   * Rows are accepted exactly when every one has a positive price, an amount that is not negative and
   * side 1 or 2, and no two in range share an id.
   */
  lemma CleanExactly(rows: seq<Row>, start: int, end: int)
    ensures Clean(rows, start, end) <==>
      && (forall i :: 0 <= i < |rows| ==>
            rows[i].deal.price > 0.0 && rows[i].deal.amount >= 0.0 && (rows[i].side == "1" || rows[i].side == "2"))
      && forall i, k :: 0 <= i < k < |rows| ==> !SameId(rows, start, end, i, k)
  {
    hide InRange, DistinctIds, SameId;
    DistinctExactly(rows, start, end);
  }
}
