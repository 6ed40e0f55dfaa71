/** OHLCV candles and the stable sort by timestamp that readers apply to them. */
module Candles {
  import opened Prelude

  datatype Timeframe = M5 | M15 | H1 | H4 | D1
  {
    function Seconds(): nat
    {
      match this
      case M5 => 300
      case M15 => 900
      case H1 => 3600
      case H4 => 14400
      case D1 => 86400
    }
  }

  datatype Candle = Candle(
    symbol: string,
    timeframe: Timeframe,
    timestamp: int,
    open: real,
    high: real,
    low: real,
    close: real,
    volume: real)

  predicate Chronological(cs: seq<Candle>)
  {
    forall i, j :: 0 <= i < j < |cs| ==> cs[i].timestamp < cs[j].timestamp
  }

  predicate NonDecreasing(cs: seq<Candle>)
  {
    forall i, j :: 0 <= i < j < |cs| ==> cs[i].timestamp <= cs[j].timestamp
  }

  /** Stable insertion: an equal timestamp stays in front of the new candle. */
  function Insert(cs: seq<Candle>, c: Candle): seq<Candle>
  {
    if cs == [] || cs[|cs| - 1].timestamp <= c.timestamp then cs + [c]
    else Insert(cs[..|cs| - 1], c) + [cs[|cs| - 1]]
  }

  /** sorted(candles, key=timestamp). */
  function Ordered(cs: seq<Candle>): seq<Candle>
  {
    if cs == [] then [] else Insert(Ordered(cs[..|cs| - 1]), cs[|cs| - 1])
  }

  lemma {:induction false} InsertKeeps(cs: seq<Candle>, c: Candle)
    ensures multiset(Insert(cs, c)) == multiset(cs) + multiset{c}
  {
    if cs != [] && cs[|cs| - 1].timestamp > c.timestamp {
      InsertKeeps(cs[..|cs| - 1], c);
      assert cs == cs[..|cs| - 1] + [cs[|cs| - 1]];
    }
  }

  lemma {:induction false} InsertSorts(cs: seq<Candle>, c: Candle)
    requires NonDecreasing(cs)
    ensures NonDecreasing(Insert(cs, c))
  {
    if cs != [] && cs[|cs| - 1].timestamp > c.timestamp {
      var init, last := cs[..|cs| - 1], cs[|cs| - 1];
      InsertSorts(init, c);
      InsertKeeps(init, c);
      var r := Insert(init, c);
      forall i | 0 <= i < |r|
        ensures r[i].timestamp <= last.timestamp
      {
        assert r[i] in multiset(r);
        if r[i] != c {
          assert r[i] in multiset(init);
          var k :| 0 <= k < |init| && init[k] == r[i];
          assert cs[k].timestamp <= cs[|cs| - 1].timestamp;
        }
      }
    }
  }

  /** The sort orders its input and neither drops nor invents a candle. */
  lemma {:induction false} OrderedSorts(cs: seq<Candle>)
    ensures NonDecreasing(Ordered(cs))
    ensures multiset(Ordered(cs)) == multiset(cs)
  {
    if cs != [] {
      assert cs == cs[..|cs| - 1] + [cs[|cs| - 1]];
      OrderedSorts(cs[..|cs| - 1]);
      InsertSorts(Ordered(cs[..|cs| - 1]), cs[|cs| - 1]);
      InsertKeeps(Ordered(cs[..|cs| - 1]), cs[|cs| - 1]);
    }
  }

  /** An ordered list is left as it is, equal timestamps included. */
  lemma {:induction false} OrderedFixpoint(cs: seq<Candle>)
    requires NonDecreasing(cs)
    ensures Ordered(cs) == cs
  {
    if cs != [] {
      var init := cs[..|cs| - 1];
      OrderedFixpoint(init);
      assert cs == init + [cs[|cs| - 1]];
      if init != [] {
        assert cs[|cs| - 2].timestamp <= cs[|cs| - 1].timestamp;
      }
    }
  }

  // ------------------------------------------------------------------ any order

  ghost predicate DistinctTimes(cs: seq<Candle>)
  {
    forall i, j :: 0 <= i < j < |cs| ==> cs[i].timestamp != cs[j].timestamp
  }

  lemma Twice(cs: seq<Candle>, i: nat, j: nat)
    requires i < j < |cs| && cs[i] == cs[j]
    ensures multiset(cs)[cs[i]] >= 2
  {
    assert cs == cs[..i] + [cs[i]] + cs[i + 1..j] + [cs[j]] + cs[j + 1..];
  }

  lemma TwoPlaces(cs: seq<Candle>, c: Candle)
    requires multiset(cs)[c] >= 2
    ensures exists i, j :: 0 <= i < j < |cs| && cs[i] == c && cs[j] == c
  {
    var (l, r) := Around(cs, c);
    var rest := l + r;
    assert c in multiset(rest);
    var k :| 0 <= k < |rest| && rest[k] == c;
    assert cs[|l|] == c;
    assert cs[if k < |l| then k else k + 1] == c;
  }

  lemma DistinctAnyOrder(a: seq<Candle>, b: seq<Candle>)
    requires multiset(a) == multiset(b) && DistinctTimes(a)
    ensures DistinctTimes(b)
  {
    forall i, j | 0 <= i < j < |b| ensures b[i].timestamp != b[j].timestamp {
      if b[i] == b[j] {
        Twice(b, i, j);
        TwoPlaces(a, b[i]);
      } else {
        assert b[i] in multiset(b) && b[j] in multiset(b);
        var k :| 0 <= k < |a| && a[k] == b[i];
        var l :| 0 <= l < |a| && a[l] == b[j];
        assert a[if k < l then k else l].timestamp != a[if k < l then l else k].timestamp;
      }
    }
  }

  /** In an ordered list, neighbours with different times are enough for strict order. */
  lemma {:induction false} NeighboursDecide(cs: seq<Candle>)
    requires NonDecreasing(cs) && forall i :: 0 < i < |cs| ==> cs[i].timestamp != cs[i - 1].timestamp
    ensures Chronological(cs)
  {
    if |cs| > 1 {
      NeighboursDecide(cs[..|cs| - 1]);
      assert cs[|cs| - 2].timestamp < cs[|cs| - 1].timestamp;
    }
  }

  lemma SameLast(a: seq<Candle>, b: seq<Candle>)
    requires Chronological(a) && NonDecreasing(b) && multiset(a) == multiset(b) && a != [] && b != []
    ensures a[|a| - 1] == b[|b| - 1]
  {
    var x, y := a[|a| - 1], b[|b| - 1];
    assert x in multiset(b) && y in multiset(a);
    var i :| 0 <= i < |a| && a[i] == y;
    var j :| 0 <= j < |b| && b[j] == x;
    assert j < |b| - 1 ==> b[j].timestamp <= y.timestamp;
  }

  lemma WithoutLast(a: seq<Candle>, b: seq<Candle>)
    requires multiset(a) == multiset(b) && a != [] && b != [] && a[|a| - 1] == b[|b| - 1]
    ensures multiset(a[..|a| - 1]) == multiset(b[..|b| - 1])
  {
    assert a == a[..|a| - 1] + [a[|a| - 1]] && b == b[..|b| - 1] + [b[|b| - 1]];
    assert multiset(a[..|a| - 1]) == multiset(a) - multiset{a[|a| - 1]};
  }

  /** There is only one way to put distinct times in order. */
  lemma {:induction false} OneOrder(a: seq<Candle>, b: seq<Candle>)
    requires Chronological(a) && NonDecreasing(b) && multiset(a) == multiset(b)
    ensures a == b
  {
    assert |a| == |multiset(a)| && |b| == |multiset(b)|;
    if a != [] {
      SameLast(a, b);
      WithoutLast(a, b);
      OneOrder(a[..|a| - 1], b[..|b| - 1]);
      assert a == a[..|a| - 1] + [a[|a| - 1]] && b == b[..|b| - 1] + [b[|b| - 1]];
    }
  }

  /** Sorting finds a repeated time as neighbours exactly when there is one. */
  lemma RepeatsExactly(cs: seq<Candle>)
    ensures DistinctTimes(cs) <==> Chronological(Ordered(cs))
    ensures DistinctTimes(cs) <==>
      !exists i :: 0 < i < |Ordered(cs)| && Ordered(cs)[i].timestamp == Ordered(cs)[i - 1].timestamp
  {
    var sorted := Ordered(cs);
    OrderedSorts(cs);
    if DistinctTimes(cs) {
      DistinctAnyOrder(cs, sorted);
      NeighboursDecide(sorted);
    }
    if Chronological(sorted) { DistinctAnyOrder(sorted, cs); }
    if !exists i :: 0 < i < |sorted| && sorted[i].timestamp == sorted[i - 1].timestamp {
      NeighboursDecide(sorted);
      DistinctAnyOrder(sorted, cs);
    }
  }

  /** Candles with distinct times sort alike from every order. */
  lemma OrderedAnyOrder(a: seq<Candle>, b: seq<Candle>)
    requires multiset(a) == multiset(b)
    ensures DistinctTimes(a) <==> DistinctTimes(b)
    ensures DistinctTimes(a) ==> Ordered(a) == Ordered(b)
  {
    if DistinctTimes(a) { DistinctAnyOrder(a, b); }
    if DistinctTimes(b) { DistinctAnyOrder(b, a); }
    RepeatsExactly(a);
    OrderedSorts(a);
    OrderedSorts(b);
    if DistinctTimes(a) { OneOrder(Ordered(a), Ordered(b)); }
  }
}
