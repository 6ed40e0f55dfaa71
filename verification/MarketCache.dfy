/** The bounded candle cache in front of the unbounded history, and when it can be seen. */
module MarketCache {
  import opened Prelude
  import opened Candles

  type SeriesKey = (string, Timeframe)
  type History = map<(SeriesKey, int), Candle>

  function KeyOf(c: Candle): SeriesKey { (Uppercase(c.symbol), c.timeframe) }

  // -------------------------------------------------------------------- one series

  /** Put by timestamp and sort again: the latest write of a timestamp wins. */
  function Upserted(series: seq<Candle>, c: Candle): seq<Candle>
  {
    if series == [] || series[|series| - 1].timestamp < c.timestamp then series + [c]
    else if series[|series| - 1].timestamp == c.timestamp then series[..|series| - 1] + [c]
    else Upserted(series[..|series| - 1], c) + [series[|series| - 1]]
  }

  lemma {:induction false} UpsertedKeeps(series: seq<Candle>, c: Candle)
    requires Chronological(series)
    ensures Chronological(Upserted(series, c)) && c in Upserted(series, c)
    ensures forall x :: x in Upserted(series, c) <==> x == c || (x in series && x.timestamp != c.timestamp)
  {
    if series != [] {
      var init, last := series[..|series| - 1], series[|series| - 1];
      assert series == init + [last];
      if last.timestamp > c.timestamp {
        UpsertedKeeps(init, c);
      }
    }
  }

  lemma {:induction false} UpsertedLength(series: seq<Candle>, c: Candle)
    ensures |series| <= |Upserted(series, c)| <= |series| + 1
  {
    if series != [] { UpsertedLength(series[..|series| - 1], c); }
  }

  /** Keeping only the newest N loses nothing that a later put could bring back. */
  lemma {:induction false} NewestCommutes(series: seq<Candle>, c: Candle, n: nat)
    ensures Last(Upserted(Last(series, n), c), n) == Last(Upserted(series, c), n)
  {
    hide Upserted, Last;
    if n == 0 || |series| <= n {
      LastAll(series, n);
      LastAll(Upserted(series, c), n);
      LastAll(Upserted([], c), n);
    } else {
      var init, last := series[..|series| - 1], series[|series| - 1];
      var kept := Last(init, n - 1);
      assert series == init + [last];
      NewestSnoc(init, last, n);
      UpsertedSnoc(init, last, c);
      UpsertedSnoc(kept, last, c);
      if last.timestamp < c.timestamp {
        NewestSnoc(series, c, n);
        NewestSnoc(kept + [last], c, n);
        assert Last(series, n - 1) == Last(kept + [last], n - 1) by { LastTwice(init, last, n); }
      } else if last.timestamp == c.timestamp {
        NewestSnoc(init, c, n);
        NewestSnoc(kept, c, n);
        LastAll(kept, n - 1);
      } else {
        NewestCommutes(init, c, n - 1);
        NewestSnoc(Upserted(init, c), last, n);
        NewestSnoc(Upserted(kept, c), last, n);
      }
    }
  }

  lemma UpsertedSnoc(init: seq<Candle>, last: Candle, c: Candle)
    ensures Upserted(init + [last], c)
         == if last.timestamp < c.timestamp then init + [last] + [c]
            else if last.timestamp == c.timestamp then init + [c]
            else Upserted(init, c) + [last]
  {
    assert (init + [last])[..|init|] == init;
  }

  lemma LastAll(s: seq<Candle>, n: nat)
    ensures |s| <= n ==> Last(s, n) == s
    ensures n == 0 ==> Last(s, n) == []
  {
  }

  lemma LastTwice(init: seq<Candle>, last: Candle, n: nat)
    requires n > 0
    ensures Last(init + [last], n - 1) == Last(Last(init, n - 1) + [last], n - 1)
  {
  }

  lemma NewestSnoc(s: seq<Candle>, x: Candle, n: nat)
    requires n > 0
    ensures Last(s + [x], n) == Last(s, n - 1) + [x]
  {
  }

  // ------------------------------------------------------------------- the history

  /** The series is exactly what the history holds under the key, oldest first. */
  ghost predicate Lists(h: History, key: SeriesKey, s: seq<Candle>)
  {
    && Chronological(s)
    && (forall i :: 0 <= i < |s| ==> (key, s[i].timestamp) in h && h[(key, s[i].timestamp)] == s[i])
    && (forall t :: (key, t) in h ==> exists i :: 0 <= i < |s| && s[i].timestamp == t)
  }

  /** Every candle is filed under its own key and time. */
  ghost predicate Filed(h: History)
  {
    forall k :: k in h ==> KeyOf(h[k]) == k.0 && h[k].timestamp == k.1
  }

  lemma {:induction false} ListsUnique(h: History, key: SeriesKey, a: seq<Candle>, b: seq<Candle>)
    requires Lists(h, key, a) && Lists(h, key, b)
    ensures a == b
    decreases |a|
  {
    assert a != [] ==> (key, a[0].timestamp) in h;
    assert b != [] ==> (key, b[0].timestamp) in h;
    if a != [] && b != [] {
      var x, y := a[|a| - 1], b[|b| - 1];
      assert (key, x.timestamp) in h && (key, y.timestamp) in h;
      assert x.timestamp == y.timestamp;
      WithoutLast(h, key, a);
      WithoutLast(h, key, b);
      ListsUnique(h - {(key, x.timestamp)}, key, a[..|a| - 1], b[..|b| - 1]);
      assert a == a[..|a| - 1] + [x] && b == b[..|b| - 1] + [y];
    }
  }

  lemma WithoutLast(h: History, key: SeriesKey, s: seq<Candle>)
    requires s != [] && Lists(h, key, s)
    ensures Lists(h - {(key, s[|s| - 1].timestamp)}, key, s[..|s| - 1])
  {
  }

  lemma ListsUpserted(h: History, key: SeriesKey, s: seq<Candle>, c: Candle)
    requires Lists(h, key, s)
    ensures KeyOf(c) == key ==> Lists(h[(key, c.timestamp) := c], key, Upserted(s, c))
    ensures KeyOf(c) != key ==> Lists(h[(KeyOf(c), c.timestamp) := c], key, s)
  {
    hide Upserted;
    if KeyOf(c) == key {
      UpsertedKeeps(s, c);
      var next, t := h[(key, c.timestamp) := c], Upserted(s, c);
      forall i | 0 <= i < |t| ensures (key, t[i].timestamp) in next && next[(key, t[i].timestamp)] == t[i] {
        assert t[i] in t;
      }
      forall time | (key, time) in next ensures exists i :: 0 <= i < |t| && t[i].timestamp == time {
        if time == c.timestamp {
          assert c in t;
        } else {
          var i :| 0 <= i < |s| && s[i].timestamp == time;
          assert s[i] in t;
        }
      }
    }
  }

  lemma ListedInOrder(h: History, key: SeriesKey, s: seq<Candle>)
    requires Lists(h, key, s)
    ensures Chronological(s)
  {
  }

  lemma {:induction false} UpsertedAgain(series: seq<Candle>, c: Candle)
    requires Chronological(series) && c in series
    ensures Upserted(series, c) == series
  {
    var init, last := series[..|series| - 1], series[|series| - 1];
    assert series == init + [last];
    if last != c { UpsertedAgain(init, c); }
  }

  // ------------------------------------------------------------- visible or not

  /** A read of the newest candles answers from the cache when it holds enough of them. */
  function CachedRead(cached: seq<Candle>, stored: seq<Candle>, provided: seq<Candle>, limit: nat): seq<Candle>
  {
    if |cached| >= limit then Last(cached, limit) else PlainRead(stored, provided, limit)
  }

  /** The same read with no cache at all. */
  function PlainRead(stored: seq<Candle>, provided: seq<Candle>, limit: nat): seq<Candle>
  {
    if |stored| >= limit then Last(stored, limit) else provided
  }

  predicate IsSuffix(cached: seq<Candle>, stored: seq<Candle>)
  {
    |cached| <= |stored| && cached == stored[|stored| - |cached|..]
  }

  /** The cache is invisible to every read exactly when it is the newest part of the history. */
  lemma InvisibleExactly(cached: seq<Candle>, stored: seq<Candle>)
    ensures IsSuffix(cached, stored) <==>
      forall provided, limit: nat :: limit > 0 ==>
        CachedRead(cached, stored, provided, limit) == PlainRead(stored, provided, limit)
  {
    if IsSuffix(cached, stored) {
      forall provided, limit: nat | limit > 0
        ensures CachedRead(cached, stored, provided, limit) == PlainRead(stored, provided, limit)
      {
      }
    } else {
      var longer := cached + cached + cached;
      assert |longer| != |cached|;
      assert CachedRead(cached, stored, longer, |cached|) != PlainRead(stored, longer, |cached|);
    }
  }

  // -------------------------------------------------- writes to a cache that lacks some

  /** Everything in the whole that the part lacks is older than all of the part. */
  ghost predicate RestOlder(part: seq<Candle>, whole: seq<Candle>)
  {
    forall x, k :: x in whole && x !in part && k in part ==> x.timestamp < k.timestamp
  }

  lemma RestOlderSnoc(part: seq<Candle>, whole: seq<Candle>, last: Candle)
    requires forall x :: x in whole ==> x.timestamp < last.timestamp
    requires forall x :: x in part ==> x in whole
    ensures RestOlder(part + [last], whole + [last]) <==> RestOlder(part, whole)
  {
    if RestOlder(part + [last], whole + [last]) {
      forall x, k | x in whole && x !in part && k in part ensures x.timestamp < k.timestamp {
        assert x in whole + [last] && k in part + [last];
      }
    }
  }

  /** Part of a series is its newest part exactly when everything else in the series is older. */
  lemma {:induction false} SuffixExactly(part: seq<Candle>, whole: seq<Candle>)
    requires Chronological(part) && Chronological(whole) && forall x :: x in part ==> x in whole
    ensures IsSuffix(part, whole) <==> RestOlder(part, whole)
    decreases |part|
  {
    hide Chronological, RestOlder;
    if part == [] {
      NothingNewer(whole);
    } else {
      assert part[0] in part;
      var a, b := part[|part| - 1], whole[|whole| - 1];
      var shorter, rest := part[..|part| - 1], whole[..|whole| - 1];
      assert part == shorter + [a] && whole == rest + [b];
      LastIsNewest(part);
      LastIsNewest(whole);
      assert a in part && a in whole;
      if a == b {
        forall x | x in shorter ensures x in rest {
          assert x in part && x != a;
        }
        SuffixExactly(shorter, rest);
        SuffixSnoc(shorter, rest, a);
        RestOlderSnoc(shorter, rest, a);
      } else {
        MissesNewest(part, whole);
      }
    }
  }

  lemma NothingNewer(whole: seq<Candle>)
    ensures RestOlder([], whole) && IsSuffix([], whole)
  {
  }

  lemma LastIsNewest(s: seq<Candle>)
    requires Chronological(s) && s != []
    ensures Chronological(s[..|s| - 1]) && forall x :: x in s[..|s| - 1] ==> x.timestamp < s[|s| - 1].timestamp
  {
  }

  lemma MissesNewest(part: seq<Candle>, whole: seq<Candle>)
    requires part != [] && whole != [] && part[|part| - 1] != whole[|whole| - 1]
    requires part[|part| - 1].timestamp < whole[|whole| - 1].timestamp
    requires forall x :: x in part ==> x.timestamp <= part[|part| - 1].timestamp
    ensures !RestOlder(part, whole) && !IsSuffix(part, whole)
  {
    assert whole[|whole| - 1] in whole && part[|part| - 1] in part;
  }

  lemma SuffixSnoc(part: seq<Candle>, whole: seq<Candle>, c: Candle)
    ensures IsSuffix(part + [c], whole + [c]) <==> IsSuffix(part, whole)
  {
    if IsSuffix(part + [c], whole + [c]) {
      assert part == (part + [c])[..|part|];
    }
  }

  /** A series once these candles were put into it; only those of its key count. */
  function After(series: seq<Candle>, candles: seq<Candle>, key: SeriesKey): seq<Candle>
  {
    if candles == [] then series
    else
      var before, c := After(series, candles[..|candles| - 1], key), candles[|candles| - 1];
      if KeyOf(c) == key then Upserted(before, c) else before
  }

  /** The same puts into a bounded cache, cut to the newest n after each of them. */
  function CacheAfter(n: nat, cached: seq<Candle>, candles: seq<Candle>, key: SeriesKey): seq<Candle>
  {
    if candles == [] then cached
    else
      var before, c := CacheAfter(n, cached, candles[..|candles| - 1], key), candles[|candles| - 1];
      if KeyOf(c) == key then Last(Upserted(before, c), n) else before
  }

  /** Cutting after every put is cutting once at the end. */
  lemma {:induction false} CacheAfterIsNewest(n: nat, series: seq<Candle>, candles: seq<Candle>, key: SeriesKey)
    ensures CacheAfter(n, Last(series, n), candles, key) == Last(After(series, candles, key), n)
  {
    hide Upserted, Last;
    if candles != [] {
      CacheAfterIsNewest(n, series, candles[..|candles| - 1], key);
      NewestCommutes(After(series, candles[..|candles| - 1], key), candles[|candles| - 1], n);
    }
  }

  /** The last candle written for a time, if there is one. */
  function LatestWrite(candles: seq<Candle>, key: SeriesKey, time: int): Option<Candle>
  {
    if candles == [] then None
    else
      var c := candles[|candles| - 1];
      if KeyOf(c) == key && c.timestamp == time then Some(c) else LatestWrite(candles[..|candles| - 1], key, time)
  }

  /** What a series holds afterwards: the latest write of every time, and what was not rewritten. */
  lemma {:induction false} AfterHolds(series: seq<Candle>, candles: seq<Candle>, key: SeriesKey)
    requires Chronological(series)
    ensures Chronological(After(series, candles, key))
    ensures forall x :: x in After(series, candles, key) <==>
      LatestWrite(candles, key, x.timestamp) == Some(x)
      || (LatestWrite(candles, key, x.timestamp).None? && x in series)
  {
    hide Upserted, Chronological;
    if candles != [] {
      var c := candles[|candles| - 1];
      AfterHolds(series, candles[..|candles| - 1], key);
      if KeyOf(c) == key { UpsertedKeeps(After(series, candles[..|candles| - 1], key), c); }
    }
  }

  /** Stored, but neither cached nor written again by these candles. */
  predicate Forgotten(x: Candle, cached: seq<Candle>, stored: seq<Candle>, candles: seq<Candle>, key: SeriesKey)
  {
    x in stored && x !in cached && LatestWrite(candles, key, x.timestamp).None?
  }

  /** Whatever the cache lacks and these candles do not bring back is older than all it will keep. */
  ghost predicate Harmless(n: nat, cached: seq<Candle>, stored: seq<Candle>, candles: seq<Candle>, key: SeriesKey)
  {
    forall x, k :: Forgotten(x, cached, stored, candles, key) && k in CacheAfter(n, cached, candles, key) ==>
      x.timestamp < k.timestamp
  }

  lemma SuffixParts(part: seq<Candle>, whole: seq<Candle>)
    requires IsSuffix(part, whole) && Chronological(whole)
    ensures Chronological(part) && forall x :: x in part ==> x in whole
    ensures RestOlder(part, whole)
  {
    assert whole == whole[..|whole| - |part|] + part;
  }

  /** Candles written to cache and history leave the cache invisible exactly when they are harmless. */
  lemma WritesExactly(n: nat, cached: seq<Candle>, stored: seq<Candle>, candles: seq<Candle>, key: SeriesKey)
    requires Chronological(stored) && IsSuffix(cached, stored) && |cached| <= n
    ensures IsSuffix(CacheAfter(n, cached, candles, key), After(stored, candles, key))
      <==> Harmless(n, cached, stored, candles, key)
  {
    hide After, CacheAfter, IsSuffix, Chronological, Last;
    var kept := CacheAfter(n, cached, candles, key);
    var whole, full := After(stored, candles, key), After(cached, candles, key);
    SuffixParts(cached, stored);
    AfterHolds(stored, candles, key);
    AfterHolds(cached, candles, key);
    LastWhole(cached, n);
    CacheAfterIsNewest(n, cached, candles, key);
    NewestIsSuffix(full, n);
    SuffixParts(kept, full);
    SuffixExactly(kept, whole);
    forall x ensures Forgotten(x, cached, stored, candles, key) <==> x in whole && x !in full {
    }
  }

  lemma LastWhole(s: seq<Candle>, n: nat)
    requires |s| <= n
    ensures Last(s, n) == s
  {
  }

  lemma NewestIsSuffix(s: seq<Candle>, n: nat)
    ensures IsSuffix(Last(s, n), s)
  {
  }

  // ------------------------------------------------------------- one candle at a time

  lemma {:induction false} UpsertedInFront(cached: seq<Candle>, c: Candle)
    requires forall i :: 0 <= i < |cached| ==> c.timestamp < cached[i].timestamp
    ensures Upserted(cached, c) == [c] + cached
  {
    if cached != [] {
      UpsertedInFront(cached[..|cached| - 1], c);
      assert cached == cached[..|cached| - 1] + [cached[|cached| - 1]];
    }
  }

  /** A candle not older than what comes before the cached part changes the cached part only. */
  lemma {:induction false} UpsertedBehind(init: seq<Candle>, cached: seq<Candle>, c: Candle)
    requires Chronological(init + cached)
    requires init == [] || c.timestamp >= init[|init| - 1].timestamp
    ensures IsSuffix(Upserted(cached, c), Upserted(init + cached, c))
  {
    hide Chronological;
    if cached == [] {
      assert init + cached == init;
      UpsertedLength(init, c);
    } else {
      var shorter, last := cached[..|cached| - 1], cached[|cached| - 1];
      assert init + cached == (init + shorter) + [last] && cached == shorter + [last];
      UpsertedSnoc(init + shorter, last, c);
      UpsertedSnoc(shorter, last, c);
      if last.timestamp > c.timestamp {
        assert Chronological(init + shorter) by { LastIsNewest(init + cached); }
        UpsertedBehind(init, shorter, c);
        SuffixSnoc(Upserted(shorter, c), Upserted(init + shorter, c), last);
      } else if last.timestamp < c.timestamp {
        SuffixSnoc(cached, init + cached, c);
      } else {
        SuffixSnoc(shorter, init + shorter, c);
      }
    }
  }

  /**
   * The general step: with init the part of the stored series that the cache lacks, one more candle
   * leaves the cache invisible exactly when it is not older than all of init, or the cache is full.
   */
  lemma CandleExactly(n: nat, init: seq<Candle>, cached: seq<Candle>, c: Candle)
    requires n > 0 && |cached| <= n && Chronological(init + cached)
    ensures IsSuffix(Last(Upserted(cached, c), n), Upserted(init + cached, c))
      <==> init == [] || c.timestamp >= init[|init| - 1].timestamp || |cached| == n
  {
    if init == [] || c.timestamp >= init[|init| - 1].timestamp {
      UpsertedBehind(init, cached, c);
      SuffixOfSuffix(Upserted(cached, c), Upserted(init + cached, c), n);
    } else {
      hide Chronological;
      BeforeCached(init, cached, c);
      UpsertedInFront(cached, c);
      StoredKeepsEnd(init, cached, c);
      OldCandle(n, init[|init| - 1], cached, c, Upserted(init + cached, c));
    }
  }

  lemma BeforeCached(init: seq<Candle>, cached: seq<Candle>, c: Candle)
    requires Chronological(init + cached) && init != [] && c.timestamp < init[|init| - 1].timestamp
    ensures forall i :: 0 <= i < |cached| ==> c.timestamp < cached[i].timestamp
  {
    forall i | 0 <= i < |cached| ensures c.timestamp < cached[i].timestamp {
      assert (init + cached)[|init| - 1] == init[|init| - 1] && (init + cached)[|init| + i] == cached[i];
    }
  }

  lemma OldCandle(n: nat, newest: Candle, cached: seq<Candle>, c: Candle, whole: seq<Candle>)
    requires n > 0 && |cached| <= n && c.timestamp < newest.timestamp && IsSuffix([newest] + cached, whole)
    ensures IsSuffix(Last([c] + cached, n), whole) <==> |cached| == n
  {
    if |cached| == n {
      assert Last([c] + cached, n) == cached;
      assert cached == ([newest] + cached)[1..];
    } else {
      assert Last([c] + cached, n) == [c] + cached;
      assert ([newest] + cached)[0] == newest;
    }
  }

  lemma SuffixOfSuffix(part: seq<Candle>, whole: seq<Candle>, n: nat)
    requires IsSuffix(part, whole)
    ensures IsSuffix(Last(part, n), whole)
  {
  }

  /** An old candle goes in before the end: the newest of init and all cached candles stay last. */
  lemma {:induction false} StoredKeepsEnd(init: seq<Candle>, cached: seq<Candle>, c: Candle)
    requires init != [] && c.timestamp < init[|init| - 1].timestamp
    requires forall i :: 0 <= i < |cached| ==> c.timestamp < cached[i].timestamp
    ensures IsSuffix([init[|init| - 1]] + cached, Upserted(init + cached, c))
  {
    if cached == [] {
      assert init + cached == init && [init[|init| - 1]] + cached == [init[|init| - 1]];
    } else {
      var shorter, last := cached[..|cached| - 1], cached[|cached| - 1];
      assert init + cached == (init + shorter) + [last];
      UpsertedSnoc(init + shorter, last, c);
      StoredKeepsEnd(init, shorter, c);
      SuffixSnoc([init[|init| - 1]] + shorter, Upserted(init + shorter, c), last);
      assert [init[|init| - 1]] + cached == [init[|init| - 1]] + shorter + [last];
    }
  }

  /** Without the bound in play: the step for a cache that has room. */
  lemma LateCandleExactly(init: seq<Candle>, cached: seq<Candle>, c: Candle)
    requires Chronological(init + cached)
    ensures IsSuffix(Upserted(cached, c), Upserted(init + cached, c))
      <==> init == [] || c.timestamp >= init[|init| - 1].timestamp
  {
    UpsertedLength(cached, c);
    CandleExactly(|cached| + 1, init, cached, c);
  }

  /** In particular, right after a restart: the first candle must not be older than anything stored. */
  lemma LateCandleAfterRestart(stored: seq<Candle>, c: Candle)
    requires Chronological(stored)
    ensures IsSuffix(Upserted([], c), Upserted(stored, c)) <==>
      stored == [] || c.timestamp >= stored[|stored| - 1].timestamp
  {
    hide Chronological, Upserted;
    assert stored + [] == stored;
    LateCandleExactly(stored, [], c);
  }

  // ------------------------------------------------------------------ the platform

  function At(m: map<SeriesKey, seq<Candle>>, key: SeriesKey): seq<Candle>
  {
    if key in m then m[key] else []
  }

  type Cache = map<SeriesKey, seq<Candle>>

  /** The cache after these puts, in their order. */
  function Puts(n: nat, cache: Cache, candles: seq<Candle>): Cache
  {
    if candles == [] then cache
    else
      var before, c := Puts(n, cache, candles[..|candles| - 1]), candles[|candles| - 1];
      before[KeyOf(c) := Last(Upserted(At(before, KeyOf(c)), c), n)]
  }

  /** The history after these upserts. */
  function Stores(h: History, candles: seq<Candle>): History
  {
    if candles == [] then h
    else
      var c := candles[|candles| - 1];
      Stores(h, candles[..|candles| - 1])[(KeyOf(c), c.timestamp) := c]
  }

  ghost function Listings(listed: Cache, candles: seq<Candle>): Cache
  {
    if candles == [] then listed
    else
      var before, c := Listings(listed, candles[..|candles| - 1]), candles[|candles| - 1];
      before[KeyOf(c) := Upserted(At(before, KeyOf(c)), c)]
  }

  lemma {:induction false} PutsAt(n: nat, cache: Cache, candles: seq<Candle>, key: SeriesKey)
    ensures At(Puts(n, cache, candles), key) == CacheAfter(n, At(cache, key), candles, key)
  {
    hide Upserted, Last;
    if candles != [] { PutsAt(n, cache, candles[..|candles| - 1], key); }
  }

  lemma {:induction false} ListingsAt(listed: Cache, candles: seq<Candle>, key: SeriesKey)
    ensures At(Listings(listed, candles), key) == After(At(listed, key), candles, key)
  {
    hide Upserted;
    if candles != [] { ListingsAt(listed, candles[..|candles| - 1], key); }
  }

  /** The listings are those of the history. */
  ghost predicate Listing(h: History, listed: Cache)
  {
    Filed(h) && forall key :: Lists(h, key, At(listed, key))
  }

  lemma {:induction false} StoresList(h: History, listed: Cache, candles: seq<Candle>)
    requires Listing(h, listed)
    ensures Listing(Stores(h, candles), Listings(listed, candles))
  {
    hide Upserted, Lists;
    if candles != [] {
      var init, c := candles[..|candles| - 1], candles[|candles| - 1];
      StoresList(h, listed, init);
      var stored, lists := Stores(h, init), Listings(listed, init);
      forall key ensures Lists(Stores(h, candles), key, At(Listings(listed, candles), key)) {
        assert Lists(stored, key, At(lists, key));
        ListsUpserted(stored, key, At(lists, key), c);
      }
    }
  }

  ghost predicate Bounded(n: nat, cache: Cache)
  {
    forall key :: |At(cache, key)| <= n
  }

  lemma {:induction false} PutsBounded(n: nat, cache: Cache, candles: seq<Candle>)
    requires Bounded(n, cache)
    ensures Bounded(n, Puts(n, cache, candles))
  {
    hide Upserted;
    if candles != [] {
      var before := Puts(n, cache, candles[..|candles| - 1]);
      PutsBounded(n, cache, candles[..|candles| - 1]);
      forall key ensures |At(Puts(n, cache, candles), key)| <= n {
        assert |At(before, key)| <= n;
      }
    }
  }

  /** What one batch written to both levels does to the cache of a key that was invisible before. */
  lemma BatchExactly(n: nat, cache: Cache, h: History, listed: Cache, candles: seq<Candle>, key: SeriesKey)
    requires Listing(h, listed) && Bounded(n, cache) && IsSuffix(At(cache, key), At(listed, key))
    ensures IsSuffix(At(Puts(n, cache, candles), key), At(Listings(listed, candles), key))
      <==> Harmless(n, At(cache, key), At(listed, key), candles, key)
    ensures At(cache, key) == Last(At(listed, key), n) ==>
      At(Puts(n, cache, candles), key) == Last(At(Listings(listed, candles), key), n)
  {
    hide IsSuffix, Harmless, Puts, Listings, Last, CacheAfter, After;
    assert Lists(h, key, At(listed, key));
    ListedInOrder(h, key, At(listed, key));
    PutsAt(n, cache, candles, key);
    ListingsAt(listed, candles, key);
    WritesExactly(n, At(cache, key), At(listed, key), candles, key);
    CacheAfterIsNewest(n, At(listed, key), candles, key);
  }

  /** Putting the newest stored candles back keeps an invisible cache invisible. */
  lemma RefillHarmless(n: nat, cached: seq<Candle>, stored: seq<Candle>, limit: nat, key: SeriesKey)
    requires Chronological(stored) && IsSuffix(cached, stored) && |cached| <= n
    requires forall c :: c in stored ==> KeyOf(c) == key
    ensures IsSuffix(CacheAfter(n, cached, Last(stored, limit), key), stored)
    ensures cached == Last(stored, n) ==> CacheAfter(n, cached, Last(stored, limit), key) == cached
  {
    hide Upserted, CacheAfter, Harmless, Forgotten, Chronological, IsSuffix;
    var rows := Last(stored, limit);
    NewestIsSuffix(stored, limit);
    SuffixParts(rows, stored);
    RewritesNothing(stored, rows, key);
    WritesExactly(n, cached, stored, rows, key);
    SuffixParts(cached, stored);
    KeptAmong(n, cached, stored, rows, key);
    assert Harmless(n, cached, stored, rows, key) by { OlderThanRows(n, cached, stored, rows, key); }
    CacheAfterIsNewest(n, stored, rows, key);
  }

  lemma {:induction false} RewritesNothing(stored: seq<Candle>, rows: seq<Candle>, key: SeriesKey)
    requires Chronological(stored) && forall c :: c in rows ==> c in stored
    ensures After(stored, rows, key) == stored
  {
    hide Upserted, Chronological;
    if rows != [] {
      var c := rows[|rows| - 1];
      assert c in rows && forall x :: x in rows[..|rows| - 1] ==> x in rows;
      RewritesNothing(stored, rows[..|rows| - 1], key);
      UpsertedAgain(stored, c);
    }
  }

  lemma KeptAmong(n: nat, cached: seq<Candle>, stored: seq<Candle>, rows: seq<Candle>, key: SeriesKey)
    requires Chronological(cached) && |cached| <= n
    requires forall c :: c in cached || c in rows ==> c in stored
    ensures forall k :: k in CacheAfter(n, cached, rows, key) ==> k in cached || k in rows
  {
    hide CacheAfter, Chronological;
    LastWhole(cached, n);
    CacheAfterIsNewest(n, cached, rows, key);
    AfterHolds(cached, rows, key);
    LatestIsWritten(rows, key);
  }

  lemma {:induction false} LatestIsWritten(candles: seq<Candle>, key: SeriesKey)
    ensures forall time :: LatestWrite(candles, key, time).Some? ==>
      var c := LatestWrite(candles, key, time).value;
      c in candles && c.timestamp == time && KeyOf(c) == key
    ensures forall c :: c in candles && KeyOf(c) == key ==> LatestWrite(candles, key, c.timestamp).Some?
  {
    if candles != [] {
      LatestIsWritten(candles[..|candles| - 1], key);
      assert candles == candles[..|candles| - 1] + [candles[|candles| - 1]];
    }
  }

  lemma OlderThanRows(n: nat, cached: seq<Candle>, stored: seq<Candle>, rows: seq<Candle>, key: SeriesKey)
    requires RestOlder(cached, stored) && RestOlder(rows, stored)
    requires forall c :: c in stored ==> KeyOf(c) == key
    requires forall k :: k in CacheAfter(n, cached, rows, key) ==> k in cached || k in rows
    ensures Harmless(n, cached, stored, rows, key)
  {
    hide CacheAfter;
    LatestIsWritten(rows, key);
  }

  class MarketDataPlatform {
    const maxPerSeries: nat
    var cache: Cache
    var history: History
    /** The history of every key as a sorted series. */
    ghost var listed: Cache

    /** What holds even right after a restart: the listings are the history's and no series is too long. */
    ghost predicate Valid()
      reads this
    {
      maxPerSeries > 0 && Listing(history, listed) && Bounded(maxPerSeries, cache)
    }

    /** No read of this key can tell that there is a cache. */
    ghost predicate Invisible(key: SeriesKey)
      reads this
    {
      IsSuffix(At(cache, key), At(listed, key))
    }

    /** The cache holds the newest N of this key. */
    ghost predicate Newest(key: SeriesKey)
      reads this
    {
      At(cache, key) == Last(At(listed, key), maxPerSeries)
    }

    constructor (n: nat)
      requires n > 0
      ensures Valid() && cache == map[] && history == map[] && listed == map[] && maxPerSeries == n
      ensures forall key :: Invisible(key) && Newest(key)
    {
      maxPerSeries, cache, history, listed := n, map[], map[], map[];
    }

    /** A new process over the same durable history. */
    method Restart()
      requires Valid()
      modifies this`cache
      ensures Valid() && cache == map[] && forall key :: Invisible(key)
    {
      cache := map[];
    }

    /** Candle by candle into the cache: upsert, sort, keep the newest N. */
    method PutCandles(candles: seq<Candle>)
      modifies this`cache
      ensures cache == Puts(maxPerSeries, old(cache), candles)
    {
      hide Upserted, Last;
      for i := 0 to |candles|
        invariant cache == Puts(maxPerSeries, old(cache), candles[..i])
      {
        assert candles[..i + 1][..i] == candles[..i];
        var key := KeyOf(candles[i]);
        var ordered := Upserted(At(cache, key), candles[i]);
        cache := cache[key := Last(ordered, maxPerSeries)];
      }
      assert candles[..|candles|] == candles;
    }

    method Upsert(candles: seq<Candle>)
      requires Listing(history, listed)
      modifies this`history, this`listed
      ensures history == Stores(old(history), candles) && listed == Listings(old(listed), candles)
      ensures Listing(history, listed)
    {
      hide Upserted, Listing;
      for i := 0 to |candles|
        invariant history == Stores(old(history), candles[..i]) && listed == old(listed)
      {
        assert candles[..i + 1][..i] == candles[..i];
        history := history[(KeyOf(candles[i]), candles[i].timestamp) := candles[i]];
      }
      assert candles[..|candles|] == candles;
      StoresList(old(history), listed, candles);
      listed := Listings(listed, candles);
    }

    /**
     * Candles written to both levels: a cache that held the newest N still does, and one that was
     * invisible stays so exactly when the candles are harmless to it.
     */
    method Ingest(candles: seq<Candle>)
      requires Valid()
      modifies this
      ensures Valid() && history == Stores(old(history), candles)
      ensures cache == Puts(maxPerSeries, old(cache), candles) && listed == Listings(old(listed), candles)
      ensures forall key :: At(listed, key) == After(At(old(listed), key), candles, key)
      ensures forall key :: At(cache, key) == CacheAfter(maxPerSeries, At(old(cache), key), candles, key)
      ensures forall key :: IsSuffix(At(old(cache), key), At(old(listed), key)) ==>
        (Invisible(key) <==> Harmless(maxPerSeries, At(old(cache), key), At(old(listed), key), candles, key))
      ensures forall key :: At(old(cache), key) == Last(At(old(listed), key), maxPerSeries) ==> Newest(key)
    {
      hide Puts, Listings, Stores, Listing, Bounded, After, CacheAfter, Harmless, Last, IsSuffix, At;
      ghost var n, cached, stored, series := maxPerSeries, cache, history, listed;
      forall key
        ensures At(Puts(n, cached, candles), key) == CacheAfter(n, At(cached, key), candles, key)
        ensures At(Listings(series, candles), key) == After(At(series, key), candles, key)
        ensures IsSuffix(At(cached, key), At(series, key)) ==>
          (IsSuffix(At(Puts(n, cached, candles), key), At(Listings(series, candles), key))
           <==> Harmless(n, At(cached, key), At(series, key), candles, key))
        ensures At(cached, key) == Last(At(series, key), n) ==>
          At(Puts(n, cached, candles), key) == Last(At(Listings(series, candles), key), n)
      {
        PutsAt(n, cached, candles, key);
        ListingsAt(series, candles, key);
        NewestIsSuffix(At(series, key), n);
        if IsSuffix(At(cached, key), At(series, key)) { BatchExactly(n, cached, stored, series, candles, key); }
      }
      PutsBounded(n, cached, candles);
      PutCandles(candles);
      Upsert(candles);
    }

    /** Collect the stored candles of the key, sort them and take the newest. */
    method Load(key: SeriesKey, limit: nat) returns (rows: seq<Candle>)
      requires Valid()
      ensures rows == Last(At(listed, key), limit)
    {
      hide Upserted, Bounded;
      var sorted: seq<Candle>, taken: History := [], map[];
      var left := history;
      while left.Keys != {}
        invariant left.Keys <= history.Keys && taken.Keys <= history.Keys
        invariant taken.Keys + left.Keys == history.Keys
        invariant forall k :: k in taken ==> taken[k] == history[k]
        invariant forall k :: k in left ==> left[k] == history[k]
        invariant Lists(taken, key, sorted)
        decreases left.Keys
      {
        var k :| k in left.Keys;
        var c := left[k];
        if k.0 == key {
          assert KeyOf(c) == key && c.timestamp == k.1;
          ListsUpserted(taken, key, sorted, c);
          sorted := Upserted(sorted, c);
        } else {
          assert Lists(taken[k := c], key, sorted);
        }
        taken := taken[k := c];
        left := left - {k};
      }
      assert taken == history;
      ListsUnique(history, key, sorted, At(listed, key));
      return Last(sorted, limit);
    }

    /**
     * Cache, then history, then the provider.  The answer is what the two lower levels alone would
     * return whenever the key's cache is invisible, and the read itself keeps it so except by what
     * the provider's candles do.  A cache that held the newest N of any key still does.
     */
    method GetCandles(symbol: string, timeframe: Timeframe, limit: nat, provided: seq<Candle>)
      returns (rows: seq<Candle>)
      requires Valid() && limit > 0
      modifies this
      ensures Valid()
      ensures var key := (Uppercase(symbol), timeframe);
        && rows == CachedRead(At(old(cache), key), At(old(listed), key), provided, limit)
        && (old(Invisible(key)) ==> rows == PlainRead(At(old(listed), key), provided, limit))
        && (old(Invisible(key)) && |At(old(listed), key)| >= limit ==> Invisible(key))
        && (old(Newest(key)) ==> Newest(key))
      ensures forall other :: At(old(cache), other) == Last(At(old(listed), other), maxPerSeries) ==> Newest(other)
      ensures Levels(cache, listed)
           == Called(maxPerSeries, old(Levels(cache, listed)), Get(symbol, timeframe, limit, provided))
      ensures var key := (Uppercase(symbol), timeframe);
        |At(old(cache), key)| >= limit || |At(old(listed), key)| >= limit ==>
          history == old(history) && listed == old(listed)
          && forall other :: other != key ==> At(cache, other) == At(old(cache), other)
      ensures var key := (Uppercase(symbol), timeframe);
        |At(old(cache), key)| < limit && |At(old(listed), key)| < limit ==>
          history == Stores(old(history), provided)
          && (forall other :: At(listed, other) == After(At(old(listed), other), provided, other))
          && (forall other :: At(cache, other) == CacheAfter(maxPerSeries, At(old(cache), other), provided, other))
          && forall other :: IsSuffix(At(old(cache), other), At(old(listed), other)) ==>
               (Invisible(other) <==>
                Harmless(maxPerSeries, At(old(cache), other), At(old(listed), other), provided, other))
    {
      hide Listing, Bounded, After, CacheAfter, Harmless, Puts, Stores;
      var key := (Uppercase(symbol), timeframe);
      NewestIsSuffix(At(listed, key), maxPerSeries);
      var cached := Last(At(cache, key), limit);
      if |cached| >= limit { return cached; }
      var stored := Load(key, limit);
      if |stored| >= limit {
        Refill(key, limit, stored);
        return stored;
      }
      Ingest(provided);
      return provided;
    }

    /** The stored candles just read go back into the cache. */
    method Refill(key: SeriesKey, limit: nat, stored: seq<Candle>)
      requires Valid() && stored == Last(At(listed, key), limit)
      modifies this`cache
      ensures Valid() && cache == Puts(maxPerSeries, old(cache), stored)
      ensures old(Invisible(key)) ==> Invisible(key)
      ensures old(Newest(key)) ==> Newest(key)
      ensures forall other :: other != key ==> At(cache, other) == At(old(cache), other)
    {
      hide Puts, CacheAfter, Harmless, Last, IsSuffix;
      ghost var n, before, full := maxPerSeries, cache, At(listed, key);
      OneKey(history, listed, key);
      PutsBounded(n, before, stored);
      RowsOf(full, limit);
      forall other ensures At(Puts(n, before, stored), other) == CacheAfter(n, At(before, other), stored, other) {
        PutsAt(n, before, stored, other);
      }
      forall other | other != key ensures CacheAfter(n, At(before, other), stored, other) == At(before, other) {
        OtherKey(n, At(before, other), stored, key, other);
      }
      NewestIsSuffix(full, n);
      if IsSuffix(At(before, key), full) { RefillHarmless(n, At(before, key), full, limit, key); }
      PutCandles(stored);
    }

    /** Whatever the platform went through, its levels are those the run theorems start from. */
    lemma ValidIsSound()
      requires Valid()
      ensures Sound(maxPerSeries, Levels(cache, listed))
    {
      hide Chronological;
      forall key
        ensures Chronological(At(listed, key)) && forall c :: c in At(listed, key) ==> KeyOf(c) == key
      {
        OneKey(history, listed, key);
      }
    }

    /** Any calls, one after the other, with the answers to the reads. */
    method Serve(calls: seq<Call>) returns (answers: seq<seq<Candle>>)
      requires Valid() && forall i :: 0 <= i < |calls| && calls[i].Get? ==> calls[i].limit > 0
      modifies this
      ensures Valid() && Levels(cache, listed) == CalledAll(maxPerSeries, old(Levels(cache, listed)), calls)
      ensures answers == Answers(maxPerSeries, old(Levels(cache, listed)), calls)
    {
      hide Valid, Listings, Puts, CachedRead, Answer, Called;
      answers := [];
      ghost var before := Levels(cache, listed);
      for i := 0 to |calls|
        invariant Valid() && Levels(cache, listed) == CalledAll(maxPerSeries, before, calls[..i])
        invariant answers == Answers(maxPerSeries, before, calls[..i])
      {
        assert calls[..i + 1][..i] == calls[..i];
        var answer := ServeOne(calls[i]);
        answers := answers + [answer];
      }
      assert calls[..|calls|] == calls;
    }

    method ServeOne(call: Call) returns (answer: seq<Candle>)
      requires Valid() && (call.Get? ==> call.limit > 0)
      modifies this
      ensures Valid() && Levels(cache, listed) == Called(maxPerSeries, old(Levels(cache, listed)), call)
      ensures answer == Answer(old(Levels(cache, listed)), call)
    {
      hide Valid, Listings, Puts, CachedRead, IsSuffix, Harmless, After, CacheAfter;
      answer := [];
      match call
      case Put(candles) => Ingest(candles);
      case Get(symbol, timeframe, limit, provided) => answer := GetCandles(symbol, timeframe, limit, provided);
      case Restarts => Restart();
    }
  }

  lemma OneKey(h: History, listed: Cache, key: SeriesKey)
    requires Listing(h, listed)
    ensures Chronological(At(listed, key)) && forall c :: c in At(listed, key) ==> KeyOf(c) == key
  {
    assert Lists(h, key, At(listed, key));
  }

  lemma RowsOf(full: seq<Candle>, limit: nat)
    ensures forall c :: c in Last(full, limit) ==> c in full
  {
  }

  lemma {:induction false} OtherKey(n: nat, cached: seq<Candle>, rows: seq<Candle>, key: SeriesKey, other: SeriesKey)
    requires other != key && forall c :: c in rows ==> KeyOf(c) == key
    ensures CacheAfter(n, cached, rows, other) == cached
  {
    if rows != [] {
      assert rows[|rows| - 1] in rows && forall c :: c in rows[..|rows| - 1] ==> c in rows;
      OtherKey(n, cached, rows[..|rows| - 1], key, other);
    }
  }

  // -------------------------------------------------------------- runs of the platform

  /** Candles written to both levels, a read with what the provider would serve, or a restart. */
  datatype Call =
    | Put(candles: seq<Candle>)
    | Get(symbol: string, timeframe: Timeframe, limit: nat, provided: seq<Candle>)
    | Restarts

  /** The cache, and the history as one sorted series per key. */
  datatype Levels = Levels(cache: Cache, listed: Cache)

  function Asked(call: Call): SeriesKey
    requires call.Get?
  {
    (Uppercase(call.symbol), call.timeframe)
  }

  /** The candles a call writes to both levels: a batch, or what the provider was asked for. */
  function Written(l: Levels, call: Call): seq<Candle>
  {
    match call
    case Put(candles) => candles
    case Get(_, _, limit, provided) =>
      if |At(l.cache, Asked(call))| >= limit || |At(l.listed, Asked(call))| >= limit then [] else provided
    case Restarts => []
  }

  ghost function Called(n: nat, l: Levels, call: Call): Levels
  {
    match call
    case Put(candles) => Levels(Puts(n, l.cache, candles), Listings(l.listed, candles))
    case Restarts => Levels(map[], l.listed)
    case Get(_, _, limit, provided) =>
      var key := Asked(call);
      if |At(l.cache, key)| >= limit then l
      else if |At(l.listed, key)| >= limit then Levels(Puts(n, l.cache, Last(At(l.listed, key), limit)), l.listed)
      else Levels(Puts(n, l.cache, provided), Listings(l.listed, provided))
  }

  function Answer(l: Levels, call: Call): seq<Candle>
  {
    if call.Get? then CachedRead(At(l.cache, Asked(call)), At(l.listed, Asked(call)), call.provided, call.limit) else []
  }

  ghost function CalledAll(n: nat, l: Levels, calls: seq<Call>): Levels
  {
    if calls == [] then l else Called(n, CalledAll(n, l, calls[..|calls| - 1]), calls[|calls| - 1])
  }

  ghost function Answers(n: nat, l: Levels, calls: seq<Call>): (r: seq<seq<Candle>>)
    ensures |r| == |calls|
  {
    if calls == [] then []
    else
      var init := calls[..|calls| - 1];
      Answers(n, l, init) + [Answer(CalledAll(n, l, init), calls[|calls| - 1])]
  }

  // The same calls on a platform that has the history only.

  ghost function PlainCalled(listed: Cache, call: Call): Cache
  {
    match call
    case Put(candles) => Listings(listed, candles)
    case Restarts => listed
    case Get(_, _, limit, provided) =>
      if |At(listed, Asked(call))| >= limit then listed else Listings(listed, provided)
  }

  function PlainAnswer(listed: Cache, call: Call): seq<Candle>
  {
    if call.Get? then PlainRead(At(listed, Asked(call)), call.provided, call.limit) else []
  }

  ghost function PlainAll(listed: Cache, calls: seq<Call>): Cache
  {
    if calls == [] then listed else PlainCalled(PlainAll(listed, calls[..|calls| - 1]), calls[|calls| - 1])
  }

  ghost function PlainAnswers(listed: Cache, calls: seq<Call>): (r: seq<seq<Candle>>)
    ensures |r| == |calls|
  {
    if calls == [] then []
    else
      var init := calls[..|calls| - 1];
      PlainAnswers(listed, init) + [PlainAnswer(PlainAll(listed, init), calls[|calls| - 1])]
  }

  /** Every stored series is in order and of its key, and no cached one is too long. */
  ghost predicate Sound(n: nat, l: Levels)
  {
    && n > 0 && Bounded(n, l.cache)
    && forall key :: Chronological(At(l.listed, key)) && forall c :: c in At(l.listed, key) ==> KeyOf(c) == key
  }

  ghost predicate Unseen(l: Levels, key: SeriesKey) { IsSuffix(At(l.cache, key), At(l.listed, key)) }

  ghost predicate NewestIn(n: nat, l: Levels, key: SeriesKey) { At(l.cache, key) == Last(At(l.listed, key), n) }

  lemma SoundAt(n: nat, l: Levels, key: SeriesKey)
    requires Sound(n, l)
    ensures n > 0 && |At(l.cache, key)| <= n && Chronological(At(l.listed, key))
    ensures forall c :: c in At(l.listed, key) ==> KeyOf(c) == key
  {
    hide Chronological;
  }

  lemma AfterOfKey(series: seq<Candle>, candles: seq<Candle>, key: SeriesKey)
    requires Chronological(series) && forall c :: c in series ==> KeyOf(c) == key
    ensures Chronological(After(series, candles, key))
    ensures forall c :: c in After(series, candles, key) ==> KeyOf(c) == key
  {
    hide After, Chronological;
    AfterHolds(series, candles, key);
    LatestIsWritten(candles, key);
  }

  /** Writing a batch to both levels keeps them sound. */
  lemma WriteSound(n: nat, l: Levels, candles: seq<Candle>)
    requires Sound(n, l)
    ensures Sound(n, Levels(Puts(n, l.cache, candles), Listings(l.listed, candles)))
    ensures Sound(n, Levels(Puts(n, l.cache, candles), l.listed))
  {
    hide Puts, Listings, Chronological, Bounded;
    PutsBounded(n, l.cache, candles);
    forall key
      ensures Chronological(At(Listings(l.listed, candles), key))
      ensures forall c :: c in At(Listings(l.listed, candles), key) ==> KeyOf(c) == key
    {
      SoundAt(n, l, key);
      ListingsAt(l.listed, candles, key);
      AfterOfKey(At(l.listed, key), candles, key);
    }
  }

  lemma CalledSound(n: nat, l: Levels, call: Call)
    requires Sound(n, l)
    ensures Sound(n, Called(n, l, call))
  {
    hide Puts, Listings, Chronological;
    match call
    case Put(candles) => WriteSound(n, l, candles);
    case Restarts =>
    case Get(_, _, limit, provided) =>
      WriteSound(n, l, provided);
      WriteSound(n, l, Last(At(l.listed, Asked(call)), limit));
  }

  lemma {:induction false} CalledAllSound(n: nat, l: Levels, calls: seq<Call>)
    requires Sound(n, l)
    ensures Sound(n, CalledAll(n, l, calls))
  {
    hide Sound, Called;
    if calls != [] {
      CalledAllSound(n, l, calls[..|calls| - 1]);
      CalledSound(n, CalledAll(n, l, calls[..|calls| - 1]), calls[|calls| - 1]);
    }
  }

  /** A batch written to both levels, at one key. */
  lemma WriteAt(n: nat, l: Levels, candles: seq<Candle>, key: SeriesKey)
    requires Sound(n, l)
    ensures var next := Levels(Puts(n, l.cache, candles), Listings(l.listed, candles));
      && (Unseen(l, key) ==>
            (Unseen(next, key) <==> Harmless(n, At(l.cache, key), At(l.listed, key), candles, key)))
      && (NewestIn(n, l, key) ==> NewestIn(n, next, key))
  {
    hide Puts, Listings, Chronological, IsSuffix, Harmless, Last, After, CacheAfter, Sound, At;
    SoundAt(n, l, key);
    PutsAt(n, l.cache, candles, key);
    ListingsAt(l.listed, candles, key);
    if Unseen(l, key) { WritesExactly(n, At(l.cache, key), At(l.listed, key), candles, key); }
    CacheAfterIsNewest(n, At(l.listed, key), candles, key);
  }

  /** Stored candles of one key put back into the cache, seen from any key. */
  lemma RefillAt(n: nat, l: Levels, asked: SeriesKey, limit: nat, key: SeriesKey)
    requires Sound(n, l)
    ensures var next := Levels(Puts(n, l.cache, Last(At(l.listed, asked), limit)), l.listed);
      (Unseen(l, key) ==> Unseen(next, key)) && (NewestIn(n, l, key) ==> NewestIn(n, next, key))
  {
    hide Puts, Chronological, IsSuffix, Last, CacheAfter, Sound, At;
    var rows := Last(At(l.listed, asked), limit);
    SoundAt(n, l, asked);
    RowsOf(At(l.listed, asked), limit);
    PutsAt(n, l.cache, rows, key);
    if key != asked {
      OtherKey(n, At(l.cache, key), rows, asked, key);
    } else {
      SoundAt(n, l, key);
      NewestIsSuffix(At(l.listed, key), n);
      if Unseen(l, key) || NewestIn(n, l, key) {
        RefillHarmless(n, At(l.cache, key), At(l.listed, key), limit, key);
      }
    }
  }

  lemma NothingWritten(n: nat, l: Levels, key: SeriesKey)
    requires Sound(n, l) && Unseen(l, key)
    ensures Harmless(n, At(l.cache, key), At(l.listed, key), [], key)
  {
    SoundAt(n, l, key);
    SuffixParts(At(l.cache, key), At(l.listed, key));
    hide Sound, Unseen, IsSuffix, Chronological, At;
  }

  lemma EmptyUnseen(l: Levels, key: SeriesKey)
    ensures Unseen(Levels(map[], l.listed), key)
  {
  }

  /** A call leaves the cache of a key invisible exactly when what it writes to both levels is harmless. */
  lemma CalledExactly(n: nat, l: Levels, call: Call, key: SeriesKey)
    requires Sound(n, l) && Unseen(l, key)
    ensures Unseen(Called(n, l, call), key)
      <==> Harmless(n, At(l.cache, key), At(l.listed, key), Written(l, call), key)
  {
    hide Puts, Listings, Chronological, Harmless, Last, Sound, Unseen, At, IsSuffix;
    NothingWritten(n, l, key);
    match call
    case Put(candles) => WriteAt(n, l, candles, key);
    case Restarts => EmptyUnseen(l, key);
    case Get(_, _, limit, provided) =>
      WriteAt(n, l, provided, key);
      RefillAt(n, l, Asked(call), limit, key);
  }

  /** Without a restart a cache that holds the newest N goes on holding them. */
  lemma CalledNewest(n: nat, l: Levels, call: Call, key: SeriesKey)
    requires Sound(n, l) && NewestIn(n, l, key) && !call.Restarts?
    ensures NewestIn(n, Called(n, l, call), key)
  {
    hide Puts, Listings, Harmless, Last, Sound, Unseen, NewestIn;
    match call
    case Put(candles) => WriteAt(n, l, candles, key);
    case Get(_, _, limit, provided) =>
      WriteAt(n, l, provided, key);
      RefillAt(n, l, Asked(call), limit, key);
  }

  lemma {:induction false} NewestThroughout(n: nat, l: Levels, calls: seq<Call>, key: SeriesKey)
    requires Sound(n, l) && NewestIn(n, l, key) && forall i :: 0 <= i < |calls| ==> !calls[i].Restarts?
    ensures NewestIn(n, CalledAll(n, l, calls), key)
  {
    hide Sound, Called, NewestIn;
    if calls != [] {
      var init := calls[..|calls| - 1];
      NewestThroughout(n, l, init, key);
      CalledAllSound(n, l, init);
      CalledNewest(n, CalledAll(n, l, init), calls[|calls| - 1], key);
    }
  }

  /** Before call i the cache of the key is invisible. */
  ghost predicate UnseenBefore(n: nat, l: Levels, calls: seq<Call>, i: nat, key: SeriesKey)
    requires i <= |calls|
  {
    Unseen(CalledAll(n, l, calls[..i]), key)
  }

  /** What call i writes to both levels is harmless to the cache of the key as it is by then. */
  ghost predicate HarmlessAt(n: nat, l: Levels, calls: seq<Call>, i: nat, key: SeriesKey)
    requires i < |calls|
  {
    var now := CalledAll(n, l, calls[..i]);
    Harmless(n, At(now.cache, key), At(now.listed, key), Written(now, calls[i]), key)
  }

  lemma OneCallExactly(n: nat, l: Levels, calls: seq<Call>, i: nat, key: SeriesKey)
    requires Sound(n, l) && i < |calls| && UnseenBefore(n, l, calls, i, key)
    ensures UnseenBefore(n, l, calls, i + 1, key) <==> HarmlessAt(n, l, calls, i, key)
  {
    hide Sound, Called, Unseen, Harmless, Written;
    assert calls[..i + 1][..i] == calls[..i];
    CalledAllSound(n, l, calls[..i]);
    CalledExactly(n, CalledAll(n, l, calls[..i]), calls[i], key);
  }

  lemma {:induction false} UnseenUpTo(n: nat, l: Levels, calls: seq<Call>, i: nat, key: SeriesKey)
    requires Sound(n, l) && Unseen(l, key) && i <= |calls|
    requires forall k :: 0 <= k < i ==> HarmlessAt(n, l, calls, k, key)
    ensures UnseenBefore(n, l, calls, i, key)
  {
    hide Sound, Called, Unseen, HarmlessAt;
    if i > 0 {
      UnseenUpTo(n, l, calls, i - 1, key);
      OneCallExactly(n, l, calls, i - 1, key);
    }
  }

  /**
   * Over any run of batches, reads of any key with their refills and fetches, and restarts, the cache
   * of a key is invisible at every moment exactly when everything written to both levels was harmless.
   */
  lemma InvisibleThroughout(n: nat, l: Levels, calls: seq<Call>, key: SeriesKey)
    requires Sound(n, l) && Unseen(l, key)
    ensures (forall i :: 0 <= i <= |calls| ==> UnseenBefore(n, l, calls, i, key))
      <==> (forall i :: 0 <= i < |calls| ==> HarmlessAt(n, l, calls, i, key))
  {
    hide Sound, Unseen, UnseenBefore, HarmlessAt;
    if forall i :: 0 <= i <= |calls| ==> UnseenBefore(n, l, calls, i, key) {
      forall i | 0 <= i < |calls| ensures HarmlessAt(n, l, calls, i, key) {
        assert UnseenBefore(n, l, calls, i, key) && UnseenBefore(n, l, calls, i + 1, key);
        OneCallExactly(n, l, calls, i, key);
      }
    }
    if forall i :: 0 <= i < |calls| ==> HarmlessAt(n, l, calls, i, key) {
      forall i | 0 <= i <= |calls| ensures UnseenBefore(n, l, calls, i, key) {
        UnseenUpTo(n, l, calls, i, key);
      }
    }
  }

  /** One call on an invisible cache answers and stores as without a cache. */
  lemma PlainStep(n: nat, l: Levels, call: Call)
    requires call.Get? ==> call.limit > 0 && Unseen(l, Asked(call))
    ensures Called(n, l, call).listed == PlainCalled(l.listed, call)
    ensures Answer(l, call) == PlainAnswer(l.listed, call)
  {
    hide Puts, Listings;
    if call.Get? {
      InvisibleExactly(At(l.cache, Asked(call)), At(l.listed, Asked(call)));
      hide CachedRead, PlainRead;
      assert |At(l.cache, Asked(call))| <= |At(l.listed, Asked(call))|;
    }
  }

  /** While the cache of every key asked for is invisible, all answers and the history are those without it. */
  lemma {:induction false} UnseenRunsAnswerPlainly(n: nat, l: Levels, calls: seq<Call>)
    requires forall i :: 0 <= i < |calls| && calls[i].Get? ==>
      calls[i].limit > 0 && UnseenBefore(n, l, calls, i, Asked(calls[i]))
    ensures Answers(n, l, calls) == PlainAnswers(l.listed, calls)
    ensures CalledAll(n, l, calls).listed == PlainAll(l.listed, calls)
  {
    hide Called, PlainCalled, Answer, PlainAnswer, Unseen;
    if calls != [] {
      var init, last := calls[..|calls| - 1], |calls| - 1;
      forall i | 0 <= i < |init| && init[i].Get?
        ensures init[i].limit > 0 && UnseenBefore(n, l, init, i, Asked(init[i]))
      {
        assert init[..i] == calls[..i] && init[i] == calls[i];
        assert UnseenBefore(n, l, calls, i, Asked(calls[i]));
      }
      UnseenRunsAnswerPlainly(n, l, init);
      assert calls[last].Get? ==> UnseenBefore(n, l, calls, last, Asked(calls[last]));
      PlainStep(n, CalledAll(n, l, init), calls[last]);
    }
  }

  /**
   * Starting with the newest N of every key, over any mix of batches and reads on any keys, every
   * answer is what history and provider alone would give, and every key keeps its newest N.
   */
  lemma CacheIsTransparent(n: nat, l: Levels, calls: seq<Call>)
    requires Sound(n, l) && forall key :: NewestIn(n, l, key)
    requires forall i :: 0 <= i < |calls| ==> !calls[i].Restarts? && (calls[i].Get? ==> calls[i].limit > 0)
    ensures Answers(n, l, calls) == PlainAnswers(l.listed, calls)
    ensures CalledAll(n, l, calls).listed == PlainAll(l.listed, calls)
    ensures forall key :: NewestIn(n, CalledAll(n, l, calls), key)
  {
    hide Sound, CalledAll, NewestIn, Answers, PlainAnswers, PlainAll;
    forall key ensures NewestIn(n, CalledAll(n, l, calls), key) {
      NewestThroughout(n, l, calls, key);
    }
    forall i | 0 <= i < |calls| && calls[i].Get? ensures UnseenBefore(n, l, calls, i, Asked(calls[i])) {
      NewestThroughout(n, l, calls[..i], Asked(calls[i]));
      NewestUnseen(n, CalledAll(n, l, calls[..i]), Asked(calls[i]));
    }
    UnseenRunsAnswerPlainly(n, l, calls);
  }

  lemma NewestUnseen(n: nat, l: Levels, key: SeriesKey)
    requires NewestIn(n, l, key)
    ensures Unseen(l, key)
  {
    NewestIsSuffix(At(l.listed, key), n);
  }

  /** A new platform, used in any way, answers every read as if there were no cache. */
  method ServeNew(n: nat, calls: seq<Call>) returns (answers: seq<seq<Candle>>)
    requires n > 0
    requires forall i :: 0 <= i < |calls| ==> !calls[i].Restarts? && (calls[i].Get? ==> calls[i].limit > 0)
    ensures answers == PlainAnswers(map[], calls)
  {
    hide CalledAll, Answers, PlainAnswers, PlainAll;
    var platform := new MarketDataPlatform(n);
    assert forall key :: NewestIn(n, Levels(map[], map[]), key);
    platform.ValidIsSound();
    answers := platform.Serve(calls);
    CacheIsTransparent(n, Levels(map[], map[]), calls);
  }

  // ------------------------------------------------------------------- single candles

  /** The candle is not older than anything stored that the cache lacks, or the cache is full. */
  predicate Timely(n: nat, cached: seq<Candle>, stored: seq<Candle>, c: Candle)
  {
    var lacking := |stored| - |cached|;
    lacking <= 0 || lacking > |stored| || c.timestamp >= stored[lacking - 1].timestamp || |cached| == n
  }

  /** For one arriving candle, harmless is the same as timely. */
  lemma OneCandleHarmless(n: nat, cached: seq<Candle>, stored: seq<Candle>, c: Candle)
    requires n > 0 && |cached| <= n && Chronological(stored) && IsSuffix(cached, stored)
    ensures Harmless(n, cached, stored, [c], KeyOf(c)) <==> Timely(n, cached, stored, c)
  {
    hide Upserted, Last, Harmless;
    var init := stored[..|stored| - |cached|];
    assert init + cached == stored;
    WritesExactly(n, cached, stored, [c], KeyOf(c));
    CandleExactly(n, init, cached, c);
    assert [c][..0] == [];
  }
}
