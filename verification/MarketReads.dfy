/** What reads of the market data platform return, said about the candles written to it. */
module MarketReads {
  import opened Prelude
  import opened Candles
  import opened MarketCache

  /** The candle is of this series, whatever the letter case of its symbol. */
  predicate OfSeries(c: Candle, symbol: string, timeframe: Timeframe)
  {
    SameName(c.symbol, symbol) && c.timeframe == timeframe
  }

  /** The times for which the series has a candle. */
  function Times(log: seq<Candle>, symbol: string, timeframe: Timeframe): set<int>
  {
    set c | c in log && OfSeries(c, symbol, timeframe) :: c.timestamp
  }

  /** The candle was written for the series, and none was later for its time. */
  ghost predicate WrittenLast(log: seq<Candle>, symbol: string, timeframe: Timeframe, c: Candle)
  {
    exists i :: 0 <= i < |log| && log[i] == c && OfSeries(c, symbol, timeframe)
      && forall k :: i < k < |log| && OfSeries(log[k], symbol, timeframe) ==> log[k].timestamp != c.timestamp
  }

  /** Everything written: the batches, and what the provider served when too few candles were there. */
  function Log(calls: seq<Call>): seq<Candle>
  {
    if calls == [] then []
    else
      var before := Log(calls[..|calls| - 1]);
      match calls[|calls| - 1]
      case Put(candles) => before + candles
      case Restarts => before
      case Get(symbol, timeframe, limit, provided) =>
        if |Times(before, symbol, timeframe)| < limit then before + provided else before
  }

  /**
   * The answer to a read: with enough candles written the newest of them, one for each time and that
   * the one written last, oldest first; otherwise what the provider serves.
   */
  ghost predicate Says(
    log: seq<Candle>, symbol: string, timeframe: Timeframe, limit: nat, provided: seq<Candle>, rows: seq<Candle>)
  {
    if |Times(log, symbol, timeframe)| < limit then rows == provided
    else
      && |rows| == limit && Chronological(rows)
      && (forall c :: c in rows ==> WrittenLast(log, symbol, timeframe, c))
      && forall c, r :: WrittenLast(log, symbol, timeframe, c) && c !in rows && r in rows ==> c.timestamp < r.timestamp
  }

  lemma KeyExactly(c: Candle, symbol: string, timeframe: Timeframe)
    ensures KeyOf(c) == (Uppercase(symbol), timeframe) <==> OfSeries(c, symbol, timeframe)
  {
    FoldsCase(c.symbol, symbol);
  }

  lemma {:induction false} AfterConcat(series: seq<Candle>, a: seq<Candle>, b: seq<Candle>, key: SeriesKey)
    ensures After(After(series, a, key), b, key) == After(series, a + b, key)
  {
    hide Upserted, KeyOf;
    if b == [] {
      assert a + b == a;
    } else {
      assert (a + b)[..|a + b| - 1] == a + b[..|b| - 1];
      AfterConcat(series, a, b[..|b| - 1], key);
    }
  }

  lemma {:induction false} LastWritten(log: seq<Candle>, symbol: string, timeframe: Timeframe, c: Candle)
    ensures LatestWrite(log, (Uppercase(symbol), timeframe), c.timestamp) == Some(c)
      <==> WrittenLast(log, symbol, timeframe, c)
  {
    hide KeyOf, OfSeries;
    if log != [] {
      var init, last := log[..|log| - 1], log[|log| - 1];
      LastWritten(init, symbol, timeframe, c);
      KeyExactly(last, symbol, timeframe);
      if OfSeries(last, symbol, timeframe) && last.timestamp == c.timestamp {
        if WrittenLast(log, symbol, timeframe, c) {
          var i :| 0 <= i < |log| && log[i] == c && OfSeries(c, symbol, timeframe)
            && forall k :: i < k < |log| && OfSeries(log[k], symbol, timeframe) ==> log[k].timestamp != c.timestamp;
          assert i == |log| - 1;
        }
      } else {
        assert WrittenLast(log, symbol, timeframe, c) <==> WrittenLast(init, symbol, timeframe, c) by {
          StillLast(log, symbol, timeframe, c);
        }
      }
    }
  }

  lemma StillLast(log: seq<Candle>, symbol: string, timeframe: Timeframe, c: Candle)
    requires log != []
    requires OfSeries(log[|log| - 1], symbol, timeframe) ==> log[|log| - 1].timestamp != c.timestamp
    ensures WrittenLast(log, symbol, timeframe, c) <==> WrittenLast(log[..|log| - 1], symbol, timeframe, c)
  {
    hide OfSeries;
    var init := log[..|log| - 1];
    if WrittenLast(log, symbol, timeframe, c) {
      var i :| 0 <= i < |log| && log[i] == c && OfSeries(c, symbol, timeframe)
        && forall k :: i < k < |log| && OfSeries(log[k], symbol, timeframe) ==> log[k].timestamp != c.timestamp;
      assert i < |init| && init[i] == c;
    }
    if WrittenLast(init, symbol, timeframe, c) {
      var i :| 0 <= i < |init| && init[i] == c && OfSeries(c, symbol, timeframe)
        && forall k :: i < k < |init| && OfSeries(init[k], symbol, timeframe) ==> init[k].timestamp != c.timestamp;
      assert log[i] == c;
      forall k | i < k < |log| && OfSeries(log[k], symbol, timeframe) ensures log[k].timestamp != c.timestamp {
        if k < |init| { assert init[k] == log[k]; }
      }
    }
  }

  /** As many candles are listed as times were written. */
  lemma {:induction false} CountTimes(series: seq<Candle>, times: set<int>)
    requires Chronological(series)
    requires forall t :: t in times <==> exists i :: 0 <= i < |series| && series[i].timestamp == t
    ensures |series| == |times|
  {
    if series == [] {
      assert forall t :: t !in times;
      assert times == {};
    } else {
      var init, last := series[..|series| - 1], series[|series| - 1];
      assert last.timestamp in times;
      forall t
        ensures t in times - {last.timestamp} <==> exists i :: 0 <= i < |init| && init[i].timestamp == t
      {
        if i :| 0 <= i < |init| && init[i].timestamp == t {
          assert series[i].timestamp == t;
        }
        if t in times - {last.timestamp} {
          var i :| 0 <= i < |series| && series[i].timestamp == t;
          assert init[i].timestamp == t;
        }
      }
      CountTimes(init, times - {last.timestamp});
    }
  }

  /** What is listed under a key after everything in the log. */
  lemma ListedSays(log: seq<Candle>, symbol: string, timeframe: Timeframe)
    ensures var series := After([], log, (Uppercase(symbol), timeframe));
      && Chronological(series) && |series| == |Times(log, symbol, timeframe)|
      && forall c :: c in series <==> WrittenLast(log, symbol, timeframe, c)
  {
    hide After, WrittenLast, Chronological, KeyOf, LatestWrite, OfSeries;
    var key := (Uppercase(symbol), timeframe);
    var series, times := After([], log, key), Times(log, symbol, timeframe);
    assert Chronological([]) by { NothingListed(); }
    AfterHolds([], log, key);
    forall c ensures c in series <==> WrittenLast(log, symbol, timeframe, c) {
      LastWritten(log, symbol, timeframe, c);
    }
    forall t ensures t in times <==> exists i :: 0 <= i < |series| && series[i].timestamp == t {
      TimeListed(log, symbol, timeframe, series, t);
    }
    CountTimes(series, times);
  }

  lemma NothingListed()
    ensures Chronological([])
  {
  }

  lemma TimeListed(log: seq<Candle>, symbol: string, timeframe: Timeframe, series: seq<Candle>, t: int)
    requires forall c :: c in series <==> LatestWrite(log, (Uppercase(symbol), timeframe), c.timestamp) == Some(c)
    ensures t in Times(log, symbol, timeframe) <==> exists i :: 0 <= i < |series| && series[i].timestamp == t
  {
    hide OfSeries, KeyOf;
    var key := (Uppercase(symbol), timeframe);
    LatestIsWritten(log, key);
    if t in Times(log, symbol, timeframe) {
      var c :| c in log && OfSeries(c, symbol, timeframe) && c.timestamp == t;
      KeyExactly(c, symbol, timeframe);
      var latest := LatestWrite(log, key, t).value;
      assert latest in series;
    }
    if i :| 0 <= i < |series| && series[i].timestamp == t {
      assert series[i] in series;
      KeyExactly(series[i], symbol, timeframe);
    }
  }

  /** The history of a platform without a cache lists what was written. */
  lemma {:induction false} HistoryIsLog(calls: seq<Call>, key: SeriesKey)
    ensures At(PlainAll(map[], calls), key) == After([], Log(calls), key)
  {
    hide After, Listings, Times;
    if calls == [] {
      NothingWrittenYet(key);
    } else {
      var init, last := calls[..|calls| - 1], calls[|calls| - 1];
      HistoryIsLog(init, key);
      match last
      case Put(candles) =>
        ListingsAt(PlainAll(map[], init), candles, key);
        AfterConcat([], Log(init), candles, key);
      case Restarts =>
      case Get(symbol, timeframe, limit, provided) =>
        HistoryIsLog(init, (Uppercase(symbol), timeframe));
        ListedSays(Log(init), symbol, timeframe);
        ListingsAt(PlainAll(map[], init), provided, key);
        AfterConcat([], Log(init), provided, key);
    }
  }

  lemma NothingWrittenYet(key: SeriesKey)
    ensures After([], [], key) == []
  {
  }

  lemma NewestSays(series: seq<Candle>, limit: nat)
    requires Chronological(series) && limit <= |series|
    ensures var rows := Last(series, limit);
      && |rows| == limit && Chronological(rows) && (forall c :: c in rows ==> c in series)
      && forall c, r :: c in series && c !in rows && r in rows ==> c.timestamp < r.timestamp
  {
    var rows := Last(series, limit);
    forall i | |series| - limit <= i < |series| ensures series[i] in rows {
      assert rows[i - (|series| - limit)] == series[i];
    }
    forall c, r | c in series && c !in rows && r in rows ensures c.timestamp < r.timestamp {
      var i :| 0 <= i < |series| && series[i] == c;
      var k :| 0 <= k < |rows| && rows[k] == r;
      assert series[|series| - limit + k] == r;
    }
  }

  /** Every read of a platform without a cache, after any calls. */
  lemma ReadSays(calls: seq<Call>, symbol: string, timeframe: Timeframe, limit: nat, provided: seq<Candle>)
    ensures Says(Log(calls), symbol, timeframe, limit, provided,
                 PlainAnswer(PlainAll(map[], calls), Get(symbol, timeframe, limit, provided)))
  {
    hide After, Times, WrittenLast, Chronological, Log, PlainAll, Last;
    var key := (Uppercase(symbol), timeframe);
    HistoryIsLog(calls, key);
    ListedSays(Log(calls), symbol, timeframe);
    var series := After([], Log(calls), key);
    if limit <= |series| { NewestSays(series, limit); }
  }

  lemma {:induction false} AnswerAt(calls: seq<Call>, i: nat)
    requires i < |calls|
    ensures PlainAnswers(map[], calls)[i] == PlainAnswer(PlainAll(map[], calls[..i]), calls[i])
  {
    hide PlainAnswer, PlainAll;
    var init := calls[..|calls| - 1];
    if i < |init| {
      AnswerAt(init, i);
      assert init[..i] == calls[..i];
    }
  }

  /**
   * A new platform with its cache, used in any way: every read returns the newest candles written for
   * its series when enough were written, and what the provider serves otherwise.
   */
  method ServeNew(n: nat, calls: seq<Call>) returns (answers: seq<seq<Candle>>)
    requires n > 0
    requires forall i :: 0 <= i < |calls| ==> !calls[i].Restarts? && (calls[i].Get? ==> calls[i].limit > 0)
    ensures |answers| == |calls|
    ensures forall i :: 0 <= i < |calls| && calls[i].Get? ==>
      Says(Log(calls[..i]), calls[i].symbol, calls[i].timeframe, calls[i].limit, calls[i].provided, answers[i])
  {
    hide PlainAnswers, PlainAll, Log, Says, PlainAnswer;
    answers := MarketCache.ServeNew(n, calls);
    forall i | 0 <= i < |calls| && calls[i].Get?
      ensures Says(Log(calls[..i]), calls[i].symbol, calls[i].timeframe, calls[i].limit, calls[i].provided, answers[i])
    {
      AnswerAt(calls, i);
      ReadSays(calls[..i], calls[i].symbol, calls[i].timeframe, calls[i].limit, calls[i].provided);
    }
  }
}
