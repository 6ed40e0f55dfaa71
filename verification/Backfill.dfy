/** Chunked, resumable backfill of one timeframe, and the merge of verified shards. */
module Backfill {
  import opened Prelude
  import opened Candles
  import opened CandleQuality
  import MarketCache

  datatype BackfillError =
    | ProviderFailed | OutsideWindow | Conflict | NothingCollected | StartMismatch | EndMismatch | BadQuality

  /** A provider that answers the same request the same way. */
  type Provider = (int, int) -> Result<seq<Candle>, BackfillError>

  datatype Request = Request(symbol: string, frame: Timeframe, start: int, end: int, chunkPoints: nat)

  function LastExpected(q: Request): int { q.end - q.frame.Seconds() }

  function Span(q: Request): int { q.frame.Seconds() * (q.chunkPoints - 1) }

  function WindowEnd(q: Request, cursor: int): int
  {
    if LastExpected(q) <= cursor + Span(q) then LastExpected(q) else cursor + Span(q)
  }

  predicate InWindow(q: Request, rows: seq<Candle>, from: int, to: int)
  {
    forall i :: 0 <= i < |rows| ==>
      rows[i].symbol == q.symbol && rows[i].timeframe == q.frame && from <= rows[i].timestamp <= to
  }

  /** The rows of one window; a candle outside it is an error. */
  function Window(q: Request, provider: Provider, from: int, to: int): Result<seq<Candle>, BackfillError>
  {
    match provider(from, to)
    case Err(e) => Err(e)
    case Ok(rows) => if InWindow(q, rows, from, to) then Ok(rows) else Err(OutsideWindow)
  }

  /** The candle already kept at this time, if there is one. */
  function Kept(merged: seq<Candle>, time: int): Option<Candle>
  {
    if merged == [] then None
    else if merged[|merged| - 1].timestamp == time then Some(merged[|merged| - 1])
    else Kept(merged[..|merged| - 1], time)
  }

  /** The rows added one by one, by timestamp; two different candles of one time conflict. */
  function MergeRows(merged: seq<Candle>, rows: seq<Candle>): Result<seq<Candle>, BackfillError>
  {
    if rows == [] then Ok(merged)
    else
      match MergeRows(merged, rows[..|rows| - 1])
      case Err(e) => Err(e)
      case Ok(before) =>
        var c := rows[|rows| - 1];
        if Kept(before, c.timestamp).Some? && Kept(before, c.timestamp).value != c then Err(Conflict)
        else Ok(MarketCache.Upserted(before, c))
  }

  /** Window after window from the cursor; each starts where the one before it ended. */
  function CollectFrom(q: Request, provider: Provider, cursor: int, merged: seq<Candle>):
    Result<seq<Candle>, BackfillError>
    requires q.chunkPoints >= 2
    decreases LastExpected(q) - cursor
  {
    var to := WindowEnd(q, cursor);
    SpanPositive(q);
    match Window(q, provider, cursor, to)
    case Err(e) => Err(e)
    case Ok(rows) =>
      match MergeRows(merged, rows)
      case Err(e) => Err(e)
      case Ok(next) => if to >= LastExpected(q) then Ok(next) else CollectFrom(q, provider, to, next)
  }

  lemma SpanPositive(q: Request)
    requires q.chunkPoints >= 2
    ensures Span(q) >= q.frame.Seconds() > 0
  {
    var k := q.chunkPoints - 1;
    assert k >= 1;
    assert q.frame.Seconds() * (k - 1) >= 0;
  }

  function Within(merged: seq<Candle>, start: int, end: int): seq<Candle>
  {
    if merged == [] then []
    else
      var c := merged[|merged| - 1];
      Within(merged[..|merged| - 1], start, end) + if start <= c.timestamp < end then [c] else []
  }

  /** The final checks: coverage at both ends, and the quality of the whole. */
  function Checked(q: Request, merged: seq<Candle>): Result<seq<Candle>, BackfillError>
  {
    var candles := Within(merged, q.start, q.end);
    if candles == [] then Err(NothingCollected)
    else if candles[0].timestamp != q.start then Err(StartMismatch)
    else if candles[|candles| - 1].timestamp != LastExpected(q) then Err(EndMismatch)
    else if !ValidSeries(candles, q.frame) then Err(BadQuality)
    else Ok(candles)
  }

  function Collected(q: Request, provider: Provider): Result<seq<Candle>, BackfillError>
    requires q.chunkPoints >= 2
  {
    if q.start >= q.end then Checked(q, [])
    else
      match CollectFrom(q, provider, q.start, [])
      case Err(e) => Err(e)
      case Ok(merged) => Checked(q, merged)
  }

  // ------------------------------------------------------------------- the result

  /** Exactly the points of the grid from the start to one step before the end, each once. */
  ghost predicate IsGrid(candles: seq<Candle>, frame: Timeframe, start: int, end: int)
  {
    && ValidSeries(candles, frame)
    && start + frame.Seconds() * |candles| == end
    && forall i :: 0 <= i < |candles| ==> candles[i].timestamp == start + frame.Seconds() * i
  }

  lemma CoverageIsGrid(candles: seq<Candle>, frame: Timeframe, start: int, end: int)
    requires ValidSeries(candles, frame) && candles[0].timestamp == start
    requires candles[|candles| - 1].timestamp == end - frame.Seconds()
    ensures IsGrid(candles, frame, start, end)
  {
    hide Shaped;
    forall i | 0 <= i < |candles| ensures candles[i].timestamp == start + frame.Seconds() * i {
      ContiguousAt(candles, frame.Seconds(), i);
    }
    var n := |candles|;
    assert frame.Seconds() * (n - 1) + frame.Seconds() == frame.Seconds() * n;
  }

  /** Whatever the provider does, a series that is returned is the whole grid. */
  lemma CollectedIsGrid(q: Request, provider: Provider)
    requires q.chunkPoints >= 2 && Collected(q, provider).Ok?
    ensures IsGrid(Collected(q, provider).value, q.frame, q.start, q.end)
  {
    hide IsGrid, CollectFrom, Within;
    CoverageIsGrid(Collected(q, provider).value, q.frame, q.start, q.end);
  }

  // ------------------------------------------------------- nothing lost in chunks

  /** The provider serves the slices of one complete series. */
  ghost predicate Serves(provider: Provider, truth: seq<Candle>)
  {
    forall a, b :: 0 <= a <= b < |truth| ==>
      provider(truth[a].timestamp, truth[b].timestamp) == Ok(truth[a..b + 1])
  }

  lemma {:induction false} KeptLast(merged: seq<Candle>, time: int)
    requires forall i :: 0 <= i < |merged| ==> merged[i].timestamp < time
    ensures Kept(merged, time) == None
  {
    if merged != [] { KeptLast(merged[..|merged| - 1], time); }
  }

  lemma MergeOne(merged: seq<Candle>, rows: seq<Candle>, c: Candle, next: seq<Candle>)
    requires MergeRows(merged, rows) == Ok(next)
    requires next == [] || next[|next| - 1].timestamp < c.timestamp || next[|next| - 1] == c
    requires forall i :: 0 <= i < |next| - 1 ==> next[i].timestamp < c.timestamp
    ensures MergeRows(merged, rows + [c])
         == Ok(if next != [] && next[|next| - 1] == c then next else next + [c])
  {
    assert (rows + [c])[..|rows|] == rows;
    if next != [] && next[|next| - 1] == c {
      assert next == next[..|next| - 1] + [c];
    } else {
      KeptLast(next, c.timestamp);
    }
  }

  /** Adding the slice that starts with the last kept candle extends the kept prefix. */
  lemma {:induction false} MergeSlice(truth: seq<Candle>, i: nat, a: nat, b: nat)
    requires Chronological(truth) && a <= b < |truth| && a <= i <= a + 1
    ensures MergeRows(truth[..i], truth[a..b + 1]) == Ok(truth[..b + 1])
    decreases b
  {
    hide MergeRows;
    assert truth[..b + 1] == truth[..b] + [truth[b]];
    if b == a {
      assert truth[a..b + 1] == [] + [truth[a]];
      assert MergeRows(truth[..i], []) == Ok(truth[..i]) by { NothingMerged(truth[..i]); }
      MergeOne(truth[..i], [], truth[a], truth[..i]);
    } else {
      assert truth[a..b + 1] == truth[a..b] + [truth[b]];
      MergeSlice(truth, i, a, b - 1);
      MergeOne(truth[..i], truth[a..b], truth[b], truth[..b]);
    }
  }

  lemma NothingMerged(merged: seq<Candle>)
    ensures MergeRows(merged, []) == Ok(merged)
  {
  }

  lemma WindowEndOnGrid(q: Request, truth: seq<Candle>, a: nat)
    requires q.chunkPoints >= 2 && IsGrid(truth, q.frame, q.start, q.end) && a < |truth|
    ensures var b := if |truth| - 1 <= a + q.chunkPoints - 1 then |truth| - 1 else a + q.chunkPoints - 1;
      WindowEnd(q, truth[a].timestamp) == truth[b].timestamp && LastExpected(q) == truth[|truth| - 1].timestamp
  {
    hide ValidSeries;
    var step, k, n := q.frame.Seconds(), q.chunkPoints - 1, |truth|;
    assert step * (n - 1) + step == step * n;
    assert step * a + step * k == step * (a + k);
    if n - 1 <= a + k {
      StepMonotone(step, n - 1, a + k);
    } else {
      StepMonotone(step, a + k + 1, n - 1);
      OneMore(step, a + k);
    }
  }

  lemma StepMonotone(step: nat, x: int, y: int)
    requires x <= y
    ensures step * x <= step * y
  {
    assert step * (y - x) >= 0;
  }

  lemma OneMore(step: int, k: int)
    ensures step * (k + 1) == step * k + step
  {
  }

  /** How far the window from the a-th candle reaches. */
  function Reach(q: Request, truth: seq<Candle>, a: nat): int
  {
    if |truth| - 1 <= a + q.chunkPoints - 1 then |truth| - 1 else a + q.chunkPoints - 1
  }

  lemma OneWindow(q: Request, provider: Provider, truth: seq<Candle>, i: nat, a: nat)
    requires q.chunkPoints >= 2 && IsGrid(truth, q.frame, q.start, q.end) && Serves(provider, truth)
    requires forall k :: 0 <= k < |truth| ==> truth[k].symbol == q.symbol
    requires a < |truth| && a <= i <= a + 1
    ensures var b := Reach(q, truth, a);
      && a <= b < |truth| && (a < |truth| - 1 ==> b > a)
      && WindowEnd(q, truth[a].timestamp) == truth[b].timestamp
      && Window(q, provider, truth[a].timestamp, truth[b].timestamp) == Ok(truth[a..b + 1])
      && MergeRows(truth[..i], truth[a..b + 1]) == Ok(truth[..b + 1])
      && LastExpected(q) == truth[|truth| - 1].timestamp
      && (b < |truth| - 1 ==> truth[b].timestamp < LastExpected(q))
  {
    hide IsGrid, MergeRows, Window, WindowEnd, Serves, LastExpected;
    var b := Reach(q, truth, a);
    WindowEndOnGrid(q, truth, a);
    GridInOrder(truth, q.frame, q.start, q.end);
    WindowServed(q, provider, truth, a, b);
    MergeSlice(truth, i, a, b);
  }

  lemma WindowServed(q: Request, provider: Provider, truth: seq<Candle>, a: nat, b: nat)
    requires IsGrid(truth, q.frame, q.start, q.end) && Serves(provider, truth) && a <= b < |truth|
    requires forall k :: 0 <= k < |truth| ==> truth[k].symbol == q.symbol
    ensures Window(q, provider, truth[a].timestamp, truth[b].timestamp) == Ok(truth[a..b + 1])
  {
    GridInOrder(truth, q.frame, q.start, q.end);
    SliceInWindow(q, truth, a, b);
    hide IsGrid, InWindow;
  }

  lemma {:induction false} CollectsSlices(q: Request, provider: Provider, truth: seq<Candle>, i: nat, a: nat)
    requires q.chunkPoints >= 2 && IsGrid(truth, q.frame, q.start, q.end) && Serves(provider, truth)
    requires forall k :: 0 <= k < |truth| ==> truth[k].symbol == q.symbol
    requires a < |truth| && a <= i <= a + 1
    ensures CollectFrom(q, provider, truth[a].timestamp, truth[..i]) == Ok(truth)
    decreases |truth| - a
  {
    hide IsGrid, Serves, MergeRows, Window, WindowEnd, LastExpected, Reach;
    var b := Reach(q, truth, a);
    OneWindow(q, provider, truth, i, a);
    assert truth[..|truth|] == truth;
    if b < |truth| - 1 { CollectsSlices(q, provider, truth, b + 1, b); }
  }

  lemma SliceInWindow(q: Request, truth: seq<Candle>, a: nat, b: nat)
    requires Chronological(truth) && ValidSeries(truth, q.frame) && a <= b < |truth|
    requires forall k :: 0 <= k < |truth| ==> truth[k].symbol == q.symbol
    ensures InWindow(q, truth[a..b + 1], truth[a].timestamp, truth[b].timestamp)
  {
    hide Shaped;
  }

  lemma GridInOrder(truth: seq<Candle>, frame: Timeframe, start: int, end: int)
    requires IsGrid(truth, frame, start, end)
    ensures Chronological(truth)
  {
    hide ValidSeries;
    forall i, j | 0 <= i < j < |truth| ensures truth[i].timestamp < truth[j].timestamp {
      StepMonotone(frame.Seconds(), i + 1, j);
      OneMore(frame.Seconds(), i);
    }
  }

  lemma {:induction false} AllWithin(truth: seq<Candle>, start: int, end: int)
    requires forall i :: 0 <= i < |truth| ==> start <= truth[i].timestamp < end
    ensures Within(truth, start, end) == truth
  {
    if truth != [] {
      AllWithin(truth[..|truth| - 1], start, end);
      assert truth == truth[..|truth| - 1] + [truth[|truth| - 1]];
    }
  }

  /** For every chunk size the windows put the served series back together, candle for candle. */
  lemma BackfillIsComplete(q: Request, provider: Provider, truth: seq<Candle>)
    requires q.chunkPoints >= 2 && IsGrid(truth, q.frame, q.start, q.end) && Serves(provider, truth)
    requires forall k :: 0 <= k < |truth| ==> truth[k].symbol == q.symbol
    ensures Collected(q, provider) == Ok(truth)
  {
    CollectsSlices(q, provider, truth, 0, 0);
    hide CollectFrom;
    var step := q.frame.Seconds();
    forall i | 0 <= i < |truth| ensures q.start <= truth[i].timestamp < q.end {
      StepMonotone(step, 0, i);
      StepMonotone(step, i + 1, |truth|);
      OneMore(step, i);
    }
    AllWithin(truth, q.start, q.end);
    OneMore(step, |truth| - 1);
    StepMonotone(step, 1, |truth|);
  }

  // ---------------------------------------------------------------- resuming a run

  class BackfillStore {
    /** Rows saved for a window already requested. */
    var checkpoints: map<(int, int), seq<Candle>>

    /** Every checkpoint is what the provider answers for its window. */
    ghost predicate Agrees(q: Request, provider: Provider)
      reads this
    {
      forall w :: w in checkpoints ==> Window(q, provider, w.0, w.1) == Ok(checkpoints[w])
    }

    constructor ()
      ensures checkpoints == map[]
    {
      checkpoints := map[];
    }

    /**
     * Reuse a checkpoint or fetch, check and save the window, merge, move on.  The run may be cut
     * off at any point; whatever was saved by then, a run that finishes returns the same series.
     */
    method CollectTimeframe(q: Request, provider: Provider)
      returns (r: Option<Result<seq<Candle>, BackfillError>>)
      requires q.chunkPoints >= 2 && Agrees(q, provider)
      modifies this
      ensures Agrees(q, provider) && old(checkpoints).Keys <= checkpoints.Keys
      ensures r.Some? ==> r.value == Collected(q, provider)
    {
      hide MergeRows, Window, WindowEnd, Span, Checked;
      var cursor, merged: seq<Candle> := q.start, [];
      var done := q.start >= q.end;
      while !done
        invariant Agrees(q, provider) && old(checkpoints).Keys <= checkpoints.Keys
        invariant done || CollectFrom(q, provider, q.start, []) == CollectFrom(q, provider, cursor, merged)
        invariant done ==> q.start >= q.end || CollectFrom(q, provider, q.start, []) == Ok(merged)
        invariant q.start >= q.end ==> merged == []
        decreases if done then 0 else 1, LastExpected(q) - cursor
      {
        var to := WindowEnd(q, cursor);
        WindowMoves(q, cursor);
        var rows := [];
        if (cursor, to) in checkpoints {
          rows := checkpoints[(cursor, to)];
        } else {
          var up := *;
          if !up { return None; }
          var window := Window(q, provider, cursor, to);
          if window.Err? { return Some(window); }
          checkpoints := checkpoints[(cursor, to) := window.value];
          rows := window.value;
        }
        assert Window(q, provider, cursor, to) == Ok(rows);
        var next := MergeRows(merged, rows);
        if next.Err? { return Some(next); }
        merged := next.value;
        if to >= LastExpected(q) { done := true; } else { cursor := to; }
      }
      return Some(Checked(q, merged));
    }
  }

  lemma WindowMoves(q: Request, cursor: int)
    requires q.chunkPoints >= 2
    ensures WindowEnd(q, cursor) >= LastExpected(q) || WindowEnd(q, cursor) > cursor
  {
    SpanPositive(q);
  }

  // ---------------------------------------------------------------- merging shards

  /** A locked dataset: its range and its series by timeframe. */
  datatype Shard = Shard(symbol: string, provider: string, start: int, end: int, series: map<Timeframe, seq<Candle>>)

  const MERGED_FRAMES := [M15, H1, H4, D1]

  /** What loading a locked dataset has verified. */
  ghost predicate Verified(s: Shard)
  {
    forall f :: f in MERGED_FRAMES ==> f in s.series && IsGrid(s.series[f], f, s.start, s.end)
  }

  datatype MergeError = TooFew | MixedIdentity | NotContiguous | Rejected

  function InsertShard(shards: seq<Shard>, s: Shard): seq<Shard>
  {
    if shards == [] || shards[|shards| - 1].start <= s.start then shards + [s]
    else InsertShard(shards[..|shards| - 1], s) + [shards[|shards| - 1]]
  }

  function SortShards(shards: seq<Shard>): seq<Shard>
  {
    if shards == [] then [] else InsertShard(SortShards(shards[..|shards| - 1]), shards[|shards| - 1])
  }

  predicate Mergeable(sorted: seq<Shard>)
  {
    && |sorted| >= 2
    && (forall i :: 0 <= i < |sorted| ==>
          sorted[i].symbol == sorted[0].symbol && sorted[i].provider == sorted[0].provider)
    && forall i :: 0 < i < |sorted| ==> sorted[i].start == sorted[i - 1].end
  }

  function SeriesOf(shards: seq<Shard>, frame: Timeframe): seq<Candle>
  {
    if shards == [] then []
    else
      var last := shards[|shards| - 1].series;
      SeriesOf(shards[..|shards| - 1], frame) + if frame in last then last[frame] else []
  }

  lemma GridConcat(a: seq<Candle>, b: seq<Candle>, frame: Timeframe, start: int, middle: int, end: int)
    requires IsGrid(a, frame, start, middle) && IsGrid(b, frame, middle, end)
    ensures IsGrid(a + b, frame, start, end)
  {
    hide Shaped;
    var step := frame.Seconds();
    assert step * |a| + step * |b| == step * (|a| + |b|);
    OneMore(step, |a| - 1);
    ContiguousConcat(a, b, step);
    forall i | 0 <= i < |a + b| ensures (a + b)[i].timestamp == start + step * i {
      if i >= |a| { assert step * |a| + step * (i - |a|) == step * i; }
    }
  }

  /** Contiguous verified shards put end to end are again exactly the grid of the whole range. */
  lemma {:induction false} MergedIsGrid(shards: seq<Shard>, frame: Timeframe)
    requires shards != [] && frame in MERGED_FRAMES
    requires forall i :: 0 <= i < |shards| ==> Verified(shards[i])
    requires forall i :: 0 < i < |shards| ==> shards[i].start == shards[i - 1].end
    ensures IsGrid(SeriesOf(shards, frame), frame, shards[0].start, shards[|shards| - 1].end)
  {
    hide IsGrid;
    var init, last := shards[..|shards| - 1], shards[|shards| - 1];
    assert Verified(last);
    if init == [] {
      assert SeriesOf(shards, frame) == last.series[frame];
    } else {
      MergedIsGrid(init, frame);
      GridConcat(SeriesOf(init, frame), last.series[frame], frame, shards[0].start, last.start, last.end);
    }
  }

  lemma {:induction false} SortKeeps(shards: seq<Shard>)
    ensures multiset(SortShards(shards)) == multiset(shards) && |SortShards(shards)| == |shards|
  {
    if shards != [] {
      SortKeeps(shards[..|shards| - 1]);
      InsertShardKeeps(SortShards(shards[..|shards| - 1]), shards[|shards| - 1]);
      assert shards == shards[..|shards| - 1] + [shards[|shards| - 1]];
    }
  }

  lemma {:induction false} InsertShardKeeps(shards: seq<Shard>, s: Shard)
    ensures multiset(InsertShard(shards, s)) == multiset(shards) + multiset{s}
    ensures |InsertShard(shards, s)| == |shards| + 1
  {
    if shards != [] {
      assert shards == shards[..|shards| - 1] + [shards[|shards| - 1]];
      if shards[|shards| - 1].start > s.start { InsertShardKeeps(shards[..|shards| - 1], s); }
    }
  }

  /** The checks after merging one timeframe: no time twice, valid, and covering both ends. */
  method CheckMerged(merged: seq<Candle>, frame: Timeframe, start: int, end: int) returns (ok: bool)
    ensures IsGrid(merged, frame, start, end) ==> ok
    ensures ok ==> IsGrid(merged, frame, start, end)
  {
    hide IsGrid;
    var reasons := ValidateCandles(merged, frame);
    ok := reasons == [] && merged[0].timestamp == start && merged[|merged| - 1].timestamp == end - frame.Seconds();
    if ok {
      CoverageIsGrid(merged, frame, start, end);
    } else if IsGrid(merged, frame, start, end) {
      GridEnds(merged, frame, start, end);
    }
  }

  lemma GridEnds(candles: seq<Candle>, frame: Timeframe, start: int, end: int)
    requires IsGrid(candles, frame, start, end)
    ensures ValidSeries(candles, frame) && candles[0].timestamp == start
    ensures candles[|candles| - 1].timestamp == end - frame.Seconds()
  {
    OneMore(frame.Seconds(), |candles| - 1);
  }

  /** The series of this timeframe covers the whole range of the shards. */
  ghost predicate Covers(merged: map<Timeframe, seq<Candle>>, frame: Timeframe, shards: seq<Shard>)
  {
    shards != [] && frame in merged && IsGrid(merged[frame], frame, shards[0].start, shards[|shards| - 1].end)
  }

  /** One identity, and every shard starts where the one before it ends. */
  method CheckShards(sorted: seq<Shard>) returns (error: Option<MergeError>)
    ensures error.None? <==> Mergeable(sorted)
    ensures error != Some(Rejected)
  {
    if |sorted| < 2 { return Some(TooFew); }
    for i := 0 to |sorted|
      invariant forall k :: 0 <= k < i ==>
        sorted[k].symbol == sorted[0].symbol && sorted[k].provider == sorted[0].provider
      invariant forall k :: 0 < k < i ==> sorted[k].start == sorted[k - 1].end
    {
      if sorted[i].symbol != sorted[0].symbol || sorted[i].provider != sorted[0].provider {
        return Some(MixedIdentity);
      }
      if i > 0 && sorted[i].start != sorted[i - 1].end { return Some(MergeError.NotContiguous); }
    }
    return None;
  }

  /** Sort by start, check, join and check every timeframe: no further check can reject the result. */
  method MergeShards(shards: seq<Shard>) returns (r: Result<map<Timeframe, seq<Candle>>, MergeError>)
    requires forall i :: 0 <= i < |shards| ==> Verified(shards[i])
    ensures r.Ok? <==> Mergeable(SortShards(shards))
    ensures r.Ok? ==> forall f :: f in MERGED_FRAMES ==> Covers(r.value, f, SortShards(shards))
    ensures r != Err(Rejected)
  {
    hide IsGrid, Verified, Covers, SortShards;
    SortKeeps(shards);
    var sorted := SortShards(shards);
    forall i | 0 <= i < |sorted| ensures Verified(sorted[i]) {
      assert sorted[i] in multiset(shards);
    }
    var error := CheckShards(sorted);
    if error.Some? { return Err(error.value); }
    var merged: map<Timeframe, seq<Candle>> := map[];
    for k := 0 to |MERGED_FRAMES|
      invariant forall j :: 0 <= j < k ==> Covers(merged, MERGED_FRAMES[j], sorted)
    {
      var joined, ok := JoinFrame(sorted, MERGED_FRAMES[k]);
      if !ok { return Err(Rejected); }
      CoversMore(merged, joined, k, sorted);
      merged := merged[MERGED_FRAMES[k] := joined];
    }
    return Ok(merged);
  }

  method JoinFrame(sorted: seq<Shard>, frame: Timeframe) returns (joined: seq<Candle>, ok: bool)
    requires Mergeable(sorted) && frame in MERGED_FRAMES && forall i :: 0 <= i < |sorted| ==> Verified(sorted[i])
    ensures ok && IsGrid(joined, frame, sorted[0].start, sorted[|sorted| - 1].end)
  {
    hide IsGrid, Verified;
    MergedIsGrid(sorted, frame);
    joined := SeriesOf(sorted, frame);
    ok := CheckMerged(joined, frame, sorted[0].start, sorted[|sorted| - 1].end);
  }

  lemma CoversMore(merged: map<Timeframe, seq<Candle>>, joined: seq<Candle>, k: nat, shards: seq<Shard>)
    requires k < |MERGED_FRAMES| && shards != []
    requires forall j :: 0 <= j < k ==> Covers(merged, MERGED_FRAMES[j], shards)
    requires IsGrid(joined, MERGED_FRAMES[k], shards[0].start, shards[|shards| - 1].end)
    ensures forall j :: 0 <= j <= k ==> Covers(merged[MERGED_FRAMES[k] := joined], MERGED_FRAMES[j], shards)
  {
    hide IsGrid;
    forall j | 0 <= j < k ensures MERGED_FRAMES[j] != MERGED_FRAMES[k] {
    }
  }
}
