/** Coarser candles from five-minute ones, and why the coarser series agree with each other. */
module CandleAggregation {
  import opened Prelude
  import opened Candles
  import opened CandleQuality

  const BASE := 300

  function HighOf(cs: seq<Candle>): real
    requires cs != []
  {
    if |cs| == 1 then cs[0].high else Max(HighOf(cs[..|cs| - 1]), cs[|cs| - 1].high)
  }

  function LowOf(cs: seq<Candle>): real
    requires cs != []
  {
    if |cs| == 1 then cs[0].low else Min(LowOf(cs[..|cs| - 1]), cs[|cs| - 1].low)
  }

  function VolumeOf(cs: seq<Candle>): real
  {
    if cs == [] then 0.0 else VolumeOf(cs[..|cs| - 1]) + cs[|cs| - 1].volume
  }

  /** The OHLCV merge of consecutive candles. */
  function Merge(frame: Timeframe, cs: seq<Candle>): Candle
    requires cs != []
  {
    Candle(cs[0].symbol, frame, cs[0].timestamp, cs[0].open, HighOf(cs), LowOf(cs), cs[|cs| - 1].close, VolumeOf(cs))
  }

  /** The merges of the consecutive groups of n candles. */
  function MergeGroups(frame: Timeframe, cs: seq<Candle>, n: nat): seq<Candle>
    requires n > 0
  {
    if |cs| < n then [] else [Merge(frame, cs[..n])] + MergeGroups(frame, cs[n..], n)
  }

  // --------------------------------------------------------- merging merged candles

  lemma {:induction false} MergeConcat(a: seq<Candle>, b: seq<Candle>)
    requires a != [] && b != []
    ensures HighOf(a + b) == Max(HighOf(a), HighOf(b))
    ensures LowOf(a + b) == Min(LowOf(a), LowOf(b))
    ensures VolumeOf(a + b) == VolumeOf(a) + VolumeOf(b)
  {
    var init, last := b[..|b| - 1], b[|b| - 1];
    assert (a + b)[..|a + b| - 1] == a + init && (a + b)[|a + b| - 1] == last;
    if init == [] {
      assert a + init == a;
    } else {
      MergeConcat(a, init);
    }
  }

  /** The merge says what its candles say: first and last, the extremes, each of them reached, the total. */
  lemma {:induction false} MergeSays(frame: Timeframe, cs: seq<Candle>)
    requires cs != []
    ensures var m := Merge(frame, cs);
      && m.open == cs[0].open && m.close == cs[|cs| - 1].close && m.timestamp == cs[0].timestamp
      && m.symbol == cs[0].symbol && m.timeframe == frame
      && (forall i :: 0 <= i < |cs| ==> cs[i].high <= m.high && m.low <= cs[i].low)
      && (exists i :: 0 <= i < |cs| && cs[i].high == m.high) && (exists i :: 0 <= i < |cs| && cs[i].low == m.low)
    ensures VolumeOf([]) == 0.0 && VolumeOf(cs) == VolumeOf(cs[..|cs| - 1]) + cs[|cs| - 1].volume
  {
    if |cs| > 1 {
      var init := cs[..|cs| - 1];
      MergeSays(frame, init);
      var h :| 0 <= h < |init| && init[h].high == HighOf(init);
      var l :| 0 <= l < |init| && init[l].low == LowOf(init);
      assert cs[h].high == HighOf(init) && cs[l].low == LowOf(init);
    }
  }

  /** Group k is the merge of candles n k up to n (k + 1). */
  lemma {:induction false} GroupAt(frame: Timeframe, cs: seq<Candle>, n: nat, k: nat)
    requires n > 0 && k < |MergeGroups(frame, cs, n)|
    ensures n * k + n <= |cs| && MergeGroups(frame, cs, n)[k] == Merge(frame, cs[n * k..n * k + n])
    decreases k
  {
    hide Merge;
    if k == 0 {
      assert n * k == 0 && cs[0..n] == cs[..n];
    } else {
      var rest := cs[n..];
      GroupAt(frame, rest, n, k - 1);
      assert n * k == n + n * (k - 1);
      assert rest[n * (k - 1)..n * (k - 1) + n] == cs[n * k..n * k + n];
    }
  }

  /** n taken this many times. */
  function Times(n: nat, k: nat): nat
  {
    if k == 0 then 0 else n + Times(n, k - 1)
  }

  /** Merging the merges of whole groups is merging everything at once. */
  lemma {:induction false} MergeOfMerges(fine: Timeframe, coarse: Timeframe, cs: seq<Candle>, n: nat, k: nat)
    requires n > 0 && k > 0 && |cs| == Times(n, k)
    ensures |MergeGroups(fine, cs, n)| == k
    ensures Merge(coarse, MergeGroups(fine, cs, n)) == Merge(coarse, cs)
  {
    hide HighOf, LowOf, VolumeOf;
    var head, rest := cs[..n], cs[n..];
    assert cs == head + rest;
    Single(Merge(fine, head));
    if k == 1 {
      assert rest == [] && head == cs;
      assert MergeGroups(fine, cs, n) == [Merge(fine, head)];
    } else {
      MergeOfMerges(fine, coarse, rest, n, k - 1);
      MergeConcat(head, rest);
      MergeConcat([Merge(fine, head)], MergeGroups(fine, rest, n));
    }
  }

  lemma Single(c: Candle)
    ensures HighOf([c]) == c.high && LowOf([c]) == c.low && VolumeOf([c]) == c.volume
  {
  }

  /** Groups of a concatenation of whole groups. */
  lemma {:induction false} GroupsConcat(frame: Timeframe, a: seq<Candle>, b: seq<Candle>, n: nat, k: nat)
    requires n > 0 && |a| == Times(n, k)
    ensures |MergeGroups(frame, a, n)| == k
    ensures MergeGroups(frame, a + b, n) == MergeGroups(frame, a, n) + MergeGroups(frame, b, n)
  {
    hide Merge;
    if k == 0 {
      assert a + b == b;
    } else {
      GroupsConcat(frame, a[n..], b, n, k - 1);
      assert (a + b)[..n] == a[..n] && (a + b)[n..] == a[n..] + b;
    }
  }

  /**
   * The coarse series is the merge of the fine one: grouping the base by n and the result by k is
   * grouping the base by n times k.
   */
  lemma {:induction false} CoarseIsMergeOfFine(
    fine: Timeframe, coarse: Timeframe, base: seq<Candle>, n: nat, k: nat, groups: nat)
    requires n > 0 && k > 0 && |base| == Times(Times(n, k), groups)
    ensures Times(n, k) > 0
    ensures MergeGroups(coarse, MergeGroups(fine, base, n), k) == MergeGroups(coarse, base, Times(n, k))
    decreases groups
  {
    hide Merge;
    var total := Times(n, k);
    if groups > 0 {
      var head, rest := base[..total], base[total..];
      assert base == head + rest;
      CoarseIsMergeOfFine(fine, coarse, rest, n, k, groups - 1);
      GroupsConcat(fine, head, rest, n, k);
      MergeOfMerges(fine, coarse, head, n, k);
      var parts := MergeGroups(fine, head, n);
      assert (parts + MergeGroups(fine, rest, n))[..k] == parts;
      assert (parts + MergeGroups(fine, rest, n))[k..] == MergeGroups(fine, rest, n);
    } else {
      assert MergeGroups(fine, base, n) == [];
    }
  }

  /** No volume is lost or counted twice. */
  lemma {:induction false} VolumeConserved(frame: Timeframe, cs: seq<Candle>, n: nat, groups: nat)
    requires n > 0 && |cs| == Times(n, groups)
    ensures VolumeOf(MergeGroups(frame, cs, n)) == VolumeOf(cs)
    decreases groups
  {
    hide HighOf, LowOf;
    if groups == 0 {
      assert MergeGroups(frame, cs, n) == [];
    } else {
      var head, rest := cs[..n], cs[n..];
      assert cs == head + rest;
      VolumeConserved(frame, rest, n, groups - 1);
      Single(Merge(frame, head));
      VolumeConcat(head, rest);
      VolumeConcat([Merge(frame, head)], MergeGroups(frame, rest, n));
    }
  }

  lemma {:induction false} VolumeConcat(a: seq<Candle>, b: seq<Candle>)
    ensures VolumeOf(a + b) == VolumeOf(a) + VolumeOf(b)
  {
    if b == [] {
      assert a + b == a;
    } else {
      VolumeConcat(a, b[..|b| - 1]);
      assert (a + b)[..|a + b| - 1] == a + b[..|b| - 1];
    }
  }

  // ------------------------------------------------------------------- aggregation

  datatype AggregateError = CountMismatch | Misaligned | NotContiguous | BadQuality

  /** Every child is there: aligned to the frame and one base step after the one before. */
  predicate WholeGroup(children: seq<Candle>, frame: Timeframe)
  {
    && children != [] && children[0].timestamp % frame.Seconds() == 0
    && forall i :: 0 <= i < |children| ==> children[i].timestamp == children[0].timestamp + BASE * i
  }

  method CheckGroup(children: seq<Candle>, frame: Timeframe) returns (error: Option<AggregateError>)
    requires children != []
    ensures error.None? <==> WholeGroup(children, frame)
  {
    if children[0].timestamp % frame.Seconds() != 0 { return Some(Misaligned); }
    for i := 0 to |children|
      invariant forall k :: 0 <= k < i ==> children[k].timestamp == children[0].timestamp + BASE * k
    {
      if children[i].timestamp != children[0].timestamp + BASE * i { return Some(NotContiguous); }
    }
    return None;
  }

  function ChildCount(frame: Timeframe): (n: nat)
    ensures n > 0 && frame.Seconds() == BASE * n
  {
    frame.Seconds() / BASE
  }

  lemma NextAligned(frame: Timeframe, x: int)
    requires x % frame.Seconds() == 0
    ensures (x + frame.Seconds()) % frame.Seconds() == 0
  {
    match frame
    case M5 => assert (x + 300) % 300 == 0;
    case M15 => assert (x + 900) % 900 == 0;
    case H1 => assert (x + 3600) % 3600 == 0;
    case H4 => assert (x + 14400) % 14400 == 0;
    case D1 => assert (x + 86400) % 86400 == 0;
  }

  /** Groups of a valid, aligned base never fail their checks. */
  lemma AlignedGroup(base: seq<Candle>, frame: Timeframe, offset: nat)
    requires ValidSeries(base, M5) && offset + ChildCount(frame) <= |base|
    requires (base[0].timestamp + BASE * offset) % frame.Seconds() == 0
    ensures WholeGroup(base[offset..offset + ChildCount(frame)], frame)
  {
    var children := base[offset..offset + ChildCount(frame)];
    ContiguousAt(base, BASE, offset);
    forall i | 0 <= i < |children| ensures children[i].timestamp == children[0].timestamp + BASE * i {
      ContiguousAt(base, BASE, offset + i);
    }
  }

  lemma {:induction false} MergeShaped(frame: Timeframe, cs: seq<Candle>)
    requires cs != [] && forall i :: 0 <= i < |cs| ==> Shaped(cs[i])
    ensures Shaped(Merge(frame, cs))
    ensures LowOf(cs) <= cs[0].low && cs[0].high <= HighOf(cs)
  {
    var init, last := cs[..|cs| - 1], cs[|cs| - 1];
    if init != [] {
      MergeShaped(frame, init);
    } else {
      Single(last);
      assert cs == [last];
    }
  }

  /** A valid base in whole groups merges into a valid coarser series. */
  lemma {:induction false} GroupsValid(frame: Timeframe, cs: seq<Candle>, groups: nat)
    requires |cs| == Times(ChildCount(frame), groups) && Contiguous(cs, BASE)
    requires forall i :: 0 <= i < |cs| ==> Shaped(cs[i])
    ensures var out := MergeGroups(frame, cs, ChildCount(frame));
      && |out| == groups && Contiguous(out, frame.Seconds())
      && (forall i :: 0 <= i < |out| ==> out[i].timeframe == frame && Shaped(out[i]))
      && (out != [] ==> out[0].timestamp == cs[0].timestamp)
    decreases groups
  {
    var n := ChildCount(frame);
    if groups > 0 {
      GroupsValidStep(frame, cs, groups);
      GroupsValid(frame, cs[n..], groups - 1);
      hide Merge, Shaped;
      var first, rest := Merge(frame, cs[..n]), MergeGroups(frame, cs[n..], n);
      assert MergeGroups(frame, cs, n) == [first] + rest;
      if rest != [] { ContiguousConcat([first], rest, frame.Seconds()); }
    }
  }

  lemma GroupsValidStep(frame: Timeframe, cs: seq<Candle>, groups: nat)
    requires groups > 0 && |cs| == Times(ChildCount(frame), groups) && Contiguous(cs, BASE)
    requires forall i :: 0 <= i < |cs| ==> Shaped(cs[i])
    ensures var n := ChildCount(frame);
      && 0 < n <= |cs| && Contiguous(cs[n..], BASE)
      && Shaped(Merge(frame, cs[..n]))
      && Merge(frame, cs[..n]).timeframe == frame && Merge(frame, cs[..n]).timestamp == cs[0].timestamp
      && (|cs| > n ==> cs[n].timestamp == cs[0].timestamp + frame.Seconds())
  {
    var n := ChildCount(frame);
    match frame { case M5 => case M15 => case H1 => case H4 => case D1 => }
    MergeShaped(frame, cs[..n]);
    if |cs| > n { ContiguousAt(cs, BASE, n); }
  }

  /** Taking one whole group leaves whole groups. */
  lemma OneGroupLess(frame: Timeframe, m: nat)
    requires m % ChildCount(frame) == 0 && m > 0
    ensures m >= ChildCount(frame) && (m - ChildCount(frame)) % ChildCount(frame) == 0
  {
    match frame
    case M5 =>
    case M15 => assert ChildCount(frame) == 3;
    case H1 => assert ChildCount(frame) == 12;
    case H4 => assert ChildCount(frame) == 48;
    case D1 => assert ChildCount(frame) == 288;
  }

  ghost function GroupCount(frame: Timeframe, m: nat): (groups: nat)
    requires m % ChildCount(frame) == 0
    ensures m == Times(ChildCount(frame), groups)
  {
    if m == 0 then 0
    else
      OneGroupLess(frame, m);
      1 + GroupCount(frame, m - ChildCount(frame))
  }

  lemma AggregateValid(base: seq<Candle>, frame: Timeframe)
    requires ValidBase(base, frame) && |base| % ChildCount(frame) == 0
    ensures ValidSeries(MergeGroups(frame, base, ChildCount(frame)), frame)
  {
    GroupsValid(frame, base, GroupCount(frame, |base|));
  }

  /** The groups before the offset are merged into the output, whole groups are left. */
  ghost predicate MergedTo(base: seq<Candle>, frame: Timeframe, offset: nat, output: seq<Candle>)
  {
    && offset <= |base| && (|base| - offset) % ChildCount(frame) == 0
    && output + MergeGroups(frame, base[offset..], ChildCount(frame)) == MergeGroups(frame, base, ChildCount(frame))
    && (ValidBase(base, frame) ==> AlignedAt(base, frame, offset))
  }

  lemma MergedNext(base: seq<Candle>, frame: Timeframe, offset: nat, output: seq<Candle>)
    requires MergedTo(base, frame, offset, output) && offset < |base|
    ensures var n := ChildCount(frame);
      && offset + n <= |base|
      && MergedTo(base, frame, offset + n, output + [Merge(frame, base[offset..offset + n])])
      && (ValidBase(base, frame) ==> WholeGroup(base[offset..offset + n], frame))
  {
    hide Merge, WholeGroup, ValidBase, AlignedAt;
    var n, rest := ChildCount(frame), base[offset..];
    OneGroupLess(frame, |base| - offset);
    assert rest[..n] == base[offset..offset + n] && rest[n..] == base[offset + n..];
    if ValidBase(base, frame) { NextGroup(base, frame, offset); }
  }

  lemma MergedStart(base: seq<Candle>, frame: Timeframe)
    requires |base| % ChildCount(frame) == 0
    ensures MergedTo(base, frame, 0, [])
  {
    hide Merge, AlignedAt;
    var all := MergeGroups(frame, base, ChildCount(frame));
    assert base[0..] == base && [] + all == all;
    if ValidBase(base, frame) { StartsAligned(base, frame); }
  }

  lemma MergedEnd(base: seq<Candle>, frame: Timeframe, output: seq<Candle>)
    requires MergedTo(base, frame, |base|, output)
    ensures output == MergeGroups(frame, base, ChildCount(frame))
  {
    hide Merge;
    assert base[|base|..] == [] && output + [] == output;
  }

  /** Group by group: every group is checked, merged and appended; the result is checked as a whole. */
  method Aggregate(base: seq<Candle>, frame: Timeframe) returns (r: Result<seq<Candle>, AggregateError>)
    requires frame != M5
    ensures r.Ok? ==> r.value == MergeGroups(frame, base, ChildCount(frame)) && ValidSeries(r.value, frame)
    ensures ValidBase(base, frame) && |base| % ChildCount(frame) == 0 ==> r.Ok?
    ensures |base| % ChildCount(frame) != 0 ==> r == Err(CountMismatch)
  {
    hide Merge, MergeGroups, ValidSeries, WholeGroup, ValidBase, MergedTo;
    var n := ChildCount(frame);
    if |base| % n != 0 { return Err(CountMismatch); }
    var output: seq<Candle>, offset: nat := [], 0;
    MergedStart(base, frame);
    while offset < |base|
      invariant offset <= |base| && MergedTo(base, frame, offset, output)
      decreases |base| - offset
    {
      MergedNext(base, frame, offset, output);
      var children := base[offset..offset + n];
      var error := CheckGroup(children, frame);
      if error.Some? { return Err(error.value); }
      output := output + [Merge(frame, children)];
      offset := offset + n;
    }
    MergedEnd(base, frame, output);
    if ValidBase(base, frame) { AggregateValid(base, frame); }
    var reasons := ValidateCandles(output, frame);
    if reasons != [] { return Err(BadQuality); }
    return Ok(output);
  }

  predicate AlignedAt(base: seq<Candle>, frame: Timeframe, offset: nat)
  {
    base != [] && (base[0].timestamp + BASE * offset) % frame.Seconds() == 0
  }

  lemma StartsAligned(base: seq<Candle>, frame: Timeframe)
    requires ValidBase(base, frame)
    ensures AlignedAt(base, frame, 0)
  {
  }

  lemma NextGroup(base: seq<Candle>, frame: Timeframe, offset: nat)
    requires ValidBase(base, frame) && AlignedAt(base, frame, offset) && offset + ChildCount(frame) <= |base|
    ensures WholeGroup(base[offset..offset + ChildCount(frame)], frame)
    ensures AlignedAt(base, frame, offset + ChildCount(frame))
  {
    AlignedGroup(base, frame, offset);
    NextAligned(frame, base[0].timestamp + BASE * offset);
  }

  ghost predicate ValidBase(base: seq<Candle>, frame: Timeframe)
  {
    ValidSeries(base, M5) && base[0].timestamp % frame.Seconds() == 0
  }
}
