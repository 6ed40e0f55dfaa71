/**
 * The cursor that advances four timeframes lazily, only by candles completed at the decision
 * time, and its reference: filter the completed candles and analyse them from scratch.
 */
module SnapshotCursor {
  import opened Prelude
  import opened Candles
  import opened BatchAnalysis
  import opened IncrementalState

  const ORDER := [D1, H4, H1, M15]
  const FRAMES: set<Timeframe> := {D1, H4, H1, M15}

  type Rows = map<Timeframe, seq<Candle>>

  predicate Closed(c: Candle, frame: Timeframe, decision: int)
  {
    c.timestamp + frame.Seconds() <= decision
  }

  /** The candles of a series that are complete at the decision time. */
  function Completed(rows: seq<Candle>, frame: Timeframe, decision: int): seq<Candle>
  {
    if rows == [] then []
    else
      Completed(rows[..|rows| - 1], frame, decision)
      + if Closed(rows[|rows| - 1], frame, decision) then [rows[|rows| - 1]] else []
  }

  type Answer = Result<Option<map<Timeframe, MarketSnapshot<History>>>, AnalysisError>

  function ReferenceFor(sqrt: Root, symbol: string, rows: Rows, frames: seq<Timeframe>, decision: int): Answer
    requires forall f :: f in frames ==> f in rows
  {
    if frames == [] then Ok(Some(map[]))
    else
      var completed := Completed(rows[frames[0]], frames[0], decision);
      if |completed| < 2 then Ok(None)
      else
        match AnalyzeMarket(sqrt, symbol, frames[0], completed)
        case Err(e) => Err(e)
        case Ok(snapshot) =>
          match ReferenceFor(sqrt, symbol, rows, frames[1..], decision)
          case Ok(Some(rest)) => Ok(Some(rest[frames[0] := snapshot]))
          case other => other
  }

  /** Recompute every timeframe from its completed candles; no state is involved. */
  function Reference(sqrt: Root, symbol: string, rows: Rows, decision: int): Answer
    requires FRAMES <= rows.Keys
  {
    ReferenceFor(sqrt, symbol, rows, ORDER, decision)
  }

  /** Rows a state accepts: in strict time order, with its symbol and timeframe. */
  ghost predicate WellFormed(rows: seq<Candle>, symbol: string, frame: Timeframe)
  {
    Chronological(rows) && forall i :: 0 <= i < |rows| ==> rows[i].symbol == symbol && rows[i].timeframe == frame
  }

  ghost predicate AllWellFormed(rows: Rows, symbol: string)
    requires FRAMES <= rows.Keys
  {
    forall f :: f in FRAMES ==> WellFormed(rows[f], symbol, f)
  }

  // -------------------------------------------------- facts about the reference

  /** In chronological rows, the completed ones are a prefix. */
  lemma {:induction false} CompletedIsPrefix(rows: seq<Candle>, frame: Timeframe, decision: int, n: nat)
    requires Chronological(rows) && n <= |rows|
    requires forall i :: 0 <= i < n ==> Closed(rows[i], frame, decision)
    requires n < |rows| ==> !Closed(rows[n], frame, decision)
    ensures Completed(rows, frame, decision) == rows[..n]
  {
    if rows != [] {
      var init := rows[..|rows| - 1];
      if n == |rows| {
        CompletedIsPrefix(init, frame, decision, n - 1);
        assert rows == init + [rows[|rows| - 1]];
      } else {
        CompletedIsPrefix(init, frame, decision, n);
        assert init[..n] == rows[..n];
        assert rows[n].timestamp <= rows[|rows| - 1].timestamp;
      }
    }
  }

  /** The candle has ended by this time: its opening time plus what its timeframe lasts has passed. */
  predicate EndedBy(c: Candle, frame: Timeframe, time: int)
  {
    match frame
    case M5 => c.timestamp + 5 * 60 <= time
    case M15 => c.timestamp + 15 * 60 <= time
    case H1 => c.timestamp + 60 * 60 <= time
    case H4 => c.timestamp + 4 * 60 * 60 <= time
    case D1 => c.timestamp + 24 * 60 * 60 <= time
  }

  /** Whatever the series, the completed candles are those that have ended, as often as they stand in it. */
  lemma {:induction false} CompletedExactly(rows: seq<Candle>, frame: Timeframe, decision: int)
    ensures forall c :: multiset(Completed(rows, frame, decision))[c]
                     == if EndedBy(c, frame, decision) then multiset(rows)[c] else 0
    ensures forall c :: c in Completed(rows, frame, decision) <==> c in rows && EndedBy(c, frame, decision)
  {
    if rows != [] {
      var init, last := rows[..|rows| - 1], rows[|rows| - 1];
      CompletedExactly(init, frame, decision);
      assert rows == init + [last];
      assert forall c :: multiset(rows)[c] == multiset(init)[c] + if c == last then 1 else 0;
      var done, kept := Completed(init, frame, decision), Completed(rows, frame, decision);
      assert Closed(last, frame, decision) <==> EndedBy(last, frame, decision);
      assert forall c ::
        multiset(kept)[c] == multiset(done)[c] + if c == last && EndedBy(last, frame, decision) then 1 else 0;
      forall c ensures c in kept <==> c in rows && EndedBy(c, frame, decision) {
        assert c in kept <==> multiset(kept)[c] > 0;
        assert c in rows <==> multiset(rows)[c] > 0;
      }
    }
  }

  /** The two histories hold the same candles among those of every timeframe that have ended by this time. */
  ghost predicate SameEnded(rows: Rows, other: Rows, time: int)
    requires FRAMES <= rows.Keys && FRAMES <= other.Keys
  {
    forall f, c :: f in FRAMES && EndedBy(c, f, time) ==> multiset(rows[f])[c] == multiset(other[f])[c]
  }

  /** Candles that have not ended by the decision time cannot influence the answer, whatever they contain. */
  lemma NoLookAhead(sqrt: Root, symbol: string, rows: Rows, other: Rows, decision: int)
    requires FRAMES <= rows.Keys && FRAMES <= other.Keys && SameEnded(rows, other, decision)
    ensures Reference(sqrt, symbol, rows, decision) == Reference(sqrt, symbol, other, decision)
  {
    hide AnalyzeMarket, Completed, ReferenceFor;
    forall f | f in ORDER
      ensures multiset(Completed(rows[f], f, decision)) == multiset(Completed(other[f], f, decision))
    {
      assert f in FRAMES;
      CompletedExactly(rows[f], f, decision);
      CompletedExactly(other[f], f, decision);
      var a, b := multiset(Completed(rows[f], f, decision)), multiset(Completed(other[f], f, decision));
      forall c ensures a[c] == b[c] {
      }
    }
    SameCompleted(sqrt, symbol, rows, other, ORDER, decision);
  }

  lemma {:induction false} SameCompleted(
    sqrt: Root, symbol: string, rows: Rows, other: Rows, frames: seq<Timeframe>, decision: int)
    requires forall f :: f in frames ==> f in rows && f in other
    requires forall f :: f in frames ==>
      multiset(Completed(rows[f], f, decision)) == multiset(Completed(other[f], f, decision))
    ensures ReferenceFor(sqrt, symbol, rows, frames, decision)
         == ReferenceFor(sqrt, symbol, other, frames, decision)
  {
    hide AnalyzeMarket, Completed;
    if frames != [] {
      var a, b := Completed(rows[frames[0]], frames[0], decision), Completed(other[frames[0]], frames[0], decision);
      assert |a| == |multiset(a)| && |b| == |multiset(b)|;
      AnalyzeMarketAnyOrder(sqrt, symbol, frames[0], a, b);
      SameCompleted(sqrt, symbol, rows, other, frames[1..], decision);
    }
  }

  /** With every timeframe ready, the reference answers with the analyses of the completed candles. */
  lemma {:induction false} ReferenceReady(
    sqrt: Root, symbol: string, rows: Rows, frames: seq<Timeframe>, decision: int)
    requires forall f :: f in frames ==> f in rows && Chronological(Completed(rows[f], f, decision))
    requires forall f :: f in frames ==> |Completed(rows[f], f, decision)| >= 2
    ensures var r := ReferenceFor(sqrt, symbol, rows, frames, decision);
      && r.Ok? && r.value.Some?
      && (forall f :: f in r.value.value <==> f in frames)
      && forall f :: f in frames ==> r.value.value[f] == Analyze(sqrt, symbol, f, Completed(rows[f], f, decision))
  {
    hide AnalyzeMarket, Analyze;
    if frames != [] {
      ReferenceReady(sqrt, symbol, rows, frames[1..], decision);
      AnalyzeMarketInOrder(sqrt, symbol, frames[0], Completed(rows[frames[0]], frames[0], decision));
      forall f | f in frames
        ensures f == frames[0] || f in frames[1..]
      {
      }
    }
  }

  /** The four analyses together are the reference's answer. */
  lemma ReferenceIs(
    sqrt: Root, symbol: string, rows: Rows, decision: int, answer: map<Timeframe, MarketSnapshot<History>>)
    requires FRAMES <= rows.Keys && answer.Keys == FRAMES
    requires forall f :: f in FRAMES ==>
      && Chronological(Completed(rows[f], f, decision)) && |Completed(rows[f], f, decision)| >= 2
      && answer[f] == Analyze(sqrt, symbol, f, Completed(rows[f], f, decision))
    ensures Reference(sqrt, symbol, rows, decision) == Ok(Some(answer))
  {
    hide Analyze, AnalyzeMarket, Completed, ReferenceFor;
    assert forall f :: f in ORDER <==> f in FRAMES;
    ReferenceReady(sqrt, symbol, rows, ORDER, decision);
    var other := ReferenceFor(sqrt, symbol, rows, ORDER, decision).value.value;
    assert forall f :: f in other <==> f in answer;
    assert other == answer;
  }

  /** One timeframe short of two candles, after ready ones, makes the whole answer unavailable. */
  lemma {:induction false} ReferenceMissing(
    sqrt: Root, symbol: string, rows: Rows, frames: seq<Timeframe>, decision: int, k: nat)
    requires k < |frames|
    requires forall f :: f in frames ==> f in rows && Chronological(Completed(rows[f], f, decision))
    requires |Completed(rows[frames[k]], frames[k], decision)| < 2
    ensures ReferenceFor(sqrt, symbol, rows, frames, decision) == Ok(None)
  {
    hide AnalyzeMarket;
    if |Completed(rows[frames[0]], frames[0], decision)| >= 2 {
      ReferenceMissing(sqrt, symbol, rows, frames[1..], decision, k - 1);
      AnalyzeMarketInOrder(sqrt, symbol, frames[0], Completed(rows[frames[0]], frames[0], decision));
    }
  }

  /** Exactly the first n candles of the series have ended by this time. */
  ghost predicate EndedUpTo(rows: seq<Candle>, frame: Timeframe, time: int, n: nat)
  {
    && n <= |rows|
    && (forall i :: 0 <= i < n ==> EndedBy(rows[i], frame, time))
    && (n < |rows| ==> !EndedBy(rows[n], frame, time))
  }

  lemma CompletedUpTo(rows: seq<Candle>, frame: Timeframe, time: int, n: nat)
    requires Chronological(rows) && EndedUpTo(rows, frame, time, n)
    ensures n <= |rows| && Completed(rows, frame, time) == rows[..n] && Chronological(rows[..n])
  {
    forall i | 0 <= i < n ensures Closed(rows[i], frame, time) {
      assert EndedBy(rows[i], frame, time);
    }
    CompletedIsPrefix(rows, frame, time, n);
  }

  /**
   * What the answer is: nothing while some timeframe has fewer than two ended candles, and otherwise
   * for every timeframe the analysis of exactly the candles that have ended.
   */
  lemma ReferenceSays(sqrt: Root, symbol: string, rows: Rows, decision: int, ended: map<Timeframe, nat>)
    requires FRAMES <= rows.Keys && FRAMES <= ended.Keys
    requires forall f :: f in FRAMES ==>
      ended[f] <= |rows[f]| && Chronological(rows[f]) && EndedUpTo(rows[f], f, decision, ended[f])
    ensures Reference(sqrt, symbol, rows, decision)
         == if exists f :: f in FRAMES && ended[f] < 2 then Ok(None)
            else Ok(Some(map f | f in FRAMES :: Analyze(sqrt, symbol, f, rows[f][..ended[f]])))
  {
    hide Analyze, AnalyzeMarket, ReferenceFor, Completed, Chronological, EndedUpTo;
    forall f | f in FRAMES
      ensures ended[f] <= |rows[f]| && Completed(rows[f], f, decision) == rows[f][..ended[f]]
      ensures Chronological(rows[f][..ended[f]])
    {
      CompletedUpTo(rows[f], f, decision, ended[f]);
    }
    if f :| f in FRAMES && ended[f] < 2 {
      ReferenceMissing(sqrt, symbol, rows, ORDER, decision,
                       if f == D1 then 0 else if f == H4 then 1 else if f == H1 then 2 else 3);
    } else {
      ReferenceIs(sqrt, symbol, rows, decision,
                  map f | f in FRAMES :: Analyze(sqrt, symbol, f, rows[f][..ended[f]]));
    }
  }

  // ------------------------------------------------------------------ the cursor

  /** A result handed out, with the states whose swing lists it shares. */
  datatype Handed = Handed(
    decision: int,
    snaps: map<Timeframe, MarketSnapshot<SwingView>>,
    owners: map<Timeframe, IncrementalMarketState>)

  /** What a holder of the snapshots sees through their views at this moment. */
  function ReadAll(snaps: map<Timeframe, MarketSnapshot<SwingView>>): map<Timeframe, MarketSnapshot<History>>
    reads set f | f in snaps :: snaps[f].advanced.highs.list
    reads set f | f in snaps :: snaps[f].advanced.lows.list
  {
    map f | f in snaps :: Read(snaps[f])
  }

  /** A history is exactly the first n rows, all closed at the last decision. */
  ghost predicate InStep(history: seq<Candle>, rows: seq<Candle>, n: nat, frame: Timeframe, last: Option<int>)
    requires n <= |rows|
  {
    && history == rows[..n]
    && (n > 0 ==> last.Some?)
    && forall i :: 0 <= i < n ==> Closed(rows[i], frame, last.value)
  }

  /** Pushes every further completed row and returns the index reached. */
  method CatchUp(state: IncrementalMarketState, rows: seq<Candle>, start: nat, decision: int)
    returns (r: Result<nat, PushError>)
    requires state.Valid() && start <= |rows|
    modifies state.Repr
    ensures state.Valid()
    ensures old(state.history) <= state.history && old(state.issued) <= state.issued
    ensures r.Ok? ==> r.value <= |rows|
    ensures WellFormed(rows, state.symbol, state.timeframe)
            && InStep(old(state.history), rows, start, state.timeframe, Some(decision))
            ==> r.Ok? && state.history == Completed(rows, state.timeframe, decision)
                && InStep(state.history, rows, r.value, state.timeframe, Some(decision))
  {
    hide IncrementalMarketState.Valid, IncrementalMarketState.ReadsAs, Analyze, Completed;
    var index := start;
    ghost var regular := WellFormed(rows, state.symbol, state.timeframe)
                         && InStep(state.history, rows, start, state.timeframe, Some(decision));
    while index < |rows| && Closed(rows[index], state.timeframe, decision)
      invariant start <= index <= |rows|
      invariant state.Valid()
      invariant old(state.history) <= state.history && old(state.issued) <= state.issued
      invariant regular ==> InStep(state.history, rows, index, state.timeframe, Some(decision))
    {
      if regular {
        NotRefused(state, rows, index);
      }
      var pushed := state.Push(rows[index]);
      if pushed.Err? {
        return Err(pushed.error);
      }
      assert regular ==> rows[..index + 1] == rows[..index] + [rows[index]];
      index := index + 1;
    }
    if regular {
      CompletedIsPrefix(rows, state.timeframe, decision, index);
    }
    return Ok(index);
  }

  /** The row after an accepted prefix of well-formed rows is accepted. */
  lemma NotRefused(state: IncrementalMarketState, rows: seq<Candle>, index: nat)
    requires state.Valid() && index < |rows| && state.history == rows[..index]
    requires WellFormed(rows, state.symbol, state.timeframe)
    ensures state.Refusal(rows[index]).None?
  {
    hide Analyze, Closes, IncrementalMarketState.AveragesOf, IncrementalMarketState.SignalOf,
      IncrementalMarketState.SwingsOf, IncrementalMarketState.NoneChanged, IncrementalMarketState.AreAnalyses,
      MacdMatches, Last;
    if index > 0 {
      assert state.history[index - 1] == rows[index - 1];
    }
  }

  type States = map<Timeframe, IncrementalMarketState>

  /** The memory of the four current states. */
  ghost function Memory(states: States): (all: set<object>)
    requires FRAMES <= states.Keys
    ensures forall f :: f in FRAMES ==> states[f].Repr <= all
  {
    states[D1].Repr + states[H4].Repr + states[H1].Repr + states[M15].Repr
  }

  /** One state per timeframe, all of one symbol, sharing no memory. */
  ghost predicate Apart(states: States, sqrt: Root, symbol: string)
  {
    && states.Keys == FRAMES
    && (forall f :: f in FRAMES ==>
          states[f] in states[f].Repr && states[f].timeframe == f
          && states[f].sqrt == sqrt && states[f].symbol == symbol)
    && (forall f, g :: f in FRAMES && g in FRAMES && f != g ==> states[f].Repr !! states[g].Repr)
  }

  lemma SameFrames(states: States, sqrt: Root, symbol: string)
    requires Apart(states, sqrt, symbol)
    ensures states.Keys == FRAMES
  {
  }

  ghost predicate Live(states: States)
    requires FRAMES <= states.Keys
    reads Memory(states)
    requires forall f :: f in FRAMES ==> states[f] in states[f].Repr
  {
    forall f :: f in FRAMES ==> states[f].Valid()
  }

  /** What a state has accepted and issued so far. */
  datatype Entry = Entry(history: seq<Candle>, issued: seq<MarketSnapshot<SwingView>>)

  type Log = map<IncrementalMarketState, Entry>

  ghost function LogOf(all: set<IncrementalMarketState>, memory: set<object>): (log: Log)
    requires forall s :: s in all ==> s in memory
    reads memory
    ensures log.Keys == all
    ensures forall s :: s in all ==> log[s] == Entry(s.history, s.issued)
  {
    map s | s in all :: Entry(s.history, s.issued)
  }

  ghost predicate AllInStep(states: States, rows: Rows, next: map<Timeframe, nat>, last: Option<int>, log: Log)
  {
    forall f :: f in FRAMES ==>
      f in states && states[f] in log && f in rows && f in next && next[f] <= |rows[f]|
      && InStep(log[states[f]].history, rows[f], next[f], f, last)
  }

  const START: map<Timeframe, nat> := map f | f in FRAMES :: 0

  lemma NothingConsumed(states: States, rows: Rows, last: Option<int>, log: Log)
    requires forall f :: f in FRAMES ==> f in rows && f in states && states[f] in log && log[states[f]].history == []
    ensures AllInStep(states, rows, START, last, log)
  {
  }

  /** One history grew along its rows; the others stayed. */
  lemma OneStep(
    states: States, rows: Rows, next: map<Timeframe, nat>, last: Option<int>, log: Log, grown: Log,
    frame: Timeframe, n: nat)
    requires AllInStep(states, rows, next, last, log)
    requires frame in FRAMES && n <= |rows[frame]| && states[frame] in grown
    requires InStep(grown[states[frame]].history, rows[frame], n, frame, last)
    requires forall f :: f in FRAMES && f != frame ==>
      states[f] in grown && grown[states[f]].history == log[states[f]].history
    ensures AllInStep(states, rows, next[frame := n], last, grown)
  {
    hide Closed;
  }

  /** The part of a handed-out result about one timeframe is still what its state issued. */
  ghost predicate KeptFor(h: Handed, f: Timeframe, rows: Rows, log: Log)
  {
    && f in rows && f in h.snaps && f in h.owners && h.owners[f] in log && h.owners[f].timeframe == f
    && var n, e := |Completed(rows[f], f, h.decision)|, log[h.owners[f]];
       2 <= n <= |e.history| && n <= |e.issued|
       && e.issued[n - 1] == h.snaps[f]
       && e.history[..n] == Completed(rows[f], f, h.decision)
  }

  ghost predicate AllKept(handed: seq<Handed>, rows: Rows, log: Log)
  {
    forall i, f :: 0 <= i < |handed| && f in FRAMES ==>
      handed[i].snaps.Keys == FRAMES && KeptFor(handed[i], f, rows, log)
  }

  /** Growing histories keep every result handed out: what was issued stays where it was. */
  lemma GrowthKeeps(handed: seq<Handed>, rows: Rows, log: Log, grown: Log)
    requires AllKept(handed, rows, log) && log.Keys <= grown.Keys
    requires forall s :: s in log ==> log[s].history <= grown[s].history && log[s].issued <= grown[s].issued
    ensures AllKept(handed, rows, grown)
  {
    hide Completed;
    forall i, f | 0 <= i < |handed| && f in FRAMES
      ensures handed[i].snaps.Keys == FRAMES && KeptFor(handed[i], f, rows, grown)
    {
      assert KeptFor(handed[i], f, rows, log);
    }
  }

  /** The states discarded so far, and their memory. */
  datatype Past = Past(retired: set<IncrementalMarketState>, attic: set<object>)

  /** States no longer used, kept alive by the results that share their lists. */
  ghost predicate Retired(past: Past, sqrt: Root, symbol: string)
    reads past.attic
  {
    forall s :: s in past.retired ==>
      s in past.attic && s.Repr <= past.attic && s.sqrt == sqrt && s.symbol == symbol && s.Valid()
  }

  lemma Retire(past: Past, states: States, sqrt: Root, symbol: string)
    requires Retired(past, sqrt, symbol) && Apart(states, sqrt, symbol) && Live(states)
    ensures Retired(Past(past.retired + states.Values, past.attic + Memory(states)), sqrt, symbol)
  {
    hide IncrementalMarketState.Valid;
  }

  /** The log of every state ever used. */
  ghost function FullLog(past: Past, states: States, sqrt: Root, symbol: string): Log
    requires Apart(states, sqrt, symbol) && Retired(past, sqrt, symbol)
    reads past.attic, if FRAMES <= states.Keys then Memory(states) else {}
    ensures FullLog(past, states, sqrt, symbol).Keys == past.retired + states.Values
    ensures var log := FullLog(past, states, sqrt, symbol);
      forall s :: s in log ==> log[s] == Entry(s.history, s.issued)
  {
    LogOf(past.retired + states.Values, past.attic + Memory(states))
  }

  /** The invariant of a cursor, as a relation between its fields. */
  ghost predicate Holds(
    rows: Rows, next: map<Timeframe, nat>, states: States, last: Option<int>, past: Past, handed: seq<Handed>,
    sqrt: Root, symbol: string)
    reads past.attic, if FRAMES <= states.Keys then Memory(states) else {}
  {
    && FRAMES <= rows.Keys && next.Keys == FRAMES
    && (forall f :: f in FRAMES ==> next[f] <= |rows[f]|)
    && Apart(states, sqrt, symbol) && Live(states)
    && past.attic !! Memory(states) && Retired(past, sqrt, symbol)
    && (AllWellFormed(rows, symbol) ==>
          var log := FullLog(past, states, sqrt, symbol);
          AllInStep(states, rows, next, last, log) && AllKept(handed, rows, log))
  }

  lemma FreshHolds(rows: Rows, states: States, sqrt: Root, symbol: string)
    requires FRAMES <= rows.Keys && Apart(states, sqrt, symbol) && Live(states)
    requires forall f :: f in FRAMES ==> states[f].history == []
    ensures Holds(rows, START, states, None, Past({}, {}), [], sqrt, symbol)
  {
    hide IncrementalMarketState.Valid, AllWellFormed, AllInStep, LogOf, Live;
    if AllWellFormed(rows, symbol) {
      NothingConsumed(states, rows, None, FullLog(Past({}, {}), states, sqrt, symbol));
    }
  }

  lemma MovedLog(
    rows: Rows, next: map<Timeframe, nat>, states: States, last: Option<int>, handed: seq<Handed>, log: Log,
    grown: Log, frame: Timeframe, n: nat)
    requires AllInStep(states, rows, next, last, log) && AllKept(handed, rows, log)
    requires states.Keys == FRAMES && frame in FRAMES && frame in rows && n <= |rows[frame]|
    requires forall f :: f in FRAMES && f != frame ==> states[f] in log && states[f] != states[frame]
    requires log.Keys == grown.Keys && states[frame] in log
    requires forall s :: s in log && s != states[frame] ==> grown[s] == log[s]
    requires log[states[frame]].history <= grown[states[frame]].history
    requires log[states[frame]].issued <= grown[states[frame]].issued
    requires InStep(grown[states[frame]].history, rows[frame], n, frame, last)
    ensures AllInStep(states, rows, next[frame := n], last, grown) && AllKept(handed, rows, grown)
  {
    hide AllInStep, AllKept, InStep;
    GrowthKeeps(handed, rows, log, grown);
    OneStep(states, rows, next, last, log, grown, frame, n);
  }

  /** One state moved on alone, and its index with it. */
  lemma Moved(
    rows: Rows, next: map<Timeframe, nat>, states: States, last: Option<int>, past: Past, handed: seq<Handed>,
    sqrt: Root, symbol: string, log: Log, frame: Timeframe, n: nat)
    requires FRAMES <= rows.Keys && next.Keys == FRAMES && forall f :: f in FRAMES ==> next[f] <= |rows[f]|
    requires Apart(states, sqrt, symbol) && Live(states)
    requires past.attic !! Memory(states) && Retired(past, sqrt, symbol)
    requires AllWellFormed(rows, symbol) ==> AllInStep(states, rows, next, last, log) && AllKept(handed, rows, log)
    requires frame in FRAMES && n <= |rows[frame]|
    requires AllWellFormed(rows, symbol) ==> InStep(states[frame].history, rows[frame], n, frame, last)
    requires log.Keys == past.retired + states.Values && log[states[frame]].history <= states[frame].history
    requires log[states[frame]].issued <= states[frame].issued
    requires forall s :: s in log && s != states[frame] ==> log[s] == Entry(s.history, s.issued)
    ensures Holds(rows, next[frame := n], states, last, past, handed, sqrt, symbol)
  {
    hide IncrementalMarketState.Valid, AllWellFormed, AllInStep, InStep, AllKept, LogOf, Live, FullLog, Retired;
    if AllWellFormed(rows, symbol) {
      MovedLog(rows, next, states, last, handed, log, FullLog(past, states, sqrt, symbol), frame, n);
    }
  }

  /** While one state catches up, in its own memory, the other states and the retired ones stay as they are. */
  method CatchUpAlone(
    states: States, ghost past: Past, sqrt: Root, symbol: string, frame: Timeframe, rows: seq<Candle>, start: nat,
    decision: int)
    returns (r: Result<nat, PushError>)
    requires Apart(states, sqrt, symbol) && Live(states) && Retired(past, sqrt, symbol)
    requires past.attic !! Memory(states) && frame in FRAMES && start <= |rows|
    modifies states[frame].Repr
    ensures Live(states) && Retired(past, sqrt, symbol)
    ensures old(states[frame].history) <= states[frame].history && old(states[frame].issued) <= states[frame].issued
    ensures r.Ok? ==> r.value <= |rows|
    ensures WellFormed(rows, symbol, frame)
            && InStep(old(states[frame].history), rows, start, frame, Some(decision))
            ==> r.Ok? && states[frame].history == Completed(rows, frame, decision)
                && InStep(states[frame].history, rows, r.value, frame, Some(decision))
    ensures forall f :: f in FRAMES && f != frame ==>
              states[f] != states[frame]
              && states[f].history == old(states[f].history) && states[f].issued == old(states[f].issued)
    ensures forall s :: s in past.retired ==>
              s != states[frame] && s.history == old(s.history) && s.issued == old(s.issued)
  {
    hide IncrementalMarketState.Valid, WellFormed, InStep, Completed;
    r := CatchUp(states[frame], rows, start, decision);
  }

  /** Starting over keeps the invariant, the discarded states being kept for their snapshots. */
  lemma StartOver(
    rows: Rows, next: map<Timeframe, nat>, states: States, last: Option<int>, past: Past, handed: seq<Handed>,
    sqrt: Root, symbol: string, empty: States)
    requires Holds(rows, next, states, last, past, handed, sqrt, symbol)
    requires Apart(empty, sqrt, symbol) && Live(empty) && forall f :: f in FRAMES ==> empty[f].history == []
    requires Memory(empty) !! past.attic + Memory(states)
    ensures Holds(rows, START, empty, last,
                  Past(past.retired + states.Values, past.attic + Memory(states)), handed, sqrt, symbol)
  {
    hide IncrementalMarketState.Valid, Completed, AllKept, AllWellFormed, Retired, Live, AllInStep, LogOf;
    Retire(past, states, sqrt, symbol);
    if AllWellFormed(rows, symbol) {
      var kept := Past(past.retired + states.Values, past.attic + Memory(states));
      NothingConsumed(empty, rows, last, FullLog(kept, empty, sqrt, symbol));
      GrowthKeeps(handed, rows, FullLog(past, states, sqrt, symbol), FullLog(kept, empty, sqrt, symbol));
    }
  }

  /** Rows closed at one decision time are closed at every later one. */
  lemma ClockMoves(
    states: States, rows: Rows, next: map<Timeframe, nat>, last: Option<int>, log: Log, decision: int)
    requires AllInStep(states, rows, next, last, log)
    requires next == START || last.None? || last.value <= decision
    ensures AllInStep(states, rows, next, Some(decision), log)
  {
    forall f | f in FRAMES
      ensures InStep(log[states[f]].history, rows[f], next[f], f, Some(decision))
    {
      assert InStep(log[states[f]].history, rows[f], next[f], f, last);
    }
  }

  lemma ClockHolds(
    rows: Rows, next: map<Timeframe, nat>, states: States, last: Option<int>, past: Past, handed: seq<Handed>,
    sqrt: Root, symbol: string, decision: int)
    requires Holds(rows, next, states, last, past, handed, sqrt, symbol)
    requires next == START || last.None? || last.value <= decision
    ensures Holds(rows, next, states, Some(decision), past, handed, sqrt, symbol)
  {
    hide IncrementalMarketState.Valid, AllKept, AllWellFormed, AllInStep, Retired, Live, FullLog;
    if AllWellFormed(rows, symbol) {
      ClockMoves(states, rows, next, last, FullLog(past, states, sqrt, symbol), decision);
    }
  }

  lemma Earlier(rows: seq<Candle>, c: Candle)
    requires Chronological(rows) && rows != [] && c in rows[..|rows| - 1]
    ensures c.timestamp < rows[|rows| - 1].timestamp
  {
    var i :| 0 <= i < |rows| - 1 && rows[..|rows| - 1][i] == c;
    assert rows[i] == c;
  }

  lemma ChronologicalSnoc(rows: seq<Candle>, last: Candle)
    requires Chronological(rows) && forall c :: c in rows ==> c.timestamp < last.timestamp
    ensures Chronological(rows + [last])
  {
    var all := rows + [last];
    forall i, j | 0 <= i < j < |all| ensures all[i].timestamp < all[j].timestamp {
      if j == |rows| { assert all[i] == rows[i]; }
    }
  }

  lemma ChronologicalInit(rows: seq<Candle>)
    requires Chronological(rows) && rows != []
    ensures Chronological(rows[..|rows| - 1])
  {
  }

  lemma {:induction false} CompletedChronological(rows: seq<Candle>, frame: Timeframe, decision: int)
    requires Chronological(rows)
    ensures Chronological(Completed(rows, frame, decision))
    ensures forall c :: c in Completed(rows, frame, decision) ==> c in rows
  {
    if rows != [] {
      hide Closed, Chronological;
      var init, last := rows[..|rows| - 1], rows[|rows| - 1];
      ChronologicalInit(rows);
      CompletedChronological(init, frame, decision);
      var r := Completed(init, frame, decision);
      forall c | c in r ensures c.timestamp < last.timestamp { Earlier(rows, c); }
      ChronologicalSnoc(r, last);
      assert rows == init + [last];
      assert r + [] == r;
    }
  }

  type Entries = map<Timeframe, Entry>

  ghost function EntriesOf(states: States): (r: Entries)
    requires FRAMES <= states.Keys
    reads states[D1], states[H4], states[H1], states[M15]
    ensures r.Keys == FRAMES
    ensures forall f :: f in FRAMES ==> r[f] == Entry(states[f].history, states[f].issued)
  {
    map f | f in FRAMES :: Entry(states[f].history, states[f].issued)
  }

  /** The result is the latest snapshot of every state, each with two candles or more. */
  ghost predicate Latest(snaps: map<Timeframe, MarketSnapshot<SwingView>>, frames: set<Timeframe>, entries: Entries)
  {
    frames <= entries.Keys && snaps.Keys == frames && forall f :: f in frames ==>
      2 <= |entries[f].history| == |entries[f].issued|
      && entries[f].issued[|entries[f].history| - 1] == snaps[f]
  }

  ghost predicate CaughtUp(rows: Rows, decision: int, frames: set<Timeframe>, entries: Entries)
  {
    frames <= entries.Keys && frames <= rows.Keys
    && forall f :: f in frames ==> entries[f].history == Completed(rows[f], f, decision)
  }

  lemma KeepOneMore(
    handed: seq<Handed>, rows: Rows, log: Log, snaps: map<Timeframe, MarketSnapshot<SwingView>>, states: States,
    entries: Entries, decision: int)
    requires states.Keys == FRAMES && forall f :: f in FRAMES ==> states[f].timeframe == f
    requires forall f :: f in FRAMES ==> f in entries && states[f] in log && log[states[f]] == entries[f]
    requires AllKept(handed, rows, log)
    requires Latest(snaps, FRAMES, entries) && CaughtUp(rows, decision, FRAMES, entries)
    ensures AllKept(handed + [Handed(decision, snaps, states)], rows, log)
  {
    hide KeptFor, Latest, CaughtUp;
    var h := Handed(decision, snaps, states);
    forall f | f in FRAMES
      ensures snaps.Keys == FRAMES && KeptFor(h, f, rows, log)
    {
      NewKept(h, f, rows, log, entries);
    }
    var all := handed + [h];
    forall i, f | 0 <= i < |all| && f in FRAMES
      ensures all[i].snaps.Keys == FRAMES && KeptFor(all[i], f, rows, log)
    {
      if i < |handed| {
        assert KeptFor(handed[i], f, rows, log);
      }
    }
  }

  lemma NewKept(h: Handed, f: Timeframe, rows: Rows, log: Log, entries: Entries)
    requires f in FRAMES && f in h.owners && h.owners[f].timeframe == f
    requires f in entries && h.owners[f] in log && log[h.owners[f]] == entries[f]
    requires Latest(h.snaps, FRAMES, entries) && CaughtUp(rows, h.decision, FRAMES, entries)
    ensures h.snaps.Keys == FRAMES && KeptFor(h, f, rows, log)
  {
    hide Completed;
    var history := entries[f].history;
    assert history[..|history|] == history;
  }

  lemma HandedOver(
    rows: Rows, next: map<Timeframe, nat>, states: States, last: Option<int>, past: Past, handed: seq<Handed>,
    sqrt: Root, symbol: string, snaps: map<Timeframe, MarketSnapshot<SwingView>>, decision: int)
    requires Holds(rows, next, states, last, past, handed, sqrt, symbol)
    requires Latest(snaps, FRAMES, EntriesOf(states))
    requires AllWellFormed(rows, symbol) ==> CaughtUp(rows, decision, FRAMES, EntriesOf(states))
    ensures Holds(rows, next, states, last, past, handed + [Handed(decision, snaps, states)], sqrt, symbol)
  {
    hide IncrementalMarketState.Valid, AllWellFormed, AllInStep, Retired, Live, Latest, CaughtUp, AllKept,
      LogOf, EntriesOf;
    if AllWellFormed(rows, symbol) {
      KeepOneMore(handed, rows, FullLog(past, states, sqrt, symbol), snaps, states, EntriesOf(states), decision);
    }
  }

  lemma NothingCollected(rows: Rows, decision: int, entries: Entries)
    ensures Latest(map[], {}, entries) && CaughtUp(rows, decision, {}, entries)
  {
  }

  /** One more timeframe caught up leaves the collected ones as they were. */
  lemma CollectOne(
    snaps: map<Timeframe, MarketSnapshot<SwingView>>, done: set<Timeframe>, frame: Timeframe,
    snapshot: MarketSnapshot<SwingView>, entries: Entries, e: Entry)
    requires Latest(snaps, done, entries) && frame !in done
    requires 2 <= |e.history| == |e.issued| && e.issued[|e.history| - 1] == snapshot
    ensures Latest(snaps[frame := snapshot], done + {frame}, entries[frame := e])
  {
  }

  lemma CatchUpOne(rows: Rows, decision: int, done: set<Timeframe>, frame: Timeframe, entries: Entries, e: Entry)
    requires CaughtUp(rows, decision, done, entries) && frame in rows
    requires e.history == Completed(rows[frame], frame, decision)
    ensures CaughtUp(rows, decision, done + {frame}, entries[frame := e])
  {
    hide Completed;
  }

  /** The first k timeframes in the order the cursor visits them. */
  function FirstFrames(k: nat): (r: set<Timeframe>)
    requires k <= |ORDER|
    ensures r <= FRAMES && (k == |ORDER| ==> r == FRAMES)
    ensures k < |ORDER| ==> ORDER[k] !in r && ORDER[k] in FRAMES
  {
    if k == 0 then {} else if k == 1 then {D1} else if k == 2 then {D1, H4} else if k == 3 then {D1, H4, H1} else FRAMES
  }

  lemma NextFrame(k: nat)
    requires k < |ORDER|
    ensures FirstFrames(0) == {}
    ensures FirstFrames(k + 1) == FirstFrames(k) + {ORDER[k]} && ORDER[k] in FRAMES
  {
  }

  /** What a holder reads about one timeframe is the analysis of its completed candles. */
  lemma KeptReads(h: Handed, f: Timeframe, rows: Rows, log: Log, sqrt: Root, symbol: string)
    requires KeptFor(h, f, rows, log)
    requires h.owners[f].Valid() && h.owners[f].sqrt == sqrt && h.owners[f].symbol == symbol
    requires log[h.owners[f]] == Entry(h.owners[f].history, h.owners[f].issued)
    ensures Read(h.snaps[f]) == Analyze(sqrt, symbol, f, Completed(rows[f], f, h.decision))
  {
    hide IncrementalMarketState.Valid, Analyze, Read, Completed;
    h.owners[f].SnapshotsNeverChange(|Completed(rows[f], f, h.decision)| - 1);
  }

  class IncrementalSnapshotCursor {
    const sqrt: Root
    const symbol: string
    const rows: Rows
    var nextIndex: map<Timeframe, nat>
    var states: States
    var lastDecision: Option<int>

    ghost var past: Past
    /** Every result handed out. */
    ghost var handed: seq<Handed>

    ghost function Repr(): set<object>
      reads this
    {
      {this} + past.attic + if FRAMES <= states.Keys then Memory(states) else {}
    }

    ghost predicate Valid()
      reads this, past.attic, if FRAMES <= states.Keys then Memory(states) else {}
    {
      && states.Keys == FRAMES && FRAMES <= rows.Keys
      && Holds(rows, nextIndex, states, lastDecision, past, handed, sqrt, symbol)
      && this !in past.attic && this !in Memory(states)
    }

    /** One empty state for each timeframe. */
    static method FreshStates(sqrt: Root, symbol: string) returns (states: States)
      ensures Apart(states, sqrt, symbol) && Live(states)
      ensures forall f :: f in FRAMES ==> states[f].history == []
      ensures fresh(Memory(states))
    {
      hide IncrementalMarketState.Valid;
      var day := new IncrementalMarketState(sqrt, symbol, D1);
      var four := new IncrementalMarketState(sqrt, symbol, H4);
      var hour := new IncrementalMarketState(sqrt, symbol, H1);
      var quarter := new IncrementalMarketState(sqrt, symbol, M15);
      states := map[D1 := day, H4 := four, H1 := hour, M15 := quarter];
    }

    constructor (sqrt: Root, symbol: string, rows: Rows)
      requires FRAMES <= rows.Keys
      ensures Valid() && fresh(Repr())
      ensures this.sqrt == sqrt && this.symbol == symbol && this.rows == rows
      ensures handed == []
    {
      hide IncrementalMarketState.Valid, Live, Holds;
      this.sqrt, this.symbol, this.rows := sqrt, symbol, rows;
      lastDecision, handed, past := None, [], Past({}, {});
      nextIndex := START;
      var empty := FreshStates(sqrt, symbol);
      FreshHolds(rows, empty, sqrt, symbol);
      states := empty;
    }

    /** Forgets all progress; the discarded states stay behind for the results that share them. */
    method Reset()
      requires Valid()
      modifies this
      ensures Valid() && fresh(Repr() - old(Repr()))
      ensures handed == old(handed) && lastDecision == old(lastDecision)
      ensures nextIndex == START
    {
      hide IncrementalMarketState.Valid, Live, Holds, Apart;
      var empty := FreshStates(sqrt, symbol);
      assert empty.Keys == FRAMES by {
        SameFrames(empty, sqrt, symbol);
      }
      StartOver(rows, nextIndex, states, lastDecision, past, handed, sqrt, symbol, empty);
      past := Past(past.retired + states.Values, past.attic + Memory(states));
      nextIndex, states := START, empty;
    }

    /** What one timeframe's part of the invariant says. */
    lemma FrameFacts(f: Timeframe)
      requires Valid() && f in FRAMES
      ensures states[f].Valid() && states[f].timeframe == f && states[f].symbol == symbol
      ensures states[f] in states[f].Repr && states[f].Repr <= Memory(states) && nextIndex[f] <= |rows[f]|
      ensures AllWellFormed(rows, symbol) ==>
                && WellFormed(rows[f], symbol, f)
                && InStep(states[f].history, rows[f], nextIndex[f], f, lastDecision)
    {
      hide IncrementalMarketState.Valid, Retired, AllKept;
    }

    /** The remaining parts, with the log of what every state has accepted and issued. */
    lemma Parts() returns (log: Log)
      requires Valid()
      ensures Apart(states, sqrt, symbol) && Retired(past, sqrt, symbol) && past.attic !! Memory(states)
      ensures nextIndex.Keys == FRAMES && forall f :: f in FRAMES ==> nextIndex[f] <= |rows[f]|
      ensures Live(states) && forall s :: s in past.retired ==> s in past.attic
      ensures log.Keys == past.retired + states.Values
      ensures forall s :: s in log ==> log[s] == Entry(s.history, s.issued)
      ensures AllWellFormed(rows, symbol) ==>
                AllInStep(states, rows, nextIndex, lastDecision, log) && AllKept(handed, rows, log)
    {
      hide IncrementalMarketState.Valid, AllKept, AllInStep, AllWellFormed, LogOf;
      log := FullLog(past, states, sqrt, symbol);
    }

    /** Pushes the completed rows of one timeframe that its state has not seen. */
    method AdvanceFrame(frame: Timeframe, decision: int) returns (e: Option<PushError>)
      requires Valid() && frame in FRAMES && lastDecision == Some(decision)
      modifies this`nextIndex, states[frame].Repr
      ensures Valid()
      ensures AllWellFormed(rows, symbol) ==>
                e.None? && states[frame].history == Completed(rows[frame], frame, decision)
      ensures forall f :: f in FRAMES && f != frame ==>
                states[f].history == old(states[f].history) && states[f].issued == old(states[f].issued)
    {
      hide IncrementalMarketState.Valid, Completed, AllKept, AllWellFormed, WellFormed, AllInStep, InStep, LogOf,
        Retired, Closed, Holds, FullLog, Live, Apart, Memory;
      FrameFacts(frame);
      ghost var log := Parts();
      var r := CatchUpAlone(states, past, sqrt, symbol, frame, rows[frame], nextIndex[frame], decision);
      ghost var n := if r.Ok? then r.value else nextIndex[frame];
      Moved(rows, nextIndex, states, lastDecision, past, handed, sqrt, symbol, log, frame, n);
      if r.Err? {
        assert nextIndex[frame := n] == nextIndex;
        return Some(r.error);
      }
      nextIndex := nextIndex[frame := r.value];
      return None;
    }

    /** The owner of each part of a handed-out result is a live or retired state of this cursor. */
    lemma OwnersKnown(s: IncrementalMarketState, log: Log)
      requires Valid() && log.Keys == past.retired + states.Values && s in log
      ensures s.Valid() && s.sqrt == sqrt && s.symbol == symbol
    {
      hide IncrementalMarketState.Valid, AllKept, AllInStep, AllWellFormed, LogOf, FullLog;
    }

    /** The same for one timeframe of one result. */
    lemma HandedReads(i: nat, f: Timeframe)
      requires Valid() && AllWellFormed(rows, symbol) && i < |handed| && f in FRAMES
      ensures FRAMES <= rows.Keys && handed[i].snaps.Keys == FRAMES
      ensures var completed := Completed(rows[f], f, handed[i].decision);
        && |completed| >= 2 && Chronological(completed)
        && Read(handed[i].snaps[f]) == Analyze(sqrt, symbol, f, completed)
    {
      hide IncrementalMarketState.Valid, Analyze, Read, Completed, AllInStep, Holds, Apart, Retired;
      var log := Parts();
      var h := handed[i];
      assert KeptFor(h, f, rows, log);
      CompletedChronological(rows[f], f, h.decision);
      OwnersKnown(h.owners[f], log);
      KeptReads(h, f, rows, log, sqrt, symbol);
    }

    /**
     * Every result ever handed out still reads, through its shared views, exactly as
     * recomputing it from the candles completed at its decision time would.
     */
    lemma HandedIsReference(i: nat)
      requires Valid() && AllWellFormed(rows, symbol) && i < |handed|
      ensures Reference(sqrt, symbol, rows, handed[i].decision) == Ok(Some(ReadAll(handed[i].snaps)))
    {
      hide Valid, AllWellFormed, Analyze, Read, Completed, Reference;
      forall f | f in FRAMES
        ensures FRAMES <= rows.Keys && handed[i].snaps.Keys == FRAMES
        ensures var completed := Completed(rows[f], f, handed[i].decision);
          && |completed| >= 2 && Chronological(completed)
          && Read(handed[i].snaps[f]) == Analyze(sqrt, symbol, f, completed)
      {
        HandedReads(i, f);
      }
      HandedReads(i, D1);
      ReferenceIs(sqrt, symbol, rows, handed[i].decision, ReadAll(handed[i].snaps));
    }

    lemma Unavailable(frame: Timeframe, decision: int)
      requires Valid() && AllWellFormed(rows, symbol) && frame in FRAMES
      requires |Completed(rows[frame], frame, decision)| < 2
      ensures Reference(sqrt, symbol, rows, decision) == Ok(None)
    {
      hide IncrementalMarketState.Valid, Completed, ReferenceFor, Holds;
      forall f | f in ORDER
        ensures Chronological(Completed(rows[f], f, decision))
      {
        CompletedChronological(rows[f], f, decision);
      }
      var k := if frame == D1 then 0 else if frame == H4 then 1 else if frame == H1 then 2 else 3;
      ReferenceMissing(sqrt, symbol, rows, ORDER, decision, k);
    }

    /** Records the result, which from now on has to go on reading as it does. */
    ghost method HandOut(snapshots: map<Timeframe, MarketSnapshot<SwingView>>, decision: int)
      requires Valid() && Latest(snapshots, FRAMES, EntriesOf(states))
      requires AllWellFormed(rows, symbol) ==> CaughtUp(rows, decision, FRAMES, EntriesOf(states))
      modifies this`handed
      ensures Valid()
      ensures handed == old(handed) + [Handed(decision, snapshots, states)]
      ensures AllWellFormed(rows, symbol) ==>
                Reference(sqrt, symbol, rows, decision) == Ok(Some(ReadAll(snapshots)))
    {
      hide IncrementalMarketState.Valid, Reference, Holds, Latest, CaughtUp, AllWellFormed, EntriesOf;
      HandedOver(rows, nextIndex, states, lastDecision, past, handed, sqrt, symbol, snapshots, decision);
      handed := handed + [Handed(decision, snapshots, states)];
      if AllWellFormed(rows, symbol) {
        HandedIsReference(|handed| - 1);
      }
    }

    /** Catches one timeframe up and collects its snapshot, or finds that there is none yet. */
    method Visit(k: nat, decision: int, snapshots: map<Timeframe, MarketSnapshot<SwingView>>)
      returns (r: Result<Option<MarketSnapshot<SwingView>>, PushError>)
      requires Valid() && lastDecision == Some(decision) && k < |ORDER|
      requires Latest(snapshots, FirstFrames(k), EntriesOf(states))
      requires AllWellFormed(rows, symbol) ==> CaughtUp(rows, decision, FirstFrames(k), EntriesOf(states))
      modifies this`nextIndex, states[ORDER[k]].Repr
      ensures Valid()
      ensures AllWellFormed(rows, symbol) ==>
                r.Ok? && (r.value.None? ==> Reference(sqrt, symbol, rows, decision) == Ok(None))
      ensures r.Ok? && r.value.Some? ==>
                && Latest(snapshots[ORDER[k] := r.value.value], FirstFrames(k + 1), EntriesOf(states))
                && (AllWellFormed(rows, symbol) ==>
                      CaughtUp(rows, decision, FirstFrames(k + 1), EntriesOf(states)))
    {
      hide IncrementalMarketState.Valid, Holds, Reference, AllWellFormed, Completed, Latest, CaughtUp, FirstFrames;
      var frame := ORDER[k];
      var state := states[frame];
      ghost var before := EntriesOf(states);
      FrameFacts(frame);
      var e := AdvanceFrame(frame, decision);
      if e.Some? {
        return Err(e.value);
      }
      FrameFacts(frame);
      state.Counters();
      if state.count < 2 || state.latest.None? {
        if AllWellFormed(rows, symbol) {
          Unavailable(frame, decision);
        }
        return Ok(None);
      }
      NextFrame(k);
      assert EntriesOf(states) == before[frame := Entry(state.history, state.issued)];
      if AllWellFormed(rows, symbol) {
        CatchUpOne(rows, decision, FirstFrames(k), frame, before, Entry(state.history, state.issued));
      }
      CollectOne(snapshots, FirstFrames(k), frame, state.latest.value, before, Entry(state.history, state.issued));
      return Ok(state.latest);
    }

    /** Moves the clock; going back in time forgets all progress. */
    method SetClock(decision: int)
      requires Valid()
      modifies this
      ensures Valid() && fresh(Repr() - old(Repr()))
      ensures lastDecision == Some(decision) && handed == old(handed)
    {
      hide IncrementalMarketState.Valid, Holds;
      if lastDecision.Some? && decision < lastDecision.value {
        Reset();
      }
      ClockHolds(rows, nextIndex, states, lastDecision, past, handed, sqrt, symbol, decision);
      lastDecision := Some(decision);
    }

    /** Visits the timeframes in order until one of them is not ready. */
    method CollectAll(decision: int)
      returns (r: Result<Option<map<Timeframe, MarketSnapshot<SwingView>>>, PushError>)
      requires Valid() && lastDecision == Some(decision)
      modifies this`nextIndex, Memory(states)
      ensures Valid()
      ensures r.Ok? && r.value.Some? ==> Latest(r.value.value, FRAMES, EntriesOf(states))
      ensures AllWellFormed(rows, symbol) ==>
                r.Ok? && if r.value.None? then Reference(sqrt, symbol, rows, decision) == Ok(None)
                         else CaughtUp(rows, decision, FRAMES, EntriesOf(states))
    {
      hide IncrementalMarketState.Valid, Holds, Reference, AllWellFormed, Completed, Latest, CaughtUp, FirstFrames,
        EntriesOf;
      var snapshots: map<Timeframe, MarketSnapshot<SwingView>> := map[];
      NextFrame(0);
      NothingCollected(rows, decision, EntriesOf(states));
      for k := 0 to |ORDER|
        invariant Valid()
        invariant Latest(snapshots, FirstFrames(k), EntriesOf(states))
        invariant AllWellFormed(rows, symbol) ==> CaughtUp(rows, decision, FirstFrames(k), EntriesOf(states))
      {
        FrameFacts(ORDER[k]);
        var snapshot := Visit(k, decision, snapshots);
        if snapshot.Err? {
          return Err(snapshot.error);
        }
        if snapshot.value.None? {
          return Ok(None);
        }
        snapshots := snapshots[ORDER[k] := snapshot.value.value];
      }
      return Ok(Some(snapshots));
    }

    /**
     * The snapshots of all four timeframes at a decision time, or none while some timeframe
     * has fewer than two completed candles.  A decision time before the last one starts over.
     */
    method SnapshotsAt(decision: int)
      returns (r: Result<Option<map<Timeframe, MarketSnapshot<SwingView>>>, PushError>)
      requires Valid()
      modifies Repr()
      ensures Valid() && fresh(Repr() - old(Repr()))
      ensures r.Ok? && r.value.Some? ==>
                |handed| == |old(handed)| + 1 && handed[..|old(handed)|] == old(handed)
                && handed[|old(handed)|].decision == decision && handed[|old(handed)|].snaps == r.value.value
      ensures r.Err? || r.value.None? ==> handed == old(handed)
      ensures AllWellFormed(rows, symbol) ==>
                r.Ok? && Reference(sqrt, symbol, rows, decision)
                         == Ok(if r.value.None? then None else Some(ReadAll(r.value.value)))
    {
      hide IncrementalMarketState.Valid, Holds, Reference, AllWellFormed, Read, Latest, CaughtUp, EntriesOf;
      SetClock(decision);
      r := CollectAll(decision);
      if r.Ok? && r.value.Some? {
        HandOut(r.value.value, decision);
      }
    }
  }
}
