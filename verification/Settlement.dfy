/**
 * Closing a position for good: position, equity, ledger row and journal row in one transaction,
 * with the in-memory account updated only after the commit.
 */
module Settlement {
  import opened Prelude
  import opened Positions

  datatype LedgerEntry = LedgerEntry(
    positionId: string, cycleId: Option<string>, pnl: real, before: real, after: real, createdAt: int)

  /** The completed position as the journal records it, with the cycle that closed it. */
  datatype JournalEntry = JournalEntry(position: Position, cycleId: Option<string>)

  datatype Books = Books(
    equity: real, ledger: seq<LedgerEntry>, positions: map<string, Position>, journal: map<string, JournalEntry>)

  datatype Error =
    | StillOpen | NoPnl | NoCloseTime | SettlementConflict | AccountConflict | OutOfSync | NegativeEquity
    | InvalidLedgerEntry | InvalidJournalEntry | JournalConflict | StorageFailure

  datatype Outcome = Outcome(pnl: real, before: real, after: real, applied: bool)

  function Find(ledger: seq<LedgerEntry>, id: string): (r: Option<LedgerEntry>)
    ensures r.None? <==> forall i :: 0 <= i < |ledger| ==> ledger[i].positionId != id
    ensures r.Some? ==> r.value in ledger && r.value.positionId == id
  {
    if ledger == [] then None
    else if ledger[|ledger| - 1].positionId == id then Some(ledger[|ledger| - 1])
    else Find(ledger[..|ledger| - 1], id)
  }

  predicate ValidCycle(cycleId: Option<string>)
  {
    cycleId.Some? ==> !Blank(cycleId.value)
  }

  predicate ValidJournal(p: Position, cycleId: Option<string>)
  {
    && p.status != OPEN && p.closedAt.Some? && p.exitPrice.Some? && p.realizedPnl.Some?
    && p.closeReason.Some? && !Blank(p.closeReason.value) && !Blank(p.positionId) && !Blank(p.symbol)
    && p.entryPrice > 0.0 && p.exitPrice.value > 0.0 && p.stopLoss > 0.0
    && (p.takeProfit.Some? ==> p.takeProfit.value > 0.0)
    && p.totalAmount > 0.0 && p.quantity > 0.0 && p.leverage > 0.0
    && ValidCycle(cycleId) && p.openedAt <= p.closedAt.value
  }

  /** What settling does: the books it commits and what it reports, or why it raises. */
  function SettledBooks(books: Books, memory: real, p: Position, cycleId: Option<string>, now: int):
    Result<(Books, Outcome), Error>
  {
    if p.status == OPEN then Err(StillOpen)
    else if p.realizedPnl.None? then Err(NoPnl)
    else if p.closedAt.None? then Err(NoCloseTime)
    else
      var pnl := p.realizedPnl.value;
      match Find(books.ledger, p.positionId)
      case Some(row) =>
        if row.pnl != pnl then Err(SettlementConflict)
        else if books.equity != row.after then Err(AccountConflict)
        else Ok((books, Outcome(row.pnl, row.before, row.after, false)))
      case None =>
        var after := books.equity + pnl;
        if memory != books.equity then Err(OutOfSync)
        else if after < 0.0 then Err(NegativeEquity)
        else if Blank(p.positionId) || !ValidCycle(cycleId) || books.equity < 0.0 then Err(InvalidLedgerEntry)
        else if !ValidJournal(p, cycleId) then Err(InvalidJournalEntry)
        else
          var entry := JournalEntry(p, cycleId);
          if p.positionId in books.journal && books.journal[p.positionId] != entry then Err(JournalConflict)
          else Ok((Books(after,
                         books.ledger + [LedgerEntry(p.positionId, cycleId, pnl, books.equity, after, now)],
                         books.positions[p.positionId := p],
                         books.journal[p.positionId := entry]),
                   Outcome(pnl, books.equity, after, true)))
  }

  // -------------------------------------------------------------------- the books

  function SumPnl(ledger: seq<LedgerEntry>): real
  {
    if ledger == [] then 0.0 else SumPnl(ledger[..|ledger| - 1]) + ledger[|ledger| - 1].pnl
  }

  /** From the origin, every row starts where the one before it ended, and the last ends at the equity. */
  predicate Chained(origin: real, ledger: seq<LedgerEntry>, equity: real)
  {
    if ledger == [] then equity == origin
    else
      var row := ledger[|ledger| - 1];
      equity == row.after == row.before + row.pnl && row.after >= 0.0
      && Chained(origin, ledger[..|ledger| - 1], row.before)
  }

  ghost predicate OncePerPosition(ledger: seq<LedgerEntry>)
  {
    forall i, j :: 0 <= i < j < |ledger| ==> ledger[i].positionId != ledger[j].positionId
  }

  /** Position, ledger row and journal row of a settlement are all there, and agree. */
  ghost predicate Complete(books: Books, row: LedgerEntry)
  {
    && row.positionId in books.positions && row.positionId in books.journal
    && books.positions[row.positionId].status != OPEN
    && books.positions[row.positionId].realizedPnl == Some(row.pnl)
    && books.journal[row.positionId] == JournalEntry(books.positions[row.positionId], row.cycleId)
  }

  ghost predicate BooksOk(origin: real, books: Books)
  {
    && origin >= 0.0
    && Chained(origin, books.ledger, books.equity)
    && OncePerPosition(books.ledger)
    && (forall i :: 0 <= i < |books.ledger| ==> Complete(books, books.ledger[i]))
    && (forall id :: id in books.journal ==> Find(books.ledger, id).Some?)
    && (forall id :: id in books.positions && books.positions[id].status != OPEN ==> Find(books.ledger, id).Some?)
  }

  /** The equity is where the row before any point ended, or the origin, plus what was settled since. */
  lemma {:induction false} LedgerTotals(origin: real, ledger: seq<LedgerEntry>, equity: real, from: nat)
    requires Chained(origin, ledger, equity) && from <= |ledger|
    ensures equity == (if from == 0 then origin else ledger[from - 1].after) + SumPnl(ledger[from..])
  {
    if from < |ledger| {
      var init, row := ledger[..|ledger| - 1], ledger[|ledger| - 1];
      LedgerTotals(origin, init, row.before, from);
      var rest := ledger[from..];
      assert rest[..|rest| - 1] == init[from..] && rest[|rest| - 1] == row;
    }
  }

  /** Persisted equity is the starting equity plus every settled result, and never negative. */
  lemma EquityIsExplained(origin: real, books: Books)
    requires BooksOk(origin, books)
    ensures books.equity == origin + SumPnl(books.ledger) && books.equity >= 0.0
  {
    LedgerTotals(origin, books.ledger, books.equity, 0);
    assert books.ledger[0..] == books.ledger;
  }

  lemma FindExact(ledger: seq<LedgerEntry>, i: nat)
    requires OncePerPosition(ledger) && i < |ledger|
    ensures Find(ledger, ledger[i].positionId) == Some(ledger[i])
  {
    var r := Find(ledger, ledger[i].positionId);
    var j :| 0 <= j < |ledger| && ledger[j] == r.value;
  }

  lemma FindAppended(ledger: seq<LedgerEntry>, row: LedgerEntry, id: string)
    ensures Find(ledger + [row], id) == if row.positionId == id then Some(row) else Find(ledger, id)
  {
    assert (ledger + [row])[..|ledger|] == ledger;
  }

  function Recorded(books: Books, p: Position, row: LedgerEntry): Books
  {
    Books(row.after, books.ledger + [row], books.positions[p.positionId := p],
          books.journal[p.positionId := JournalEntry(p, row.cycleId)])
  }

  lemma RecordedComplete(books: Books, p: Position, row: LedgerEntry, i: nat)
    requires row.positionId == p.positionId && p.status != OPEN && p.realizedPnl == Some(row.pnl)
    requires i <= |books.ledger|
    requires i < |books.ledger| ==> Complete(books, books.ledger[i]) && books.ledger[i].positionId != p.positionId
    ensures Complete(Recorded(books, p, row), Recorded(books, p, row).ledger[i])
  {
  }

  lemma RecordedKeepsBooks(origin: real, books: Books, p: Position, row: LedgerEntry)
    requires BooksOk(origin, books) && Find(books.ledger, p.positionId).None?
    requires row.positionId == p.positionId && p.status != OPEN && p.realizedPnl == Some(row.pnl)
    requires row.before == books.equity && row.after == row.before + row.pnl >= 0.0
    ensures BooksOk(origin, Recorded(books, p, row))
  {
    var next := Recorded(books, p, row);
    hide Find, Complete, Chained;
    AppendChains(origin, books, row);
    forall id ensures Find(next.ledger, id) == if row.positionId == id then Some(row) else Find(books.ledger, id) {
      FindAppended(books.ledger, row, id);
    }
    forall i | 0 <= i < |next.ledger| ensures Complete(next, next.ledger[i]) {
      RecordedComplete(books, p, row, i);
    }
  }

  /** A settlement keeps the books. */
  lemma SettleKeepsBooks(origin: real, books: Books, memory: real, p: Position, cycleId: Option<string>, now: int)
    requires BooksOk(origin, books) && SettledBooks(books, memory, p, cycleId, now).Ok?
    ensures BooksOk(origin, SettledBooks(books, memory, p, cycleId, now).value.0)
    ensures books.ledger <= SettledBooks(books, memory, p, cycleId, now).value.0.ledger
  {
    hide BooksOk, ValidJournal, ValidCycle, Find;
    if Find(books.ledger, p.positionId).None? {
      assert p.status != OPEN && p.realizedPnl.Some?;
      var pnl := p.realizedPnl.value;
      var row := LedgerEntry(p.positionId, cycleId, pnl, books.equity, books.equity + pnl, now);
      RecordedKeepsBooks(origin, books, p, row);
    }
  }

  lemma AppendChains(origin: real, books: Books, row: LedgerEntry)
    requires Chained(origin, books.ledger, books.equity)
    requires row.before == books.equity && row.after == row.before + row.pnl >= 0.0
    ensures Chained(origin, books.ledger + [row], row.after)
  {
    assert (books.ledger + [row])[..|books.ledger|] == books.ledger;
  }

  // ------------------------------------------------------------- settling again

  /**
   * Settling a settled position again with the same result is accepted exactly when the later
   * settlements net to nothing, in particular for the latest one; it then changes nothing.
   */
  lemma ReplayExactly(
    origin: real, books: Books, memory: real, p: Position, cycleId: Option<string>, now: int, i: nat)
    requires BooksOk(origin, books) && i < |books.ledger| && books.ledger[i].positionId == p.positionId
    requires p.status != OPEN && p.closedAt.Some? && p.realizedPnl == Some(books.ledger[i].pnl)
    ensures SettledBooks(books, memory, p, cycleId, now).Ok? <==> SumPnl(books.ledger[i + 1..]) == 0.0
    ensures SettledBooks(books, memory, p, cycleId, now).Err? ==>
      SettledBooks(books, memory, p, cycleId, now).error == AccountConflict
    ensures SettledBooks(books, memory, p, cycleId, now).Ok? ==>
      SettledBooks(books, memory, p, cycleId, now).value.0 == books
      && !SettledBooks(books, memory, p, cycleId, now).value.1.applied
    ensures i == |books.ledger| - 1 ==> SettledBooks(books, memory, p, cycleId, now).Ok?
  {
    hide ValidJournal, ValidCycle, Find, SumPnl, BooksOk;
    RowAndRest(origin, books, i);
    NothingLater(books.ledger, i);
  }

  lemma RowAndRest(origin: real, books: Books, i: nat)
    requires BooksOk(origin, books) && i < |books.ledger|
    ensures Find(books.ledger, books.ledger[i].positionId) == Some(books.ledger[i])
    ensures books.equity == books.ledger[i].after + SumPnl(books.ledger[i + 1..])
  {
    hide Find, SumPnl, Complete;
    FindExact(books.ledger, i);
    LedgerTotals(origin, books.ledger, books.equity, i + 1);
  }

  lemma NothingLater(ledger: seq<LedgerEntry>, i: nat)
    requires i < |ledger|
    ensures i == |ledger| - 1 ==> SumPnl(ledger[i + 1..]) == 0.0
  {
  }

  function ClosedPosition(id: string, pnl: real): Position
  {
    Position(id, "BTC", LONG, 100.0, 90.0, 10.0, 1.0, 1.0, None, 0, CLOSED, Some(1), Some(101.0), Some(pnl),
             Some("TAKE_PROFIT"), None)
  }

  function Applied(books: Books, p: Position): Books
  {
    var r := SettledBooks(books, books.equity, p, None, 1);
    if r.Ok? then r.value.0 else books
  }

  lemma AppliedAnew(books: Books, p: Position)
    requires ValidJournal(p, None) && Find(books.ledger, p.positionId).None? && p.positionId !in books.journal
    requires books.equity >= 0.0 && books.equity + p.realizedPnl.value >= 0.0
    ensures var (pnl, after) := (p.realizedPnl.value, books.equity + p.realizedPnl.value);
      Applied(books, p)
      == Books(after, books.ledger + [LedgerEntry(p.positionId, None, pnl, books.equity, after, 1)],
               books.positions[p.positionId := p], books.journal[p.positionId := JournalEntry(p, None)])
  {
    hide Blank, Find;
  }

  lemma ClosedIsValid(id: string, pnl: real)
    requires id in {"a", "b"}
    ensures ValidJournal(ClosedPosition(id, pnl), None)
  {
    assert !Blank(id) by { assert id[0] !in " \t\r\n"; }
    assert !Blank("BTC") by { assert "BTC"[0] !in " \t\r\n"; }
    assert !Blank("TAKE_PROFIT") by { assert "TAKE_PROFIT"[0] !in " \t\r\n"; }
  }

  /** Two settlements are enough: repeating the first of them raises. */
  lemma ReplayCanRaise()
    ensures var first, second := ClosedPosition("a", 10.0), ClosedPosition("b", 5.0);
      var books := Applied(Applied(Books(100.0, [], map[], map[]), first), second);
      && |books.ledger| == 2
      && SettledBooks(books, books.equity, first, None, 1) == Err(AccountConflict)
  {
    hide Applied, ValidJournal, Blank;
    assert "a"[0] != "b"[0];
    var first, second := ClosedPosition("a", 10.0), ClosedPosition("b", 5.0);
    ClosedIsValid("a", 10.0);
    ClosedIsValid("b", 5.0);
    AppliedAnew(Books(100.0, [], map[], map[]), first);
    var one := Applied(Books(100.0, [], map[], map[]), first);
    assert one.ledger[..0] == [] && Find(one.ledger, "b").None?;
    AppliedAnew(one, second);
    var two := Applied(one, second);
    assert two.ledger[..1] == one.ledger && Find(two.ledger, "a") == Some(one.ledger[0]);
  }

  // --------------------------------------------------------- exactly what is settled

  /**
   * A first settlement succeeds exactly for a closed, complete position with sound figures whose
   * result the equity can bear, from an account in step with the books; then exactly this is written.
   */
  lemma SettlesExactly(
    origin: real, books: Books, memory: real, p: Position, cycleId: Option<string>, now: int)
    requires BooksOk(origin, books)
    requires forall i :: 0 <= i < |books.ledger| ==> books.ledger[i].positionId != p.positionId
    ensures SettledBooks(books, memory, p, cycleId, now).Ok? <==>
      && p.status in {CLOSED, STOPPED_OUT} && p.realizedPnl.Some? && p.closedAt.Some? && p.exitPrice.Some?
      && p.closeReason.Some? && p.openedAt <= p.closedAt.value
      && memory == books.equity && books.equity + p.realizedPnl.value >= 0.0
      && p.entryPrice > 0.0 && p.exitPrice.value > 0.0 && p.stopLoss > 0.0
      && p.totalAmount > 0.0 && p.quantity > 0.0 && p.leverage > 0.0
      && (p.takeProfit == None || p.takeProfit.value > 0.0)
      && !Blank(p.positionId) && !Blank(p.symbol) && !Blank(p.closeReason.value)
      && (cycleId == None || !Blank(cycleId.value))
    ensures SettledBooks(books, memory, p, cycleId, now).Ok? ==>
      var (next, outcome) := SettledBooks(books, memory, p, cycleId, now).value;
      && outcome == Outcome(p.realizedPnl.value, books.equity, books.equity + p.realizedPnl.value, true)
      && next.equity - books.equity == p.realizedPnl.value
      && next.ledger == books.ledger + [LedgerEntry(
           p.positionId, cycleId, p.realizedPnl.value, outcome.before, outcome.after, now)]
      && next.positions == books.positions[p.positionId := p]
      && next.journal == books.journal[p.positionId := JournalEntry(p, cycleId)]
  {
    hide Blank, Chained, Complete;
    assert books.equity >= 0.0 by { EquityIsExplained(origin, books); }
    assert Find(books.ledger, p.positionId).None?;
    assert p.positionId !in books.journal;
  }

  /** A repeated settlement succeeds exactly with the result on record and nothing net settled since. */
  lemma RepeatsExactly(
    origin: real, books: Books, memory: real, p: Position, cycleId: Option<string>, now: int, i: nat)
    requires BooksOk(origin, books) && i < |books.ledger| && books.ledger[i].positionId == p.positionId
    ensures SettledBooks(books, memory, p, cycleId, now).Ok? <==>
      && p.status in {CLOSED, STOPPED_OUT} && p.closedAt.Some? && p.realizedPnl == Some(books.ledger[i].pnl)
      && SumPnl(books.ledger[i + 1..]) == 0.0
    ensures SettledBooks(books, memory, p, cycleId, now).Ok? ==>
      SettledBooks(books, memory, p, cycleId, now).value
      == (books, Outcome(books.ledger[i].pnl, books.ledger[i].before, books.ledger[i].after, false))
  {
    hide ValidJournal, ValidCycle, Find, SumPnl, BooksOk;
    RowAndRest(origin, books, i);
    if p.status != OPEN && p.closedAt.Some? && p.realizedPnl == Some(books.ledger[i].pnl) {
      ReplayExactly(origin, books, memory, p, cycleId, now, i);
    }
  }

  // ------------------------------------------------------------------------- runs

  datatype Event =
    | Settling(position: Position, cycleId: Option<string>, now: int)
    | SavingOpen(position: Position)

  /** The books after the event, whether it completed, raised or was cut off. */
  ghost predicate Next(books: Books, event: Event, next: Books)
  {
    next == books
    || match event
       case Settling(p, cycleId, now) =>
         var r := SettledBooks(books, books.equity, p, cycleId, now);
         r.Ok? && next == r.value.0
       case SavingOpen(p) =>
         p.status == OPEN && Find(books.ledger, p.positionId).None? && next == Saved(books, p)
  }

  function Saved(books: Books, p: Position): Books
  {
    books.(positions := books.positions[p.positionId := p])
  }

  ghost predicate Run(origin: real, states: seq<Books>, events: seq<Event>)
  {
    && |states| == |events| + 1 && origin >= 0.0
    && states[0] == Books(origin, [], map[], map[])
    && forall i :: 0 <= i < |events| ==> Next(states[i], events[i], states[i + 1])
  }

  lemma SavingKeepsBooks(origin: real, books: Books, p: Position)
    requires BooksOk(origin, books) && p.status == OPEN && Find(books.ledger, p.positionId).None?
    ensures BooksOk(origin, Saved(books, p))
  {
    var next := Saved(books, p);
    forall i | 0 <= i < |next.ledger| ensures Complete(next, next.ledger[i]) {
      assert Complete(books, books.ledger[i]);
    }
  }

  /** In every run the books are right, and the ledger only ever grows at its end. */
  lemma {:induction false} RunKeepsBooks(origin: real, states: seq<Books>, events: seq<Event>, m: nat, n: nat)
    requires Run(origin, states, events) && m <= n < |states|
    ensures BooksOk(origin, states[n])
    ensures states[m].ledger <= states[n].ledger
    decreases n
  {
    hide SettledBooks, BooksOk;
    if n == 0 {
      EmptyBooks(origin);
    } else {
      RunKeepsBooks(origin, states, events, if m < n then m else m - 1, n - 1);
      NextKeepsBooks(origin, states[n - 1], events[n - 1], states[n]);
    }
  }

  lemma EmptyBooks(origin: real)
    requires origin >= 0.0
    ensures BooksOk(origin, Books(origin, [], map[], map[]))
  {
  }

  lemma NextKeepsBooks(origin: real, books: Books, event: Event, next: Books)
    requires BooksOk(origin, books) && Next(books, event, next)
    ensures BooksOk(origin, next) && books.ledger <= next.ledger
  {
    if next != books {
      match event
      case SavingOpen(p) => SavingKeepsBooks(origin, books, p);
      case Settling(p, cycleId, now) =>
        hide SettledBooks, BooksOk;
        SettleKeepsBooks(origin, books, books.equity, p, cycleId, now);
    }
  }

  // ---------------------------------------------------------- the service, write by write

  class SettlementService {
    /** What this connection sees, open transaction included. */
    var working: Books
    /** What survives a crash. */
    var committed: Books
    /** The in-memory account. */
    var startingEquity: real
    var realizedPnl: real
    /** The equity the account was first given. */
    ghost const origin: real
    /** How many writes the store has failed. */
    ghost var failures: nat

    ghost predicate Valid()
      reads this
    {
      working == committed && Equity() == committed.equity && BooksOk(origin, committed)
    }

    function Equity(): real
      reads this
    {
      startingEquity + realizedPnl
    }

    constructor (stored: Books, ghost first: real)
      requires BooksOk(first, stored)
      ensures Valid() && origin == first && committed == stored
    {
      hide BooksOk;
      working, committed, startingEquity, realizedPnl, origin := stored, stored, stored.equity, 0.0, first;
      failures := 0;
    }

    method Rollback()
      modifies this`working
      ensures working == committed
    {
      working := committed;
    }

    /** One write, or its failure. */
    method Store() returns (up: bool)
      modifies this`failures
      ensures failures == old(failures) + if up then 0 else 1
    {
      up := *;
      if !up { failures := failures + 1; }
    }

    /**
     * The four writes and the commit, any of which may fail; a failure undoes all of them.  It fails
     * for no other reason than a store failure or a journal that says something else.
     */
    method WriteAll(p: Position, after: real, row: LedgerEntry, entry: JournalEntry) returns (error: Option<Error>)
      requires working == committed && entry.position == p && row.positionId == p.positionId
      modifies this`working, this`committed, this`failures
      ensures working == committed
      ensures error.Some? ==> committed == old(committed)
      ensures error.None? ==>
        committed == Books(after, old(committed).ledger + [row], old(committed).positions[p.positionId := p],
                           old(committed).journal[p.positionId := entry])
      ensures failures == old(failures) + if error == Some(StorageFailure) then 1 else 0
      ensures error.None? || error == Some(StorageFailure) || error == Some(JournalConflict)
      ensures error == Some(JournalConflict) ==>
        p.positionId in old(committed).journal && old(committed).journal[p.positionId] != entry
      ensures p.positionId in old(committed).journal && old(committed).journal[p.positionId] != entry ==> error.Some?
    {
      var up := Store();
      if !up { Rollback(); return Some(StorageFailure); }
      working := working.(positions := working.positions[p.positionId := p]);
      up := Store();
      if !up { Rollback(); return Some(StorageFailure); }
      working := working.(equity := after);
      up := Store();
      if !up { Rollback(); return Some(StorageFailure); }
      working := working.(ledger := working.ledger + [row]);
      up := Store();
      if !up || (p.positionId in working.journal && working.journal[p.positionId] != entry) {
        Rollback();
        return Some(if up then JournalConflict else StorageFailure);
      }
      working := working.(journal := working.journal[p.positionId := entry]);
      up := Store();
      if !up { Rollback(); return Some(StorageFailure); }
      committed := working;
      return None;
    }

    method Settle(p: Position, cycleId: Option<string>, now: int) returns (r: Result<Outcome, Error>)
      requires Valid()
      modifies this
      ensures Valid()
      ensures r.Ok? ==> SettledBooks(old(committed), old(committed).equity, p, cycleId, now) == Ok((committed, r.value))
      ensures r.Err? ==> committed == old(committed) && Equity() == old(Equity())
      ensures SettledBooks(old(committed), old(committed).equity, p, cycleId, now).Err? ==> r.Err?
      ensures failures == old(failures) + if r == Err(StorageFailure) then 1 else 0
      ensures r.Err? && r.error != StorageFailure ==>
        SettledBooks(old(committed), old(committed).equity, p, cycleId, now) == Err(r.error)
    {
      hide BooksOk, ValidJournal, ValidCycle;
      if p.status == OPEN { return Err(StillOpen); }
      if p.realizedPnl.None? { return Err(NoPnl); }
      if p.closedAt.None? { return Err(NoCloseTime); }
      var pnl := p.realizedPnl.value;
      var existing := Find(working.ledger, p.positionId);
      if existing.Some? {
        var row := existing.value;
        if row.pnl != pnl { return Err(SettlementConflict); }
        if working.equity != row.after { return Err(AccountConflict); }
        return Ok(Outcome(row.pnl, row.before, row.after, false));
      }
      var before := working.equity;
      if Equity() != before { return Err(OutOfSync); }
      var after := before + pnl;
      if after < 0.0 { return Err(NegativeEquity); }
      if Blank(p.positionId) || !ValidCycle(cycleId) || before < 0.0 { return Err(InvalidLedgerEntry); }
      if !ValidJournal(p, cycleId) { return Err(InvalidJournalEntry); }
      ghost var books := committed;
      var row := LedgerEntry(p.positionId, cycleId, pnl, before, after, now);
      var error := WriteAll(p, after, row, JournalEntry(p, cycleId));
      if error.Some? { return Err(error.value); }
      SettleKeepsBooks(origin, books, books.equity, p, cycleId, now);
      realizedPnl := realizedPnl + pnl;
      return Ok(Outcome(pnl, before, after, true));
    }

    method SaveOpen(p: Position) returns (ok: bool)
      requires Valid() && p.status == OPEN && Find(committed.ledger, p.positionId).None?
      modifies this`working, this`committed, this`failures
      ensures Valid() && committed == if ok then Saved(old(committed), p) else old(committed)
      ensures failures == old(failures) + if ok then 0 else 1
    {
      hide BooksOk;
      ok := Store();
      if ok {
        SavingKeepsBooks(origin, committed, p);
        working := Saved(working, p);
        committed := working;
      }
    }

    /**
     * After a cycle's exits: the positions still open are saved, the closed ones settled one by one.
     * However far it gets, no other position changes and every new row settles one of these; unless
     * the store fails it gets as far as the first settlement that is refused.
     */
    method PersistManagement(managed: seq<Position>, cycleId: string, now: int) returns (error: Option<Error>)
      requires Valid()
      requires forall p :: p in managed && p.status == OPEN ==> Find(committed.ledger, p.positionId).None?
      requires forall i, j :: 0 <= i < j < |managed| ==> managed[i].positionId != managed[j].positionId
      modifies this
      ensures Valid() && old(committed.ledger) <= committed.ledger
      ensures error.None? ==> OpenSaved(committed, managed)
      ensures error.None? ==>
                forall p :: p in managed && p.status != OPEN ==> Find(committed.ledger, p.positionId).Some?
      ensures OthersKept(old(committed), committed, managed)
      ensures forall i :: |old(committed.ledger)| <= i < |committed.ledger| ==> Booked(managed, committed.ledger[i])
      ensures error.None? ==> Persisted(old(committed), managed, cycleId, now) == Ok(committed)
      ensures error.Some? && failures == old(failures) ==>
        Persisted(old(committed), managed, cycleId, now) == Err(error.value)
    {
      hide BooksOk, SettledBooks, Booked, Find, OpenSaved, OthersKept, AllSaved, SettledInTurn;
      ghost var first := committed;
      var k := 0;
      NothingSaved(committed, managed);
      NothingPersisted(committed, managed, cycleId, now);
      while k < |managed|
        invariant 0 <= k <= |managed| && Valid() && committed.ledger == old(committed.ledger)
        invariant OpenSaved(committed, managed[..k]) && OthersKept(old(committed), committed, managed)
        invariant committed == AllSaved(first, managed[..k]) && failures == old(failures)
      {
        ghost var books := committed;
        OneMorePersisted(first, first, managed, k, cycleId, now);
        if managed[k].status == OPEN {
          var ok := SaveOpen(managed[k]);
          if !ok { return Some(StorageFailure); }
        }
        OneMoreSaved(old(committed), books, committed, managed, k);
        k := k + 1;
      }
      assert managed[..k] == managed;
      ghost var saved := committed;
      k := 0;
      NothingPersisted(committed, managed, cycleId, now);
      while k < |managed|
        invariant 0 <= k <= |managed| && Valid() && old(committed.ledger) <= committed.ledger
        invariant OpenSaved(committed, managed) && OthersKept(old(committed), committed, managed)
        invariant forall i :: 0 <= i < k && managed[i].status != OPEN ==>
          Find(committed.ledger, managed[i].positionId).Some?
        invariant forall i :: |old(committed.ledger)| <= i < |committed.ledger| ==> Booked(managed, committed.ledger[i])
        invariant SettledInTurn(saved, managed[..k], cycleId, now) == Ok(committed) && failures == old(failures)
      {
        OneMorePersisted(first, saved, managed, k, cycleId, now);
        if managed[k].status != OPEN {
          ghost var books := committed;
          var r := Settle(managed[k], Some(cycleId), now);
          if r.Err? {
            if r.error != StorageFailure { RefusalStops(saved, managed, k + 1, cycleId, now); }
            return Some(r.error);
          }
          NewRow(managed, k, books, committed, r.value, Some(cycleId), now);
          SettledStaysSaved(old(committed), books, committed, managed, k);
        }
        k := k + 1;
      }
      assert managed[..k] == managed;
      return None;
    }

    /** A crash and a restart: the account is rebuilt from the persisted equity. */
    method Restart()
      requires BooksOk(origin, committed)
      modifies this
      ensures Valid() && committed == old(committed)
    {
      hide BooksOk;
      Rollback();
      startingEquity, realizedPnl := committed.equity, 0.0;
    }
  }

  /** The open ones of these positions saved, one after the other. */
  function AllSaved(books: Books, managed: seq<Position>): Books
  {
    if managed == [] then books
    else
      var before, p := AllSaved(books, managed[..|managed| - 1]), managed[|managed| - 1];
      if p.status == OPEN then Saved(before, p) else before
  }

  /** The closed ones settled in turn, up to the first refusal. */
  function SettledInTurn(books: Books, managed: seq<Position>, cycleId: string, now: int): Result<Books, Error>
  {
    if managed == [] then Ok(books)
    else
      var before, p := SettledInTurn(books, managed[..|managed| - 1], cycleId, now), managed[|managed| - 1];
      if before.Err? || p.status == OPEN then before
      else
        match SettledBooks(before.value, before.value.equity, p, Some(cycleId), now)
        case Ok((next, _)) => Ok(next)
        case Err(error) => Err(error)
  }

  /** What a cycle leaves when the store does not fail. */
  function Persisted(books: Books, managed: seq<Position>, cycleId: string, now: int): Result<Books, Error>
  {
    SettledInTurn(AllSaved(books, managed), managed, cycleId, now)
  }

  lemma OneMorePersisted(books: Books, saved: Books, managed: seq<Position>, k: nat, cycleId: string, now: int)
    requires k < |managed|
    ensures AllSaved(books, managed[..k + 1])
         == if managed[k].status == OPEN then Saved(AllSaved(books, managed[..k]), managed[k])
            else AllSaved(books, managed[..k])
    ensures var before := SettledInTurn(saved, managed[..k], cycleId, now);
      before.Ok? ==>
        var r := SettledBooks(before.value, before.value.equity, managed[k], Some(cycleId), now);
        SettledInTurn(saved, managed[..k + 1], cycleId, now)
        == if managed[k].status == OPEN then before else if r.Ok? then Ok(r.value.0) else Err(r.error)
  {
    hide SettledBooks;
    assert managed[..k + 1][..k] == managed[..k];
  }

  lemma NothingPersisted(books: Books, managed: seq<Position>, cycleId: string, now: int)
    ensures AllSaved(books, managed[..0]) == books && SettledInTurn(books, managed[..0], cycleId, now) == Ok(books)
  {
  }

  lemma {:induction false} RefusalStops(books: Books, managed: seq<Position>, k: nat, cycleId: string, now: int)
    requires k <= |managed| && SettledInTurn(books, managed[..k], cycleId, now).Err?
    ensures SettledInTurn(books, managed, cycleId, now) == SettledInTurn(books, managed[..k], cycleId, now)
  {
    hide SettledBooks;
    if k == |managed| {
      assert managed[..k] == managed;
    } else {
      assert managed[..|managed| - 1][..k] == managed[..k];
      RefusalStops(books, managed[..|managed| - 1], k, cycleId, now);
    }
  }

  /** Every position of these that is still open is stored as it is here. */
  ghost predicate OpenSaved(books: Books, managed: seq<Position>)
  {
    forall i :: 0 <= i < |managed| && managed[i].status == OPEN ==>
      managed[i].positionId in books.positions && books.positions[managed[i].positionId] == managed[i]
  }

  predicate SamePosition(a: Books, b: Books, id: string)
  {
    (id in a.positions <==> id in b.positions) && (id in a.positions ==> a.positions[id] == b.positions[id])
  }

  ghost predicate OnlyPosition(a: Books, b: Books, id: string)
  {
    forall other :: other != id ==> SamePosition(a, b, other)
  }

  ghost predicate Among(managed: seq<Position>, id: string)
  {
    exists i :: 0 <= i < |managed| && managed[i].positionId == id
  }

  ghost predicate OthersKept(a: Books, b: Books, managed: seq<Position>)
  {
    forall id :: !Among(managed, id) ==> SamePosition(a, b, id)
  }

  lemma NothingSaved(books: Books, managed: seq<Position>)
    ensures OpenSaved(books, managed[..0]) && OthersKept(books, books, managed)
  {
  }

  lemma OneMoreSaved(first: Books, books: Books, next: Books, managed: seq<Position>, k: nat)
    requires k < |managed| && OpenSaved(books, managed[..k]) && OthersKept(first, books, managed)
    requires forall i, j :: 0 <= i < j < |managed| ==> managed[i].positionId != managed[j].positionId
    requires next == if managed[k].status == OPEN then Saved(books, managed[k]) else books
    ensures OpenSaved(next, managed[..k + 1]) && OthersKept(first, next, managed)
  {
    var done := managed[..k + 1];
    forall i | 0 <= i < |done| && done[i].status == OPEN
      ensures done[i].positionId in next.positions && next.positions[done[i].positionId] == done[i]
    {
      if i < k { assert managed[..k][i] == done[i]; }
    }
    assert Among(managed, managed[k].positionId);
    forall id | !Among(managed, id) ensures SamePosition(first, next, id) {
      assert SamePosition(first, books, id);
    }
  }

  /** Settling one position leaves the open ones as they were saved. */
  lemma SettledStaysSaved(first: Books, books: Books, next: Books, managed: seq<Position>, k: nat)
    requires k < |managed| && managed[k].status != OPEN
    requires OpenSaved(books, managed) && OthersKept(first, books, managed)
    requires forall i, j :: 0 <= i < j < |managed| ==> managed[i].positionId != managed[j].positionId
    requires OnlyPosition(books, next, managed[k].positionId)
    ensures OpenSaved(next, managed) && OthersKept(first, next, managed)
  {
    forall i | 0 <= i < |managed| && managed[i].status == OPEN
      ensures managed[i].positionId in next.positions && next.positions[managed[i].positionId] == managed[i]
    {
      assert managed[i].positionId != managed[k].positionId;
      assert SamePosition(books, next, managed[i].positionId);
    }
    assert Among(managed, managed[k].positionId);
    forall id | !Among(managed, id) ensures SamePosition(first, next, id) {
      assert SamePosition(first, books, id) && SamePosition(books, next, id);
    }
  }

  /** The row settles one of these positions, with its result. */
  ghost predicate Booked(managed: seq<Position>, row: LedgerEntry)
  {
    exists k :: 0 <= k < |managed| && managed[k].status != OPEN && managed[k].positionId == row.positionId
                && managed[k].realizedPnl == Some(row.pnl)
  }

  lemma NewRow(
    managed: seq<Position>, k: nat, books: Books, next: Books, outcome: Outcome, cycleId: Option<string>, now: int)
    requires k < |managed|
    requires SettledBooks(books, books.equity, managed[k], cycleId, now) == Ok((next, outcome))
    ensures books.ledger <= next.ledger && managed[k].status != OPEN
    ensures forall i :: |books.ledger| <= i < |next.ledger| ==> Booked(managed, next.ledger[i])
    ensures Find(next.ledger, managed[k].positionId).Some?
    ensures forall id :: Find(books.ledger, id).Some? ==> Find(next.ledger, id).Some?
    ensures OnlyPosition(books, next, managed[k].positionId)
  {
    hide ValidJournal, ValidCycle, Find;
    if next != books {
      var row := next.ledger[|books.ledger|];
      FindAppended(books.ledger, row, managed[k].positionId);
    }
    StillFound(books.ledger, next.ledger);
  }

  lemma StillFound(a: seq<LedgerEntry>, b: seq<LedgerEntry>)
    requires a <= b
    ensures forall id :: Find(a, id).Some? ==> Find(b, id).Some?
  {
    forall id | Find(a, id).Some? ensures Find(b, id).Some? {
      var row := Find(a, id).value;
      var i :| 0 <= i < |a| && a[i] == row;
      assert b[i].positionId == id;
    }
  }
}
