/** The event ledger of src-tauri/src/ledger.rs: an append-only log split into day files, and a
    table keyed by event id that is kept up to date by each record or rebuilt from the files
    in whatever order the directory lists them. */
module Ledger {
  import opened Options
  import opened Sequences
  import ContentStore

  type EventId = string

  datatype LedgerEvent = LedgerEvent(
    eventId: EventId, traceId: Option<string>, sessionId: Option<string>, timestamp: int,
    eventType: string, source: string, windowTitle: Option<string>, processName: Option<string>,
    rawText: Option<string>, contentRef: Option<ContentStore.ContentRef>, parentEventId: Option<string>,
    metadata: map<string, string>)

  type Table = map<EventId, LedgerEvent>

  /** A day, counted from the epoch; each day has one file. */
  type Date = int

  /** A line of a day file, after trimming: an event, nothing, or something that does not parse. */
  datatype Line = Good(event: LedgerEvent) | Blank | Bad

  /** One line of the whole log, in the order the lines were written. */
  datatype Entry = Entry(date: Date, line: Line)

  // ------------------------------------------------------------------ dates

  const SECONDS_PER_DAY := 86400
  /** The timestamps chrono can represent: years -262143 to 262142. */
  const MIN_TIMESTAMP := -8334601228800
  const MAX_TIMESTAMP := 8210266876799

  /** The day of a timestamp; an unrepresentable one counts as `now`. */
  function TimestampToDate(timestamp: int, now: int): Date {
    (if MIN_TIMESTAMP <= timestamp <= MAX_TIMESTAMP then timestamp else now) / SECONDS_PER_DAY
  }

  // ------------------------------------------------------------------ files and table

  /** The lines of one day file, in order. */
  function Lines(log: seq<Entry>, d: Date): seq<Line> {
    if log == [] then []
    else
      var e := log[|log| - 1];
      Lines(log[..|log| - 1], d) + if e.date == d then [e.line] else []
  }

  function Dates(log: seq<Entry>): set<Date> {
    set e | e in log :: e.date
  }

  /** Insert or replace. */
  function Ingest(t: Table, e: LedgerEvent): Table {
    t[e.eventId := e]
  }

  function IngestLine(t: Table, line: Line): Table {
    if line.Good? then Ingest(t, line.event) else t
  }

  function IngestLines(t: Table, lines: seq<Line>): Table {
    if lines == [] then t else IngestLine(IngestLines(t, lines[..|lines| - 1]), lines[|lines| - 1])
  }

  function CountGood(lines: seq<Line>): nat {
    if lines == [] then 0 else CountGood(lines[..|lines| - 1]) + if lines[|lines| - 1].Good? then 1 else 0
  }

  /** The files read one after the other. */
  function Rebuilt(t: Table, log: seq<Entry>, order: seq<Date>): Table {
    if order == [] then t
    else IngestLines(Rebuilt(t, log, order[..|order| - 1]), Lines(log, order[|order| - 1]))
  }

  function CountIn(log: seq<Entry>, order: seq<Date>): nat {
    if order == [] then 0
    else CountIn(log, order[..|order| - 1]) + CountGood(Lines(log, order[|order| - 1]))
  }

  /** A possible directory listing: every day file once. */
  predicate Listing(log: seq<Entry>, order: seq<Date>) {
    NoDup(order) && (forall i :: 0 <= i < |order| ==> order[i] in Dates(log)) && (forall d :: d in Dates(log) ==> d in order)
  }

  // ------------------------------------------------------------------ the meaning of the log

  function Lookup(t: Table, id: EventId): Option<LedgerEvent> {
    if id in t then Some(t[id]) else None
  }

  predicate Is(line: Line, id: EventId) {
    line.Good? && line.event.eventId == id
  }

  /** The last event of the whole log with this id. */
  function LastOf(log: seq<Entry>, id: EventId): Option<LedgerEvent> {
    if log == [] then None
    else if Is(log[|log| - 1].line, id) then Some(log[|log| - 1].line.event)
    else LastOf(log[..|log| - 1], id)
  }

  /** The last event of one file with this id. */
  function LastIn(lines: seq<Line>, id: EventId): Option<LedgerEvent> {
    if lines == [] then None
    else if Is(lines[|lines| - 1], id) then Some(lines[|lines| - 1].event)
    else LastIn(lines[..|lines| - 1], id)
  }

  /** The table holds, for every id of the log, the last event logged under it. */
  ghost predicate Agrees(t: Table, log: seq<Entry>) {
    forall id :: LastOf(log, id).Some? ==> Lookup(t, id) == LastOf(log, id)
  }

  /** The table is exactly the latest-wins map of the log. */
  ghost predicate LatestWins(t: Table, log: seq<Entry>) {
    forall id :: Lookup(t, id) == LastOf(log, id)
  }

  /** The last event of an id within any of its files is its last event overall. */
  ghost predicate Consistent(log: seq<Entry>) {
    forall id, d :: LastIn(Lines(log, d), id).Some? ==> LastIn(Lines(log, d), id) == LastOf(log, id)
  }

  // ------------------------------------------------------------------ reading files back

  lemma {:induction false} IngestLinesLookup(t: Table, lines: seq<Line>, id: EventId)
    ensures Lookup(IngestLines(t, lines), id) ==
            if LastIn(lines, id).Some? then LastIn(lines, id) else Lookup(t, id)
  {
    if lines != [] {
      IngestLinesLookup(t, lines[..|lines| - 1], id);
    }
  }

  /** The event a whole rebuild leaves under an id: from the last listed file that has one. */
  function LastAmong(log: seq<Entry>, order: seq<Date>, id: EventId): Option<LedgerEvent> {
    if order == [] then None
    else if LastIn(Lines(log, order[|order| - 1]), id).Some? then LastIn(Lines(log, order[|order| - 1]), id)
    else LastAmong(log, order[..|order| - 1], id)
  }

  lemma {:induction false} RebuiltLookup(t: Table, log: seq<Entry>, order: seq<Date>, id: EventId)
    ensures Lookup(Rebuilt(t, log, order), id) ==
            if LastAmong(log, order, id).Some? then LastAmong(log, order, id) else Lookup(t, id)
  {
    if order != [] {
      var front := order[..|order| - 1];
      RebuiltLookup(t, log, front, id);
      IngestLinesLookup(Rebuilt(t, log, front), Lines(log, order[|order| - 1]), id);
    }
  }

  /** An id is in the log exactly when it is in some file, and its last event is the last one of
      that event's own file. */
  lemma {:induction false} LastHasFile(log: seq<Entry>, id: EventId) returns (d: Date)
    ensures LastOf(log, id).Some? ==> d in Dates(log) && LastIn(Lines(log, d), id) == LastOf(log, id)
  {
    d := 0;
    if log != [] {
      var front, e := log[..|log| - 1], log[|log| - 1];
      if Is(e.line, id) {
        d := e.date;
        assert Lines(log, d) == Lines(front, d) + [e.line];
      } else {
        d := LastHasFile(front, id);
        assert Dates(front) <= Dates(log);
        AppendedElsewhere(log, id, d);
      }
    }
  }

  lemma AppendedElsewhere(log: seq<Entry>, id: EventId, d: Date)
    requires log != [] && !Is(log[|log| - 1].line, id)
    ensures LastIn(Lines(log, d), id) == LastIn(Lines(log[..|log| - 1], d), id)
  {
    var front, e := log[..|log| - 1], log[|log| - 1];
    if e.date == d {
      assert Lines(log, d)[..|Lines(front, d)|] == Lines(front, d);
    } else {
      assert Lines(log, d) == Lines(front, d);
    }
  }

  lemma {:induction false} FileInLog(log: seq<Entry>, id: EventId, d: Date)
    requires LastIn(Lines(log, d), id).Some?
    ensures LastOf(log, id).Some? && d in Dates(log)
  {
    if log != [] {
      var front, e := log[..|log| - 1], log[|log| - 1];
      if e.date == d {
        assert e in log;
      } else {
        assert Lines(log, d) == Lines(front, d);
      }
      if !Is(e.line, id) {
        AppendedElsewhere(log, id, d);
        FileInLog(front, id, d);
      } else if e.date != d {
        FileInLog(front, id, d);
      }
    }
  }

  lemma {:induction false} AmongConsistent(log: seq<Entry>, order: seq<Date>, id: EventId)
    requires Consistent(log)
    ensures LastAmong(log, order, id).Some? ==> LastAmong(log, order, id) == LastOf(log, id)
    ensures forall d :: d in order && LastIn(Lines(log, d), id).Some? ==> LastAmong(log, order, id).Some?
  {
    if order != [] {
      AmongConsistent(log, order[..|order| - 1], id);
    }
  }

  // ------------------------------------------------------------------ main results

  /** Rebuilding from a consistent log, in any order and from any table, restores the latest
      event of every logged id and leaves every other row alone. */
  lemma RebuildRestores(t: Table, log: seq<Entry>, order: seq<Date>, id: EventId)
    requires Consistent(log) && Listing(log, order)
    ensures Lookup(Rebuilt(t, log, order), id) == if LastOf(log, id).Some? then LastOf(log, id) else Lookup(t, id)
  {
    RebuiltLookup(t, log, order, id);
    AmongConsistent(log, order, id);
    if LastOf(log, id).Some? {
      var d := LastHasFile(log, id);
      assert d in order;
    }
  }

  /** A listing that ends with the file of date `d`. */
  lemma ListingEndingIn(log: seq<Entry>, d: Date) returns (order: seq<Date>)
    requires d in Dates(log)
    ensures Listing(log, order) && order != [] && order[|order| - 1] == d
  {
    var front := Enumerate(Dates(log) - {d});
    order := front + [d];
    assert forall i :: 0 <= i < |front| ==> front[i] in front;
  }

  lemma {:induction false} Enumerate(s: set<Date>) returns (order: seq<Date>)
    ensures NoDup(order) && forall d :: d in order <==> d in s
    decreases |s|
  {
    order := [];
    if d :| d in s {
      var rest := Enumerate(s - {d});
      order := rest + [d];
    }
  }

  ghost predicate EveryOrderAgrees(t: Table, log: seq<Entry>) {
    forall order :: Listing(log, order) ==> Agrees(Rebuilt(t, log, order), log)
  }

  /** Rebuilding gives the latest-wins table in every directory order exactly when the log is
      consistent. */
  lemma RebuildIffConsistent(t: Table, log: seq<Entry>)
    ensures EveryOrderAgrees(t, log) <==> Consistent(log)
  {
    if Consistent(log) {
      forall order | Listing(log, order) ensures Agrees(Rebuilt(t, log, order), log) {
        forall id ensures LastOf(log, id).Some? ==> Lookup(Rebuilt(t, log, order), id) == LastOf(log, id) {
          RebuildRestores(t, log, order, id);
        }
      }
    }
    if EveryOrderAgrees(t, log) {
      forall id, d | LastIn(Lines(log, d), id).Some? ensures LastIn(Lines(log, d), id) == LastOf(log, id) {
        FileInLog(log, id, d);
        var order := ListingEndingIn(log, d);
        RebuiltLookup(t, log, order, id);
        assert Agrees(Rebuilt(t, log, order), log);
      }
    }
  }

  predicate SameId(a: Line, b: Line) {
    a.Good? && b.Good? && a.event.eventId == b.event.eventId
  }

  /** All lines of one id are in the same file. */
  ghost predicate OneDayPerId(log: seq<Entry>) {
    forall i, j :: 0 <= i < |log| && 0 <= j < |log| && SameId(log[i].line, log[j].line) ==> log[i].date == log[j].date
  }

  lemma {:induction false} HasLine(log: seq<Entry>, id: EventId, d: Date) returns (i: nat)
    requires LastIn(Lines(log, d), id).Some?
    ensures i < |log| && Is(log[i].line, id) && log[i].date == d
  {
    i := |log| - 1;
    if !(Is(log[i].line, id) && log[i].date == d) {
      if !Is(log[i].line, id) {
        AppendedElsewhere(log, id, d);
      } else {
        assert Lines(log, d) == Lines(log[..|log| - 1], d);
      }
      i := HasLine(log[..|log| - 1], id, d);
    }
  }

  /** An id that never changes its date makes no trouble. */
  lemma OneDayIsConsistent(log: seq<Entry>)
    requires OneDayPerId(log)
    ensures Consistent(log)
  {
    forall id, d | LastIn(Lines(log, d), id).Some? ensures LastIn(Lines(log, d), id) == LastOf(log, id) {
      FileInLog(log, id, d);
      var own := LastHasFile(log, id);
      var i := HasLine(log, id, d);
      var j := HasLine(log, id, own);
    }
  }

  /** The reported count is the number of well-formed lines of the log, in any order. */
  lemma {:induction false} CountIsOrderFree(log: seq<Entry>, order: seq<Date>)
    requires Listing(log, order)
    ensures CountIn(log, order) == GoodEntries(log)
  {
    assert order == [] || order[0] in Dates(log);
    if log != [] {
      CountWithLast(log, order);
      var shorter := ShorterLog(log, order);
      CountIsOrderFree(log[..|log| - 1], shorter);
    }
  }

  lemma ShorterLog(log: seq<Entry>, order: seq<Date>) returns (shorter: seq<Date>)
    requires log != [] && Listing(log, order)
    ensures log[|log| - 1].date in order
    ensures Listing(log[..|log| - 1], shorter)
    ensures CountIn(log[..|log| - 1], order) == CountIn(log[..|log| - 1], shorter)
  {
    assert log[|log| - 1] in log;
    if log[|log| - 1].date in Dates(log[..|log| - 1]) {
      shorter := order;
      assert log == log[..|log| - 1] + [log[|log| - 1]];
      assert Dates(log) == Dates(log[..|log| - 1]);
    } else {
      shorter := WithoutNewFile(log, order);
    }
  }

  /** When the last line opened a new file, the listing without it is one of the log before. */
  lemma WithoutNewFile(log: seq<Entry>, order: seq<Date>) returns (shorter: seq<Date>)
    requires log != [] && Listing(log, order) && log[|log| - 1].date !in Dates(log[..|log| - 1])
    ensures Listing(log[..|log| - 1], shorter)
    ensures CountIn(log[..|log| - 1], order) == CountIn(log[..|log| - 1], shorter)
  {
    assert log[|log| - 1] in log;
    assert log[|log| - 1].date in order;
    var k :| 0 <= k < |order| && order[k] == log[|log| - 1].date;
    CountWithout(log[..|log| - 1], order, k);
    ShorterListing(log, order, k);
    shorter := order[..k] + order[k + 1..];
  }

  function GoodEntries(log: seq<Entry>): nat {
    if log == [] then 0 else GoodEntries(log[..|log| - 1]) + if log[|log| - 1].line.Good? then 1 else 0
  }

  lemma {:induction false} CountWithLast(log: seq<Entry>, order: seq<Date>)
    requires log != [] && NoDup(order)
    ensures CountIn(log, order) ==
            CountIn(log[..|log| - 1], order) + if log[|log| - 1].date in order && log[|log| - 1].line.Good? then 1 else 0
  {
    if order != [] {
      var e, d, rest := log[|log| - 1], order[|order| - 1], order[..|order| - 1];
      assert order == rest + [d];
      assert d !in rest;
      CountWithLast(log, rest);
      var before := Lines(log[..|log| - 1], d);
      if e.date == d {
        assert Lines(log, d)[..|before|] == before;
      } else {
        assert Lines(log, d) == before;
      }
    }
  }

  lemma {:induction false} NoLines(log: seq<Entry>, d: Date)
    requires d !in Dates(log)
    ensures Lines(log, d) == []
  {
    if log != [] {
      assert log[|log| - 1] in log;
      assert Dates(log[..|log| - 1]) <= Dates(log);
      NoLines(log[..|log| - 1], d);
    }
  }

  lemma {:induction false} CountWithout(log: seq<Entry>, order: seq<Date>, k: nat)
    requires k < |order| && order[k] !in Dates(log)
    ensures CountIn(log, order) == CountIn(log, order[..k] + order[k + 1..])
    decreases |order|
  {
    var rest := order[..|order| - 1];
    if k == |order| - 1 {
      NoLines(log, order[k]);
      assert order[..k] + order[k + 1..] == rest;
    } else {
      CountWithout(log, rest, k);
      var shorter := order[..k] + order[k + 1..];
      assert shorter[..|shorter| - 1] == rest[..k] + rest[k + 1..];
      assert shorter[|shorter| - 1] == order[|order| - 1];
    }
  }

  lemma ShorterListing(log: seq<Entry>, order: seq<Date>, k: nat)
    requires log != [] && Listing(log, order) && k < |order| && order[k] == log[|log| - 1].date
    requires order[k] !in Dates(log[..|log| - 1])
    ensures Listing(log[..|log| - 1], order[..k] + order[k + 1..])
  {
    var front, shorter := log[..|log| - 1], order[..k] + order[k + 1..];
    assert log == front + [log[|log| - 1]];
    assert Dates(log) == Dates(front) + {order[k]};
    forall d ensures d in shorter <==> d in Dates(front) {
      assert d in order <==> d in shorter || d == order[k];
      assert order[k] !in shorter;
    }
  }

  /** A second rebuild, whatever orders the two use, changes nothing and counts the same. */
  lemma RebuildAgain(t: Table, log: seq<Entry>, first: seq<Date>, second: seq<Date>)
    requires Consistent(log) && Listing(log, first) && Listing(log, second)
    ensures Rebuilt(Rebuilt(t, log, first), log, second) == Rebuilt(t, log, first)
    ensures CountIn(log, first) == CountIn(log, second) == GoodEntries(log)
  {
    CountIsOrderFree(log, first);
    CountIsOrderFree(log, second);
    var once := Rebuilt(t, log, first);
    var twice := Rebuilt(once, log, second);
    forall id ensures Lookup(twice, id) == Lookup(once, id) {
      RebuildRestores(t, log, first, id);
      RebuildRestores(once, log, second, id);
    }
    SameTable(once, twice);
  }

  lemma SameTable(s: Table, t: Table)
    requires forall id :: Lookup(t, id) == Lookup(s, id)
    ensures s == t
  {
    forall id ensures id in s <==> id in t { assert Lookup(t, id) == Lookup(s, id); }
    forall id | id in s ensures s[id] == t[id] { assert Lookup(t, id) == Lookup(s, id); }
  }
}
