/** The writer, the projection and the facade of src-tauri/src/ledger.rs as one class, and what
    whole runs of records, failures and rebuilds leave behind. */
module LedgerManager {
  import opened Options
  import opened Ledger
  import ContentStore
  import opened Utf8

  /** Where a `record_event` can stop early. */
  datatype Fault = NoFault | AppendFails | IngestFails

  function Appended(log: seq<Entry>, event: LedgerEvent, now: int): seq<Entry> {
    log + [Entry(TimestampToDate(event.timestamp, now), Good(event))]
  }

  function ContentTypeOf(event: LedgerEvent): string {
    if "content_type" in event.metadata then event.metadata["content_type"] else "binary"
  }

  // ------------------------------------------------------------------ rebuilds that fail in places

  /** Day files that do not open, and lines that cannot be read or whose ingest is refused. */
  datatype Misses = Misses(closed: set<Date>, refused: set<(Date, nat)>)

  predicate Missed(misses: Misses, d: Date, i: nat) { d in misses.closed || (d, i) in misses.refused }

  /** The lines of a day file, those that do not come through being as good as malformed. */
  function Passed(lines: seq<Line>, d: Date, misses: Misses): seq<Line> {
    if lines == [] then []
    else
      var n := |lines| - 1;
      Passed(lines[..n], d, misses) + [if Missed(misses, d, n) then Bad else lines[n]]
  }

  function RebuiltBut(t: Table, log: seq<Entry>, order: seq<Date>, misses: Misses): Table {
    if order == [] then t
    else
      var d := order[|order| - 1];
      IngestLines(RebuiltBut(t, log, order[..|order| - 1], misses), Passed(Lines(log, d), d, misses))
  }

  function CountBut(log: seq<Entry>, order: seq<Date>, misses: Misses): nat {
    if order == [] then 0
    else
      var d := order[|order| - 1];
      CountBut(log, order[..|order| - 1], misses) + CountGood(Passed(Lines(log, d), d, misses))
  }

  lemma {:induction false} ClosedPasses(lines: seq<Line>, d: Date, misses: Misses, t: Table)
    requires d in misses.closed
    ensures IngestLines(t, Passed(lines, d, misses)) == t && CountGood(Passed(lines, d, misses)) == 0
  {
    if lines != [] {
      var front := Passed(lines[..|lines| - 1], d, misses);
      ClosedPasses(lines[..|lines| - 1], d, misses, t);
      assert (front + [Bad])[..|front|] == front;
    }
  }

  class LedgerManager {
    var files: map<Date, seq<Line>>
    var table: Table
    /** Every line ever written, in the order of writing. */
    ghost var log: seq<Entry>

    /** Each day file holds its day's part of the log. */
    ghost predicate Valid()
      reads this
    {
      files.Keys == Dates(log) && forall d :: d in files ==> files[d] == Lines(log, d)
    }

    constructor ()
      ensures Valid() && log == [] && table == map[]
    {
      files, table, log := map[], map[], [];
    }

    method Append(event: LedgerEvent, now: int)
      requires Valid()
      modifies this`files, this`log
      ensures Valid() && log == Appended(old(log), event, now)
    {
      var date := TimestampToDate(event.timestamp, now);
      var before := if date in files then files[date] else [];
      files := files[date := before + [Good(event)]];
      log := log + [Entry(date, Good(event))];
      LinesOfAppended(old(log), Entry(date, Good(event)));
      if date !in old(files) { NoLines(old(log), date); }
    }

    method IngestRow(event: LedgerEvent)
      modifies this`table
      ensures table == Ingest(old(table), event)
    {
      table := table[event.eventId := event];
    }

    /** A failed append changes nothing; a failed ingest leaves the event in the log only. */
    method RecordEvent(event: LedgerEvent, now: int, fault: Fault) returns (ok: bool)
      requires Valid()
      modifies this
      ensures Valid() && ok == fault.NoFault?
      ensures log == if fault.AppendFails? then old(log) else Appended(old(log), event, now)
      ensures table == if fault.NoFault? then Ingest(old(table), event) else old(table)
    {
      if fault.AppendFails? { return false; }
      Append(event, now);
      if fault.IngestFails? { return false; }
      IngestRow(event);
      ok := true;
    }

    /** The content goes to the store first, then the event with its reference to the log; without
        a content store, or when the content is not `stored`, nothing happens at all. */
    method RecordEventWithContent(store: ContentStore.ContentStoreWriter?, digest: seq<byte> -> int,
        event: LedgerEvent, content: seq<byte>, id: string, now: ContentStore.Moment, stored: bool, fault: Fault)
      returns (r: Option<ContentStore.ContentRef>)
      requires Valid()
      modifies this, if store == null then {} else {store}
      ensures Valid()
      ensures store == null || !stored ==> r.None? && log == old(log) && table == old(table)
      ensures store != null && !stored ==> store.files == old(store.files)
      ensures store != null && stored ==>
                var contentType := if "content_type" in event.metadata then event.metadata["content_type"] else "binary";
                var ref := ContentStore.RefTo(digest, content, contentType, event.source, id, now);
                var full := event.(contentRef := Some(ref));
                && store.files == old(store.files)[ref.pathOrKey := content]
                && r == (if fault.NoFault? then Some(ref) else None)
                && log == (if fault.AppendFails? then old(log) else Appended(old(log), full, now.timestamp))
                && table == (if fault.NoFault? then Ingest(old(table), full) else old(table))
    {
      if store == null { return None; }
      if !stored { return None; }
      var ref := store.Store(digest, content, ContentTypeOf(event), event.source, id, now);
      var ok := RecordEvent(event.(contentRef := Some(ref)), now.timestamp, fault);
      r := if ok then Some(ref) else None;
    }

    /** Reads one day file, past the lines it misses; a missing file counts as empty, and one that
        does not open gives no count. */
    method RebuildFromJsonl(date: Date, misses: Misses) returns (count: Option<nat>)
      requires Valid()
      modifies this`table
      ensures table == IngestLines(old(table), Passed(Lines(log, date), date, misses))
      ensures count == if date in files && date in misses.closed then None
                       else Some(CountGood(Passed(Lines(log, date), date, misses)))
    {
      if date !in files {
        NoLines(log, date);
        return Some(0);
      }
      var lines := files[date];
      if date in misses.closed {
        ClosedPasses(lines, date, misses, table);
        return None;
      }
      var n := 0;
      for i := 0 to |lines|
        invariant table == IngestLines(old(table), Passed(lines[..i], date, misses))
        invariant n == CountGood(Passed(lines[..i], date, misses))
      {
        ghost var before := Passed(lines[..i], date, misses);
        assert lines[..i + 1][..i] == lines[..i];
        assert Passed(lines[..i + 1], date, misses)[..|before|] == before;
        if !Missed(misses, date, i) && lines[i].Good? {
          IngestRow(lines[i].event);
          n := n + 1;
        }
      }
      assert lines[..|lines|] == lines;
      count := Some(n);
    }

    /** `order` is what the directory listing yields; a file that does not open is passed over. */
    method RebuildProjection(order: seq<Date>, misses: Misses) returns (total: nat)
      requires Valid()
      modifies this`table
      ensures table == RebuiltBut(old(table), log, order, misses)
      ensures total == CountBut(log, order, misses)
    {
      total := 0;
      for i := 0 to |order|
        invariant Valid()
        invariant table == RebuiltBut(old(table), log, order[..i], misses)
        invariant total == CountBut(log, order[..i], misses)
      {
        assert order[..i + 1][..i] == order[..i];
        ClosedCount(log, order[i], misses);
        var count := RebuildFromJsonl(order[i], misses);
        if count.Some? { total := total + count.value; }
      }
      assert order[..|order|] == order;
    }
  }

  lemma ClosedCount(log: seq<Entry>, d: Date, misses: Misses)
    ensures d in misses.closed ==> CountGood(Passed(Lines(log, d), d, misses)) == 0
  {
    if d in misses.closed { ClosedPasses(Lines(log, d), d, misses, map[]); }
  }

  /** No line of this id is missed. */
  ghost predicate Spared(lines: seq<Line>, d: Date, misses: Misses, id: EventId) {
    forall i {:trigger lines[i]} :: 0 <= i < |lines| && Is(lines[i], id) ==> d !in misses.closed && (d, i) !in misses.refused
  }

  lemma {:induction false} PassedLookup(lines: seq<Line>, d: Date, misses: Misses, id: EventId)
    ensures |Passed(lines, d, misses)| == |lines|
    ensures LastIn(Passed(lines, d, misses), id).Some? ==> LastIn(lines, id).Some?
    ensures Spared(lines, d, misses, id) ==> LastIn(Passed(lines, d, misses), id) == LastIn(lines, id)
  {
    if lines != [] {
      var n := |lines| - 1;
      PassedLookup(lines[..n], d, misses, id);
      assert Passed(lines, d, misses)[..n] == Passed(lines[..n], d, misses);
      if Spared(lines, d, misses, id) {
        assert Spared(lines[..n], d, misses, id) by {
          forall i {:trigger lines[..n][i]} | 0 <= i < n && Is(lines[..n][i], id) ensures !Missed(misses, d, i) { assert Is(lines[i], id); }
        }
      }
    }
  }

  /** A rebuild that fails in places harms only the ids whose lines it misses: every other one gets
      what the whole rebuild would give it. It loses no row and invents none. */
  lemma {:induction false} MissesAreLocal(t: Table, log: seq<Entry>, order: seq<Date>, misses: Misses, id: EventId)
    ensures id in t ==> id in RebuiltBut(t, log, order, misses)
    ensures id in RebuiltBut(t, log, order, misses) ==> id in t || LastOf(log, id).Some?
    ensures (forall d :: d in order ==> Spared(Lines(log, d), d, misses, id)) ==>
              Lookup(RebuiltBut(t, log, order, misses), id) == Lookup(Rebuilt(t, log, order), id)
  {
    if order != [] {
      var front, d := order[..|order| - 1], order[|order| - 1];
      MissesAreLocal(t, log, front, misses, id);
      PassedLookup(Lines(log, d), d, misses, id);
      IngestLinesLookup(RebuiltBut(t, log, front, misses), Passed(Lines(log, d), d, misses), id);
      IngestLinesLookup(Rebuilt(t, log, front), Lines(log, d), id);
      if LastIn(Lines(log, d), id).Some? { FileInLog(log, id, d); }
      assert d in order;
    }
  }

  /** No well-formed line is missed. */
  ghost predicate AllPass(lines: seq<Line>, d: Date, misses: Misses) {
    forall i {:trigger lines[i]} :: 0 <= i < |lines| && lines[i].Good? ==> d !in misses.closed && (d, i) !in misses.refused
  }

  lemma {:induction false} PassedCount(lines: seq<Line>, d: Date, misses: Misses)
    ensures CountGood(Passed(lines, d, misses)) <= CountGood(lines)
    ensures CountGood(Passed(lines, d, misses)) == CountGood(lines) <==> AllPass(lines, d, misses)
  {
    if lines != [] {
      var n := |lines| - 1;
      PassedCount(lines[..n], d, misses);
      PassedLookup(lines[..n], d, misses, "");
      assert Passed(lines, d, misses)[..n] == Passed(lines[..n], d, misses);
      assert AllPass(lines, d, misses) <==> AllPass(lines[..n], d, misses) && (lines[n].Good? ==> !Missed(misses, d, n)) by {
        assert forall i :: 0 <= i < n ==> lines[..n][i] == lines[i];
      }
    }
  }

  /** No well-formed line of these files is missed. */
  ghost predicate NothingMissed(log: seq<Entry>, order: seq<Date>, misses: Misses) {
    forall i :: 0 <= i < |order| ==> AllPass(Lines(log, order[i]), order[i], misses)
  }

  lemma NothingMissedFront(log: seq<Entry>, order: seq<Date>, misses: Misses)
    requires order != []
    ensures var front, d := order[..|order| - 1], order[|order| - 1];
            NothingMissed(log, order, misses) <==> NothingMissed(log, front, misses) && AllPass(Lines(log, d), d, misses)
  {
    var front := order[..|order| - 1];
    assert forall i :: 0 <= i < |front| ==> order[i] == front[i];
  }

  /** The count tells whether a rebuild was whole: it reaches the number of well-formed lines exactly
      when none of them was missed. */
  lemma {:induction false} CountTellsMisses(log: seq<Entry>, order: seq<Date>, misses: Misses)
    ensures CountBut(log, order, misses) <= CountIn(log, order)
    ensures CountBut(log, order, misses) == CountIn(log, order) <==> NothingMissed(log, order, misses)
  {
    if order != [] {
      var d := order[|order| - 1];
      CountTellsMisses(log, order[..|order| - 1], misses);
      PassedCount(Lines(log, d), d, misses);
      NothingMissedFront(log, order, misses);
    }
  }

  lemma LinesOfAppended(log: seq<Entry>, e: Entry)
    ensures Dates(log + [e]) == Dates(log) + {e.date}
    ensures forall d :: Lines(log + [e], d) == Lines(log, d) + if d == e.date then [e.line] else []
  {
    assert (log + [e])[..|log|] == log;
    forall d ensures d in Dates(log + [e]) <==> d in Dates(log) || d == e.date {
      if d in Dates(log) {
        var f :| f in log && f.date == d;
        assert f in log + [e];
      }
      if d == e.date { assert e in log + [e]; }
    }
  }

  // ------------------------------------------------------------------ whole runs

  datatype Op =
    | Record(event: LedgerEvent, now: int, fault: Fault)
    | Junk(date: Date, bad: bool)       // a blank or malformed line gets into a file
    | Rebuild(order: seq<Date>, misses: Misses)

  datatype State = State(log: seq<Entry>, table: Table)

  function Do(s: State, op: Op): State {
    match op
    case Record(event, now, fault) =>
      State(if fault.AppendFails? then s.log else Appended(s.log, event, now),
            if fault.NoFault? then Ingest(s.table, event) else s.table)
    case Junk(date, bad) => s.(log := s.log + [Entry(date, if bad then Bad else Blank)])
    case Rebuild(order, misses) => s.(table := RebuiltBut(s.table, s.log, order, misses))
  }

  function After(ops: seq<Op>): State {
    if ops == [] then State([], map[]) else Do(After(ops[..|ops| - 1]), ops[|ops| - 1])
  }

  /** Nothing is in the table that was not logged. */
  ghost predicate OnlyLogged(s: State) {
    forall id :: id in s.table ==> LastOf(s.log, id).Some?
  }

  lemma LastOfAppended(log: seq<Entry>, e: Entry, id: EventId)
    ensures LastOf(log + [e], id) == if Is(e.line, id) then Some(e.line.event) else LastOf(log, id)
  {
    assert (log + [e])[..|log|] == log;
  }

  lemma DoKeepsLogged(s: State, op: Op)
    requires OnlyLogged(s)
    ensures OnlyLogged(Do(s, op))
  {
    var t := Do(s, op);
    forall id | id in t.table ensures LastOf(t.log, id).Some? {
      match op
      case Record(event, now, fault) => LastOfAppended(s.log, Entry(TimestampToDate(event.timestamp, now), Good(event)), id);
      case Junk(date, bad) => LastOfAppended(s.log, Entry(date, if bad then Bad else Blank), id);
      case Rebuild(order, misses) => MissesAreLocal(s.table, s.log, order, misses, id);
    }
  }

  lemma {:induction false} AfterOnlyLogged(ops: seq<Op>)
    ensures OnlyLogged(After(ops))
  {
    if ops != [] {
      AfterOnlyLogged(ops[..|ops| - 1]);
      DoKeepsLogged(After(ops[..|ops| - 1]), ops[|ops| - 1]);
    }
  }

  /** After any run, failed appends, ingests and partial rebuilds included, one whole rebuild in any
      directory order makes the table exactly the latest-wins map of the log. */
  lemma RebuildEqualsLog(ops: seq<Op>, s: State, order: seq<Date>)
    requires s == After(ops) && Consistent(s.log) && Listing(s.log, order)
    ensures LatestWins(Rebuilt(s.table, s.log, order), s.log)
    ensures CountIn(s.log, order) == GoodEntries(s.log)
  {
    AfterOnlyLogged(ops);
    CountIsOrderFree(s.log, order);
    forall id ensures Lookup(Rebuilt(s.table, s.log, order), id) == LastOf(s.log, id) {
      RebuildRestores(s.table, s.log, order, id);
    }
  }

  /** The last event of an id that a rebuild with these misses ingests. */
  function LastPassed(log: seq<Entry>, order: seq<Date>, misses: Misses, id: EventId): Option<LedgerEvent> {
    if order == [] then None
    else
      var d := order[|order| - 1];
      var last := LastIn(Passed(Lines(log, d), d, misses), id);
      if last.Some? then last else LastPassed(log, order[..|order| - 1], misses, id)
  }

  lemma {:induction false} RebuiltButLookup(t: Table, log: seq<Entry>, order: seq<Date>, misses: Misses, id: EventId)
    ensures Lookup(RebuiltBut(t, log, order, misses), id) ==
            if LastPassed(log, order, misses, id).Some? then LastPassed(log, order, misses, id) else Lookup(t, id)
  {
    if order != [] {
      var front, d := order[..|order| - 1], order[|order| - 1];
      RebuiltButLookup(t, log, front, misses, id);
      IngestLinesLookup(RebuiltBut(t, log, front, misses), Passed(Lines(log, d), d, misses), id);
    }
  }

  /** What this operation, coming after those, ingests last under the id. */
  function Ingests(s: State, op: Op, id: EventId): Option<LedgerEvent> {
    match op
    case Record(event, _, fault) => if fault.NoFault? && event.eventId == id then Some(event) else None
    case Junk(_, _) => None
    case Rebuild(order, misses) => LastPassed(s.log, order, misses, id)
  }

  /** What was last ingested under an id, by a record or a rebuild. */
  function LastIngested(ops: seq<Op>, id: EventId): Option<LedgerEvent> {
    if ops == [] then None
    else
      var front := ops[..|ops| - 1];
      var here := Ingests(After(front), ops[|ops| - 1], id);
      if here.Some? then here else LastIngested(front, id)
  }

  /** What was last logged under an id. */
  function LastLogged(ops: seq<Op>, id: EventId): Option<LedgerEvent> {
    if ops == [] then None
    else
      var op := ops[|ops| - 1];
      if op.Record? && !op.fault.AppendFails? && op.event.eventId == id then Some(op.event)
      else LastLogged(ops[..|ops| - 1], id)
  }

  lemma StepIngests(s: State, op: Op, id: EventId)
    ensures Lookup(Do(s, op).table, id) == if Ingests(s, op, id).Some? then Ingests(s, op, id) else Lookup(s.table, id)
  {
    if op.Rebuild? { RebuiltButLookup(s.table, s.log, op.order, op.misses, id); }
  }

  lemma {:induction false} TableIsLastIngested(ops: seq<Op>, id: EventId)
    ensures Lookup(After(ops).table, id) == LastIngested(ops, id)
  {
    if ops != [] {
      TableIsLastIngested(ops[..|ops| - 1], id);
      StepIngests(After(ops[..|ops| - 1]), ops[|ops| - 1], id);
    }
  }

  lemma {:induction false} LogIsLastLogged(ops: seq<Op>, id: EventId)
    ensures LastOf(After(ops).log, id) == LastLogged(ops, id)
  {
    if ops != [] {
      var s, op := After(ops[..|ops| - 1]), ops[|ops| - 1];
      LogIsLastLogged(ops[..|ops| - 1], id);
      match op
      case Record(event, now, _) => LastOfAppended(s.log, Entry(TimestampToDate(event.timestamp, now), Good(event)), id);
      case Junk(date, bad) => LastOfAppended(s.log, Entry(date, if bad then Bad else Blank), id);
      case Rebuild(_, _) =>
    }
  }

  predicate UpToDate(ops: seq<Op>, id: EventId) { LastIngested(ops, id) == LastLogged(ops, id) }

  lemma LookupIsLatest(ops: seq<Op>, id: EventId)
    ensures Lookup(After(ops).table, id) == LastOf(After(ops).log, id) <==> UpToDate(ops, id)
  {
    TableIsLastIngested(ops, id);
    LogIsLastLogged(ops, id);
  }

  /** After any run, failed appends, ingests and partial rebuilds included, the table is the
      latest-wins map of the log exactly when for each id the event last logged is the one last
      ingested, by its record or by a rebuild since, with nothing else ingested after it. */
  lemma LatestIffUpToDate(ops: seq<Op>)
    ensures LatestWins(After(ops).table, After(ops).log) <==> forall id :: UpToDate(ops, id)
  {
    forall id ensures Lookup(After(ops).table, id) == LastOf(After(ops).log, id) <==> UpToDate(ops, id) {
      LookupIsLatest(ops, id);
    }
  }

  predicate Unfailing(op: Op) {
    match op
    case Record(_, _, fault) => !fault.IngestFails?
    case Junk(_, _) => true
    case Rebuild(_, _) => false
  }

  lemma {:induction false} UnfailingIngests(ops: seq<Op>, id: EventId)
    requires forall i :: 0 <= i < |ops| ==> Unfailing(ops[i])
    ensures UpToDate(ops, id)
  {
    if ops != [] {
      assert Unfailing(ops[|ops| - 1]);
      UnfailingIngests(ops[..|ops| - 1], id);
    }
  }

  /** As long as no ingest fails and nothing is rebuilt, the incremental table is the latest-wins
      map of the log, on any dates. */
  lemma IncrementalIsLatest(ops: seq<Op>)
    requires forall i :: 0 <= i < |ops| ==> Unfailing(ops[i])
    ensures LatestWins(After(ops).table, After(ops).log)
  {
    forall id ensures UpToDate(ops, id) { UnfailingIngests(ops, id); }
    LatestIffUpToDate(ops);
  }

  /** The days before the first of January of a year, counted from the epoch. */
  function DaysBefore(year: int): int {
    365 * (year - 1970) + (year - 1) / 4 - (year - 1) / 100 + (year - 1) / 400 - 477
  }

  /** The date is the UTC day of the timestamp if its year is one chrono can represent, -262143 to
      262142, and today otherwise. */
  lemma DateIsDay(timestamp: int, now: int)
    ensures var t := if DaysBefore(-262143) * 86400 <= timestamp < DaysBefore(262143) * 86400 then timestamp else now;
            TimestampToDate(timestamp, now) * 86400 <= t < (TimestampToDate(timestamp, now) + 1) * 86400
  {
  }

  /** Events recorded under one id have representable timestamps on one day. */
  predicate SameDay(a: Op, b: Op) {
    a.Record? && b.Record? && a.event.eventId == b.event.eventId ==>
      && MIN_TIMESTAMP <= a.event.timestamp <= MAX_TIMESTAMP && MIN_TIMESTAMP <= b.event.timestamp <= MAX_TIMESTAMP
      && a.event.timestamp / SECONDS_PER_DAY == b.event.timestamp / SECONDS_PER_DAY
  }

  lemma {:induction false} LineRecorded(ops: seq<Op>, i: nat) returns (k: nat)
    requires i < |After(ops).log| && After(ops).log[i].line.Good?
    ensures k < |ops| && ops[k].Record? && ops[k].event == After(ops).log[i].line.event
    ensures After(ops).log[i].date == TimestampToDate(ops[k].event.timestamp, ops[k].now)
  {
    var front := ops[..|ops| - 1];
    if i < |After(front).log| {
      k := LineRecorded(front, i);
    } else {
      k := |ops| - 1;
    }
  }

  /** If each id keeps to one day, which a caller can see from its timestamps, every rebuild after
      any run gives the latest-wins map. */
  lemma SameDayRebuilds(ops: seq<Op>, s: State, order: seq<Date>)
    requires s == After(ops) && Listing(s.log, order)
    requires forall i, j :: 0 <= i < |ops| && 0 <= j < |ops| ==> SameDay(ops[i], ops[j])
    ensures LatestWins(Rebuilt(s.table, s.log, order), s.log)
    ensures Rebuilt(Rebuilt(s.table, s.log, order), s.log, order) == Rebuilt(s.table, s.log, order)
  {
    forall i, j | 0 <= i < |s.log| && 0 <= j < |s.log| && SameId(s.log[i].line, s.log[j].line)
      ensures s.log[i].date == s.log[j].date
    {
      var p := LineRecorded(ops, i);
      var q := LineRecorded(ops, j);
      assert SameDay(ops[p], ops[q]);
    }
    OneDayIsConsistent(s.log);
    RebuildEqualsLog(ops, s, order);
    RebuildAgain(s.table, s.log, order, order);
  }

  lemma TwoDatesLog(older: LedgerEvent, newer: LedgerEvent) returns (s: State)
    requires older.eventId == newer.eventId && older.timestamp == SECONDS_PER_DAY && newer.timestamp == 0
    ensures s == After([Record(older, 0, NoFault), Record(newer, 0, NoFault)])
    ensures s.log == [Entry(1, Good(older)), Entry(0, Good(newer))] && s.table == map[older.eventId := newer]
  {
    var first, second := Record(older, 0, NoFault), Record(newer, 0, NoFault);
    AfterAppended([], first);
    AfterAppended([first], second);
    assert [] + [first] == [first] && [first] + [second] == [first, second];
    s := After([first, second]);
  }

  lemma TwoDatesFiles(e: Line, f: Line, log: seq<Entry>)
    requires log == [Entry(1, e), Entry(0, f)]
    ensures Lines(log, 0) == [f] && Lines(log, 1) == [e] && Listing(log, [0, 1])
  {
    assert log == [Entry(1, e)] + [Entry(0, f)] && [] + [Entry(1, e)] == [Entry(1, e)];
    LinesOfAppended([], Entry(1, e));
    LinesOfAppended([Entry(1, e)], Entry(0, f));
  }

  /** One id under two dates: the rebuild that reads the older event's file last brings the
      replaced event back. */
  lemma TwoDatesDiffer(older: LedgerEvent, newer: LedgerEvent) returns (s: State)
    requires older.eventId == newer.eventId && older.timestamp == SECONDS_PER_DAY && newer.timestamp == 0
    ensures s == After([Record(older, 0, NoFault), Record(newer, 0, NoFault)])
    ensures s.table == map[older.eventId := newer]
    ensures Listing(s.log, [0, 1]) && Rebuilt(s.table, s.log, [0, 1]) == map[older.eventId := older]
  {
    s := TwoDatesLog(older, newer);
    TwoDatesFiles(Good(older), Good(newer), s.log);
    RebuiltTwo(s.table, s.log, 0, 1);
    IngestOne(s.table, newer);
    IngestOne(Ingest(s.table, newer), older);
  }

  lemma RebuiltTwo(t: Table, log: seq<Entry>, a: Date, b: Date)
    ensures Rebuilt(t, log, [a, b]) == IngestLines(IngestLines(t, Lines(log, a)), Lines(log, b))
  {
    assert [a, b][..1] == [a];
    assert [a][..0] == [];
    assert Rebuilt(t, log, [a]) == IngestLines(t, Lines(log, a));
  }

  lemma IngestOne(t: Table, e: LedgerEvent)
    ensures IngestLines(t, [Good(e)]) == Ingest(t, e)
  {
    assert [Good(e)][..0] == [];
  }

  lemma AfterAppended(ops: seq<Op>, op: Op)
    ensures After(ops + [op]) == Do(After(ops), op)
  {
    assert (ops + [op])[..|ops|] == ops;
  }
}
