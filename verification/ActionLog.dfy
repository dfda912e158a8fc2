/** The action log of src-tauri/src/logging.rs: a JSONL file, the reader of the whole file, and the
    reader of its tail. */
module ActionLog {
  import opened Options
  import opened Sequences
  import opened Text
  import opened Utf8
  import opened TextLines
  import opened Sorting

  datatype ActionRecord = ActionRecord(timestamp: int, fields: string)

  /** How records are written, and which bracketed JSON texts read as a record. */
  datatype Format = Format(read: string -> Option<ActionRecord>, serialize: ActionRecord -> seq<byte>)

  datatype Answer = Records(records: seq<ActionRecord>) | Unreadable

  predicate NewestFirst(a: ActionRecord, b: ActionRecord) { a.timestamp >= b.timestamp }

  function Latest(records: seq<ActionRecord>, limit: nat): seq<ActionRecord> {
    Cut(Sort(records, NewestFirst), limit)
  }

  // ------------------------------------------------------------------ parsing one line

  /** White space that JSON allows around a value (section 2 of RFC 8259). */
  predicate IsJsonWhite(c: char) { c == ' ' || c == '\t' || c == '\n' || c == '\r' }

  /** A record is written as an object and may also be read from an array. */
  predicate Bracketed(s: string) {
    s != "" && (s[0] == '{' || s[0] == '[') && (s[|s| - 1] == '}' || s[|s| - 1] == ']')
  }

  /** The JSON parser skips JSON white space around the value and nothing else. */
  function Parse(f: Format, text: string): Option<ActionRecord> {
    var value := TrimBy(IsJsonWhite, text);
    if Bracketed(value) then f.read(value) else None
  }

  function One(r: Option<ActionRecord>): seq<ActionRecord> {
    if r.Some? then [r.value] else []
  }

  /** The full reader skips blank lines and parses a line as it stands. */
  function FromLine(f: Format, text: string): seq<ActionRecord> {
    if IsBlank(text) then [] else One(Parse(f, text))
  }

  /** The tail reader parses the trimmed line. */
  function FromTrimmed(f: Format, text: string): seq<ActionRecord> {
    if Trim(text) == "" then [] else One(Parse(f, Trim(text)))
  }

  // ------------------------------------------------------------------ what the readers parse

  function TextOf(line: seq<byte>): string {
    if ValidUtf8(line) then Decode(line) else ""
  }

  function FullLine(f: Format): seq<byte> -> seq<ActionRecord> {
    line => FromLine(f, TextOf(line))
  }

  function TailLine(f: Format): seq<byte> -> seq<ActionRecord> {
    line => FromTrimmed(f, TextOf(line))
  }

  function Parsed(f: Format, lines: seq<seq<byte>>): seq<ActionRecord> {
    Gather(FullLine(f), lines)
  }

  function ParsedTrimmed(f: Format, lines: seq<seq<byte>>): seq<ActionRecord> {
    Gather(TailLine(f), lines)
  }

  predicate AllUtf8(lines: seq<seq<byte>>) {
    forall i :: 0 <= i < |lines| ==> ValidUtf8(lines[i])
  }

  function Recent(f: Format, file: seq<byte>, limit: nat): Answer {
    if !AllUtf8(Lines(file)) then Unreadable else Records(Latest(Parsed(f, Lines(file)), limit))
  }

  /** Where the tail starts: at least one byte is read, at most the whole file. */
  function TailStart(file: seq<byte>, maxTailBytes: nat): (k: nat)
    ensures k <= |file|
  {
    var wanted := if maxTailBytes > 1 then maxTailBytes else 1;
    if wanted >= |file| then 0 else |file| - wanted
  }

  /** The lines the tail reader looks at: a cut file loses its first, possibly partial, line. */
  function TailLines(file: seq<byte>, maxTailBytes: nat): seq<seq<byte>> {
    var k := TailStart(file, maxTailBytes);
    WithoutFirst(Lines(file[k..]), k > 0)
  }

  function WithoutFirst<T>(lines: seq<T>, cut: bool): seq<T> {
    if cut && lines != [] then lines[1..] else lines
  }

  function RecentTail(f: Format, file: seq<byte>, limit: nat, maxTailBytes: nat): Answer {
    if !ValidUtf8(file[TailStart(file, maxTailBytes)..]) then Unreadable
    else Records(Latest(ParsedTrimmed(f, TailLines(file, maxTailBytes)), limit))
  }

  // ------------------------------------------------------------------ the logger

  class ActionLogger {
    const f: Format
    var file: seq<byte>

    constructor (f: Format)
      ensures this.f == f && file == []
    {
      this.f := f;
      file := [];
    }

    method Log(record: ActionRecord)
      modifies this
      ensures file == old(file) + f.serialize(record) + [NEWLINE]
    {
      file := file + f.serialize(record) + [NEWLINE];
    }

    /** All lines are read; the first unreadable one ends the call. */
    method GetRecent(limit: nat) returns (r: Answer)
      ensures r == Recent(f, file, limit)
    {
      var lines := Lines(file);
      var readable, records := Collect(FullLine(f), ValidUtf8, lines);
      assert readable == AllUtf8(lines);
      if !readable { return Unreadable; }
      records := Newest(records, limit);
      r := Records(records);
    }

    /** The last bytes are read as one text; of a cut file the first line is skipped. */
    method GetRecentTail(limit: nat, maxTailBytes: nat) returns (r: Answer)
      ensures r == RecentTail(f, file, limit, maxTailBytes)
    {
      var wanted := if maxTailBytes > 1 then maxTailBytes else 1;
      var readLen := if wanted < |file| then wanted else |file|;
      var start := |file| - readLen;
      assert start == TailStart(file, maxTailBytes);
      var buffer := file[start..];
      if !ValidUtf8(buffer) { return Unreadable; }
      var lines := WithoutFirst(Lines(buffer), start > 0);
      var _, records := Collect(TailLine(f), line => true, lines);
      records := Newest(records, limit);
      r := Records(records);
    }

    /** Sort by timestamp, newest first, and truncate. */
    method Newest(records: seq<ActionRecord>, limit: nat) returns (r: seq<ActionRecord>)
      ensures r == Latest(records, limit)
    {
      r := Sort(records, NewestFirst);
      if |r| > limit { r := r[..limit]; }
    }
  }
}
