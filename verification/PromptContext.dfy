/** The assembly of the prompt context under its character budget (src-tauri/src/prompt_context.rs).
    The protected lines and the compacted records are given as texts. */
module PromptContext {
  import opened Options

  const MAX_CONTEXT_CHARS := 2400
  const MAX_INCLUDED_RECORDS := 6
  const TAIL_TITLE := "action_log_tail:"
  const TAIL_HEADER := "action_log_tail:\n"
  const DOTS := "..."

  /** Newlines turned into spaces. */
  function Flat(s: string): (r: string)
    ensures |r| == |s|
    ensures forall i :: 0 <= i < |s| ==> r[i] == if s[i] == '\n' then ' ' else s[i]
  {
    seq(|s|, i requires 0 <= i < |s| => if s[i] == '\n' then ' ' else s[i])
  }

  function Clip(value: string, max: nat): string {
    Flat(if |value| > max then value[..max] + DOTS else value)
  }

  function Join(lines: seq<string>): string {
    if lines == [] then "" else if |lines| == 1 then lines[0] else Join(lines[..|lines| - 1]) + "\n" + lines[|lines| - 1]
  }

  /** The title and the first six records, one per line. */
  function TailLines(records: seq<string>): seq<string> {
    var n := if |records| < MAX_INCLUDED_RECORDS then |records| else MAX_INCLUDED_RECORDS;
    [TAIL_TITLE] + seq(n, i requires 0 <= i < n => "- " + records[i])
  }

  lemma {:induction false} JoinStarts(lines: seq<string>)
    requires |lines| >= 2
    ensures lines[0] + "\n" <= Join(lines)
  {
    if |lines| > 2 {
      JoinStarts(lines[..|lines| - 1]);
    } else {
      assert lines[..1] == [lines[0]];
    }
  }

  function FormatTail(records: seq<string>, max: nat): Option<string> {
    if records == [] || max == 0 then None
    else
      var tail := Join(TailLines(records));
      if |tail| <= max then Some(tail)
      else if max <= |TAIL_HEADER| then None
      else
        JoinStarts(TailLines(records));
        Some(TAIL_HEADER + Clip(tail[|TAIL_HEADER|..], max - |TAIL_HEADER|))
  }

  function Remaining(context: string): nat {
    if |context| + 1 <= MAX_CONTEXT_CHARS then MAX_CONTEXT_CHARS - |context| - 1 else 0
  }

  function Assembled(protectedPart: string, records: seq<string>): string {
    var context := Clip(protectedPart, MAX_CONTEXT_CHARS);
    match FormatTail(records, Remaining(context))
    case None => Clip(context, MAX_CONTEXT_CHARS)
    case Some(tail) => Clip((if context == "" then "" else context + "\n") + tail, MAX_CONTEXT_CHARS)
  }

  // ------------------------------------------------------------------ methods

  method FormatActionLogTail(records: seq<string>, max: nat) returns (r: Option<string>)
    ensures r == FormatTail(records, max)
  {
    if records == [] || max == 0 { return None; }
    var lines := [TAIL_TITLE];
    var i := 0;
    while i < |records| && i < MAX_INCLUDED_RECORDS
      invariant i <= |records| && i <= MAX_INCLUDED_RECORDS && |lines| == i + 1
      invariant lines[0] == TAIL_TITLE
      invariant forall k :: 0 <= k < i ==> lines[k + 1] == "- " + records[k]
    {
      lines := lines + ["- " + records[i]];
      i := i + 1;
    }
    assert lines == TailLines(records);
    var tail := Join(lines);
    if |tail| <= max { return Some(tail); }
    if max <= |TAIL_HEADER| { return None; }
    JoinStarts(lines);
    r := Some(TAIL_HEADER + Clip(tail[|TAIL_HEADER|..], max - |TAIL_HEADER|));
  }

  method BuildPopupContext(protectedLines: seq<string>, records: seq<string>) returns (r: string)
    ensures r == Assembled(Join(protectedLines), records)
  {
    var context := Clip(Join(protectedLines), MAX_CONTEXT_CHARS);
    var remainingChars := if |context| + 1 <= MAX_CONTEXT_CHARS then MAX_CONTEXT_CHARS - |context| - 1 else 0;
    var tail := FormatActionLogTail(records, remainingChars);
    if tail.Some? {
      if context != "" { context := context + "\n"; }
      context := context + tail.value;
    }
    r := Clip(context, MAX_CONTEXT_CHARS);
  }

  // ------------------------------------------------------------------ what the budget guarantees

  lemma FlatTwice(s: string)
    ensures Flat(Flat(s)) == Flat(s)
  {
  }

  lemma FlatDots(s: string)
    ensures Flat(s + DOTS) == Flat(s) + DOTS
  {
  }

  /** Clipping what was clipped changes nothing, even though the dots do not count. */
  lemma ClipTwice(value: string, max: nat)
    ensures Clip(Clip(value, max), max) == Clip(value, max)
    ensures |Clip(value, max)| <= max + |DOTS|
  {
    if |value| > max {
      var head := Flat(value[..max]);
      FlatDots(value[..max]);
      assert (head + DOTS)[..max] == head;
      FlatDots(head);
      FlatTwice(value[..max]);
    } else {
      FlatTwice(value);
    }
  }

  /** The whole context never exceeds its budget by more than the dots. */
  lemma ContextFits(protectedPart: string, records: seq<string>)
    ensures |Assembled(protectedPart, records)| <= MAX_CONTEXT_CHARS + 3
  {
  }

  lemma ClipStarts(head: string, more: string, max: nat)
    requires |head| <= max
    ensures Flat(head) <= Clip(head + more, max)
  {
    var value := head + more;
    if |value| > max {
      assert value[..max] == head + more[..max - |head|];
      assert (value[..max] + DOTS)[..|head|] == head;
    }
  }

  /** However large the action log, a protected part within the budget comes through whole. */
  lemma ProtectedSurvives(protectedPart: string, records: seq<string>)
    requires |protectedPart| <= MAX_CONTEXT_CHARS
    ensures Flat(protectedPart) <= Assembled(protectedPart, records)
  {
    var context := Flat(protectedPart);
    FlatTwice(protectedPart);
    ClipStarts(context, "", MAX_CONTEXT_CHARS);
    assert context + "" == context;
    match FormatTail(records, Remaining(context))
    case None =>
    case Some(tail) =>
      ClipStarts(context, "\n" + tail, MAX_CONTEXT_CHARS);
      assert context + ("\n" + tail) == context + "\n" + tail;
  }

  predicate TailFits(records: seq<string>, left: nat) {
    records != [] && left > 0 && (left > |TAIL_HEADER| || |Join(TailLines(records))| <= left)
  }

  lemma TailBegins(records: seq<string>, left: nat)
    ensures FormatTail(records, left).Some? <==> TailFits(records, left)
    ensures TailFits(records, left) ==> TAIL_HEADER <= FormatTail(records, left).value && left >= |TAIL_HEADER|
  {
    if records != [] { JoinStarts(TailLines(records)); }
  }

  /** A text that begins with `header` begins with it after the context, too. */
  lemma ShownAfter(context: string, header: string, tail: string, max: nat)
    requires header <= tail && |context| + 1 + |header| <= max
    ensures Flat(context) + " " + Flat(header) <= Clip(context + "\n" + tail, max)
  {
    var head := context + "\n" + header;
    var rest := tail[|header|..];
    assert context + "\n" + tail == head + rest;
    ClipStarts(head, rest, max);
    assert Flat(head) == Flat(context) + " " + Flat(header);
  }

  /** The log's tail is shown, right after the protected part, exactly when there is a record and
      either all of the tail or more than its header fits into what is left. */
  lemma TailShown(protectedPart: string, records: seq<string>)
    requires 0 < |protectedPart| <= MAX_CONTEXT_CHARS
    ensures var shown := TailFits(records, Remaining(Flat(protectedPart)));
            && (shown ==> Flat(protectedPart) + " " + Flat(TAIL_HEADER) <= Assembled(protectedPart, records))
            && (!shown ==> Assembled(protectedPart, records) == Flat(protectedPart))
  {
    var context := Flat(protectedPart);
    FlatTwice(protectedPart);
    var left := Remaining(context);
    TailBegins(records, left);
    if TailFits(records, left) {
      ShownAfter(context, TAIL_HEADER, FormatTail(records, left).value, MAX_CONTEXT_CHARS);
    }
  }

  /** A log small enough to fit is shown in full: nothing is clipped. */
  lemma WholeTailShown(protectedPart: string, records: seq<string>)
    requires protectedPart != "" && records != []
    requires |protectedPart| + 1 + |Join(TailLines(records))| <= MAX_CONTEXT_CHARS
    ensures Assembled(protectedPart, records) == Flat(protectedPart) + " " + Flat(Join(TailLines(records)))
  {
    var tail := Join(TailLines(records));
    JoinStarts(TailLines(records));
    var context := Flat(protectedPart);
    FlatTwice(protectedPart);
    assert Flat(context + "\n" + tail) == context + " " + Flat(tail);
  }
}
