/** What the prompt context is, character by character, for every protected part and every list of
    records. */
module PromptText {
  import opened Options
  import opened PromptContext

  /** The records as they are listed, each on a line of its own behind a dash. */
  function Bullets(records: seq<string>): string {
    if records == [] then "" else "\n- " + records[0] + Bullets(records[1..])
  }

  lemma {:induction false} BulletsMore(records: seq<string>)
    requires records != []
    ensures Bullets(records) == Bullets(records[..|records| - 1]) + "\n- " + records[|records| - 1]
  {
    if |records| > 1 {
      BulletsMore(records[1..]);
      assert records[1..][..|records| - 2] == records[..|records| - 1][1..];
    }
  }

  lemma JoinMore(lines: seq<string>, line: string)
    requires lines != []
    ensures Join(lines + [line]) == Join(lines) + "\n" + line
  {
    assert (lines + [line])[..|lines|] == lines;
  }

  lemma {:induction false} JoinIsBullets(records: seq<string>)
    requires |records| <= 6
    ensures Join(TailLines(records)) == "action_log_tail:" + Bullets(records)
  {
    if records == [] {
      assert TailLines(records) == [TAIL_TITLE];
    } else {
      var front, last := records[..|records| - 1], records[|records| - 1];
      JoinIsBullets(front);
      assert TailLines(records) == TailLines(front) + ["- " + last];
      JoinMore(TailLines(front), "- " + last);
      BulletsMore(records);
    }
  }

  /** The log as it would be shown in full: a title, then the first six records. */
  function TailText(records: seq<string>): string {
    "action_log_tail:" + Bullets(if |records| > 6 then records[..6] else records)
  }

  lemma TailIsTitleAndBullets(records: seq<string>)
    ensures Join(TailLines(records)) == TailText(records)
  {
    if |records| > 6 {
      assert TailLines(records) == TailLines(records[..6]);
      JoinIsBullets(records[..6]);
    } else {
      JoinIsBullets(records);
    }
  }

  /** What the formatter makes of the records: nothing without any or without room for more than the
      header, else the whole tail, or as much as there is room for and three dots. */
  lemma TailIs(records: seq<string>, max: nat)
    ensures records == [] || max == 0 ==> FormatTail(records, max).None?
    ensures records != [] && 0 < max ==>
              var text := TailText(records);
              && (|text| <= max ==> FormatTail(records, max) == Some(text))
              && (|text| > max && max <= 17 ==> FormatTail(records, max).None?)
              && (|text| > max > 17 ==> FormatTail(records, max) == Some("action_log_tail:\n" + Flat(text[17..max]) + "..."))
  {
    TailIsTitleAndBullets(records);
    var text := TailText(records);
    if records != [] && |text| > max > 17 {
      assert text[17..][..max - 17] == text[17..max];
      FlatDots(text[17..max]);
      assert TAIL_HEADER + (Flat(text[17..max]) + "...") == "action_log_tail:\n" + Flat(text[17..max]) + "...";
    }
  }

  lemma ClipLong(head: string, more: string, max: nat)
    requires |head| == max && more != ""
    ensures Clip(head + more, max) == Flat(head) + "..."
  {
    assert (head + more)[..max] == head;
    FlatDots(head);
  }

  lemma FlatJoined(a: string, b: string)
    ensures Flat(a + "\n" + b) == Flat(a) + " " + Flat(b)
  {
  }

  /** A protected part that takes up the whole budget leaves room for nothing else. */
  lemma LongProtected(protectedPart: string, records: seq<string>)
    requires |protectedPart| > 2400
    ensures Assembled(protectedPart, records) == Flat(protectedPart[..2400]) + "..."
  {
    ClipTwice(protectedPart, 2400);
    TailIs(records, 0);
    FlatDots(protectedPart[..2400]);
  }

  lemma ClippedBehind(context: string, text: string, left: nat)
    requires |context| + 1 + left == 2400 && 17 < left < |text| && text[..17] == "action_log_tail:\n"
    ensures var tail := "action_log_tail:\n" + Flat(text[17..left]) + "...";
            Clip(context + "\n" + tail, 2400) == Flat(context) + " " + Flat(text[..left]) + "..."
  {
    var shown := "action_log_tail:\n" + Flat(text[17..left]);
    assert context + "\n" + (shown + "...") == (context + "\n" + shown) + "...";
    ClipLong(context + "\n" + shown, "...", 2400);
    FlatJoined(context, shown);
    FlatClipped(text, left);
  }

  /** The whole context for a protected part within the budget: the part itself, newlines as spaces, and
      behind it, if anything of it is shown, the log, cut at the 2400th character of the context. */
  lemma ContextIs(protectedPart: string, records: seq<string>)
    requires 0 < |protectedPart| <= 2400
    ensures var part, text := Flat(protectedPart), TailText(records);
            var left := 2400 - |protectedPart| - 1;
            Assembled(protectedPart, records) ==
            if records == [] || (left < |text| && left <= 17) then part
            else if |text| <= left then part + " " + Flat(text)
            else part + " " + Flat(text[..left]) + "..."
  {
    var part, text := Flat(protectedPart), TailText(records);
    var left := 2400 - |protectedPart| - 1;
    FlatTwice(protectedPart);
    TailIs(records, if left < 0 then 0 else left);
    if records != [] && 0 < left {
      if |text| <= left {
        FlatJoined(part, text);
      } else if left > 17 {
        HeaderIs(records);
        ClippedBehind(part, text, left);
      }
    }
  }

  lemma HeaderIs(records: seq<string>)
    requires records != []
    ensures |TailText(records)| >= 17 && TailText(records)[..17] == "action_log_tail:\n"
  {
    TailIsTitleAndBullets(records);
    JoinStarts(TailLines(records));
    assert TAIL_HEADER <= TailText(records);
  }

  lemma ThreeDots(s: string)
    ensures s + "..." == (s + ".") + ".."
  {
  }

  lemma FourDots(s: string)
    ensures (s + ".") + "..." == s + "...."
  {
  }

  lemma FlatDot(s: string)
    ensures Flat(s + ".") == Flat(s) + "."
  {
  }

  lemma DotLeft(shown: string)
    requires |shown| == 2399
    ensures Clip(shown + "...", 2400) == Flat(shown) + "...."
  {
    ThreeDots(shown);
    ClipLong(shown + ".", "..", 2400);
    FlatDot(shown);
    FourDots(Flat(shown));
  }

  lemma FlatClipped(text: string, left: nat)
    requires 17 < left <= |text| && text[..17] == "action_log_tail:\n"
    ensures Flat("action_log_tail:\n" + Flat(text[17..left])) == Flat(text[..left])
  {
    FlatTwice(text[17..left]);
    assert text[..left] == text[..17] + text[17..left];
  }

  lemma LogAlone(records: seq<string>)
    ensures Assembled("", records) ==
            match FormatTail(records, 2399) case None => "" case Some(tail) => Clip(tail, 2400)
  {
    NothingClipped();
    match FormatTail(records, 2399)
    case None =>
    case Some(tail) => assert "" + tail == tail;
  }

  lemma NothingClipped()
    ensures Clip("", 2400) == ""
  {
  }

  lemma LongLogAlone(records: seq<string>)
    requires records != [] && |TailText(records)| > 2399
    ensures FormatTail(records, 2399).Some?
    ensures Clip(FormatTail(records, 2399).value, 2400) == Flat(TailText(records)[..2399]) + "...."
  {
    var text := TailText(records);
    TailIs(records, 2399);
    HeaderIs(records);
    DotLeft("action_log_tail:\n" + Flat(text[17..2399]));
    FlatClipped(text, 2399);
  }

  /** Without a protected part the log begins the context; when it is too long, one of its own three dots
      is left before the context's. */
  lemma NoProtected(records: seq<string>)
    ensures var text := TailText(records);
            Assembled("", records) ==
            if records == [] then ""
            else if |text| <= 2399 then Flat(text)
            else Flat(text[..2399]) + "...."
  {
    LogAlone(records);
    TailIs(records, 2399);
    if records != [] && |TailText(records)| > 2399 { LongLogAlone(records); }
  }

  /** The protected lines are joined by newlines. */
  lemma JoinIs(lines: seq<string>, line: string)
    ensures Join([]) == "" && Join([line]) == line
    ensures lines != [] ==> Join(lines + [line]) == Join(lines) + "\n" + line
  {
    if lines != [] { JoinMore(lines, line); }
  }
}
