/** The tail reader of the action log refines the full reader: what it parses is a suffix, and
    when that suffix is long enough the answers agree. */
module TailReader {
  import opened Options
  import opened Sequences
  import opened Text
  import opened Utf8
  import opened TextLines
  import opened Sorting
  import opened ActionLog

  // ------------------------------------------------------------------ the lines are a suffix

  /** The tail reader sees whole lines of the file, all of them from some line on. */
  lemma TailIsSuffix(file: seq<byte>, maxTailBytes: nat) returns (before: seq<seq<byte>>)
    ensures Lines(file) == before + TailLines(file, maxTailBytes)
  {
    var k := TailStart(file, maxTailBytes);
    var buffer := file[k..];
    if k == 0 {
      before := [];
      assert file[0..] == file;
    } else {
      var p := FirstNewline(buffer);
      if p == |buffer| {
        before := Lines(file);
      } else {
        FirstNewlineIs(buffer);
        var head := file[..k + p + 1];
        before := Lines(head);
        assert file == head + buffer[p + 1..];
        assert head[|head| - 1] == buffer[p];
        LinesAppend(head, buffer[p + 1..]);
      }
    }
  }

  /** Where the lines used begin: behind the first newline at or after the cut. */
  lemma BehindTheCut(file: seq<byte>, k: nat, q: nat)
    requires k < |file| && q == EndOfLine(file, k) + 1
    ensures forall p :: k < p && BeginsLine(file, p) ==> q <= p
    ensures q < |file| ==> BeginsLine(file, q)
  {
    EndOfLineIs(file, k);
    forall p | k < p && BeginsLine(file, p) ensures q <= p { assert file[p - 1] == NEWLINE; }
  }

  /** The lines of a text from one of its line starts on. */
  lemma LinesFromStart(file: seq<byte>, q: nat) returns (n: nat)
    requires q < |file| && BeginsLine(file, q)
    ensures n < |Starts(file)| == |Lines(file)| && Starts(file)[n] == q && Lines(file[q..]) == Lines(file)[n..]
  {
    StartsAre(file);
    assert file[0..] == file;
    n :| 0 <= n < |Starts(file)| && Starts(file)[n] == q;
    LinesFrom(file, 0, n);
  }

  lemma CutBuffer(file: seq<byte>, k: nat)
    requires 0 < k < |file|
    ensures var q := EndOfLine(file, k) + 1;
            WithoutFirst(Lines(file[k..]), true) == if q >= |file| then [] else Lines(file[q..])
  {
    var q := EndOfLine(file, k) + 1;
    if q <= |file| {
      LinesPast(file, k);
      if q == |file| { assert file[q..] == []; }
    }
  }

  /** From the `n`-th on, the lines begin after `k`. */
  predicate After(file: seq<byte>, n: nat, k: nat) {
    forall i :: 0 <= i < |Starts(file)| ==> (n <= i <==> Starts(file)[i] > k)
  }

  lemma BehindIsAfter(file: seq<byte>, k: nat, q: nat, n: nat)
    requires k < |file| && q == EndOfLine(file, k) + 1
    requires n <= |Starts(file)| && if q < |file| then n < |Starts(file)| && Starts(file)[n] == q else n == |Starts(file)|
    ensures After(file, n, k)
  {
    StartsAre(file);
    BehindTheCut(file, k, q);
    forall i | 0 <= i < |Starts(file)| ensures n <= i <==> Starts(file)[i] > k {
      assert Starts(file)[i] in Starts(file);
    }
  }

  lemma UsedOfCut(file: seq<byte>, k: nat) returns (n: nat)
    requires 0 < k < |file|
    ensures |Starts(file)| == |Lines(file)| && n <= |Lines(file)|
    ensures WithoutFirst(Lines(file[k..]), true) == Lines(file)[n..] && After(file, n, k)
  {
    var q := EndOfLine(file, k) + 1;
    StartsAre(file);
    CutBuffer(file, k);
    BehindTheCut(file, k, q);
    if q < |file| {
      n := LinesFromStart(file, q);
    } else {
      n := |Starts(file)|;
    }
    BehindIsAfter(file, k, q, n);
  }

  /** A line is used exactly when it begins after the cut, which lies `maxTailBytes` bytes before the
      end of the file, one at least; of a file that is no longer than that all lines are used. */
  lemma UsedLines(file: seq<byte>, maxTailBytes: nat) returns (n: nat)
    ensures |Starts(file)| == |Lines(file)| && n <= |Lines(file)| && TailLines(file, maxTailBytes) == Lines(file)[n..]
    ensures var wanted := if maxTailBytes == 0 then 1 else maxTailBytes;
            if |file| <= wanted then n == 0 else After(file, n, |file| - wanted)
  {
    var wanted := if maxTailBytes == 0 then 1 else maxTailBytes;
    if |file| <= wanted {
      n := 0;
      StartsAre(file);
      assert file[0..] == file;
    } else {
      n := UsedOfCut(file, |file| - wanted);
    }
  }

  /** A readable file has a readable tail exactly when the cut falls between two characters. */
  lemma TailReadable(f: Format, file: seq<byte>, limit: nat, maxTailBytes: nat)
    requires ValidUtf8(file)
    ensures RecentTail(f, file, limit, maxTailBytes).Records? <==> IsCharBoundary(file, TailStart(file, maxTailBytes))
  {
    var k := TailStart(file, maxTailBytes);
    BoundaryIsCut(file, k);
    if k < |file| && Continuation(file[k]) {
      assert file[k..][0] == file[k];
    }
  }

  /** The lines of a readable text are readable, so the tail reader never drops one as unreadable. */
  lemma {:induction false} LinesReadable(t: seq<byte>)
    requires ValidUtf8(t)
    ensures AllUtf8(Lines(t))
    decreases |t|
  {
    var k := FirstNewline(t);
    if k < |t| {
      FirstNewlineIs(t);
      BoundaryIsCut(t, k);
      assert t[k..][0] == NEWLINE && t[k..][1..] == t[k + 1..];
      LinesReadable(t[k + 1..]);
      var line := t[..k];
      if line != [] && line[k - 1] == RETURN { BoundaryIsCut(line, k - 1); }
    }
  }

  // ------------------------------------------------------------------ where the two parses differ

  /** Behind what JSON skips, another white space character stands first or last. */
  predicate ForbiddenBorder(text: string) {
    var value := TrimBy(IsJsonWhite, text);
    value != "" && (IsWhite(value[0]) || IsWhite(value[|value| - 1]))
  }

  lemma JsonWhiteIsWhite(s: string)
    requires AllOf(IsJsonWhite, s)
    ensures AllOf(IsWhite, s)
  {
  }

  /** Without a forbidden border, trimming leaves exactly what the JSON parser looks at. */
  lemma SameValue(text: string)
    requires !ForbiddenBorder(text)
    ensures Trim(text) == TrimBy(IsJsonWhite, text)
  {
    var value := TrimBy(IsJsonWhite, text);
    var front, back := TrimSplits(IsJsonWhite, text);
    JsonWhiteIsWhite(front);
    JsonWhiteIsWhite(back);
    if value == "" {
      assert text == front + back;
      BlankIsTrimmedEmpty(text);
    } else {
      TrimOf(IsWhite, front, value, back);
    }
  }

  /** Trimming twice is trimming once, and the JSON parser finds nothing more to skip. */
  lemma TrimmedValue(text: string)
    requires Trim(text) != ""
    ensures TrimBy(IsJsonWhite, Trim(text)) == Trim(text)
  {
    TrimStays(IsWhite, text);
    TrimOf(IsJsonWhite, "", Trim(text), "");
    assert "" + Trim(text) + "" == Trim(text);
  }

  /** A line the tail reader reads and the full reader skips. */
  predicate Hidden(f: Format, text: string) {
    ForbiddenBorder(text) && Parse(f, Trim(text)).Some?
  }

  /** The readers differ on a line exactly when white space that JSON forbids borders it and what
      trimming leaves is a record; then the full reader takes the line for malformed. */
  lemma DifferIffForbidden(f: Format, text: string)
    ensures FromTrimmed(f, text) != FromLine(f, text) <==> Hidden(f, text)
    ensures Hidden(f, text) ==> FromLine(f, text) == [] && |FromTrimmed(f, text)| == 1
  {
    BlankIsTrimmedEmpty(text);
    if Trim(text) != "" {
      TrimmedValue(text);
      if !ForbiddenBorder(text) { SameValue(text); }
    } else {
      assert TrimBy(IsJsonWhite, "") == "";
    }
  }

  predicate NoneHidden(f: Format, lines: seq<seq<byte>>) {
    forall i :: 0 <= i < |lines| ==> !Hidden(f, TextOf(lines[i]))
  }

  /** Both readers parse the same records from some lines exactly when none of them is hidden; in
      any case the full reader parses no more. */
  lemma AgreeIffNoneHidden(f: Format, lines: seq<seq<byte>>)
    ensures ParsedTrimmed(f, lines) == Parsed(f, lines) <==> NoneHidden(f, lines)
    ensures |Parsed(f, lines)| <= |ParsedTrimmed(f, lines)|
  {
    forall i | 0 <= i < |lines|
      ensures |FullLine(f)(lines[i])| <= |TailLine(f)(lines[i])|
      ensures FullLine(f)(lines[i]) == TailLine(f)(lines[i]) <==> !Hidden(f, TextOf(lines[i]))
      ensures |FullLine(f)(lines[i])| < |TailLine(f)(lines[i])| <==> Hidden(f, TextOf(lines[i]))
    {
      DifferIffForbidden(f, TextOf(lines[i]));
    }
    GatherLess(FullLine(f), TailLine(f), lines);
    if NoneHidden(f, lines) { GatherSame(FullLine(f), TailLine(f), lines); }
  }

  /** What the tail reader parses. */
  function TailRecords(f: Format, file: seq<byte>, maxTailBytes: nat): seq<ActionRecord> {
    ParsedTrimmed(f, TailLines(file, maxTailBytes))
  }

  /** Unless a line of the tail is hidden from the full reader, the records of the tail are a suffix
      of the records of the file. */
  lemma RecordsAreSuffix(f: Format, file: seq<byte>, maxTailBytes: nat) returns (dropped: seq<ActionRecord>)
    requires NoneHidden(f, TailLines(file, maxTailBytes))
    ensures Parsed(f, Lines(file)) == dropped + TailRecords(f, file, maxTailBytes)
  {
    var before := TailIsSuffix(file, maxTailBytes);
    dropped := Parsed(f, before);
    GatherAppend(FullLine(f), before, TailLines(file, maxTailBytes));
    AgreeIffNoneHidden(f, TailLines(file, maxTailBytes));
  }

  // ------------------------------------------------------------------ timestamps

  function Times(rs: seq<ActionRecord>): (t: seq<int>)
    ensures |t| == |rs| && forall i :: 0 <= i < |rs| ==> t[i] == rs[i].timestamp
  {
    seq(|rs|, i requires 0 <= i < |rs| => rs[i].timestamp)
  }

  predicate Larger(a: int, b: int) { a >= b }

  lemma {:induction false} InsertTimes(x: ActionRecord, rs: seq<ActionRecord>)
    ensures Times(Insert(x, rs, NewestFirst)) == Insert(x.timestamp, Times(rs), Larger)
  {
    if rs == [] || NewestFirst(x, rs[0]) {
      assert Times([x] + rs) == [x.timestamp] + Times(rs);
    } else {
      InsertTimes(x, rs[1..]);
      assert Times(rs)[1..] == Times(rs[1..]);
      assert Times([rs[0]] + Insert(x, rs[1..], NewestFirst)) == [rs[0].timestamp] + Times(Insert(x, rs[1..], NewestFirst));
    }
  }

  lemma {:induction false} SortTimes(rs: seq<ActionRecord>)
    ensures Times(Sort(rs, NewestFirst)) == Sort(Times(rs), Larger)
  {
    if rs != [] {
      SortTimes(rs[1..]);
      InsertTimes(rs[0], Sort(rs[1..], NewestFirst));
      assert Times(rs)[1..] == Times(rs[1..]);
    } else {
      assert Times(rs) == [];
    }
  }

  function CountAbove(t: seq<int>, v: int): nat {
    if t == [] then 0 else (if t[0] > v then 1 else 0) + CountAbove(t[1..], v)
  }

  lemma {:induction false} CountAboveAppend(a: seq<int>, b: seq<int>, v: int)
    ensures CountAbove(a + b, v) == CountAbove(a, v) + CountAbove(b, v)
  {
    if a == [] {
      assert a + b == b;
    } else {
      assert (a + b)[1..] == a[1..] + b;
      CountAboveAppend(a[1..], b, v);
    }
  }

  lemma {:induction false} CountAboveInsert(x: int, t: seq<int>, v: int)
    ensures CountAbove(Insert(x, t, Larger), v) == CountAbove(t, v) + if x > v then 1 else 0
  {
    if t == [] || Larger(x, t[0]) {
      assert ([x] + t)[1..] == t;
    } else {
      CountAboveInsert(x, t[1..], v);
      assert ([t[0]] + Insert(x, t[1..], Larger))[1..] == Insert(x, t[1..], Larger);
    }
  }

  lemma {:induction false} CountAboveSort(t: seq<int>, v: int)
    ensures CountAbove(Sort(t, Larger), v) == CountAbove(t, v)
  {
    if t != [] {
      CountAboveSort(t[1..], v);
      CountAboveInsert(t[0], Sort(t[1..], Larger), v);
    }
  }

  lemma {:induction false} NoneAbove(t: seq<int>, v: int)
    ensures CountAbove(t, v) == 0 <==> forall i :: 0 <= i < |t| ==> t[i] <= v
  {
    if t != [] {
      NoneAbove(t[1..], v);
      assert forall i :: 0 < i < |t| ==> t[i] == t[1..][i - 1];
    }
  }

  /** In a descending list everything above its `n`-th value is among the first `n`. */
  lemma AboveAreFirst(t: seq<int>, n: nat)
    requires 0 < n <= |t| && Sorted(t, Larger)
    ensures CountAbove(t, t[n - 1]) == CountAbove(t[..n], t[n - 1])
  {
    assert t == t[..n] + t[n..];
    CountAboveAppend(t[..n], t[n..], t[n - 1]);
    forall i | 0 <= i < |t[n..]| ensures t[n..][i] <= t[n - 1] {
      assert Larger(t[n - 1], t[n + i]);
    }
    NoneAbove(t[n..], t[n - 1]);
  }

  lemma {:induction false} InsertBelow(x: int, t: seq<int>, n: nat)
    requires 0 < n <= |t| && Sorted(t, Larger) && x <= t[n - 1]
    ensures |Insert(x, t, Larger)| == |t| + 1 && Insert(x, t, Larger)[..n] == t[..n]
  {
    InsertMultiset(x, t, Larger);
    if Larger(x, t[0]) {
      forall i | 0 <= i < n ensures t[i] == x {
        assert i == 0 || Larger(t[0], t[i]);
        assert i == n - 1 || Larger(t[i], t[n - 1]);
      }
    } else {
      if n > 1 { InsertBelow(x, t[1..], n - 1); }
      assert t[..n] == [t[0]] + t[1..][..n - 1];
    }
  }

  lemma TimesOrdering()
    ensures Ordering(Larger)
  {
  }

  /** Values no larger than the `n`-th largest of the rest do not change the `n` largest. */
  lemma {:induction false} SortBelow(d: seq<int>, s: seq<int>, n: nat)
    requires 0 < n <= |s| && |Sort(s, Larger)| == |s|
    requires forall i :: 0 <= i < |d| ==> d[i] <= Sort(s, Larger)[n - 1]
    ensures |Sort(d + s, Larger)| == |d| + |s| && Sort(d + s, Larger)[..n] == Sort(s, Larger)[..n]
  {
    if d == [] {
      assert d + s == s;
    } else {
      assert (d + s)[1..] == d[1..] + s;
      SortBelow(d[1..], s, n);
      var t := Sort(d[1..] + s, Larger);
      assert t[n - 1] == t[..n][n - 1] == Sort(s, Larger)[..n][n - 1];
      TimesOrdering();
      SortSorted(d[1..] + s, Larger);
      InsertBelow(d[0], t, n);
    }
  }

  /** The `n` largest values stay the same exactly when nothing added exceeds the `n`-th of them. */
  lemma LargestUnchanged(d: seq<int>, s: seq<int>, n: nat)
    requires 0 < n <= |s|
    ensures |Sort(s, Larger)| == |s| && |Sort(d + s, Larger)| == |d| + |s|
    ensures Sort(d + s, Larger)[..n] == Sort(s, Larger)[..n] <==> forall i :: 0 <= i < |d| ==> d[i] <= Sort(s, Larger)[n - 1]
  {
    SortMultiset(s, Larger);
    SortMultiset(d + s, Larger);
    var small, big := Sort(s, Larger), Sort(d + s, Larger);
    var v := small[n - 1];
    if forall i :: 0 <= i < |d| ==> d[i] <= v {
      SortBelow(d, s, n);
    }
    if big[..n] == small[..n] {
      TimesOrdering();
      SortSorted(s, Larger);
      SortSorted(d + s, Larger);
      assert big[n - 1] == big[..n][n - 1] == small[..n][n - 1];
      AboveAreFirst(small, n);
      AboveAreFirst(big, n);
      CountAboveSort(s, v);
      CountAboveSort(d + s, v);
      CountAboveAppend(d, s, v);
      NoneAbove(d, v);
    }
  }

  // ------------------------------------------------------------------ the answers

  lemma TimesOfLatest(rs: seq<ActionRecord>, limit: nat)
    ensures Times(Latest(rs, limit)) == Cut(Sort(Times(rs), Larger), limit)
  {
    SortTimes(rs);
    SortMultiset(rs, NewestFirst);
  }

  lemma TimesAppend(a: seq<ActionRecord>, b: seq<ActionRecord>)
    ensures Times(a + b) == Times(a) + Times(b)
  {
  }

  lemma LatestHas(rs: seq<ActionRecord>, limit: nat)
    requires |rs| >= limit
    ensures |Latest(rs, limit)| == limit
  {
    SortMultiset(rs, NewestFirst);
  }

  /** With at least `limit` records in the tail, both readers return the same timestamps exactly
      when no dropped record is newer than the last one the tail reader returns. */
  lemma TimestampsAgree(f: Format, file: seq<byte>, limit: nat, maxTailBytes: nat, dropped: seq<ActionRecord>)
    requires Recent(f, file, limit).Records? && RecentTail(f, file, limit, maxTailBytes).Records?
    requires Parsed(f, Lines(file)) == dropped + TailRecords(f, file, maxTailBytes)
    requires 0 < limit <= |TailRecords(f, file, maxTailBytes)|
    ensures |RecentTail(f, file, limit, maxTailBytes).records| == limit
    ensures Times(Recent(f, file, limit).records) == Times(RecentTail(f, file, limit, maxTailBytes).records) <==>
            forall i :: 0 <= i < |dropped| ==>
                          dropped[i].timestamp <= RecentTail(f, file, limit, maxTailBytes).records[limit - 1].timestamp
  {
    LatestHas(TailRecords(f, file, maxTailBytes), limit);
    LatestTimesAgree(dropped, TailRecords(f, file, maxTailBytes), limit);
  }

  lemma LatestTimesAgree(dropped: seq<ActionRecord>, s: seq<ActionRecord>, limit: nat)
    requires 0 < limit <= |s| && |Latest(s, limit)| == limit
    ensures Times(Latest(dropped + s, limit)) == Times(Latest(s, limit)) <==>
            forall i :: 0 <= i < |dropped| ==> dropped[i].timestamp <= Latest(s, limit)[limit - 1].timestamp
  {
    TimesOfLatest(s, limit);
    TimesOfLatest(dropped + s, limit);
    TimesAppend(dropped, s);
    LargestUnchanged(Times(dropped), Times(s), limit);
    assert Times(Latest(s, limit))[limit - 1] == Latest(s, limit)[limit - 1].timestamp;
    TimesBelow(dropped, Latest(s, limit)[limit - 1].timestamp);
  }

  lemma TimesBelow(rs: seq<ActionRecord>, v: int)
    ensures (forall i :: 0 <= i < |rs| ==> Times(rs)[i] <= v) <==> (forall i :: 0 <= i < |rs| ==> rs[i].timestamp <= v)
  {
    if forall i :: 0 <= i < |rs| ==> Times(rs)[i] <= v {
      assert forall i :: 0 <= i < |rs| ==> Times(rs)[i] == rs[i].timestamp;
    }
  }

  /** When every dropped record is strictly older, both readers return the very same list. */
  lemma AnswersAgree(f: Format, file: seq<byte>, limit: nat, maxTailBytes: nat, dropped: seq<ActionRecord>)
    requires Recent(f, file, limit).Records? && RecentTail(f, file, limit, maxTailBytes).Records?
    requires Parsed(f, Lines(file)) == dropped + TailRecords(f, file, maxTailBytes)
    requires limit <= |TailRecords(f, file, maxTailBytes)|
    requires forall i, j :: 0 <= i < |dropped| && 0 <= j < |RecentTail(f, file, limit, maxTailBytes).records| ==>
                              dropped[i].timestamp < RecentTail(f, file, limit, maxTailBytes).records[j].timestamp
    ensures Recent(f, file, limit) == RecentTail(f, file, limit, maxTailBytes)
  {
    var s := TailRecords(f, file, maxTailBytes);
    SortMultiset(s, NewestFirst);
    SortMultiset(dropped + s, NewestFirst);
    var sorted := Sort(s, NewestFirst);
    assert Latest(s, limit) == sorted[..limit];
    forall k, i | 0 <= k < |dropped| && 0 <= i < limit ensures !NewestFirst(dropped[k], sorted[i]) {
      assert sorted[i] == RecentTail(f, file, limit, maxTailBytes).records[i];
    }
    SortDrop(dropped, s, NewestFirst, limit);
    assert Latest(dropped + s, limit) == Sort(dropped + s, NewestFirst)[..limit];
  }

  predicate Increasing(rs: seq<ActionRecord>) {
    forall i, j :: 0 <= i < j < |rs| ==> rs[i].timestamp < rs[j].timestamp
  }

  predicate NonDecreasing(rs: seq<ActionRecord>) {
    forall i, j :: 0 <= i < j < |rs| ==> rs[i].timestamp <= rs[j].timestamp
  }

  lemma LatestMembers(rs: seq<ActionRecord>, limit: nat, j: nat)
    requires j < |Latest(rs, limit)|
    ensures Latest(rs, limit)[j] in rs
  {
    SortMembers(rs, NewestFirst, Latest(rs, limit)[j]);
  }

  /** Timestamps that strictly increase through the file: the same list. */
  lemma IncreasingFileAgrees(f: Format, file: seq<byte>, limit: nat, maxTailBytes: nat)
    requires Recent(f, file, limit).Records? && RecentTail(f, file, limit, maxTailBytes).Records?
    requires NoneHidden(f, TailLines(file, maxTailBytes)) && Increasing(Parsed(f, Lines(file)))
    requires limit <= |TailRecords(f, file, maxTailBytes)|
    ensures Recent(f, file, limit) == RecentTail(f, file, limit, maxTailBytes)
  {
    var dropped := RecordsAreSuffix(f, file, maxTailBytes);
    var s := TailRecords(f, file, maxTailBytes);
    forall i, j | 0 <= i < |dropped| && 0 <= j < |Latest(s, limit)| ensures dropped[i].timestamp < Latest(s, limit)[j].timestamp {
      LatestMembers(s, limit, j);
      DroppedBefore(dropped, s, i, Latest(s, limit)[j]);
    }
    AnswersAgree(f, file, limit, maxTailBytes, dropped);
  }

  lemma DroppedBefore(dropped: seq<ActionRecord>, s: seq<ActionRecord>, i: nat, r: ActionRecord)
    requires i < |dropped| && r in s
    ensures Increasing(dropped + s) ==> dropped[i].timestamp < r.timestamp
    ensures NonDecreasing(dropped + s) ==> dropped[i].timestamp <= r.timestamp
  {
    var k :| 0 <= k < |s| && s[k] == r;
    assert (dropped + s)[i] == dropped[i] && (dropped + s)[|dropped| + k] == r;
  }

  lemma NoneNewer(dropped: seq<ActionRecord>, s: seq<ActionRecord>, limit: nat)
    requires NonDecreasing(dropped + s) && 0 < limit <= |s|
    ensures |Latest(s, limit)| == limit
    ensures forall i :: 0 <= i < |dropped| ==> dropped[i].timestamp <= Latest(s, limit)[limit - 1].timestamp
  {
    LatestHas(s, limit);
    LatestMembers(s, limit, limit - 1);
    forall i | 0 <= i < |dropped| ensures dropped[i].timestamp <= Latest(s, limit)[limit - 1].timestamp {
      DroppedBefore(dropped, s, i, Latest(s, limit)[limit - 1]);
    }
  }

  /** Timestamps that never decrease: the same sequence of timestamps. */
  lemma NonDecreasingFileAgrees(f: Format, file: seq<byte>, limit: nat, maxTailBytes: nat)
    requires Recent(f, file, limit).Records? && RecentTail(f, file, limit, maxTailBytes).Records?
    requires NoneHidden(f, TailLines(file, maxTailBytes)) && NonDecreasing(Parsed(f, Lines(file)))
    requires 0 < limit <= |TailRecords(f, file, maxTailBytes)|
    ensures Times(Recent(f, file, limit).records) == Times(RecentTail(f, file, limit, maxTailBytes).records)
  {
    var dropped := RecordsAreSuffix(f, file, maxTailBytes);
    NoneNewer(dropped, TailRecords(f, file, maxTailBytes), limit);
    TimestampsAgree(f, file, limit, maxTailBytes, dropped);
  }

  // ------------------------------------------------------------------ writing and reading back

  /** Serializing gives one readable line, an object in braces, that reads as the record. */
  predicate Writable(f: Format, r: ActionRecord) {
    var line := f.serialize(r);
    && |line| >= 2 && line[0] == 0x7B && line[|line| - 1] == 0x7D && NEWLINE !in line
    && ValidUtf8(line) && f.read(Decode(line)) == Some(r)
  }

  /** Such a line is its own trimmed form, whichever white space is trimmed. */
  lemma WritableText(f: Format, r: ActionRecord)
    requires Writable(f, r)
    ensures var text := Decode(f.serialize(r));
            && |text| >= 1 && text[0] == '{' && text[|text| - 1] == '}'
            && TrimBy(IsJsonWhite, text) == text && Trim(text) == text
            && Parse(f, text) == Some(r)
  {
    var line := f.serialize(r);
    LastDecoded(line);
    var text := Decode(line);
    assert text[0] == '{';
    assert "" + text + "" == text;
    TrimOf(IsJsonWhite, "", text, "");
    TrimOf(IsWhite, "", text, "");
  }

  lemma WritableLine(f: Format, r: ActionRecord)
    requires Writable(f, r)
    ensures FromLine(f, TextOf(f.serialize(r))) == [r] && !Hidden(f, TextOf(f.serialize(r)))
    ensures WithoutReturn(f.serialize(r)) == f.serialize(r)
  {
    WritableText(f, r);
    BlankIsTrimmedEmpty(Decode(f.serialize(r)));
  }

  const NO_BREAK_SPACE: seq<byte> := [0xC2, 0xA0]

  /** Such a difference, for every record: put one no-break space before its line, and the tail
      reader still reads the record while the full reader skips the line as malformed. */
  lemma NoBreakSpaceHides(f: Format, r: ActionRecord)
    requires Writable(f, r)
    ensures Parsed(f, [NO_BREAK_SPACE + f.serialize(r)]) == []
    ensures ParsedTrimmed(f, [NO_BREAK_SPACE + f.serialize(r)]) == [r]
  {
    var line := NO_BREAK_SPACE + f.serialize(r);
    var text := Decode(f.serialize(r));
    WritableText(f, r);
    NoBreakSpaceDecodes();
    DecodeAppend(NO_BREAK_SPACE, f.serialize(r));
    OtherWhiteHides(f, 0xA0 as char, text, r);
    GatherOne(FullLine(f), line);
    GatherOne(TailLine(f), line);
  }

  /** So it is with any white space but the four characters that JSON skips. */
  lemma OtherWhiteHides(f: Format, c: char, text: string, r: ActionRecord)
    requires IsWhite(c) && c != ' ' && c != '\t' && c != '\n' && c != '\r'
    requires text != "" && text[0] == '{' && text[|text| - 1] == '}' && Parse(f, text) == Some(r)
    ensures FromLine(f, [c] + text) == [] && FromTrimmed(f, [c] + text) == [r]
  {
    var padded := [c] + text;
    assert padded == "" + padded + "" && padded == [c] + text + "";
    TrimOf(IsJsonWhite, "", padded, "");
    TrimOf(IsWhite, [c], text, "");
    DifferIffForbidden(f, padded);
  }

  predicate JsonPadding(s: string) {
    forall i :: 0 <= i < |s| ==> s[i] == ' ' || s[i] == '\t' || s[i] == '\n' || s[i] == '\r'
  }

  /** Padding with those four changes for neither reader what it makes of a line. */
  lemma JsonPaddingIsHarmless(f: Format, front: string, text: string, back: string)
    requires JsonPadding(front) && JsonPadding(back)
    ensures FromLine(f, front + text + back) == FromLine(f, text)
    ensures FromTrimmed(f, front + text + back) == FromTrimmed(f, text)
  {
    TrimPadded(IsJsonWhite, front, text, back);
    TrimPadded(IsWhite, front, text, back);
    BlankIsTrimmedEmpty(text);
    BlankIsTrimmedEmpty(front + text + back);
  }

  lemma NoBreakSpaceDecodes()
    ensures ValidUtf8(NO_BREAK_SPACE) && Decode(NO_BREAK_SPACE) == [0xA0 as char]
  {
    assert StartsWithChar(NO_BREAK_SPACE) && NO_BREAK_SPACE[2..] == [];
  }

  predicate AllWritable(f: Format, records: seq<ActionRecord>) {
    forall i :: 0 <= i < |records| ==> Writable(f, records[i])
  }

  /** The file after logging these records. */
  function Logged(f: Format, records: seq<ActionRecord>): seq<byte> {
    if records == [] then [] else Logged(f, records[..|records| - 1]) + f.serialize(records[|records| - 1]) + [NEWLINE]
  }

  predicate ReadsAs(f: Format, file: seq<byte>, records: seq<ActionRecord>) {
    && (file == [] || Terminated(file))
    && AllUtf8(Lines(file)) && NoneHidden(f, Lines(file))
    && Parsed(f, Lines(file)) == records
  }

  lemma LoggedStep(f: Format, file: seq<byte>, records: seq<ActionRecord>, r: ActionRecord)
    requires ReadsAs(f, file, records) && Writable(f, r)
    ensures ReadsAs(f, file + f.serialize(r) + [NEWLINE], records + [r])
  {
    var line := f.serialize(r);
    WritableLine(f, r);
    LineLogged(file, line);
    GatherAppend(FullLine(f), Lines(file), [line]);
    GatherOne(FullLine(f), line);
  }

  lemma LoggedMore(f: Format, front: seq<ActionRecord>, last: ActionRecord)
    requires ReadsAs(f, Logged(f, front), front) && Writable(f, last)
    ensures ReadsAs(f, Logged(f, front + [last]), front + [last])
  {
    assert (front + [last])[..|front|] == front;
    LoggedStep(f, Logged(f, front), front, last);
  }

  predicate LogReads(f: Format, records: seq<ActionRecord>) {
    ReadsAs(f, Logged(f, records), records)
  }

  lemma LoggedReads(f: Format, records: seq<ActionRecord>)
    requires AllWritable(f, records)
    ensures LogReads(f, records)
  {
    var p, good := (rs: seq<ActionRecord>) => LogReads(f, rs), (r: ActionRecord) => Writable(f, r);
    EmptyReads(f);
    forall q, x | p(q) && good(x) ensures p(q + [x]) { LoggedMore(f, q, x); }
    SnocInduction(p, good, records);
  }

  lemma EmptyReads(f: Format)
    ensures ReadsAs(f, [], [])
  {
  }

  lemma LineLogged(file: seq<byte>, line: seq<byte>)
    requires file == [] || Terminated(file)
    requires NEWLINE !in line && WithoutReturn(line) == line
    ensures Lines(file + line + [NEWLINE]) == Lines(file) + [line]
  {
    LinesAppend(file, line + [NEWLINE]);
    OneMoreLine(line, []);
    assert line + [NEWLINE] + [] == line + [NEWLINE];
    assert file + line + [NEWLINE] == file + (line + [NEWLINE]);
    assert [line] + Lines([]) == [line];
  }

  /** What was logged comes back: the newest `limit` of the logged records, newest first, those
      with the same timestamp in the order they were logged. */
  lemma LoggedComeBack(f: Format, records: seq<ActionRecord>, limit: nat, time: int)
    requires AllWritable(f, records)
    ensures Recent(f, Logged(f, records), limit) == Records(Cut(Sort(records, NewestFirst), limit))
    ensures Sorted(Sort(records, NewestFirst), NewestFirst)
    ensures var at := (r: ActionRecord) => r.timestamp == time;
            Filter(Sort(records, NewestFirst), at) == Filter(records, at)
  {
    LoggedReads(f, records);
    SortSorted(records, NewestFirst);
    SortStable(records, NewestFirst, (r: ActionRecord) => r.timestamp == time);
  }

  lemma LoggedUtf8(f: Format, records: seq<ActionRecord>)
    requires AllWritable(f, records)
    ensures ValidUtf8(Logged(f, records))
  {
    var p, good := (rs: seq<ActionRecord>) => ValidUtf8(Logged(f, rs)), (r: ActionRecord) => Writable(f, r);
    assert p([]);
    forall q, x | p(q) && good(x) ensures p(q + [x]) {
      assert (q + [x])[..|q|] == q;
      DecodeAppend(Logged(f, q), f.serialize(x));
      DecodeAppend(Logged(f, q) + f.serialize(x), [NEWLINE]);
    }
    SnocInduction(p, good, records);
  }

  /** In a logged file no line is hidden from either reader, wherever the tail is cut: the tail
      reader parses the last of the logged records. */
  lemma LoggedTail(f: Format, records: seq<ActionRecord>, maxTailBytes: nat) returns (dropped: seq<ActionRecord>)
    requires AllWritable(f, records)
    ensures NoneHidden(f, TailLines(Logged(f, records), maxTailBytes))
    ensures records == dropped + TailRecords(f, Logged(f, records), maxTailBytes)
  {
    var file := Logged(f, records);
    LoggedReads(f, records);
    var before := TailIsSuffix(file, maxTailBytes);
    var tail := TailLines(file, maxTailBytes);
    forall i | 0 <= i < |tail| ensures !Hidden(f, TextOf(tail[i])) {
      assert tail[i] == Lines(file)[|before| + i];
    }
    dropped := RecordsAreSuffix(f, file, maxTailBytes);
  }

  lemma {:induction false} AtMostOneEach(f: Format, lines: seq<seq<byte>>)
    ensures |Parsed(f, lines)| <= |lines|
  {
    if lines != [] { AtMostOneEach(f, lines[..|lines| - 1]); }
  }

  lemma {:induction false} LoggedAppend(f: Format, a: seq<ActionRecord>, b: seq<ActionRecord>)
    ensures Logged(f, a + b) == Logged(f, a) + Logged(f, b)
  {
    if b == [] {
      assert a + b == a;
    } else {
      LoggedAppend(f, a, b[..|b| - 1]);
      assert (a + b)[..|a + b| - 1] == a + b[..|b| - 1];
    }
  }

  lemma {:induction false} OneLineEach(f: Format, records: seq<ActionRecord>)
    requires AllWritable(f, records)
    ensures |Lines(Logged(f, records))| == |records| && (records != [] ==> Terminated(Logged(f, records)))
  {
    if records != [] {
      var front, last := records[..|records| - 1], records[|records| - 1];
      OneLineEach(f, front);
      WritableLine(f, last);
      LineLogged(Logged(f, front), f.serialize(last));
    }
  }

  /** If the last so many of the logged lines, and the newline before them, fit into what is read, the
      tail holds at least so many records. */
  lemma EnoughRecords(f: Format, earlier: seq<ActionRecord>, last: seq<ActionRecord>, maxTailBytes: nat)
    requires AllWritable(f, earlier) && AllWritable(f, last) && last != []
    requires |Logged(f, last)| + (if earlier == [] then 0 else 1) <= maxTailBytes
    ensures |TailRecords(f, Logged(f, earlier + last), maxTailBytes)| >= |last|
  {
    var file := Logged(f, earlier + last);
    var n := UsedLines(file, maxTailBytes);
    FirstIsUsed(f, earlier, last, maxTailBytes, n);
    LoggedReads(f, earlier + last);
    var dropped := LoggedTail(f, earlier + last, maxTailBytes);
    DroppedAtMost(f, file, maxTailBytes, n, dropped);
  }

  lemma FirstIsUsed(f: Format, earlier: seq<ActionRecord>, last: seq<ActionRecord>, maxTailBytes: nat, n: nat)
    requires AllWritable(f, earlier) && AllWritable(f, last) && last != []
    requires |Logged(f, last)| + (if earlier == [] then 0 else 1) <= maxTailBytes
    requires var file := Logged(f, earlier + last); if |file| <= maxTailBytes then n == 0 else After(file, n, |file| - maxTailBytes)
    ensures n <= |earlier|
  {
    LoggedAppend(f, earlier, last);
    FirstOfLast(f, earlier, last);
    OneLineEach(f, last);
  }

  /** The line of the first of the last records begins where they begin. */
  lemma FirstOfLast(f: Format, earlier: seq<ActionRecord>, last: seq<ActionRecord>)
    requires AllWritable(f, earlier) && AllWritable(f, last) && last != []
    ensures var file := Logged(f, earlier + last);
            |earlier| < |Starts(file)| && Starts(file)[|earlier|] == |Logged(f, earlier)|
  {
    var head, tail := Logged(f, earlier), Logged(f, last);
    LoggedAppend(f, earlier, last);
    OneLineEach(f, earlier);
    OneLineEach(f, last);
    LinesAppend(head, tail);
    assert tail != [] && (head + tail)[|head|..] == tail;
    var i := LinesFromStart(head + tail, |head|);
    assert |Lines(head + tail)| - i == |last|;
  }

  lemma DroppedAtMost(f: Format, file: seq<byte>, maxTailBytes: nat, n: nat, dropped: seq<ActionRecord>)
    requires n <= |Lines(file)| && TailLines(file, maxTailBytes) == Lines(file)[n..]
    requires NoneHidden(f, TailLines(file, maxTailBytes))
    requires Parsed(f, Lines(file)) == dropped + TailRecords(f, file, maxTailBytes)
    ensures |dropped| <= n
  {
    var lines := Lines(file);
    assert lines == lines[..n] + lines[n..];
    GatherAppend(FullLine(f), lines[..n], lines[n..]);
    AgreeIffNoneHidden(f, lines[n..]);
    AtMostOneEach(f, lines[..n]);
  }

  /** With times that increase, the tail reader then returns just the last so many records, newest first. */
  lemma TailIsNewest(f: Format, earlier: seq<ActionRecord>, last: seq<ActionRecord>, maxTailBytes: nat)
    requires AllWritable(f, earlier) && AllWritable(f, last) && last != [] && Increasing(earlier + last)
    requires |Logged(f, last)| + (if earlier == [] then 0 else 1) <= maxTailBytes
    requires IsCharBoundary(Logged(f, earlier + last), TailStart(Logged(f, earlier + last), maxTailBytes))
    ensures RecentTail(f, Logged(f, earlier + last), |last|, maxTailBytes) == Records(Backwards(last))
  {
    EnoughRecords(f, earlier, last, maxTailBytes);
    LoggedReadersAgree(f, earlier + last, |last|, maxTailBytes);
    LoggedComeBack(f, earlier + last, |last|, 0);
    SortIncreasing(earlier + last);
    BackwardsAppend(earlier, last);
  }

  function Backwards(records: seq<ActionRecord>): (r: seq<ActionRecord>)
    ensures |r| == |records| && forall i :: 0 <= i < |r| ==> r[i] == records[|records| - 1 - i]
  {
    seq(|records|, i requires 0 <= i < |records| => records[|records| - 1 - i])
  }

  lemma BackwardsAppend(earlier: seq<ActionRecord>, last: seq<ActionRecord>)
    ensures Cut(Backwards(earlier + last), |last|) == Backwards(last)
  {
  }

  /** Records in ascending order of their times are sorted by turning them round. */
  lemma {:induction false} SortIncreasing(records: seq<ActionRecord>)
    requires Increasing(records)
    ensures Sort(records, NewestFirst) == Backwards(records)
  {
    if records != [] {
      var rest := records[1..];
      SortIncreasing(rest);
      InsertLast(records[0], Backwards(rest));
      assert Backwards(records) == Backwards(rest) + [records[0]];
    } else {
      assert Backwards(records) == [];
    }
  }

  lemma {:induction false} InsertLast(r: ActionRecord, records: seq<ActionRecord>)
    requires forall i :: 0 <= i < |records| ==> r.timestamp < records[i].timestamp
    ensures Insert(r, records, NewestFirst) == records + [r]
  {
    if records != [] { InsertLast(r, records[1..]); }
  }

  /** On a logged file the tail reader, when its cut falls between two characters, and the full
      reader return the same list if times strictly increased, and the same times if they never
      decreased, provided the tail holds enough records. */
  lemma LoggedReadersAgree(f: Format, records: seq<ActionRecord>, limit: nat, maxTailBytes: nat)
    requires AllWritable(f, records)
    requires IsCharBoundary(Logged(f, records), TailStart(Logged(f, records), maxTailBytes))
    requires 0 < limit <= |TailRecords(f, Logged(f, records), maxTailBytes)|
    ensures RecentTail(f, Logged(f, records), limit, maxTailBytes).Records?
    ensures Recent(f, Logged(f, records), limit).Records?
    ensures Increasing(records) ==>
              Recent(f, Logged(f, records), limit) == RecentTail(f, Logged(f, records), limit, maxTailBytes)
    ensures NonDecreasing(records) ==>
              Times(Recent(f, Logged(f, records), limit).records)
              == Times(RecentTail(f, Logged(f, records), limit, maxTailBytes).records)
  {
    LoggedReads(f, records);
    LoggedUtf8(f, records);
    TailReadable(f, Logged(f, records), limit, maxTailBytes);
    var dropped := LoggedTail(f, records, maxTailBytes);
    if Increasing(records) { IncreasingFileAgrees(f, Logged(f, records), limit, maxTailBytes); }
    if NonDecreasing(records) { NonDecreasingFileAgrees(f, Logged(f, records), limit, maxTailBytes); }
  }
}
