/** Lines of a text, as Rust's `str::lines` and `BufRead::lines` cut them: a line ends at a
    newline, one carriage return just before that newline is dropped with it, and nothing
    follows the last newline. */
module TextLines {
  import opened Utf8

  const NEWLINE: byte := 10
  const RETURN: byte := 13

  /** The position of the first newline, or the length. */
  function FirstNewline(t: seq<byte>): (k: nat)
    ensures k <= |t|
  {
    if t == [] || t[0] == NEWLINE then 0 else 1 + FirstNewline(t[1..])
  }

  lemma {:induction false} FirstNewlineIs(t: seq<byte>)
    ensures NEWLINE !in t[..FirstNewline(t)]
    ensures FirstNewline(t) < |t| ==> t[FirstNewline(t)] == NEWLINE
  {
    if t != [] && t[0] != NEWLINE {
      FirstNewlineIs(t[1..]);
      assert t[..FirstNewline(t)] == [t[0]] + t[1..][..FirstNewline(t[1..])];
    }
  }

  function WithoutReturn(line: seq<byte>): seq<byte> {
    if line != [] && line[|line| - 1] == RETURN then line[..|line| - 1] else line
  }

  function Lines(t: seq<byte>): seq<seq<byte>>
    decreases |t|
  {
    if t == [] then []
    else
      var k := FirstNewline(t);
      if k == |t| then [t] else [WithoutReturn(t[..k])] + Lines(t[k + 1..])
  }

  /** `join("\n")`. */
  function Join(lines: seq<seq<byte>>): seq<byte> {
    if lines == [] then [] else if |lines| == 1 then lines[0] else lines[0] + [NEWLINE] + Join(lines[1..])
  }

  lemma {:induction false} JoinAppend(xs: seq<seq<byte>>, ys: seq<seq<byte>>)
    requires xs != [] && ys != []
    ensures Join(xs + ys) == Join(xs) + [NEWLINE] + Join(ys)
  {
    if |xs| == 1 {
      assert (xs + ys)[1..] == ys;
    } else {
      JoinAppend(xs[1..], ys);
      assert (xs + ys)[1..] == xs[1..] + ys;
    }
  }

  lemma {:induction false} FirstNewlineIn(a: seq<byte>, b: seq<byte>)
    requires NEWLINE !in a && (b == [] || b[0] == NEWLINE)
    ensures FirstNewline(a + b) == |a|
  {
    if a != [] {
      assert (a + b)[1..] == a[1..] + b;
      FirstNewlineIn(a[1..], b);
    } else {
      assert a + b == b;
    }
  }

  /** A text with a newline is a line, the newline and the rest. */
  lemma CutLine(t: seq<byte>, k: nat)
    requires k == FirstNewline(t) && k < |t|
    ensures t == t[..k] + [NEWLINE] + t[k + 1..] && NEWLINE !in t[..k]
  {
    FirstNewlineIs(t);
  }

  lemma OneMoreLine(line: seq<byte>, rest: seq<byte>)
    requires NEWLINE !in line
    ensures Lines(line + [NEWLINE] + rest) == [WithoutReturn(line)] + Lines(rest)
  {
    var t := line + [NEWLINE] + rest;
    assert t == line + ([NEWLINE] + rest);
    FirstNewlineIn(line, [NEWLINE] + rest);
    assert t[..|line|] == line && t[|line| + 1..] == rest;
  }

  lemma LastIsNewline(a: seq<byte>)
    requires a != [] && a[|a| - 1] == NEWLINE
    ensures FirstNewline(a) < |a|
  {
    FirstNewlineIs(a);
    assert a[..|a|] == a;
  }

  /** Cutting after a newline cuts between lines. */
  lemma {:induction false} LinesAppend(a: seq<byte>, b: seq<byte>)
    requires a == [] || a[|a| - 1] == NEWLINE
    ensures Lines(a + b) == Lines(a) + Lines(b)
    decreases |a|
  {
    if a == [] {
      assert a + b == b;
    } else {
      LastIsNewline(a);
      var k := FirstNewline(a);
      CutLine(a, k);
      LinesAppend(a[k + 1..], b);
      LinesAppendStep(a[..k], a[k + 1..], b);
    }
  }

  lemma OneMoreLineThen(line: seq<byte>, rest: seq<byte>, b: seq<byte>)
    requires NEWLINE !in line
    ensures Lines(line + [NEWLINE] + rest + b) == [WithoutReturn(line)] + Lines(rest + b)
  {
    OneMoreLine(line, rest + b);
    assert line + [NEWLINE] + rest + b == line + [NEWLINE] + (rest + b);
  }

  lemma Associative<T>(x: T, xs: seq<T>, ys: seq<T>)
    ensures ([x] + xs) + ys == [x] + (xs + ys)
  {
  }

  lemma LinesAppendStep(line: seq<byte>, rest: seq<byte>, b: seq<byte>)
    requires NEWLINE !in line && Lines(rest + b) == Lines(rest) + Lines(b)
    ensures Lines(line + [NEWLINE] + rest + b) == Lines(line + [NEWLINE] + rest) + Lines(b)
  {
    OneMoreLine(line, rest);
    OneMoreLineThen(line, rest, b);
    Associative(WithoutReturn(line), Lines(rest), Lines(b));
  }

  /** No carriage return stands before a newline. */
  predicate NoReturns(t: seq<byte>) {
    forall i :: 0 <= i < |t| - 1 && t[i + 1] == NEWLINE ==> t[i] != RETURN
  }

  predicate Terminated(t: seq<byte>) { t != [] && t[|t| - 1] == NEWLINE }

  lemma RestHasNoReturns(line: seq<byte>, rest: seq<byte>)
    requires NoReturns(line + [NEWLINE] + rest)
    ensures NoReturns(rest) && WithoutReturn(line) == line
  {
    var t := line + [NEWLINE] + rest;
    forall i | 0 <= i < |rest| - 1 && rest[i + 1] == NEWLINE ensures rest[i] != RETURN {
      assert t[|line| + 1 + i] == rest[i] && t[|line| + 1 + i + 1] == rest[i + 1];
    }
    if line != [] { assert t[|line| - 1] == line[|line| - 1] && t[|line|] == NEWLINE; }
  }

  predicate JoinsBack(t: seq<byte>) {
    t == Join(Lines(t)) + if Terminated(t) then [NEWLINE] else []
  }

  lemma JoinFirst(line: seq<byte>, lines: seq<seq<byte>>)
    ensures Join([line] + lines) == if lines == [] then line else line + [NEWLINE] + Join(lines)
  {
    assert ([line] + lines)[1..] == lines;
  }

  lemma SomeLines(t: seq<byte>)
    ensures Lines(t) == [] <==> t == []
  {
  }

  lemma LastByte(t: seq<byte>, k: nat)
    requires k < |t|
    ensures t[k + 1..] != [] ==> t[|t| - 1] == t[k + 1..][|t[k + 1..]| - 1]
  {
  }

  lemma JoinLinesStep(t: seq<byte>, k: nat)
    requires k == FirstNewline(t) && k < |t| && WithoutReturn(t[..k]) == t[..k] && JoinsBack(t[k + 1..])
    ensures JoinsBack(t)
  {
    var rest := t[k + 1..];
    CutLine(t, k);
    JoinFirst(t[..k], Lines(rest));
    SomeLines(rest);
    LastByte(t, k);
  }

  /** Joining the lines gives the text back, up to its last newline. */
  lemma {:induction false} JoinLines(t: seq<byte>)
    requires NoReturns(t)
    ensures JoinsBack(t)
    decreases |t|
  {
    if Terminated(t) { LastIsNewline(t); }
    var k := FirstNewline(t);
    if k < |t| {
      CutLine(t, k);
      RestHasNoReturns(t[..k], t[k + 1..]);
      JoinLines(t[k + 1..]);
      JoinLinesStep(t, k);
    }
  }

  /** What counts as a line: whatever stands before a newline, without one carriage return at its end,
      and whatever follows the last newline, as it is. */
  lemma LineEnds(line: seq<byte>, rest: seq<byte>)
    requires NEWLINE !in line
    ensures Lines(line + [13, 10] + rest) == [line] + Lines(rest)
    ensures line == [] || line[|line| - 1] != 13 ==> Lines(line + [10] + rest) == [line] + Lines(rest)
    ensures line != [] ==> Lines(line) == [line]
  {
    OneMoreLine(line + [RETURN], rest);
    assert line + [13, 10] + rest == (line + [RETURN]) + [NEWLINE] + rest;
    OneMoreLine(line, rest);
    assert line + [] == line;
    FirstNewlineIn(line, []);
  }

  // ------------------------------------------------------------------ where the lines begin

  /** A line begins at the beginning and after each newline that something follows. */
  predicate BeginsLine(t: seq<byte>, p: nat) {
    p < |t| && (p == 0 || t[p - 1] == 10)
  }

  /** The end of the line that begins here: its newline, or the end of the text. */
  function EndOfLine(t: seq<byte>, p: nat): (k: nat)
    requires p <= |t|
    ensures p <= k <= |t|
  {
    p + FirstNewline(t[p..])
  }

  lemma EndOfLineIs(t: seq<byte>, p: nat)
    requires p <= |t|
    ensures forall q :: p <= q < EndOfLine(t, p) ==> t[q] != NEWLINE
    ensures EndOfLine(t, p) < |t| ==> t[EndOfLine(t, p)] == NEWLINE
  {
    var k := FirstNewline(t[p..]);
    FirstNewlineIs(t[p..]);
    forall q | p <= q < p + k ensures t[q] != NEWLINE { assert t[p..][..k][q - p] == t[q]; }
  }

  /** Where the lines from `p` on begin. */
  function StartsFrom(t: seq<byte>, p: nat): (starts: seq<nat>)
    requires p <= |t|
    ensures forall i :: 0 <= i < |starts| ==> starts[i] < |t|
    decreases |t| - p
  {
    if p == |t| then []
    else if EndOfLine(t, p) == |t| then [p]
    else [p] + StartsFrom(t, EndOfLine(t, p) + 1)
  }

  function Starts(t: seq<byte>): seq<nat> { StartsFrom(t, 0) }

  /** Past one line. */
  lemma LinesPast(t: seq<byte>, p: nat)
    requires p < |t| && EndOfLine(t, p) < |t|
    ensures Lines(t[p..]) == [WithoutReturn(t[p..EndOfLine(t, p)])] + Lines(t[EndOfLine(t, p) + 1..])
  {
    var k := FirstNewline(t[p..]);
    assert t[p..][..k] == t[p..p + k] && t[p..][k + 1..] == t[p + k + 1..];
  }

  lemma {:induction false} LineCount(t: seq<byte>, p: nat)
    requires p <= |t|
    ensures |Lines(t[p..])| == |StartsFrom(t, p)|
    decreases |t| - p
  {
    if p < |t| && EndOfLine(t, p) < |t| {
      LinesPast(t, p);
      LineCount(t, EndOfLine(t, p) + 1);
    }
  }

  lemma SkipFirst<T>(x: T, s: seq<T>, i: nat)
    requires 0 < i <= |s|
    ensures ([x] + s)[i..] == s[i - 1..]
  {
  }

  /** From this start on the text has these lines. */
  predicate LinesAt(t: seq<byte>, p: nat, lines: seq<seq<byte>>) {
    p <= |t| && Lines(t[p..]) == lines
  }

  lemma LaterStart(t: seq<byte>, p: nat, i: nat)
    requires p < |t| && 0 < i < |StartsFrom(t, p)|
    ensures EndOfLine(t, p) < |t| && i - 1 < |StartsFrom(t, EndOfLine(t, p) + 1)|
    ensures StartsFrom(t, p)[i] == StartsFrom(t, EndOfLine(t, p) + 1)[i - 1]
  {
  }

  /** Each line begins at its start, and from there on the text has the lines from that one on. */
  lemma {:induction false} LinesFrom(t: seq<byte>, p: nat, i: nat)
    requires p <= |t| && i < |StartsFrom(t, p)| == |Lines(t[p..])|
    ensures LinesAt(t, StartsFrom(t, p)[i], Lines(t[p..])[i..])
    decreases |t| - p
  {
    if i > 0 {
      var next := EndOfLine(t, p) + 1;
      LaterStart(t, p, i);
      LinesPast(t, p);
      LineCount(t, next);
      LinesFrom(t, next, i - 1);
      SkipFirst(WithoutReturn(t[p..EndOfLine(t, p)]), Lines(t[next..]), i);
    }
  }

  lemma {:induction false} StartsAscend(t: seq<byte>, p: nat)
    requires p <= |t|
    ensures forall i :: 0 <= i < |StartsFrom(t, p)| ==> p <= StartsFrom(t, p)[i]
    ensures forall i, j :: 0 <= i < j < |StartsFrom(t, p)| ==> StartsFrom(t, p)[i] < StartsFrom(t, p)[j]
    decreases |t| - p
  {
    if p < |t| && EndOfLine(t, p) < |t| { StartsAscend(t, EndOfLine(t, p) + 1); }
  }

  lemma {:induction false} StartsBegin(t: seq<byte>, p: nat, q: nat)
    requires p == |t| || BeginsLine(t, p)
    ensures q in StartsFrom(t, p) <==> p <= q && BeginsLine(t, q)
    decreases |t| - p
  {
    if p < |t| {
      var k := EndOfLine(t, p);
      EndOfLineIs(t, p);
      if k < |t| { StartsBegin(t, k + 1, q); }
    }
  }

  /** There is one start for each line, in ascending order, and they are all the positions where lines
      begin. */
  lemma StartsAre(t: seq<byte>)
    ensures |Starts(t)| == |Lines(t)|
    ensures forall i, j :: 0 <= i < j < |Starts(t)| ==> Starts(t)[i] < Starts(t)[j]
    ensures forall q :: q in Starts(t) <==> BeginsLine(t, q)
  {
    assert t[0..] == t;
    LineCount(t, 0);
    StartsAscend(t, 0);
    forall q ensures q in Starts(t) <==> BeginsLine(t, q) { StartsBegin(t, 0, q); }
  }
}
