/** White space as Rust's `str::trim` sees it. */
module Text {
  /** The Unicode White_Space property. */
  predicate IsWhite(c: char) {
    var n := c as int;
    || 0x09 <= n <= 0x0D || n == 0x20 || n == 0x85 || n == 0xA0 || n == 0x1680
    || 0x2000 <= n <= 0x200A || n == 0x2028 || n == 0x2029 || n == 0x202F || n == 0x205F || n == 0x3000
  }

  function TrimStart(drop: char -> bool, s: string): (r: string)
    ensures |r| <= |s|
    ensures r == "" || !drop(r[0])
  {
    if s == "" || !drop(s[0]) then s else TrimStart(drop, s[1..])
  }

  function TrimEnd(drop: char -> bool, s: string): (r: string)
    ensures r <= s
    ensures r == "" || !drop(r[|r| - 1])
  {
    if s == "" || !drop(s[|s| - 1]) then s else TrimEnd(drop, s[..|s| - 1])
  }

  function TrimBy(drop: char -> bool, s: string): string {
    TrimEnd(drop, TrimStart(drop, s))
  }

  function Trim(s: string): string {
    TrimBy(IsWhite, s)
  }

  /** `trim().is_empty()`. */
  predicate IsBlank(s: string) {
    forall i :: 0 <= i < |s| ==> IsWhite(s[i])
  }

  predicate AllOf(p: char -> bool, s: string) {
    forall i :: 0 <= i < |s| ==> p(s[i])
  }

  /** Trimming splits a text into what is dropped in front, what stays, and what is dropped behind. */
  lemma {:induction false} TrimStartSplits(drop: char -> bool, s: string) returns (front: string)
    ensures s == front + TrimStart(drop, s) && AllOf(drop, front)
  {
    front := "";
    if s != "" && drop(s[0]) {
      front := TrimStartSplits(drop, s[1..]);
      front := [s[0]] + front;
    }
  }

  lemma {:induction false} TrimEndSplits(drop: char -> bool, s: string) returns (back: string)
    ensures s == TrimEnd(drop, s) + back && AllOf(drop, back)
  {
    back := "";
    if s != "" && drop(s[|s| - 1]) {
      back := TrimEndSplits(drop, s[..|s| - 1]);
      back := back + [s[|s| - 1]];
    }
  }

  lemma TrimSplits(drop: char -> bool, s: string) returns (front: string, back: string)
    ensures s == front + TrimBy(drop, s) + back && AllOf(drop, front) && AllOf(drop, back)
  {
    front := TrimStartSplits(drop, s);
    back := TrimEndSplits(drop, TrimStart(drop, s));
    assert front + (TrimBy(drop, s) + back) == front + TrimBy(drop, s) + back;
  }

  lemma {:induction false} TrimStartOf(drop: char -> bool, front: string, rest: string)
    requires AllOf(drop, front) && (rest == "" || !drop(rest[0]))
    ensures TrimStart(drop, front + rest) == rest
  {
    if front == "" {
      assert front + rest == rest;
    } else {
      assert (front + rest)[1..] == front[1..] + rest;
      TrimStartOf(drop, front[1..], rest);
    }
  }

  lemma {:induction false} TrimEndOf(drop: char -> bool, rest: string, back: string)
    requires AllOf(drop, back) && (rest == "" || !drop(rest[|rest| - 1]))
    ensures TrimEnd(drop, rest + back) == rest
  {
    if back == "" {
      assert rest + back == rest;
    } else {
      assert (rest + back)[..|rest + back| - 1] == rest + back[..|back| - 1];
      TrimEndOf(drop, rest, back[..|back| - 1]);
    }
  }

  /** What stands between droppable ends and is not droppable at its own ends is what trimming leaves. */
  lemma TrimOf(drop: char -> bool, front: string, s: string, back: string)
    requires AllOf(drop, front) && AllOf(drop, back) && s != "" && !drop(s[0]) && !drop(s[|s| - 1])
    ensures TrimBy(drop, front + s + back) == s
  {
    assert front + s + back == front + (s + back);
    TrimStartOf(drop, front, s + back);
    TrimEndOf(drop, s, back);
  }

  lemma {:induction false} AllDropped(drop: char -> bool, s: string)
    requires AllOf(drop, s)
    ensures TrimBy(drop, s) == ""
  {
    if s != "" { AllDropped(drop, s[1..]); }
  }

  /** Padding with what is dropped does not change what trimming leaves. */
  lemma TrimPadded(drop: char -> bool, front: string, s: string, back: string)
    requires AllOf(drop, front) && AllOf(drop, back)
    ensures TrimBy(drop, front + s + back) == TrimBy(drop, s)
  {
    var before, after := TrimSplits(drop, s);
    var value := TrimBy(drop, s);
    if value == "" {
      assert AllOf(drop, front + s + back);
      AllDropped(drop, front + s + back);
    } else {
      TrimStays(drop, s);
      TrimOf(drop, front + before, value, after + back);
      assert front + s + back == (front + before) + value + (after + back);
    }
  }

  /** The white space characters one by one. */
  lemma WhiteCharacters(c: char)
    ensures IsWhite(c) <==>
            c as int in {9, 10, 11, 12, 13, 32, 133, 160, 5760, 8192, 8193, 8194, 8195, 8196, 8197, 8198, 8199, 8200, 8201, 8202,
                         8232, 8233, 8239, 8287, 12288}
  {
  }

  /** A text is blank exactly when nothing is left after trimming. */
  lemma BlankIsTrimmedEmpty(s: string)
    ensures Trim(s) == "" <==> IsBlank(s)
  {
    var front, back := TrimSplits(IsWhite, s);
    var u := Trim(s);
    if u != "" {
      TrimStays(IsWhite, s);
      assert s[|front|] == u[0];
    }
  }

  lemma TrimStays(drop: char -> bool, s: string)
    ensures TrimBy(drop, s) == "" || (!drop(TrimBy(drop, s)[0]) && !drop(TrimBy(drop, s)[|TrimBy(drop, s)| - 1]))
  {
  }
}
