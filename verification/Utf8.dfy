/** UTF-8 as sections 3 and 4 of RFC 3629 define it, and `truncate_to_byte_limit`
    (src-tauri/src/distill_commands.rs). */
module Utf8 {
  type byte = x: int | 0 <= x < 256

  predicate Continuation(b: byte) { 0x80 <= b < 0xC0 }

  /** How many bytes a character with this first byte takes; zero if none starts with it. */
  function Width(first: byte): (n: nat)
    ensures n <= 4
  {
    if first < 0x80 then 1
    else if 0xC2 <= first < 0xE0 then 2
    else if 0xE0 <= first < 0xF0 then 3
    else if 0xF0 <= first < 0xF5 then 4
    else 0
  }

  /** Excludes overlong forms, surrogates and values above U+10FFFF. */
  predicate SecondByteFits(first: byte, second: byte) {
    && (first == 0xE0 ==> second >= 0xA0) && (first == 0xED ==> second < 0xA0)
    && (first == 0xF0 ==> second >= 0x90) && (first == 0xF4 ==> second < 0x90)
  }

  /** The bytes begin with a complete, well-formed character. */
  predicate StartsWithChar(s: seq<byte>) {
    && s != []
    && 0 < Width(s[0]) <= |s|
    && (forall i :: 0 < i < Width(s[0]) ==> Continuation(s[i]))
    && (Width(s[0]) > 1 ==> SecondByteFits(s[0], s[1]))
  }

  predicate ValidUtf8(s: seq<byte>) {
    s == [] || (StartsWithChar(s) && ValidUtf8(s[Width(s[0])..]))
  }

  /** `str::is_char_boundary`: it looks at one byte only. */
  predicate IsCharBoundary(s: seq<byte>, i: nat) {
    i == 0 || i == |s| || (i < |s| && !Continuation(s[i]))
  }

  lemma CutInside(s: seq<byte>, i: nat)
    requires StartsWithChar(s) && 0 < i < Width(s[0])
    ensures !IsCharBoundary(s, i) && !ValidUtf8(s[..i])
  {
    assert Continuation(s[i]);
    assert s[..i][0] == s[0];
    assert !StartsWithChar(s[..i]);
  }

  /** Past its first character a text is cut like what follows that character. */
  lemma CutBehind(s: seq<byte>, i: nat)
    requires ValidUtf8(s) && s != [] && Width(s[0]) <= i <= |s|
    ensures IsCharBoundary(s, i) <==> IsCharBoundary(s[Width(s[0])..], i - Width(s[0]))
    ensures ValidUtf8(s[..i]) <==> ValidUtf8(s[Width(s[0])..][..i - Width(s[0])])
    ensures s[i..] == s[Width(s[0])..][i - Width(s[0])..]
  {
    var n := Width(s[0]);
    var t := s[n..];
    assert s[..i][n..] == t[..i - n];
    assert s[..i][0] == s[0] && StartsWithChar(s[..i]);
    if i < |s| { assert t[i - n] == s[i]; }
    if i == n && t != [] { assert StartsWithChar(t); }
  }

  /** In valid text, the boundaries are exactly the places where it can be cut in two valid texts. */
  lemma {:induction false} BoundaryIsCut(s: seq<byte>, i: nat)
    requires ValidUtf8(s) && i <= |s|
    ensures IsCharBoundary(s, i) <==> ValidUtf8(s[..i])
    ensures IsCharBoundary(s, i) ==> ValidUtf8(s[i..])
    decreases |s|
  {
    if i == 0 {
      assert s[0..] == s;
    } else if i < Width(s[0]) {
      CutInside(s, i);
    } else {
      CutBehind(s, i);
      BoundaryIsCut(s[Width(s[0])..], i - Width(s[0]));
    }
  }

  /** Some boundary lies at most three bytes below any position. */
  lemma {:induction false} BoundaryNear(s: seq<byte>, i: nat) returns (j: nat)
    requires ValidUtf8(s) && i <= |s|
    ensures j <= i <= j + 3 && IsCharBoundary(s, j)
    decreases |s|
  {
    if i == |s| {
      j := i;
    } else if i < Width(s[0]) {
      j := 0;
    } else {
      var n := Width(s[0]);
      j := BoundaryNear(s[n..], i - n);
      if j == 0 && n < |s| { assert StartsWithChar(s[n..]); }
      j := j + n;
    }
  }

  lemma SameBoundary(s: seq<byte>, a: nat, b: nat)
    requires a < b <= |s|
    ensures IsCharBoundary(s[a..], b - a) <==> IsCharBoundary(s, b)
  {
    if b < |s| { assert s[a..][b - a] == s[b]; }
  }

  /** A non-empty byte range of valid text is valid exactly when both ends are boundaries. */
  lemma RangeValid(s: seq<byte>, a: nat, b: nat)
    requires ValidUtf8(s) && a < b <= |s|
    ensures ValidUtf8(s[a..b]) <==> IsCharBoundary(s, a) && IsCharBoundary(s, b)
  {
    if IsCharBoundary(s, a) {
      BoundaryIsCut(s, a);
      BoundaryIsCut(s[a..], b - a);
      SameBoundary(s, a, b);
      assert s[a..][..b - a] == s[a..b];
    } else {
      assert s[a..b][0] == s[a];
    }
  }

  // ------------------------------------------------------------------ characters

  /** The number of the first character. */
  function CodePoint(s: seq<byte>): (n: int)
    requires StartsWithChar(s)
    ensures 0 <= n < 0xD800 || 0xE000 <= n < 0x11_0000
  {
    var first := s[0] as int;
    if first < 0x80 then first
    else
      var second := s[1] as int - 0x80;
      if first < 0xE0 then (first - 0xC0) * 0x40 + second
      else
        var third := s[2] as int - 0x80;
        if first < 0xF0 then (first - 0xE0) * 0x1000 + second * 0x40 + third
        else (first - 0xF0) * 0x4_0000 + second * 0x1000 + third * 0x40 + (s[3] as int - 0x80)
  }

  function Decode(s: seq<byte>): string
    requires ValidUtf8(s)
  {
    if s == [] then "" else [CodePoint(s) as char] + Decode(s[Width(s[0])..])
  }

  lemma FirstOfAppend(a: seq<byte>, b: seq<byte>)
    requires StartsWithChar(a)
    ensures StartsWithChar(a + b) && CodePoint(a + b) == CodePoint(a)
    ensures (a + b)[Width(a[0])..] == a[Width(a[0])..] + b
  {
    assert forall i :: 0 <= i < Width(a[0]) ==> (a + b)[i] == a[i];
  }

  lemma {:induction false} DecodeAppend(a: seq<byte>, b: seq<byte>)
    requires ValidUtf8(a) && ValidUtf8(b)
    ensures ValidUtf8(a + b) && Decode(a + b) == Decode(a) + Decode(b)
    decreases |a|
  {
    if a == [] {
      assert a + b == b;
    } else {
      FirstOfAppend(a, b);
      DecodeAppend(a[Width(a[0])..], b);
    }
  }

  lemma OneByte(b: byte)
    requires b < 0x80
    ensures ValidUtf8([b]) && Decode([b]) == [b as char]
  {
    assert [b][1..] == [];
  }

  /** A one-byte character at the end of a text is the last character of its decoding. */
  lemma LastDecoded(s: seq<byte>)
    requires ValidUtf8(s) && s != [] && s[|s| - 1] < 0x80
    ensures ValidUtf8(s[..|s| - 1]) && Decode(s) == Decode(s[..|s| - 1]) + [s[|s| - 1] as char]
  {
    var n := |s| - 1;
    BoundaryIsCut(s, n);
    OneByte(s[n]);
    DecodeAppend(s[..n], [s[n]]);
    assert s == s[..n] + [s[n]];
  }

  // ------------------------------------------------------------------ encoding

  /** The numbers of characters. */
  predicate Scalar(n: int) { 0 <= n < 0xD800 || 0xE000 <= n < 0x11_0000 }

  /** The table of section 3 of RFC 3629. */
  function EncodeChar(n: int): seq<byte>
    requires Scalar(n)
  {
    if n < 0x80 then [n]
    else if n < 0x800 then [0xC0 + n / 0x40, 0x80 + n % 0x40]
    else if n < 0x1_0000 then [0xE0 + n / 0x1000, 0x80 + n / 0x40 % 0x40, 0x80 + n % 0x40]
    else [0xF0 + n / 0x4_0000, 0x80 + n / 0x1000 % 0x40, 0x80 + n / 0x40 % 0x40, 0x80 + n % 0x40]
  }

  function Encode(s: string): seq<byte> {
    if s == "" then [] else EncodeChar(s[0] as int) + Encode(s[1..])
  }

  lemma Digits(n: nat)
    ensures n == n / 0x40 * 0x40 + n % 0x40 && n / 0x40 / 0x40 == n / 0x1000 && n / 0x1000 / 0x40 == n / 0x4_0000
    ensures n / 0x40 == n / 0x1000 * 0x40 + n / 0x40 % 0x40 && n / 0x1000 == n / 0x4_0000 * 0x40 + n / 0x1000 % 0x40
  {
  }

  lemma CharEncoded(n: int)
    requires Scalar(n)
    ensures StartsWithChar(EncodeChar(n)) && Width(EncodeChar(n)[0]) == |EncodeChar(n)| && CodePoint(EncodeChar(n)) == n
  {
    Digits(n);
  }

  lemma Composed(a: nat, b: nat)
    requires b < 0x40
    ensures (a * 0x40 + b) / 0x40 == a && (a * 0x40 + b) % 0x40 == b
  {
  }

  lemma TwoDecoded(s: seq<byte>)
    requires StartsWithChar(s) && Width(s[0]) == 2
    ensures EncodeChar(CodePoint(s)) == [s[0], s[1]]
  {
    Composed(s[0] as int - 0xC0, s[1] as int - 0x80);
  }

  lemma ThreeDecoded(s: seq<byte>)
    requires StartsWithChar(s) && Width(s[0]) == 3
    ensures EncodeChar(CodePoint(s)) == [s[0], s[1], s[2]]
  {
    var a, b, c := s[0] as int - 0xE0, s[1] as int - 0x80, s[2] as int - 0x80;
    Composed(a, b);
    Composed(a * 0x40 + b, c);
    Digits(CodePoint(s));
  }

  lemma FourDecoded(s: seq<byte>)
    requires StartsWithChar(s) && Width(s[0]) == 4
    ensures EncodeChar(CodePoint(s)) == [s[0], s[1], s[2], s[3]]
  {
    var a, b, c, d := s[0] as int - 0xF0, s[1] as int - 0x80, s[2] as int - 0x80, s[3] as int - 0x80;
    Composed(a, b);
    Composed(a * 0x40 + b, c);
    Composed((a * 0x40 + b) * 0x40 + c, d);
    Digits(CodePoint(s));
  }

  lemma CharDecoded(s: seq<byte>)
    requires StartsWithChar(s)
    ensures EncodeChar(CodePoint(s)) == s[..Width(s[0])]
  {
    match Width(s[0])
    case 1 =>
    case 2 => TwoDecoded(s);
    case 3 => ThreeDecoded(s);
    case _ => FourDecoded(s);
  }

  lemma OneCharacter(n: int)
    requires Scalar(n)
    ensures ValidUtf8(EncodeChar(n)) && Decode(EncodeChar(n)) == [n as char]
  {
    CharEncoded(n);
    assert EncodeChar(n)[|EncodeChar(n)|..] == [];
  }

  /** Every text can be encoded and comes back. */
  lemma {:induction false} EncodedComesBack(s: string)
    ensures ValidUtf8(Encode(s)) && Decode(Encode(s)) == s
  {
    if s != "" {
      OneCharacter(s[0] as int);
      EncodedComesBack(s[1..]);
      DecodeAppend(EncodeChar(s[0] as int), Encode(s[1..]));
    }
  }

  /** Valid bytes are those of exactly one text: validity accepts encodings and nothing else. */
  lemma {:induction false} DecodedComesBack(s: seq<byte>)
    requires ValidUtf8(s)
    ensures Encode(Decode(s)) == s
    decreases |s|
  {
    if s != [] {
      CharDecoded(s);
      DecodedComesBack(s[Width(s[0])..]);
    }
  }

  /** The longest valid prefix of at most `max` bytes, at most three bytes short of the limit;
      the flag says whether anything was cut. */
  method TruncateToByteLimit(text: seq<byte>, max: nat) returns (r: seq<byte>, truncated: bool)
    requires ValidUtf8(text)
    ensures r <= text && |r| <= max && ValidUtf8(r)
    ensures forall k :: |r| < k <= max && k <= |text| ==> !ValidUtf8(text[..k])
    ensures truncated <==> r != text
    ensures truncated ==> max <= |r| + 3
  {
    if |text| <= max {
      return text, false;
    }
    ghost var near := BoundaryNear(text, max);
    var end := max;
    while end > 0 && !IsCharBoundary(text, end)
      invariant near <= end <= max
      invariant forall k :: end < k <= max ==> !IsCharBoundary(text, k)
    {
      end := end - 1;
    }
    forall k | end < k <= max ensures !ValidUtf8(text[..k]) { BoundaryIsCut(text, k); }
    BoundaryIsCut(text, end);
    return text[..end], true;
  }
}
