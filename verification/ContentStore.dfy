/** The content store and its resolver (src-tauri/src/ledger.rs).  Files are byte sequences under
    path strings; the SHA-256 digest is an arbitrary function. */
module ContentStore {
  import opened Options
  import opened Utf8
  import opened TextLines

  datatype ContentRef = ContentRef(
    contentRef: string, contentType: string, storageBackend: string, pathOrKey: string, contentHash: int,
    createdAt: int, producer: string, byteRange: Option<(nat, nat)>, lineRange: Option<(nat, nat)>)

  type Files = map<string, seq<byte>>

  datatype ResolveError =
    | UnsupportedBackend | NoSuchFile | HashMismatch | BadByteRange | NotUtf8 | BadLineRange

  datatype Resolution = Resolved(text: seq<byte>) | Unresolved(error: ResolveError)

  /** The clock: seconds, and the year and month they fall in. */
  datatype Moment = Moment(timestamp: int, year: string, month: string)

  function Extension(contentType: string): string {
    if contentType == "text" || contentType == "transcript" || "text/" <= contentType then "txt" else "bin"
  }

  function PathOf(id: string, contentType: string, now: Moment): string {
    now.year + "/" + now.month + "/" + id + "." + Extension(contentType)
  }

  function RefTo(digest: seq<byte> -> int, content: seq<byte>, contentType: string, producer: string, id: string, now: Moment): ContentRef {
    ContentRef(id, contentType, "file", PathOf(id, contentType, now), digest(content), now.timestamp, producer, None, None)
  }

  class ContentStoreWriter {
    var files: Files

    constructor ()
      ensures files == map[]
    {
      files := map[];
    }

    /** `id` is the generated UUID. */
    method Store(digest: seq<byte> -> int, content: seq<byte>, contentType: string, producer: string, id: string, now: Moment)
      returns (r: ContentRef)
      modifies this
      ensures r == RefTo(digest, content, contentType, producer, id, now)
      ensures files == old(files)[r.pathOrKey := content]
    {
      var path := PathOf(id, contentType, now);
      files := files[path := content];
      r := ContentRef(id, contentType, "file", path, digest(content), now.timestamp, producer, None, None);
    }
  }

  /** Text, transcripts and the types that begin with `text/` go to a `.txt` file, the rest to a `.bin`
      file, in a directory for the month. */
  lemma PathIs(id: string, contentType: string, now: Moment)
    ensures var textual := contentType == "text" || contentType == "transcript"
                           || (|contentType| >= 5 && contentType[..5] == "text/");
            && (textual ==> PathOf(id, contentType, now) == now.year + "/" + now.month + "/" + id + ".txt")
            && (!textual ==> PathOf(id, contentType, now) == now.year + "/" + now.month + "/" + id + ".bin")
  {
    assert now.year + "/" + now.month + "/" + id + "." + "txt" == now.year + "/" + now.month + "/" + id + ".txt";
    assert now.year + "/" + now.month + "/" + id + "." + "bin" == now.year + "/" + now.month + "/" + id + ".bin";
  }

  /** What a reference says of the content it was made for. */
  lemma RefIs(digest: seq<byte> -> int, content: seq<byte>, contentType: string, producer: string, id: string, now: Moment)
    ensures var r := RefTo(digest, content, contentType, producer, id, now);
            && r.contentRef == id && r.contentType == contentType && r.producer == producer && r.createdAt == now.timestamp
            && r.contentHash == digest(content) && r.storageBackend == "file" && r.byteRange.None? && r.lineRange.None?
            && r.pathOrKey == PathOf(id, contentType, now)
  {
  }

  /** Ids, years and months hold no separators, as in a UUID. */
  predicate Plain(s: string) { '/' !in s && '.' !in s }

  lemma FirstOf(a: string, b: string, sep: char)
    ensures (a + [sep] + b)[0] == if a == "" then sep else a[0]
    ensures (a + [sep] + b)[1..] == if a == "" then b else a[1..] + [sep] + b
    ensures a != "" ==> a[0] in a
  {
  }

  lemma {:induction false} SplitAt(a: string, b: string, c: string, d: string, sep: char)
    requires a + [sep] + b == c + [sep] + d && sep !in a && sep !in c
    ensures a == c && b == d
  {
    FirstOf(a, b, sep);
    FirstOf(c, d, sep);
    if a != "" { SplitAt(a[1..], b, c[1..], d, sep); }
  }

  /** Different ids have different files, whatever their types and times. */
  lemma PathsDiffer(id: string, contentType: string, now: Moment, other: string, otherType: string, when: Moment)
    requires Plain(id) && Plain(now.year) && Plain(now.month) && Plain(other) && Plain(when.year) && Plain(when.month)
    requires PathOf(id, contentType, now) == PathOf(other, otherType, when)
    ensures id == other
  {
    var rest, others := id + "." + Extension(contentType), other + "." + Extension(otherType);
    assert PathOf(id, contentType, now) == now.year + ['/'] + (now.month + ['/'] + rest);
    assert PathOf(other, otherType, when) == when.year + ['/'] + (when.month + ['/'] + others);
    SplitAt(now.year, now.month + ['/'] + rest, when.year, when.month + ['/'] + others, '/');
    SplitAt(now.month, rest, when.month, others, '/');
    SplitAt(id, Extension(contentType), other, Extension(otherType), '.');
  }

  // ------------------------------------------------------------------ resolving

  /** The bytes of a range, if it is one. */
  function Bytes(content: seq<byte>, range: Option<(nat, nat)>): Option<seq<byte>> {
    match range
    case None => Some(content)
    case Some((start, end)) => if start > end || end > |content| then None else Some(content[start..end])
  }

  /** `skip(start).take(end - start)`. */
  function SkipTake<T>(s: seq<T>, start: nat, end: nat): seq<T>
    requires start <= end
  {
    if start >= |s| then [] else if end >= |s| then s[start..] else s[start..end]
  }

  function InLines(text: seq<byte>, range: Option<(nat, nat)>): Resolution {
    match range
    case None => Resolved(text)
    case Some((start, end)) =>
      if start > end then Unresolved(BadLineRange) else Resolved(Join(SkipTake(Lines(text), start, end)))
  }

  function Resolve(digest: seq<byte> -> int, files: Files, r: ContentRef): Resolution {
    if r.storageBackend != "file" then Unresolved(UnsupportedBackend)
    else if r.pathOrKey !in files then Unresolved(NoSuchFile)
    else
      var content := files[r.pathOrKey];
      if digest(content) != r.contentHash then Unresolved(HashMismatch)
      else
        var sliced := Bytes(content, r.byteRange);
        if sliced.None? then Unresolved(BadByteRange)
        else if !ValidUtf8(sliced.value) then Unresolved(NotUtf8)
        else InLines(sliced.value, r.lineRange)
  }

  // ------------------------------------------------------------------ whole runs

  datatype StoreCall = StoreCall(content: seq<byte>, contentType: string, producer: string, id: string, now: Moment)

  datatype Kept = Kept(ref: ContentRef, content: seq<byte>)

  /** The files, and every reference handed out with what it was handed out for. */
  datatype Run = Run(files: Files, kept: seq<Kept>)

  /** A UUID is new, so no file of that name exists. */
  predicate Fresh(r: Run, c: StoreCall) { PathOf(c.id, c.contentType, c.now) !in r.files }

  function Apply(digest: seq<byte> -> int, r: Run, c: StoreCall): Run {
    var ref := RefTo(digest, c.content, c.contentType, c.producer, c.id, c.now);
    Run(r.files[ref.pathOrKey := c.content], r.kept + [Kept(ref, c.content)])
  }

  function After(digest: seq<byte> -> int, calls: seq<StoreCall>): Run {
    if calls == [] then Run(map[], [])
    else
      var r := After(digest, calls[..|calls| - 1]);
      if Fresh(r, calls[|calls| - 1]) then Apply(digest, r, calls[|calls| - 1]) else r
  }

  predicate PlainCalls(calls: seq<StoreCall>) {
    forall i :: 0 <= i < |calls| ==> Plain(calls[i].id) && Plain(calls[i].now.year) && Plain(calls[i].now.month)
  }

  predicate DistinctIds(calls: seq<StoreCall>) {
    forall i, j :: 0 <= i < j < |calls| ==> calls[i].id != calls[j].id
  }

  function PathOfCall(c: StoreCall): string { PathOf(c.id, c.contentType, c.now) }

  /** Every file was written by one of the calls. */
  lemma {:induction false} FilesAreOfCalls(digest: seq<byte> -> int, calls: seq<StoreCall>, p: string) returns (i: nat)
    requires p in After(digest, calls).files
    ensures i < |calls| && p == PathOfCall(calls[i])
  {
    var n := |calls| - 1;
    if p in After(digest, calls[..n]).files {
      i := FilesAreOfCalls(digest, calls[..n], p);
    } else {
      i := n;
    }
  }

  lemma LastIsFresh(digest: seq<byte> -> int, calls: seq<StoreCall>)
    requires PlainCalls(calls) && DistinctIds(calls) && calls != []
    ensures Fresh(After(digest, calls[..|calls| - 1]), calls[|calls| - 1])
  {
    var n := |calls| - 1;
    if !Fresh(After(digest, calls[..n]), calls[n]) {
      var i := FilesAreOfCalls(digest, calls[..n], PathOfCall(calls[n]));
      PathsDiffer(calls[n].id, calls[n].contentType, calls[n].now, calls[i].id, calls[i].contentType, calls[i].now);
      assert false;
    }
  }

  /** With distinct ids nothing is ever overwritten: each call's reference is kept with its content. */
  lemma {:induction false} EveryCallKept(digest: seq<byte> -> int, calls: seq<StoreCall>)
    requires PlainCalls(calls) && DistinctIds(calls)
    ensures |After(digest, calls).kept| == |calls|
    ensures forall i :: 0 <= i < |calls| ==> After(digest, calls).kept[i].content == calls[i].content
  {
    if calls != [] {
      EveryCallKept(digest, calls[..|calls| - 1]);
      LastIsFresh(digest, calls);
    }
  }

  predicate Intact(digest: seq<byte> -> int, files: Files, k: Kept) {
    && k.ref.storageBackend == "file" && k.ref.byteRange.None? && k.ref.lineRange.None?
    && k.ref.pathOrKey in files && files[k.ref.pathOrKey] == k.content
    && k.ref.contentHash == digest(k.content)
  }

  lemma {:induction false} AllIntact(digest: seq<byte> -> int, calls: seq<StoreCall>)
    ensures forall k :: k in After(digest, calls).kept ==> Intact(digest, After(digest, calls).files, k)
  {
    if calls != [] {
      AllIntact(digest, calls[..|calls| - 1]);
    }
  }

  /** Every reference ever handed out keeps resolving: to exactly the stored text when that was
      UTF-8, and to an encoding error otherwise. */
  lemma StoreThenResolve(digest: seq<byte> -> int, calls: seq<StoreCall>, k: Kept)
    requires k in After(digest, calls).kept
    ensures Resolve(digest, After(digest, calls).files, k.ref) ==
            if ValidUtf8(k.content) then Resolved(k.content) else Unresolved(NotUtf8)
  {
    AllIntact(digest, calls);
  }

  /** Whatever later happens to the files, a reference resolves only while its file has the digest of
      what was stored: if the digest tells the two contents apart, nothing but the stored text comes back. */
  lemma TamperingIsNoticed(digest: seq<byte> -> int, calls: seq<StoreCall>, k: Kept, files: Files)
    requires k in After(digest, calls).kept && k.ref.pathOrKey in files
    requires digest(files[k.ref.pathOrKey]) == digest(k.content) ==> files[k.ref.pathOrKey] == k.content
    ensures Resolve(digest, files, k.ref) ==
            if files[k.ref.pathOrKey] != k.content then Unresolved(HashMismatch)
            else if ValidUtf8(k.content) then Resolved(k.content) else Unresolved(NotUtf8)
  {
    AllIntact(digest, calls);
  }

  /** The same for a byte range of a stored text: it resolves exactly when it lies within the text
      and, unless empty, starts and ends at character boundaries. */
  lemma ByteRangeResolves(digest: seq<byte> -> int, calls: seq<StoreCall>, k: Kept, a: nat, b: nat)
    requires k in After(digest, calls).kept && ValidUtf8(k.content)
    ensures var r := Resolve(digest, After(digest, calls).files, k.ref.(byteRange := Some((a, b))));
            && (r.Resolved? <==>
                  a == b <= |k.content|
                  || (a < b <= |k.content| && IsCharBoundary(k.content, a) && IsCharBoundary(k.content, b)))
            && (r.Resolved? ==> r.text == k.content[a..b])
  {
    AllIntact(digest, calls);
    if a < b <= |k.content| { RangeValid(k.content, a, b); }
  }

  /** Why a reference does not resolve: the checks in their order. */
  lemma WhyUnresolved(digest: seq<byte> -> int, files: Files, r: ContentRef)
    ensures Resolve(digest, files, r) == Unresolved(UnsupportedBackend) <==> r.storageBackend != "file"
    ensures Resolve(digest, files, r) == Unresolved(NoSuchFile) <==> r.storageBackend == "file" && r.pathOrKey !in files
    ensures r.storageBackend == "file" && r.pathOrKey in files ==>
              var content := files[r.pathOrKey];
              var start := if r.byteRange.Some? then r.byteRange.value.0 else 0;
              var end := if r.byteRange.Some? then r.byteRange.value.1 else |content|;
              var read := digest(content) == r.contentHash;
              var within := start <= end <= |content|;
              && (Resolve(digest, files, r) == Unresolved(HashMismatch) <==> !read)
              && (Resolve(digest, files, r) == Unresolved(BadByteRange) <==> read && !within)
              && (Resolve(digest, files, r) == Unresolved(NotUtf8) <==> read && within && !ValidUtf8(content[start..end]))
              && (Resolve(digest, files, r) == Unresolved(BadLineRange) <==>
                    read && within && ValidUtf8(content[start..end])
                    && r.lineRange.Some? && r.lineRange.value.0 > r.lineRange.value.1)
              && (Resolve(digest, files, r).Resolved? && r.lineRange.None? ==>
                    Resolve(digest, files, r).text == content[start..end])
  {
    if r.pathOrKey in files { assert files[r.pathOrKey][0..|files[r.pathOrKey]|] == files[r.pathOrKey]; }
  }

  /** A line range is the lines from its start up to its end, those there are, joined by newlines. */
  lemma LineRangeIs(text: seq<byte>, a: nat, b: nat)
    requires a <= b
    ensures InLines(text, Some((a, b))).Resolved?
    ensures exists lines ::
              && InLines(text, Some((a, b))).text == Join(lines)
              && (forall i :: 0 <= i < |lines| ==> a + i < |Lines(text)| && lines[i] == Lines(text)[a + i])
              && |lines| == (if |Lines(text)| <= a then 0 else if |Lines(text)| <= b then |Lines(text)| - a else b - a)
  {
    var lines := SkipTake(Lines(text), a, b);
    assert InLines(text, Some((a, b))).text == Join(lines);
  }

  lemma SkipTakeSplit<T>(s: seq<T>, a: nat, b: nat, c: nat)
    requires a <= b <= c
    ensures SkipTake(s, a, c) == SkipTake(s, a, b) + SkipTake(s, b, c)
    ensures a < b ==> (SkipTake(s, a, b) == [] <==> a >= |s|)
  {
  }

  /** Two adjacent line ranges, joined by a newline, are the range they cover, exactly when the
      second one starts inside the text. */
  lemma LineRangesJoin(text: seq<byte>, a: nat, b: nat, c: nat)
    requires a < b < c
    ensures var first, second, whole := InLines(text, Some((a, b))), InLines(text, Some((b, c))), InLines(text, Some((a, c)));
            first.text + [NEWLINE] + second.text == whole.text <==> b < |Lines(text)|
  {
    var lines := Lines(text);
    SkipTakeSplit(lines, a, b, c);
    if b < |lines| {
      JoinAppend(SkipTake(lines, a, b), SkipTake(lines, b, c));
    } else {
      assert SkipTake(lines, b, c) == [];
      assert SkipTake(lines, a, b) + [] == SkipTake(lines, a, b);
      assert Join(SkipTake(lines, a, b)) + [NEWLINE] + [] != Join(SkipTake(lines, a, b)) by {
        assert |Join(SkipTake(lines, a, b)) + [NEWLINE] + []| == |Join(SkipTake(lines, a, b))| + 1;
      }
    }
  }

  /** All the lines of a stored text give the text back, up to its last newline, when no carriage
      return ends a line. */
  lemma AllLinesResolve(digest: seq<byte> -> int, calls: seq<StoreCall>, k: Kept, n: nat)
    requires k in After(digest, calls).kept && ValidUtf8(k.content) && NoReturns(k.content)
    requires n >= |Lines(k.content)|
    ensures var r := Resolve(digest, After(digest, calls).files, k.ref.(lineRange := Some((0, n))));
            r.Resolved? && k.content == r.text + if Terminated(k.content) then [NEWLINE] else []
  {
    AllIntact(digest, calls);
    JoinLines(k.content);
    assert SkipTake(Lines(k.content), 0, n) == Lines(k.content);
  }
}
