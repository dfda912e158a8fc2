/** The two wire framings of the relay.  Worker frames (cozmio-box-worker/src/protocol.rs,
    relay-engine/src/worker_session.rs) carry a length that leaves out the type byte; client frames
    (relay-client/src/client.rs, relay-engine/src/main.rs) carry one that counts it. */
module Framing {
  import opened Utf8

  const LIMIT := 1_000_000
  const U32 := 0x1_0000_0000

  datatype Framing = Worker | Client

  datatype Message = Message(kind: byte, payload: seq<byte>)

  /** Where a reader stops. */
  datatype Error = ShortLength | TooLarge | ShortType | ShortPayload | EmptyFrame

  datatype Read = Got(message: Message, rest: seq<byte>) | Broken(error: Error)

  // ------------------------------------------------------------------ lengths

  /** `to_be_bytes` of a u32. */
  function ToBytes(n: nat): (b: seq<byte>)
    requires n < U32
    ensures |b| == 4
  {
    [n / 0x100_0000, n / 0x1_0000 % 0x100, n / 0x100 % 0x100, n % 0x100]
  }

  /** `from_be_bytes`. */
  function FromBytes(b: seq<byte>): nat
    requires |b| == 4
  {
    (b[0] as int) * 0x100_0000 + (b[1] as int) * 0x1_0000 + (b[2] as int) * 0x100 + b[3] as int
  }

  lemma FromToBytes(n: nat)
    requires n < U32
    ensures FromBytes(ToBytes(n)) == n
  {
    var q1 := n / 0x100;
    var q2 := q1 / 0x100;
    assert n / 0x1_0000 == q2 && n / 0x100_0000 == q2 / 0x100;
  }

  lemma ToFromBytes(b: seq<byte>)
    requires |b| == 4
    ensures FromBytes(b) < U32 && ToBytes(FromBytes(b)) == b
  {
    var m := FromBytes(b);
    assert m % 0x100 == b[3];
    assert m / 0x100 == (b[0] as int) * 0x1_0000 + (b[1] as int) * 0x100 + b[2] as int;
    assert m / 0x1_0000 == (b[0] as int) * 0x100 + b[1] as int;
  }

  /** The big-endian forms are inverse to each other. */
  lemma BytesRoundTrip(n: nat, b: seq<byte>)
    requires n < U32 && |b| == 4
    ensures FromBytes(ToBytes(n)) == n
    ensures FromBytes(b) < U32 && ToBytes(FromBytes(b)) == b
  {
    FromToBytes(n);
    ToFromBytes(b);
  }

  /** `as u32`: the length wraps around. */
  function AsU32(n: nat): nat { n % U32 }

  /** The length a frame should carry. */
  function BodyLength(f: Framing, m: Message): nat {
    if f.Worker? then |m.payload| else |m.payload| + 1
  }

  function Encode(f: Framing, m: Message): seq<byte> {
    ToBytes(AsU32(BodyLength(f, m))) + [m.kind] + m.payload
  }

  // ------------------------------------------------------------------ reading

  function ReadWorker(s: seq<byte>): Read {
    if |s| < 4 then Broken(ShortLength)
    else
      var len := FromBytes(s[..4]);
      if len > LIMIT then Broken(TooLarge)
      else if |s| < 5 then Broken(ShortType)
      else if |s| < 5 + len then Broken(ShortPayload)
      else Got(Message(s[4], s[5..5 + len]), s[5 + len..])
  }

  function ReadClient(s: seq<byte>): Read {
    if |s| < 4 then Broken(ShortLength)
    else
      var len := FromBytes(s[..4]);
      if len > LIMIT then Broken(TooLarge)
      else if |s| < 4 + len then Broken(ShortPayload)
      else if len == 0 then Broken(EmptyFrame)
      else Got(Message(s[4], s[5..4 + len]), s[4 + len..])
  }

  function ReadFrame(f: Framing, s: seq<byte>): (r: Read)
    ensures r.Got? ==> |r.rest| < |s|
  {
    if f.Worker? then ReadWorker(s) else ReadClient(s)
  }

  datatype Session = Session(messages: seq<Message>, error: Error)

  /** A reader that goes on until something is wrong. */
  function ReadAll(f: Framing, s: seq<byte>): Session
    decreases |s|
  {
    match ReadFrame(f, s)
    case Broken(e) => Session([], e)
    case Got(m, rest) =>
      var more := ReadAll(f, rest);
      Session([m] + more.messages, more.error)
  }

  // ------------------------------------------------------------------ methods

  /** A byte stream with what is still unread. */
  class ByteStream {
    var unread: seq<byte>

    constructor (bytes: seq<byte>)
      ensures unread == bytes
    {
      unread := bytes;
    }

    method WriteAll(bytes: seq<byte>)
      modifies this
      ensures unread == old(unread) + bytes
    {
      unread := unread + bytes;
    }

    /** `read_exact`: a stream that is too short is used up. */
    method ReadExact(n: nat) returns (ok: bool, bytes: seq<byte>)
      modifies this
      ensures ok == (n <= |old(unread)|)
      ensures if ok then bytes == old(unread)[..n] && unread == old(unread)[n..] else bytes == [] && unread == []
    {
      if n <= |unread| {
        ok, bytes := true, unread[..n];
        unread := unread[n..];
      } else {
        ok, bytes := false, [];
        unread := [];
      }
    }
  }

  method BuildRequest(m: Message) returns (frame: seq<byte>)
    ensures frame == Encode(Worker, m)
  {
    frame := ToBytes(AsU32(|m.payload|));
    frame := frame + [m.kind];
    frame := frame + m.payload;
  }

  method SendRequestToStream(stream: ByteStream, m: Message)
    modifies stream
    ensures stream.unread == old(stream.unread) + Encode(Client, m)
  {
    var frame := [m.kind];
    frame := frame + m.payload;
    stream.WriteAll(ToBytes(AsU32(|frame|)));
    stream.WriteAll(frame);
    assert old(stream.unread) + ToBytes(AsU32(|frame|)) + frame == old(stream.unread) + Encode(Client, m);
  }

  method ReadWorkerFrame(stream: ByteStream) returns (r: Read)
    modifies stream
    ensures r == ReadWorker(old(stream.unread))
    ensures r.Got? ==> stream.unread == r.rest
  {
    ghost var s := stream.unread;
    var ok, lenBytes := stream.ReadExact(4);
    if !ok { return Broken(ShortLength); }
    var len := FromBytes(lenBytes);
    if len > LIMIT { return Broken(TooLarge); }
    var typeBytes;
    ok, typeBytes := stream.ReadExact(1);
    if !ok { return Broken(ShortType); }
    var payload;
    ok, payload := stream.ReadExact(len);
    if !ok { return Broken(ShortPayload); }
    assert s[4..][1..] == s[5..];
    assert s[5..][..len] == s[5..5 + len] && s[5..][len..] == s[5 + len..];
    r := Got(Message(typeBytes[0], payload), stream.unread);
  }

  method ReadClientFrame(stream: ByteStream) returns (r: Read)
    modifies stream
    ensures r == ReadClient(old(stream.unread))
    ensures r.Got? ==> stream.unread == r.rest
  {
    ghost var s := stream.unread;
    var ok, lenBytes := stream.ReadExact(4);
    if !ok { return Broken(ShortLength); }
    var len := FromBytes(lenBytes);
    if len > LIMIT { return Broken(TooLarge); }
    var bytes;
    ok, bytes := stream.ReadExact(len);
    if !ok { return Broken(ShortPayload); }
    if bytes == [] { return Broken(EmptyFrame); }
    assert s[4..][..len] == s[4..4 + len] && s[4..][len..] == s[4 + len..];
    assert bytes[1..] == s[5..4 + len];
    r := Got(Message(bytes[0], bytes[1..]), stream.unread);
  }

  /** The frame loop of the worker: it ends with the first frame that cannot be read. */
  method Run(stream: ByteStream) returns (messages: seq<Message>, error: Error)
    modifies stream
    ensures Session(messages, error) == ReadAll(Worker, old(stream.unread))
  {
    messages := [];
    while true
      invariant ReadAll(Worker, old(stream.unread)) ==
                Session(messages + ReadAll(Worker, stream.unread).messages, ReadAll(Worker, stream.unread).error)
      decreases |stream.unread|
    {
      ReadOne(messages, stream.unread);
      var r := ReadWorkerFrame(stream);
      match r
      case Broken(e) => return messages, e;
      case Got(m, rest) => messages := messages + [m];
    }
  }

  lemma ReadOne(before: seq<Message>, s: seq<byte>)
    ensures match ReadWorker(s)
            case Broken(e) => before + ReadAll(Worker, s).messages == before && ReadAll(Worker, s).error == e
            case Got(m, rest) =>
              before + ReadAll(Worker, s).messages == before + [m] + ReadAll(Worker, rest).messages
              && ReadAll(Worker, s).error == ReadAll(Worker, rest).error
  {
  }

  // ------------------------------------------------------------------ one frame

  lemma EncodedParts(f: Framing, m: Message, rest: seq<byte>)
    ensures var s := Encode(f, m) + rest;
            && |s| == 5 + |m.payload| + |rest| && s[..4] == ToBytes(AsU32(BodyLength(f, m))) && s[4] == m.kind
            && s[5..5 + |m.payload|] == m.payload && s[5 + |m.payload|..] == rest
            && FromBytes(s[..4]) == AsU32(BodyLength(f, m))
  {
    FromToBytes(AsU32(BodyLength(f, m)));
  }

  lemma WorkerRoundTrip(m: Message, rest: seq<byte>)
    ensures ReadWorker(Encode(Worker, m) + rest) == Got(m, rest) <==> |m.payload| <= LIMIT
    ensures LIMIT < |m.payload| < U32 ==> ReadWorker(Encode(Worker, m) + rest) == Broken(TooLarge)
  {
    EncodedParts(Worker, m, rest);
  }

  lemma ClientRoundTrip(m: Message, rest: seq<byte>)
    ensures ReadClient(Encode(Client, m) + rest) == Got(m, rest) <==> |m.payload| + 1 <= LIMIT
    ensures LIMIT < |m.payload| + 1 < U32 ==> ReadClient(Encode(Client, m) + rest) == Broken(TooLarge)
  {
    EncodedParts(Client, m, rest);
    var s := Encode(Client, m) + rest;
    var len := FromBytes(s[..4]);
    assert len == AsU32(|m.payload| + 1) <= |m.payload| + 1;
    assert |m.payload| + 1 <= LIMIT ==> len == |m.payload| + 1;
  }

  /** What four bytes say as a number, the most significant byte first. */
  function Number(a: byte, b: byte, c: byte, d: byte): nat {
    ((a * 256 + b) * 256 + c) * 256 + d
  }

  lemma NumberIs(b: seq<byte>)
    requires |b| == 4
    ensures FromBytes(b) == Number(b[0], b[1], b[2], b[3])
  {
  }

  /** A frame on the wire: four bytes of length, the most significant first, counting the payload and
      on the client's side the type as well, and kept below four gigabytes by wrapping around; then
      the type; then the payload. */
  lemma WireForm(f: Framing, m: Message)
    ensures var s := Encode(f, m);
            && |s| == 5 + |m.payload| && s[4] == m.kind && s[5..] == m.payload
            && Number(s[0], s[1], s[2], s[3]) == (|m.payload| + if f == Client then 1 else 0) % 4_294_967_296
  {
    EncodedParts(f, m, []);
    var s := Encode(f, m);
    assert s + [] == s && s[5..5 + |m.payload|] == s[5..];
    NumberIs(s[..4]);
  }

  /** A frame with a length of a million is read back, one byte more is refused. */
  lemma AMillion(f: Framing, m: Message, rest: seq<byte>)
    ensures |m.payload| + (if f == Client then 1 else 0) == 1_000_000 ==> ReadFrame(f, Encode(f, m) + rest) == Got(m, rest)
    ensures |m.payload| + (if f == Client then 1 else 0) == 1_000_001 ==> ReadFrame(f, Encode(f, m) + rest) == Broken(TooLarge)
  {
    FrameRoundTrip(f, m, rest);
  }

  /** What is wrong with bytes that are no frame. */
  lemma WhatIsWrong(f: Framing, s: seq<byte>)
    ensures ReadFrame(f, s) == Broken(ShortLength) <==> |s| < 4
    ensures |s| >= 4 ==>
              var length := Number(s[0], s[1], s[2], s[3]);
              && (ReadFrame(f, s) == Broken(TooLarge) <==> length > 1_000_000)
              && (ReadFrame(f, s) == Broken(ShortType) <==> f == Worker && length <= 1_000_000 && |s| == 4)
              && (ReadFrame(f, s) == Broken(ShortPayload) <==>
                    length <= 1_000_000 && if f == Worker then 4 < |s| < 5 + length else |s| < 4 + length)
              && (ReadFrame(f, s) == Broken(EmptyFrame) <==> f == Client && length == 0)
  {
    if |s| >= 4 { NumberIs(s[..4]); }
  }

  /** A frame followed by anything is read back as itself, leaving exactly what followed, exactly
      when its length is within the limit; longer ones are refused or, past four gigabytes, wrap. */
  lemma FrameRoundTrip(f: Framing, m: Message, rest: seq<byte>)
    ensures ReadFrame(f, Encode(f, m) + rest) == Got(m, rest) <==> BodyLength(f, m) <= 1_000_000
    ensures 1_000_000 < BodyLength(f, m) <= 4_294_967_295 ==> ReadFrame(f, Encode(f, m) + rest) == Broken(TooLarge)
  {
    if f.Worker? { WorkerRoundTrip(m, rest); } else { ClientRoundTrip(m, rest); }
  }

  /** The framings do not understand each other: neither reader ever returns the message that the
      other side framed. */
  lemma FramingsDiffer(m: Message, rest: seq<byte>)
    ensures ReadWorker(Encode(Client, m) + rest) != Got(m, rest)
    ensures ReadClient(Encode(Worker, m) + rest) != Got(m, rest)
  {
    EncodedParts(Client, m, rest);
    EncodedParts(Worker, m, rest);
  }

  // ------------------------------------------------------------------ many frames

  function EncodeAll(f: Framing, ms: seq<Message>): seq<byte> {
    if ms == [] then [] else Encode(f, ms[0]) + EncodeAll(f, ms[1..])
  }

  predicate Sendable(f: Framing, ms: seq<Message>) {
    forall i :: 0 <= i < |ms| ==> BodyLength(f, ms[i]) <= LIMIT
  }

  predicate IsShort(e: Error) { e.ShortLength? || e.ShortType? || e.ShortPayload? }

  /** How many of the frames lie wholly within the first `n` bytes. */
  function Whole(f: Framing, ms: seq<Message>, n: nat): (k: nat)
    ensures k <= |ms|
  {
    if ms == [] || |Encode(f, ms[0])| > n then 0 else 1 + Whole(f, ms[1..], n - |Encode(f, ms[0])|)
  }

  /** `Whole` is the largest number of frames that fit. */
  lemma {:induction false} WholeIsMost(f: Framing, ms: seq<Message>, n: nat, k: nat)
    requires k <= |ms|
    ensures |EncodeAll(f, ms[..k])| <= n <==> k <= Whole(f, ms, n)
  {
    if k > 0 {
      assert ms[..k][1..] == ms[1..][..k - 1];
      if |Encode(f, ms[0])| <= n { WholeIsMost(f, ms[1..], n - |Encode(f, ms[0])|, k - 1); }
    }
  }

  lemma ShortRead(f: Framing, s: seq<byte>, len: nat)
    requires |s| >= 4 ==> FromBytes(s[..4]) == len
    requires len <= LIMIT && |s| < 4 + len + if f.Worker? then 1 else 0
    ensures ReadFrame(f, s).Broken? && IsShort(ReadFrame(f, s).error)
  {
  }

  lemma ShortFrame(f: Framing, m: Message, n: nat)
    requires n < |Encode(f, m)| && BodyLength(f, m) <= LIMIT
    ensures ReadFrame(f, Encode(f, m)[..n]).Broken? && IsShort(ReadFrame(f, Encode(f, m)[..n]).error)
  {
    var s := Encode(f, m);
    assert s[..4] == ToBytes(BodyLength(f, m));
    FromToBytes(BodyLength(f, m));
    if n >= 4 { assert s[..n][..4] == s[..4]; }
    ShortRead(f, s[..n], BodyLength(f, m));
  }

  lemma ReadAllCons(f: Framing, m: Message, rest: seq<byte>)
    requires BodyLength(f, m) <= LIMIT
    ensures ReadAll(f, Encode(f, m) + rest) == Session([m] + ReadAll(f, rest).messages, ReadAll(f, rest).error)
  {
    FrameRoundTrip(f, m, rest);
  }

  /** Reading yields these messages and then runs short. */
  predicate ReadsShort(f: Framing, s: seq<byte>, ms: seq<Message>) {
    ReadAll(f, s).messages == ms && IsShort(ReadAll(f, s).error)
  }

  lemma CutInside(f: Framing, m: Message, rest: seq<byte>, n: nat)
    requires n < |Encode(f, m)| && BodyLength(f, m) <= LIMIT
    ensures ReadsShort(f, (Encode(f, m) + rest)[..n], [])
  {
    assert (Encode(f, m) + rest)[..n] == Encode(f, m)[..n];
    ShortFrame(f, m, n);
  }

  lemma CutBeyond(f: Framing, m: Message, rest: seq<byte>, n: nat, got: seq<Message>)
    requires |Encode(f, m)| <= n <= |Encode(f, m)| + |rest| && BodyLength(f, m) <= LIMIT
    requires ReadsShort(f, rest[..n - |Encode(f, m)|], got)
    ensures ReadsShort(f, (Encode(f, m) + rest)[..n], [m] + got)
  {
    var head := Encode(f, m);
    assert (head + rest)[..n] == head + rest[..n - |head|];
    ReadAllCons(f, m, rest[..n - |head|]);
  }

  lemma WholeCons(f: Framing, ms: seq<Message>, n: nat)
    requires ms != [] && |Encode(f, ms[0])| <= n
    ensures ms[..Whole(f, ms, n)] == [ms[0]] + ms[1..][..Whole(f, ms[1..], n - |Encode(f, ms[0])|)]
  {
  }

  /** A stream cut anywhere yields exactly the frames wholly before the cut, then a short-read error. */
  lemma {:induction false} CutStream(f: Framing, ms: seq<Message>, n: nat)
    requires Sendable(f, ms) && n <= |EncodeAll(f, ms)|
    ensures ReadsShort(f, EncodeAll(f, ms)[..n], ms[..Whole(f, ms, n)])
  {
    if ms != [] {
      var size := |Encode(f, ms[0])|;
      if size > n {
        CutInside(f, ms[0], EncodeAll(f, ms[1..]), n);
      } else {
        CutStream(f, ms[1..], n - size);
        CutBeyond(f, ms[0], EncodeAll(f, ms[1..]), n, ms[1..][..Whole(f, ms[1..], n - size)]);
        WholeCons(f, ms, n);
      }
    }
  }

  /** Any sequence of frames within the limit is read back whole, every byte consumed: the reader
      stops only because the stream is at its end. */
  lemma {:induction false} WholeStream(f: Framing, ms: seq<Message>)
    requires Sendable(f, ms)
    ensures ReadAll(f, EncodeAll(f, ms)) == Session(ms, ShortLength)
  {
    if ms != [] {
      ReadAllCons(f, ms[0], EncodeAll(f, ms[1..]));
      WholeStream(f, ms[1..]);
    }
  }

  /** So two streams of frames are the same bytes only if they are the same messages. */
  lemma StreamsDetermineMessages(f: Framing, ms: seq<Message>, ns: seq<Message>)
    requires Sendable(f, ms) && Sendable(f, ns) && EncodeAll(f, ms) == EncodeAll(f, ns)
    ensures ms == ns
  {
    WholeStream(f, ms);
    WholeStream(f, ns);
  }
}
