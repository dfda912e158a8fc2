/** The command channel of the routing protocol: what is in it, in which order it is taken out, and
    whose requests it carries. */
module RoutingCommands {
  import opened Options
  import opened Routing
  import opened RoutingProtocol

  // ------------------------------------------------------------------ first in, first out

  /** What this move puts into the channel. */
  function Puts(s: State, m: Move): seq<Command> {
    if !CanMove(s, m) || s.closed then []
    else
      match m
      case Send(r) => [Infer(r, s.callers[r].worker)]
      case AskDisconnect(w) => [WorkerDisconnect(w)]
      case _ => []
  }

  /** Everything ever put into it, in order. */
  function AllPut(ms: seq<Move>): seq<Command> {
    if ms == [] then [] else AllPut(ms[..|ms| - 1]) + Puts(Exec(ms[..|ms| - 1]), ms[|ms| - 1])
  }

  /** How often the processor has taken a command. */
  function Taken(ms: seq<Move>): nat {
    if ms == [] then 0
    else Taken(ms[..|ms| - 1]) + if ms[|ms| - 1].TakeCommand? && CanMove(Exec(ms[..|ms| - 1]), TakeCommand) then 1 else 0
  }

  lemma QueueStep(s: State, m: Move)
    requires CanMove(s, m)
    ensures Step(s, m).queue == (if m.TakeCommand? then s.queue[1..] else s.queue) + Puts(s, m)
  {
  }

  lemma DropOne<T>(s: seq<T>, n: nat, t: seq<T>)
    requires n <= |s|
    ensures s[n..] + t == (s + t)[n..]
    ensures n < |s| ==> s[n..][1..] == s[n + 1..]
  {
  }

  /** Commands are taken in the order in which they were put in: those taken are the first of all that
      were ever put in, and the channel holds the rest. */
  lemma {:induction false} FirstInFirstOut(ms: seq<Move>)
    ensures Taken(ms) <= |AllPut(ms)| && Exec(ms).queue == AllPut(ms)[Taken(ms)..]
  {
    if ms != [] {
      var front, m := ms[..|ms| - 1], ms[|ms| - 1];
      FirstInFirstOut(front);
      DropOne(AllPut(front), Taken(front), Puts(Exec(front), m));
      if CanMove(Exec(front), m) {
        QueueStep(Exec(front), m);
        if m.TakeCommand? { DropOne(AllPut(front), Taken(front) + 1, []); }
      }
      assert Exec(front).queue + [] == Exec(front).queue;
    }
  }

  /** Never more than a hundred commands wait. */
  lemma {:induction false} AtMostAHundred(ms: seq<Move>)
    ensures |Exec(ms).queue| <= 100
  {
    if ms != [] {
      var front, m := ms[..|ms| - 1], ms[|ms| - 1];
      AtMostAHundred(front);
      if CanMove(Exec(front), m) { QueueStep(Exec(front), m); }
    }
  }

  // ------------------------------------------------------------------ whose commands they are

  /** The caller of this request chose this worker and has sent its command. */
  predicate SentBy(s: State, r: RequestId, w: WorkerId) {
    r in s.callers && s.callers[r].worker == w && IsSent(s.callers[r].pc)
  }

  predicate IsSent(pc: Pc) {
    pc.Awaiting? || pc.Elapsed? || pc.Awake? || pc.Unmarked? || pc.Returned?
  }

  predicate Owned(s: State, c: Command) { c.Infer? ==> SentBy(s, c.r, c.worker) }

  /** The command the processor is busy with. */
  predicate ProcessorOwned(s: State) {
    s.processor.Sending? || s.processor.Cancelling? ==> SentBy(s, s.processor.r, s.processor.worker)
  }

  predicate CommandsInv(s: State) {
    (forall k :: 0 <= k < |s.queue| ==> Owned(s, s.queue[k])) && ProcessorOwned(s)
  }

  lemma OwnSentStays(s: State, m: Move, r: RequestId, w: WorkerId)
    requires CanMove(s, m) && SentBy(s, r, w) && Mover(m) == Some(r)
    ensures SentBy(CallerStep(s, m), r, w)
  {
  }

  lemma SentStays(s: State, m: Move, r: RequestId, w: WorkerId)
    requires CanMove(s, m) && SentBy(s, r, w)
    ensures SentBy(Step(s, m), r, w)
  {
    if Mover(m) == Some(r) { OwnSentStays(s, m, r, w); } else { OthersCallers(s, m, r); }
  }

  lemma PutOwned(s: State, m: Move)
    requires CanMove(s, m)
    ensures forall k :: 0 <= k < |Puts(s, m)| ==> Owned(Step(s, m), Puts(s, m)[k])
  {
  }

  lemma ProcessorAfter(s: State, m: Move)
    requires CanMove(s, m)
    ensures var t := Step(s, m);
            t.processor.Sending? || t.processor.Cancelling? ==>
              (m.TakeCommand? && s.queue[0] == Infer(t.processor.r, t.processor.worker))
              || ((s.processor.Sending? || s.processor.Cancelling?)
                  && s.processor.r == t.processor.r && s.processor.worker == t.processor.worker)
  {
  }

  lemma CommandsKept(s: State, m: Move)
    requires CanMove(s, m) && CommandsInv(s)
    ensures CommandsInv(Step(s, m))
  {
    var t := Step(s, m);
    QueueStep(s, m);
    PutOwned(s, m);
    ProcessorAfter(s, m);
    forall k | 0 <= k < |s.queue| ensures Owned(t, s.queue[k]) {
      assert Owned(s, s.queue[k]);
      if s.queue[k].Infer? { SentStays(s, m, s.queue[k].r, s.queue[k].worker); }
    }
    if (s.processor.Sending? || s.processor.Cancelling?) { SentStays(s, m, s.processor.r, s.processor.worker); }
  }

  /** Each request that waits in the channel, is being sent or is being cleaned up after is that of a
      caller that has sent it, and for the worker this caller chose. */
  lemma {:induction false} CommandsAreTheirCallers(ms: seq<Move>)
    ensures CommandsInv(Exec(ms))
  {
    if ms != [] {
      var front, m := ms[..|ms| - 1], ms[|ms| - 1];
      CommandsAreTheirCallers(front);
      if CanMove(Exec(front), m) { CommandsKept(Exec(front), m); }
    }
  }

  // ------------------------------------------------------------------ since when a request is pending

  lemma EntryStep(s: State, m: Move, r: RequestId)
    requires CanMove(s, m) && r in Step(s, m).desk.pending
    ensures (m.Store? && m.r == r && Step(s, m).desk.pending[r] == PendingRequest(s.callers[r].worker, m.now))
            || (r in s.desk.pending && Step(s, m).desk.pending[r] == s.desk.pending[r])
  {
    if Mover(m).Some? { OwnEntryStep(s, m, r); } else { OtherEntryStep(s, m, r); }
  }

  lemma OwnEntryStep(s: State, m: Move, r: RequestId)
    requires CanMove(s, m) && Mover(m).Some? && r in CallerStep(s, m).desk.pending
    ensures (m.Store? && m.r == r && CallerStep(s, m).desk.pending[r] == PendingRequest(s.callers[r].worker, m.now))
            || (r in s.desk.pending && CallerStep(s, m).desk.pending[r] == s.desk.pending[r])
  {
  }

  lemma OtherEntryStep(s: State, m: Move, r: RequestId)
    requires CanMove(s, m) && Mover(m).None? && r in OtherStep(s, m).desk.pending
    ensures r in s.desk.pending && OtherStep(s, m).desk.pending[r] == s.desk.pending[r]
  {
  }

  /** A pending entry carries the time at which its caller stored it, and the worker it had chosen. */
  lemma {:induction false} PendingSince(ms: seq<Move>, r: RequestId) returns (i: nat)
    requires r in Exec(ms).desk.pending
    ensures i < |ms| && CanMove(Exec(ms[..i]), ms[i]) && ms[i] == Store(r, Exec(ms).desk.pending[r].createdAt)
    ensures Exec(ms).desk.pending[r].worker == Exec(ms[..i]).callers[r].worker
  {
    var n := |ms| - 1;
    var p := Exec(ms[..n]);
    if CanMove(p, ms[n]) { EntryStep(p, ms[n], r); }
    if CanMove(p, ms[n]) && ms[n].Store? && ms[n].r == r {
      i := n;
    } else {
      i := PendingSince(ms[..n], r);
      assert ms[..n][..i] == ms[..i];
    }
  }

  // ------------------------------------------------------------------ what can happen at any time

  /** Responses, cancellations, disconnects and the loss of the channel come at any time, calls under any
      fresh id; a disconnect is asked for while the channel is open and not full. */
  lemma AtAnyTime(s: State, r: RequestId, w: WorkerId, reply: Response)
    ensures CanMove(s, Respond(reply)) && CanMove(s, Cancel(r)) && CanMove(s, Disconnect(w)) && CanMove(s, CloseChannel)
    ensures CanMove(s, Call(r)) <==> r !in s.callers
    ensures CanMove(s, AskDisconnect(w)) <==> !s.closed && |s.queue| < 100
    ensures forall info :: CanMove(s, RoutingProtocol.Move.Register(w, info)) <==> info.state == Online
  {
  }

  /** A caller takes an idle worker whenever there is one as it looks, else one that is online, and gives
      up exactly when there is none. */
  lemma ChoiceOfWorker(s: State, r: RequestId, w: WorkerId)
    ensures CanMove(s, LookForIdle(r, w)) && (exists v :: v in s.workers && s.workers[v].state == Idle) ==>
              w in s.workers && s.workers[w].state == Idle && CallerStep(s, LookForIdle(r, w)).callers[r] == Caller(w, Chosen)
    ensures CanMove(s, LookForIdle(r, w)) && (forall v :: v in s.workers ==> s.workers[v].state != Idle) ==>
              CallerStep(s, LookForIdle(r, w)).callers[r].pc == FoundNoneIdle
    ensures CanMove(s, LookForOnline(r, w)) && (exists v :: v in s.workers && s.workers[v].state != Offline) ==>
              w in s.workers && s.workers[w].state != Offline && CallerStep(s, LookForOnline(r, w)).callers[r] == Caller(w, Chosen)
    ensures CanMove(s, LookForOnline(r, w)) && (forall v :: v in s.workers ==> s.workers[v].state == Offline) ==>
              CallerStep(s, LookForOnline(r, w)).callers[r].pc == NoWorkers
  {
    if CanMove(s, LookForIdle(r, w)) {
      if v :| v in s.workers && s.workers[v].state == Idle { assert IsIdle(s.workers, v); }
    }
    if CanMove(s, LookForOnline(r, w)) {
      if v :| v in s.workers && s.workers[v].state != Offline { assert IsOnline(s.workers, v); }
    }
  }
}
