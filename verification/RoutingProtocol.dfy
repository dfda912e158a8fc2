/** Inference routing as a transition system: callers of `send_inference_request`, the command
    processor, worker readers, cancellations, registrations and disconnects, where every access
    to a shared map or channel is one step. */
module RoutingProtocol {
  import opened Options
  import opened Routing

  const CHANNEL_CAPACITY := 100

  datatype Outcome = Reply(response: Response) | TimedOut

  /** Where a caller stands; each name says what it has just done. */
  datatype Pc =
    | Selecting             // nothing yet
    | FoundNoneIdle         // the list of idle workers was empty
    | NoWorkers             // returned an error, nothing was sent
    | Chosen                // has a worker
    | Stored                // pending entry inserted
    | Marked                // worker marked busy
    | Awaiting              // command sent
    | Elapsed               // saw an empty channel for the last time, receiver not dropped yet
    | Awake(out: Outcome)   // wait over, receiver dropped
    | Unmarked(out: Outcome)  // worker marked idle
    | Returned(out: Outcome)  // own entry removed
    | Refused               // the command channel was closed, receiver not dropped yet
    | Rejected              // returned early

  datatype Caller = Caller(worker: WorkerId, pc: Pc)

  datatype Command = Infer(r: RequestId, worker: WorkerId) | WorkerDisconnect(worker: WorkerId)

  /** The one task that reads the command channel. */
  datatype Processor =
    | Ready
    | Sending(r: RequestId, worker: WorkerId)
    | Cancelling(r: RequestId, worker: WorkerId)
    | Reverting(worker: WorkerId)

  datatype State = State(
    workers: Workers,
    desk: Desk,
    callers: map<RequestId, Caller>,
    queue: seq<Command>,
    closed: bool,
    processor: Processor)

  const INIT := State(map[], EMPTY, map[], [], false, Ready)

  datatype Move =
    | Call(r: RequestId)                                // a fresh request id
    | LookForIdle(r: RequestId, worker: WorkerId)
    | LookForOnline(r: RequestId, worker: WorkerId)
    | Store(r: RequestId, now: int)
    | MarkBusy(r: RequestId)
    | Send(r: RequestId)
    | Receive(r: RequestId)
    | TimeOut(r: RequestId)
    | Drop(r: RequestId)                                // the receiver goes out of scope
    | MarkIdle(r: RequestId)
    | Remove(r: RequestId)
    | Respond(reply: Response)                          // a reader decoded a response
    | Cancel(id: RequestId)                             // cancel_request, also from a stale sweep
    | Register(worker: WorkerId, info: WorkerInfo)
    | Disconnect(worker: WorkerId)
    | AskDisconnect(worker: WorkerId)                   // enqueue a WorkerDisconnect
    | TakeCommand
    | SendDone | SendFailed | SendLost                  // Ok, Err and join error of the blocking send
    | CancelFailed | RevertFailed                       // the two clean-up steps after Err
    | CloseChannel                                      // the receiver is gone

  predicate At(s: State, r: RequestId, pc: Pc) {
    r in s.callers && s.callers[r].pc == pc
  }

  predicate SomeIdle(workers: Workers) { exists v :: v in workers && IsIdle(workers, v) }

  predicate SomeOnline(workers: Workers) { exists v :: v in workers && IsOnline(workers, v) }

  predicate CanMove(s: State, m: Move) {
    match m
    case Call(r) => r !in s.callers
    case LookForIdle(r, w) => At(s, r, Selecting) && (SomeIdle(s.workers) ==> IsIdle(s.workers, w))
    case LookForOnline(r, w) => At(s, r, FoundNoneIdle) && (SomeOnline(s.workers) ==> IsOnline(s.workers, w))
    case Store(r, _) => At(s, r, Chosen)
    case MarkBusy(r) => At(s, r, Stored)
    case Send(r) => At(s, r, Marked) && (s.closed || |s.queue| < CHANNEL_CAPACITY)
    case Receive(r) => At(s, r, Awaiting) && Entered(s.desk, r) != []
    case TimeOut(r) => At(s, r, Awaiting) && Entered(s.desk, r) == []
    case Drop(r) => r in s.callers && (s.callers[r].pc.Elapsed? || s.callers[r].pc.Refused?)
    case MarkIdle(r) => r in s.callers && s.callers[r].pc.Awake?
    case Remove(r) => r in s.callers && s.callers[r].pc.Unmarked?
    case Respond(_) => true
    case Cancel(_) => true
    case Register(_, info) => info.state.Online?
    case Disconnect(_) => true
    case AskDisconnect(_) => !s.closed && |s.queue| < CHANNEL_CAPACITY
    case TakeCommand => s.processor.Ready? && !s.closed && s.queue != []
    case SendDone | SendFailed | SendLost => s.processor.Sending?
    case CancelFailed => s.processor.Cancelling?
    case RevertFailed => s.processor.Reverting?
    case CloseChannel => true
  }

  function Goto(s: State, r: RequestId, pc: Pc): State
    requires r in s.callers
  {
    s.(callers := s.callers[r := s.callers[r].(pc := pc)])
  }

  /** A caller goes on without its receiver. */
  function GotoDeaf(s: State, r: RequestId, pc: Pc): State
    requires r in s.callers
  {
    Goto(s.(desk := s.desk.(listening := s.desk.listening - {r})), r, pc)
  }

  function CallerStep(s: State, m: Move): State
    requires CanMove(s, m)
  {
    match m
    case Call(r) => s.(callers := s.callers[r := Caller("", Selecting)])
    case LookForIdle(r, w) =>
      if IsIdle(s.workers, w) then s.(callers := s.callers[r := Caller(w, Chosen)]) else Goto(s, r, FoundNoneIdle)
    case LookForOnline(r, w) =>
      if IsOnline(s.workers, w) then s.(callers := s.callers[r := Caller(w, Chosen)]) else Goto(s, r, NoWorkers)
    case Store(r, now) =>
      Goto(s.(desk := Inserted(s.desk, r, PendingRequest(s.callers[r].worker, now))), r, Stored)
    case MarkBusy(r) => Goto(s.(workers := WithState(s.workers, s.callers[r].worker, Busy)), r, Marked)
    case Send(r) =>
      if s.closed then Goto(s, r, Refused)
      else Goto(s.(queue := s.queue + [Infer(r, s.callers[r].worker)]), r, Awaiting)
    case Receive(r) => GotoDeaf(s, r, Awake(Reply(Entered(s.desk, r)[0])))
    case TimeOut(r) => Goto(s, r, Elapsed)
    case Drop(r) => GotoDeaf(s, r, if s.callers[r].pc.Elapsed? then Awake(TimedOut) else Rejected)
    case MarkIdle(r) =>
      Goto(s.(workers := WithState(s.workers, s.callers[r].worker, Idle)), r, Unmarked(s.callers[r].pc.out))
    case Remove(r) => Goto(s.(desk := TakenOut(s.desk, r, ByCaller)), r, Returned(s.callers[r].pc.out))
    case _ => s
  }

  function OtherStep(s: State, m: Move): State
    requires CanMove(s, m)
  {
    match m
    case Respond(reply) => s.(desk := Settled(s.desk, reply.requestId, reply, ByResponse))
    case Cancel(id) => s.(desk := Settled(s.desk, id, Cancelled(id), ByCancel))
    case Register(w, info) => s.(workers := s.workers[w := info])
    case Disconnect(w) => s.(workers := s.workers - {w})
    case AskDisconnect(w) => s.(queue := s.queue + [WorkerDisconnect(w)])
    case TakeCommand =>
      var t := s.(queue := s.queue[1..]);
      (match s.queue[0]
       case Infer(r, w) => t.(processor := Sending(r, w))
       case WorkerDisconnect(w) => t.(workers := s.workers - {w}))
    case SendDone | SendLost => s.(processor := Ready)
    case SendFailed => s.(processor := Cancelling(s.processor.r, s.processor.worker))
    case CancelFailed =>
      s.(desk := Settled(s.desk, s.processor.r, Cancelled(s.processor.r), ByCancel), processor := Reverting(s.processor.worker))
    case RevertFailed => s.(workers := WithState(s.workers, s.processor.worker, Idle), processor := Ready)
    case CloseChannel => s.(closed := true)
    case _ => s
  }

  /** The caller a move belongs to. */
  function Mover(m: Move): Option<RequestId> {
    match m
    case Call(r) => Some(r)
    case LookForIdle(r, _) => Some(r)
    case LookForOnline(r, _) => Some(r)
    case Store(r, _) => Some(r)
    case MarkBusy(r) => Some(r)
    case Send(r) => Some(r)
    case Receive(r) => Some(r)
    case TimeOut(r) => Some(r)
    case Drop(r) => Some(r)
    case MarkIdle(r) => Some(r)
    case Remove(r) => Some(r)
    case _ => None
  }

  function Step(s: State, m: Move): State
    requires CanMove(s, m)
  {
    if Mover(m).Some? then CallerStep(s, m) else OtherStep(s, m)
  }

  /** Moves that are not possible are skipped, so every list of moves is a run. */
  function Exec(ms: seq<Move>): State {
    if ms == [] then INIT
    else
      var s := Exec(ms[..|ms| - 1]);
      if CanMove(s, ms[|ms| - 1]) then Step(s, ms[|ms| - 1]) else s
  }

  // ------------------------------------------------------------------ one request

  /** Everything the state says about one request. */
  datatype Facts = Facts(
    caller: Option<Caller>, pending: Option<PendingRequest>, listening: bool, entered: seq<Response>, removed: seq<Remover>)

  function FactsOf(s: State, r: RequestId): Facts {
    Facts(if r in s.callers then Some(s.callers[r]) else None,
          if r in s.desk.pending then Some(s.desk.pending[r]) else None,
          r in s.desk.listening, Entered(s.desk, r), Removed(s.desk, r))
  }

  predicate Untouched(f: Facts) {
    f.pending.None? && !f.listening && f.entered == [] && f.removed == []
  }

  /** Either still pending, or taken out once by a response or a cancellation that put its one
      reply in the channel; the reply names the request. */
  predicate Live(r: RequestId, f: Facts)
    requires f.caller.Some?
  {
    && (f.pending.Some? ==> f.entered == [] && f.removed == [] && f.pending.value.worker == f.caller.value.worker)
    && (f.pending.None? ==>
          |f.removed| == 1 && |f.entered| == 1 && f.entered[0].requestId == r
          && !f.removed[0].ByCaller? && (f.removed[0].ByCancel? ==> f.entered[0] == Cancelled(r)))
  }

  /** Nobody listens any more.  A reply that entered after the last look at the channel is lost. */
  predicate Deaf(r: RequestId, f: Facts)
    requires f.caller.Some?
  {
    && !f.listening && |f.entered| <= 1
    && (f.pending.Some? ==> f.entered == [] && f.removed == [] && f.pending.value.worker == f.caller.value.worker)
    && (f.pending.None? ==> |f.removed| == 1)
    && (f.entered != [] ==>
          f.entered[0].requestId == r && !f.removed[0].ByCaller? && (f.removed[0].ByCancel? ==> f.entered[0] == Cancelled(r)))
  }

  /** The wait is over; what was received is what the channel holds. */
  predicate Over(r: RequestId, f: Facts, out: Outcome)
    requires f.caller.Some?
  {
    Deaf(r, f) && (out.Reply? ==> f.pending.None? && f.entered == [out.response])
  }

  predicate NotByCaller(removed: seq<Remover>) { removed != [] ==> !removed[0].ByCaller? }

  predicate Sound(r: RequestId, f: Facts)
    requires f.caller.Some?
  {
    match f.caller.value.pc
    case Selecting | FoundNoneIdle | NoWorkers | Chosen => Untouched(f)
    case Stored | Marked | Awaiting | Elapsed | Refused => f.listening && Live(r, f)
    case Awake(out) => Over(r, f, out) && NotByCaller(f.removed)
    case Unmarked(out) => Over(r, f, out) && NotByCaller(f.removed)
    case Returned(out) => Over(r, f, out) && f.pending.None?
    case Rejected => Deaf(r, f) && NotByCaller(f.removed)
  }

  predicate RequestInv(s: State, r: RequestId) {
    var f := FactsOf(s, r);
    if f.caller.None? then Untouched(f) else Sound(r, f)
  }

  ghost predicate RequestsInv(s: State) {
    forall r :: RequestInv(s, r)
  }

  // ------------------------------------------------------------------ busy workers

  predicate MarkStands(pc: Pc) {
    pc.Marked? || pc.Awaiting? || pc.Elapsed? || pc.Awake? || pc.Refused? || pc.Rejected?
  }

  /** A caller that has marked worker `w` busy and not yet marked it idle. */
  predicate Holds(s: State, w: WorkerId, r: RequestId) {
    r in s.callers && s.callers[r].worker == w
    && MarkStands(s.callers[r].pc)
  }

  ghost predicate BusyInv(s: State) {
    forall w :: IsBusy(s.workers, w) ==> exists r :: Holds(s, w, r)
  }

  /** Only a closed channel makes a caller fail. */
  predicate RejectedInv(s: State) {
    !s.closed ==> forall r :: r in s.callers ==> !s.callers[r].pc.Refused? && !s.callers[r].pc.Rejected?
  }

  ghost predicate Inv(s: State) { RequestsInv(s) && BusyInv(s) && RejectedInv(s) }

  // ------------------------------------------------------------------ every step keeps it

  lemma CallKeeps(s: State, r: RequestId)
    requires CanMove(s, Call(r)) && RequestInv(s, r)
    ensures RequestInv(CallerStep(s, Call(r)), r)
  {
  }

  lemma LookForIdleKeeps(s: State, r: RequestId, w: WorkerId)
    requires CanMove(s, LookForIdle(r, w)) && RequestInv(s, r)
    ensures RequestInv(CallerStep(s, LookForIdle(r, w)), r)
  {
  }

  lemma LookForOnlineKeeps(s: State, r: RequestId, w: WorkerId)
    requires CanMove(s, LookForOnline(r, w)) && RequestInv(s, r)
    ensures RequestInv(CallerStep(s, LookForOnline(r, w)), r)
  {
  }

  lemma StoreKeeps(s: State, r: RequestId, now: int)
    requires CanMove(s, Store(r, now)) && RequestInv(s, r)
    ensures RequestInv(CallerStep(s, Store(r, now)), r)
  {
  }

  lemma MarkBusyKeeps(s: State, r: RequestId)
    requires CanMove(s, MarkBusy(r)) && RequestInv(s, r)
    ensures RequestInv(CallerStep(s, MarkBusy(r)), r)
  {
  }

  lemma SendKeeps(s: State, r: RequestId)
    requires CanMove(s, Send(r)) && RequestInv(s, r)
    ensures RequestInv(CallerStep(s, Send(r)), r)
  {
  }

  lemma ReceiveKeeps(s: State, r: RequestId)
    requires CanMove(s, Receive(r)) && RequestInv(s, r)
    ensures RequestInv(CallerStep(s, Receive(r)), r)
  {
  }

  lemma TimeOutKeeps(s: State, r: RequestId)
    requires CanMove(s, TimeOut(r)) && RequestInv(s, r)
    ensures RequestInv(CallerStep(s, TimeOut(r)), r)
  {
  }

  lemma DropKeeps(s: State, r: RequestId)
    requires CanMove(s, Drop(r)) && RequestInv(s, r)
    ensures RequestInv(CallerStep(s, Drop(r)), r)
  {
  }

  lemma MarkIdleKeeps(s: State, r: RequestId)
    requires CanMove(s, MarkIdle(r)) && RequestInv(s, r)
    ensures RequestInv(CallerStep(s, MarkIdle(r)), r)
  {
  }

  lemma RemoveKeeps(s: State, r: RequestId)
    requires CanMove(s, Remove(r)) && RequestInv(s, r)
    ensures RequestInv(CallerStep(s, Remove(r)), r)
  {
  }

  /** Up to its mark a caller makes these moves. */
  predicate Early(m: Move) {
    m.Call? || m.LookForIdle? || m.LookForOnline? || m.Store? || m.MarkBusy?
  }

  lemma EarlyKeeps(s: State, m: Move)
    requires CanMove(s, m) && Early(m) && RequestInv(s, Mover(m).value)
    ensures RequestInv(CallerStep(s, m), Mover(m).value)
  {
    match m
    case Call(r) => CallKeeps(s, r);
    case LookForIdle(r, w) => LookForIdleKeeps(s, r, w);
    case LookForOnline(r, w) => LookForOnlineKeeps(s, r, w);
    case Store(r, now) => StoreKeeps(s, r, now);
    case MarkBusy(r) => MarkBusyKeeps(s, r);
  }

  lemma LateKeeps(s: State, m: Move)
    requires CanMove(s, m) && Mover(m).Some? && !Early(m) && RequestInv(s, Mover(m).value)
    ensures RequestInv(CallerStep(s, m), Mover(m).value)
  {
    match m
    case Send(r) => SendKeeps(s, r);
    case Receive(r) => ReceiveKeeps(s, r);
    case TimeOut(r) => TimeOutKeeps(s, r);
    case Drop(r) => DropKeeps(s, r);
    case MarkIdle(r) => MarkIdleKeeps(s, r);
    case Remove(r) => RemoveKeeps(s, r);
  }

  lemma CallerKeepsOwn(s: State, m: Move)
    requires CanMove(s, m) && Mover(m).Some? && RequestInv(s, Mover(m).value)
    ensures RequestInv(CallerStep(s, m), Mover(m).value)
  {
    if Early(m) { EarlyKeeps(s, m); } else { LateKeeps(s, m); }
  }

  lemma CallerKeepsOthers(s: State, m: Move, q: RequestId)
    requires CanMove(s, m) && Mover(m).Some? && q != Mover(m).value
    ensures FactsOf(CallerStep(s, m), q) == FactsOf(s, q)
  {
  }

  lemma SettledKeeps(s: State, id: RequestId, reply: Response, why: Remover, q: RequestId)
    requires RequestInv(s, q) && reply.requestId == id && !why.ByCaller? && (why.ByCancel? ==> reply == Cancelled(id))
    ensures RequestInv(s.(desk := Settled(s.desk, id, reply, why)), q)
  {
    if q != id {
      assert FactsOf(s.(desk := Settled(s.desk, id, reply, why)), q) == FactsOf(s, q);
    }
  }

  lemma OtherKeeps(s: State, m: Move, q: RequestId)
    requires CanMove(s, m) && Mover(m).None? && RequestInv(s, q)
    ensures RequestInv(OtherStep(s, m), q)
  {
    match m
    case Respond(reply) => SettledKeeps(s, reply.requestId, reply, ByResponse, q);
    case Cancel(id) => SettledKeeps(s, id, Cancelled(id), ByCancel, q);
    case CancelFailed => SettledKeeps(s, s.processor.r, Cancelled(s.processor.r), ByCancel, q);
    case _ =>
  }

  lemma RequestKept(s: State, m: Move, q: RequestId)
    requires CanMove(s, m) && RequestInv(s, q)
    ensures RequestInv(Step(s, m), q)
  {
    if Mover(m).None? {
      OtherKeeps(s, m, q);
    } else if Mover(m).value == q {
      CallerKeepsOwn(s, m);
    } else {
      CallerKeepsOthers(s, m, q);
    }
  }

  lemma RequestsKept(s: State, m: Move)
    requires CanMove(s, m) && RequestsInv(s)
    ensures RequestsInv(Step(s, m))
  {
    forall q ensures RequestInv(Step(s, m), q) {
      assert RequestInv(s, q);
      RequestKept(s, m, q);
    }
  }

  /** This move marks worker `w` busy. */
  predicate Marks(s: State, m: Move, w: WorkerId) {
    CanMove(s, m) && m.MarkBusy? && s.callers[m.r].worker == w && w in s.workers
  }

  /** This move takes the mark from worker `w`, or `w` out of the registry. */
  predicate Clears(s: State, m: Move, w: WorkerId) {
    CanMove(s, m) &&
    match m
    case MarkIdle(r) => s.callers[r].worker == w
    case RevertFailed => s.processor.worker == w
    case Register(v, _) => v == w
    case Disconnect(v) => v == w
    case TakeCommand => s.queue[0] == WorkerDisconnect(w)
    case _ => false
  }

  lemma CallerBusyStep(s: State, m: Move, w: WorkerId)
    requires CanMove(s, m) && Mover(m).Some?
    ensures IsBusy(CallerStep(s, m).workers, w) <==> Marks(s, m, w) || (IsBusy(s.workers, w) && !Clears(s, m, w))
  {
  }

  lemma OtherBusyStep(s: State, m: Move, w: WorkerId)
    requires CanMove(s, m) && Mover(m).None?
    ensures IsBusy(OtherStep(s, m).workers, w) <==> Marks(s, m, w) || (IsBusy(s.workers, w) && !Clears(s, m, w))
  {
  }

  /** A worker is busy after a step exactly when the step marks it, or it was busy and is not cleared. */
  lemma BusyStep(s: State, m: Move, w: WorkerId)
    requires CanMove(s, m)
    ensures IsBusy(Step(s, m).workers, w) <==> Marks(s, m, w) || (IsBusy(s.workers, w) && !Clears(s, m, w))
  {
    if Mover(m).Some? { CallerBusyStep(s, m, w); } else { OtherBusyStep(s, m, w); }
  }

  lemma CallersOfOthers(s: State, m: Move, r: RequestId)
    requires CanMove(s, m) && Mover(m).Some? && Mover(m) != Some(r)
    ensures r in CallerStep(s, m).callers <==> r in s.callers
    ensures r in s.callers ==> CallerStep(s, m).callers[r] == s.callers[r]
  {
  }

  lemma CallersLeftAlone(s: State, m: Move)
    requires CanMove(s, m) && Mover(m).None?
    ensures OtherStep(s, m).callers == s.callers
  {
  }

  lemma OthersCallers(s: State, m: Move, r: RequestId)
    requires CanMove(s, m) && Mover(m) != Some(r)
    ensures r in Step(s, m).callers <==> r in s.callers
    ensures r in s.callers ==> Step(s, m).callers[r] == s.callers[r]
  {
    if Mover(m).Some? { CallersOfOthers(s, m, r); } else { CallersLeftAlone(s, m); }
  }

  lemma OwnHoldStays(s: State, m: Move, w: WorkerId, r: RequestId)
    requires CanMove(s, m) && Mover(m) == Some(r) && Holds(s, w, r) && !Clears(s, m, w)
    ensures Holds(CallerStep(s, m), w, r)
  {
  }

  lemma HolderStays(s: State, m: Move, w: WorkerId, r: RequestId)
    requires CanMove(s, m) && Holds(s, w, r) && !Clears(s, m, w)
    ensures Holds(Step(s, m), w, r)
  {
    if Mover(m) == Some(r) { OwnHoldStays(s, m, w, r); } else { OthersCallers(s, m, r); }
  }

  /** Whoever holds a worker after a step: the caller that just marked it, or one that held it before. */
  lemma BusyKept(s: State, m: Move)
    requires CanMove(s, m) && BusyInv(s)
    ensures BusyInv(Step(s, m))
  {
    forall w | IsBusy(Step(s, m).workers, w) ensures exists r :: Holds(Step(s, m), w, r) {
      BusyStep(s, m, w);
      if Marks(s, m, w) {
        assert Holds(Step(s, m), w, m.r);
      } else {
        var r :| Holds(s, w, r);
        HolderStays(s, m, w, r);
      }
    }
  }

  lemma OwnRejected(s: State, m: Move, r: RequestId)
    requires CanMove(s, m) && Mover(m) == Some(r) && RejectedInv(s)
    ensures RejectedInv(CallerStep(s, m))
  {
  }

  lemma RejectedKept(s: State, m: Move)
    requires CanMove(s, m) && RejectedInv(s)
    ensures RejectedInv(Step(s, m))
  {
    if Mover(m).Some? { OwnRejected(s, m, Mover(m).value); } else { CallersLeftAlone(s, m); }
  }

  lemma StepKeeps(s: State, m: Move)
    requires CanMove(s, m) && Inv(s)
    ensures Inv(Step(s, m))
  {
    RequestsKept(s, m);
    BusyKept(s, m);
    RejectedKept(s, m);
  }

  lemma {:induction false} ExecInv(ms: seq<Move>)
    ensures Inv(Exec(ms))
  {
    if ms != [] {
      ExecInv(ms[..|ms| - 1]);
      var s := Exec(ms[..|ms| - 1]);
      if CanMove(s, ms[|ms| - 1]) { StepKeeps(s, ms[|ms| - 1]); }
    }
  }

  // ------------------------------------------------------------------ what every run guarantees

  /** The caller is past the insertion of its pending entry. */
  predicate HasStored(pc: Pc) {
    !(pc.Selecting? || pc.FoundNoneIdle? || pc.NoWorkers? || pc.Chosen?)
  }

  predicate InFlight(pc: Pc) {
    !(pc.NoWorkers? || pc.Returned? || pc.Rejected?)
  }

  /** What a step may do to a request's histories: nothing, or one more remover as the entry goes. */
  predicate HistoryKept(d: Desk, e: Desk, r: RequestId) {
    && Removed(d, r) <= Removed(e, r) && Entered(d, r) <= Entered(e, r)
    && (r in d.pending ==> (r !in e.pending <==> |Removed(e, r)| == |Removed(d, r)| + 1))
  }

  lemma TakenOutHistory(d: Desk, id: RequestId, why: Remover, r: RequestId)
    ensures HistoryKept(d, TakenOut(d, id, why), r)
  {
  }

  lemma SettledHistory(d: Desk, id: RequestId, reply: Response, why: Remover, r: RequestId)
    ensures HistoryKept(d, Settled(d, id, reply, why), r)
  {
  }

  /** `removed` and `entered` are histories: no step rewrites them, and a pending entry goes
      away exactly when a new remover is recorded. */
  lemma HistoryGrows(s: State, m: Move, r: RequestId)
    requires CanMove(s, m)
    ensures HistoryKept(s.desk, Step(s, m).desk, r)
  {
    match m
    case Respond(reply) => SettledHistory(s.desk, reply.requestId, reply, ByResponse, r);
    case Cancel(id) => SettledHistory(s.desk, id, Cancelled(id), ByCancel, r);
    case CancelFailed => SettledHistory(s.desk, s.processor.r, Cancelled(s.processor.r), ByCancel, r);
    case Remove(id) => TakenOutHistory(s.desk, id, ByCaller, r);
    case _ =>
  }

  /** Every inserted id leaves the pending map at most once, and once its caller has returned,
      exactly once: by a response, a cancellation or its own caller. */
  lemma RemovedOnce(ms: seq<Move>, s: State, r: RequestId)
    requires s == Exec(ms) && r in s.callers
    ensures HasStored(s.callers[r].pc) ==> |Removed(s.desk, r)| == if r in s.desk.pending then 0 else 1
    ensures s.callers[r].pc.Returned? ==> r !in s.desk.pending && |Removed(s.desk, r)| == 1
    ensures Removed(s.desk, r) == [ByCaller] ==> s.callers[r].pc == Returned(TimedOut)
  {
    ExecInv(ms);
    assert RequestInv(s, r);
  }

  /** At most one reply ever enters a channel, and it names the request the channel is for. */
  lemma OneReply(ms: seq<Move>, s: State, r: RequestId)
    requires s == Exec(ms)
    ensures |Entered(s.desk, r)| <= 1
    ensures Entered(s.desk, r) != [] ==> Entered(s.desk, r)[0].requestId == r
  {
    ExecInv(ms);
    assert RequestInv(s, r);
  }

  /** What a caller returns: the reply that entered its own channel, or a timeout. */
  lemma OwnReply(ms: seq<Move>, s: State, r: RequestId)
    requires s == Exec(ms) && r in s.callers && s.callers[r].pc.Returned?
    ensures match s.callers[r].pc.out
            case Reply(x) => x.requestId == r && Entered(s.desk, r) == [x] && Removed(s.desk, r) != [ByCaller]
            case TimedOut => |Entered(s.desk, r)| <= 1 && (Removed(s.desk, r) == [ByCaller] ==> Entered(s.desk, r) == [])
  {
    ExecInv(ms);
    assert RequestInv(s, r);
  }

  predicate Replied(ms: seq<Move>, r: RequestId, x: Response) {
    Respond(x) in ms || x == Cancelled(r)
  }

  lemma CallersSendNothing(s: State, m: Move, r: RequestId)
    requires CanMove(s, m) && Mover(m).Some?
    ensures Entered(CallerStep(s, m).desk, r) == Entered(s.desk, r)
  {
  }

  lemma FirstEntered(s: State, m: Move, r: RequestId)
    requires CanMove(s, m) && Entered(s.desk, r) == [] && Entered(Step(s, m).desk, r) != []
    ensures m == Respond(Entered(Step(s, m).desk, r)[0]) || Entered(Step(s, m).desk, r)[0] == Cancelled(r)
  {
    if Mover(m).Some? { CallersSendNothing(s, m, r); }
  }

  lemma {:induction false} EnteredOrigin(ms: seq<Move>, s: State, r: RequestId)
    requires s == Exec(ms) && Entered(s.desk, r) != []
    ensures Replied(ms, r, Entered(s.desk, r)[0])
  {
    if ms != [] {
      var front, m := ms[..|ms| - 1], ms[|ms| - 1];
      var p := Exec(front);
      assert ms == front + [m];
      if CanMove(p, m) { HistoryGrows(p, m, r); }
      if Entered(p.desk, r) != [] {
        EnteredOrigin(front, p, r);
      } else {
        FirstEntered(p, m, r);
      }
    }
  }

  /** No reply is made up: it came from a worker's frame, or it is the cancellation notice. */
  lemma ReplyOrigin(ms: seq<Move>, s: State, r: RequestId, x: Response)
    requires s == Exec(ms) && r in s.callers && s.callers[r].pc == Returned(Reply(x))
    ensures Respond(x) in ms || x == Response(r, false, "", "Request cancelled")
  {
    OwnReply(ms, s, r);
    EnteredOrigin(ms, s, r);
  }

  /** This move takes request `r` out of the pending map and sends into its channel. */
  predicate Settles(s: State, m: Move, r: RequestId) {
    r in s.desk.pending &&
    match m
    case Respond(reply) => reply.requestId == r
    case Cancel(id) => id == r
    case CancelFailed => s.processor.Cancelling? && s.processor.r == r
    case _ => false
  }

  /** The settling move came between the caller's last look at its channel and the drop of its receiver. */
  predicate SettledLate(ms: seq<Move>, i: nat, r: RequestId)
    requires i < |ms|
  {
    At(Exec(ms[..i]), r, Elapsed) && Settles(Exec(ms[..i]), ms[i], r)
  }

  /** The caller has given up waiting. */
  predicate GaveUp(s: State, r: RequestId) {
    r in s.callers &&
    match s.callers[r].pc
    case Elapsed => true
    case Awake(out) => out.TimedOut?
    case Unmarked(out) => out.TimedOut?
    case Returned(out) => out.TimedOut?
    case _ => false
  }

  lemma OwnGaveUpStep(s: State, m: Move, r: RequestId)
    requires CanMove(s, m) && Mover(m) == Some(r) && GaveUp(CallerStep(s, m), r)
    ensures Entered(CallerStep(s, m).desk, r) == Entered(s.desk, r)
    ensures Entered(s.desk, r) != [] ==> GaveUp(s, r)
  {
  }

  lemma OnlySettlingSends(s: State, m: Move, r: RequestId)
    requires CanMove(s, m) && Mover(m).None? && Entered(OtherStep(s, m).desk, r) != Entered(s.desk, r)
    ensures Settles(s, m, r) && r in s.desk.listening
  {
  }

  lemma LateStep(s: State, m: Move, r: RequestId)
    requires CanMove(s, m) && Mover(m) != Some(r) && RequestInv(s, r) && GaveUp(s, r)
    requires Entered(s.desk, r) == [] && Entered(Step(s, m).desk, r) != []
    ensures At(s, r, Elapsed) && Settles(s, m, r)
  {
    if Mover(m).Some? { CallersSendNothing(s, m, r); } else { OnlySettlingSends(s, m, r); }
  }

  /** One step of a caller that has given up: what fills its channel is a late settling move. */
  lemma GaveUpStep(s: State, m: Move, r: RequestId)
    requires CanMove(s, m) && RequestInv(s, r) && GaveUp(Step(s, m), r)
    ensures Entered(s.desk, r) != [] ==> GaveUp(s, r)
    ensures Entered(s.desk, r) == [] && Entered(Step(s, m).desk, r) != [] ==> At(s, r, Elapsed) && Settles(s, m, r)
  {
    if Mover(m) == Some(r) {
      OwnGaveUpStep(s, m, r);
    } else {
      OthersCallers(s, m, r);
      if Entered(s.desk, r) == [] && Entered(Step(s, m).desk, r) != [] { LateStep(s, m, r); }
    }
  }

  lemma LateEnters(s: State, m: Move, r: RequestId)
    requires RequestInv(s, r) && At(s, r, Elapsed) && Settles(s, m, r)
    ensures CanMove(s, m) && Entered(Step(s, m).desk, r) != []
  {
  }

  lemma {:induction false} LateReply(ms: seq<Move>, r: RequestId) returns (i: nat)
    requires GaveUp(Exec(ms), r) && Entered(Exec(ms).desk, r) != []
    ensures i < |ms| && SettledLate(ms, i, r)
  {
    var front, m := ms[..|ms| - 1], ms[|ms| - 1];
    var p := Exec(front);
    ExecInv(front);
    assert RequestInv(p, r);
    if CanMove(p, m) { GaveUpStep(p, m, r); }
    if Entered(p.desk, r) == [] {
      i := |front|;
    } else {
      i := LateReply(front, r);
      assert front[..i] == ms[..i];
    }
  }

  lemma {:induction false} EnteredStays(ms: seq<Move>, i: nat, r: RequestId)
    requires i <= |ms| && Entered(Exec(ms[..i]).desk, r) != []
    ensures Entered(Exec(ms).desk, r) != []
  {
    if i == |ms| {
      assert ms[..i] == ms;
    } else {
      var front := ms[..|ms| - 1];
      assert front[..i] == ms[..i];
      EnteredStays(front, i, r);
      if CanMove(Exec(front), ms[|ms| - 1]) { HistoryGrows(Exec(front), ms[|ms| - 1], r); }
    }
  }

  lemma LateStays(ms: seq<Move>, i: nat, r: RequestId)
    requires i < |ms| && SettledLate(ms, i, r)
    ensures Entered(Exec(ms).desk, r) != []
  {
    ExecInv(ms[..i]);
    assert RequestInv(Exec(ms[..i]), r);
    LateEnters(Exec(ms[..i]), ms[i], r);
    ExecUpTo(ms, i);
    EnteredStays(ms, i + 1, r);
  }

  /** A caller that timed out has a reply in its channel exactly when a response or a cancellation
      came after its last look and before its receiver was dropped; that reply is lost. */
  lemma LostReply(ms: seq<Move>, r: RequestId)
    requires GaveUp(Exec(ms), r)
    ensures Entered(Exec(ms).desk, r) != [] <==> exists i :: 0 <= i < |ms| && SettledLate(ms, i, r)
  {
    if Entered(Exec(ms).desk, r) != [] {
      var i := LateReply(ms, r);
    }
    if i :| 0 <= i < |ms| && SettledLate(ms, i, r) { LateStays(ms, i, r); }
  }

  /** The state after the first `i + 1` moves. */
  lemma ExecUpTo(ms: seq<Move>, i: nat)
    requires i < |ms|
    ensures Exec(ms[..i + 1]) == if CanMove(Exec(ms[..i]), ms[i]) then Step(Exec(ms[..i]), ms[i]) else Exec(ms[..i])
  {
    assert ms[..i + 1][..i] == ms[..i];
  }

  /** Pending ids belong to callers still in flight, or to callers the closed channel rejected. */
  lemma PendingInFlight(ms: seq<Move>, s: State, r: RequestId)
    requires s == Exec(ms) && r in s.desk.pending
    ensures r in s.callers && HasStored(s.callers[r].pc)
    ensures InFlight(s.callers[r].pc) || s.callers[r].pc.Rejected?
    ensures s.callers[r].pc.Rejected? ==> s.closed
    ensures s.desk.pending[r].worker == s.callers[r].worker
  {
    ExecInv(ms);
    assert RequestInv(s, r);
  }

  /** A busy worker has a caller between `mark_busy` and `mark_idle`, or one that the closed
      channel rejected in between. */
  lemma BusyIsHeld(ms: seq<Move>, s: State, w: WorkerId)
    requires s == Exec(ms) && IsBusy(s.workers, w)
    ensures exists r :: Holds(s, w, r) && (InFlight(s.callers[r].pc) || s.closed)
  {
    ExecInv(ms);
    var r :| Holds(s, w, r);
  }

  /** A send that failed is cleaned up in two steps, whatever the caller did meanwhile: its request is
      no longer pending and its worker no longer busy. */
  lemma FailedSendCleansUp(s: State, t: State, u: State, v: State)
    requires s.processor.Sending?
    requires t == Step(s, SendFailed) && u == Step(t, CancelFailed) && v == Step(u, RevertFailed)
    ensures CanMove(s, SendFailed) && CanMove(t, CancelFailed) && CanMove(u, RevertFailed)
    ensures v.processor == Ready && s.processor.r !in v.desk.pending && !IsBusy(v.workers, s.processor.worker)
    ensures s.processor.r in s.desk.pending && s.processor.r in s.desk.listening ==>
              Entered(v.desk, s.processor.r) == Entered(s.desk, s.processor.r) + [Response(s.processor.r, false, "", "Request cancelled")]
  {
  }

  predicate Quiet(s: State) {
    forall r :: r in s.callers ==> !InFlight(s.callers[r].pc)
  }

  /** With no caller in flight and the command channel open, nothing is left behind. */
  lemma QuietIsClean(ms: seq<Move>, s: State)
    requires s == Exec(ms) && Quiet(s) && !s.closed
    ensures s.desk.pending == map[]
    ensures forall w :: !IsBusy(s.workers, w)
  {
    forall r ensures r !in s.desk.pending {
      if r in s.desk.pending { PendingInFlight(ms, s, r); }
    }
    forall w ensures !IsBusy(s.workers, w) {
      if IsBusy(s.workers, w) { BusyIsHeld(ms, s, w); }
    }
  }

  /** With no caller in flight, what stays pending is exactly what rejected callers stored and
      nobody cancelled. */
  lemma LeftBehind(ms: seq<Move>, s: State, r: RequestId)
    requires s == Exec(ms) && Quiet(s)
    ensures r in s.desk.pending <==> At(s, r, Rejected) && Removed(s.desk, r) == []
  {
    ExecInv(ms);
    assert RequestInv(s, r);
  }

  // ------------------------------------------------------------------ when a worker is busy

  predicate MarkedAt(ms: seq<Move>, i: nat, w: WorkerId)
    requires i < |ms|
  {
    Marks(Exec(ms[..i]), ms[i], w)
  }

  predicate ClearedAt(ms: seq<Move>, i: nat, w: WorkerId)
    requires i < |ms|
  {
    Clears(Exec(ms[..i]), ms[i], w)
  }

  /** The `i`-th move marks the worker, and no later one clears it. */
  predicate LastMark(ms: seq<Move>, i: nat, w: WorkerId)
    requires i < |ms|
  {
    MarkedAt(ms, i, w) && forall j :: i < j < |ms| ==> !ClearedAt(ms, j, w)
  }

  lemma FrontMarks(ms: seq<Move>, i: nat, w: WorkerId)
    requires i < |ms| - 1
    ensures MarkedAt(ms[..|ms| - 1], i, w) == MarkedAt(ms, i, w)
    ensures ClearedAt(ms[..|ms| - 1], i, w) == ClearedAt(ms, i, w)
  {
    assert ms[..|ms| - 1][..i] == ms[..i];
  }

  /** A last mark of the run before stays one unless the last move clears the worker. */
  lemma FrontLastMark(ms: seq<Move>, i: nat, w: WorkerId)
    requires i < |ms| - 1
    ensures LastMark(ms, i, w) <==> LastMark(ms[..|ms| - 1], i, w) && !ClearedAt(ms, |ms| - 1, w)
  {
    var front := ms[..|ms| - 1];
    FrontMarks(ms, i, w);
    forall j | i < j < |front| ensures ClearedAt(front, j, w) == ClearedAt(ms, j, w) { FrontMarks(ms, j, w); }
    if LastMark(ms, i, w) {
      forall j | i < j < |front| ensures !ClearedAt(front, j, w) { assert !ClearedAt(ms, j, w); }
    }
    if LastMark(front, i, w) && !ClearedAt(ms, |front|, w) {
      forall j | i < j < |ms| ensures !ClearedAt(ms, j, w) { assert j < |front| ==> !ClearedAt(front, j, w); }
    }
  }

  /** In every run, a worker is busy exactly when some caller has marked it and nothing since has
      marked it idle, reverted it, registered it anew or disconnected it. */
  lemma {:induction false} BusyIffMarked(ms: seq<Move>, w: WorkerId)
    ensures IsBusy(Exec(ms).workers, w) <==> exists i :: 0 <= i < |ms| && LastMark(ms, i, w)
  {
    if ms != [] {
      var n := |ms| - 1;
      var front, m := ms[..n], ms[n];
      BusyIffMarked(front, w);
      if CanMove(Exec(front), m) { BusyStep(Exec(front), m, w); }
      if IsBusy(Exec(ms).workers, w) {
        if MarkedAt(ms, n, w) {
          assert LastMark(ms, n, w);
        } else {
          var i :| 0 <= i < |front| && LastMark(front, i, w);
          FrontLastMark(ms, i, w);
        }
      }
      if i :| 0 <= i < |ms| && LastMark(ms, i, w) {
        if i < n { FrontLastMark(ms, i, w); }
      }
    }
  }

  /** Whoever marked a worker last still stands by that mark. */
  lemma {:induction false} LastMarkerHolds(ms: seq<Move>, i: nat, w: WorkerId)
    requires i < |ms| && LastMark(ms, i, w)
    ensures Holds(Exec(ms), w, ms[i].r)
  {
    var n := |ms| - 1;
    var p := Exec(ms[..n]);
    if i < n {
      FrontLastMark(ms, i, w);
      LastMarkerHolds(ms[..n], i, w);
      if CanMove(p, ms[n]) { HolderStays(p, ms[n], w, ms[i].r); }
    }
  }

  /** With no caller in flight, a worker is busy exactly when the last to mark it was a caller the
      closed channel then rejected. */
  lemma LeftBusy(ms: seq<Move>, w: WorkerId)
    requires Quiet(Exec(ms))
    ensures IsBusy(Exec(ms).workers, w) <==>
            exists i :: 0 <= i < |ms| && LastMark(ms, i, w) && At(Exec(ms), ms[i].r, Rejected)
  {
    BusyIffMarked(ms, w);
    forall i | 0 <= i < |ms| && LastMark(ms, i, w) ensures At(Exec(ms), ms[i].r, Rejected) {
      LastMarkerHolds(ms, i, w);
    }
  }

  lemma OwnMarkStep(s: State, m: Move, r: RequestId)
    requires CanMove(s, m) && Mover(m) == Some(r) && m != MarkBusy(r) && MarkStands(CallerStep(s, m).callers[r].pc)
    ensures r in s.callers && MarkStands(s.callers[r].pc) && s.callers[r].worker == CallerStep(s, m).callers[r].worker
  {
  }

  /** A caller that stands by its mark either just made it or stood by it before. */
  lemma StoodBefore(s: State, m: Move, r: RequestId)
    requires CanMove(s, m) && m != MarkBusy(r) && r in Step(s, m).callers && MarkStands(Step(s, m).callers[r].pc)
    ensures r in s.callers && MarkStands(s.callers[r].pc) && s.callers[r].worker == Step(s, m).callers[r].worker
  {
    if Mover(m) == Some(r) { OwnMarkStep(s, m, r); } else { OthersCallers(s, m, r); }
  }

  /** Where a caller that stands by its mark made it. */
  lemma {:induction false} OwnMark(ms: seq<Move>, r: RequestId) returns (i: nat)
    requires r in Exec(ms).callers && MarkStands(Exec(ms).callers[r].pc)
    ensures i < |ms| && ms[i] == MarkBusy(r) && CanMove(Exec(ms[..i]), ms[i])
    ensures Exec(ms[..i]).callers[r].worker == Exec(ms).callers[r].worker
  {
    var n := |ms| - 1;
    var p := Exec(ms[..n]);
    if ms[n] == MarkBusy(r) && CanMove(p, ms[n]) {
      i := n;
    } else {
      if CanMove(p, ms[n]) { StoodBefore(p, ms[n], r); }
      i := OwnMark(ms[..n], r);
      assert ms[..n][..i] == ms[..i];
    }
  }

  /** The worker of a caller between its mark and its unmark is busy exactly when the caller's own
      mark or a later one has not been cleared: any clearing move since, even one made for another
      caller, leaves it not busy until somebody marks it again. */
  lemma WaitingWorkerBusy(ms: seq<Move>, r: RequestId, w: WorkerId) returns (i: nat)
    requires Holds(Exec(ms), w, r)
    ensures i < |ms| && ms[i] == MarkBusy(r) && CanMove(Exec(ms[..i]), ms[i])
    ensures IsBusy(Exec(ms).workers, w) <==> exists k :: i <= k < |ms| && LastMark(ms, k, w)
  {
    i := OwnMark(ms, r);
    BusyIffMarked(ms, w);
    if k :| 0 <= k < |ms| && LastMark(ms, k, w) {
      if k < i {
        MarkedBefore(ms, i, k, w);
        assert LastMark(ms, i, w);
      }
    }
  }

  /** An uncleared mark keeps the worker registered and busy up to any later move. */
  lemma MarkedBefore(ms: seq<Move>, i: nat, k: nat, w: WorkerId)
    requires k < i <= |ms| && LastMark(ms, k, w)
    ensures IsBusy(Exec(ms[..i]).workers, w)
  {
    forall j | k <= j < i
      ensures MarkedAt(ms[..i], j, w) == MarkedAt(ms, j, w) && ClearedAt(ms[..i], j, w) == ClearedAt(ms, j, w)
    {
      assert ms[..i][..j] == ms[..j];
    }
    assert LastMark(ms[..i], k, w);
    BusyIffMarked(ms[..i], w);
  }

  // ------------------------------------------------------------------ progress

  predicate BlockedOnChannel(s: State, r: RequestId) {
    At(s, r, Marked) && !s.closed && |s.queue| >= 100
  }

  /** A caller in flight can always take its next step, unless the command channel is full. */
  lemma CallerCanMove(s: State, r: RequestId) returns (m: Move)
    requires r in s.callers && InFlight(s.callers[r].pc) && !BlockedOnChannel(s, r)
    ensures CanMove(s, m) && Mover(m) == Some(r)
  {
    match s.callers[r].pc
    case Selecting =>
      if v :| v in s.workers && IsIdle(s.workers, v) { m := LookForIdle(r, v); } else { m := LookForIdle(r, ""); }
    case FoundNoneIdle =>
      if v :| v in s.workers && IsOnline(s.workers, v) { m := LookForOnline(r, v); } else { m := LookForOnline(r, ""); }
    case Chosen => m := Store(r, 0);
    case Stored => m := MarkBusy(r);
    case Marked => m := Send(r);
    case Awaiting => m := if Entered(s.desk, r) != [] then Receive(r) else TimeOut(r);
    case Elapsed | Refused => m := Drop(r);
    case Awake(_) => m := MarkIdle(r);
    case Unmarked(_) => m := Remove(r);
    case _ => m := CloseChannel; assert false;
  }

  /** A full channel is not a deadlock: the processor can take a step. */
  lemma ProcessorCanMove(s: State, r: RequestId) returns (m: Move)
    requires BlockedOnChannel(s, r)
    ensures CanMove(s, m) && (m.TakeCommand? || m.SendDone? || m.CancelFailed? || m.RevertFailed?)
  {
    match s.processor
    case Ready => m := TakeCommand;
    case Sending(_, _) => m := SendDone;
    case Cancelling(_, _) => m := CancelFailed;
    case Reverting(_) => m := RevertFailed;
  }

  // ------------------------------------------------------------------ where the promise ends

  /** One more move at the end of a run. */
  lemma Then(ms: seq<Move>, m: Move) returns (longer: seq<Move>)
    requires CanMove(Exec(ms), m)
    ensures longer == ms + [m] && Exec(longer) == Step(Exec(ms), m)
  {
    longer := ms + [m];
    assert longer[..|ms|] == ms;
  }

  /** The only worker is "w", online and not idle; the command channel is open and empty. */
  predicate OnlyW(s: State) {
    s.workers.Keys == {"w"} && !s.workers["w"].state.Idle? && !s.workers["w"].state.Offline? && !s.closed && s.queue == []
  }

  lemma OneChooses(before: seq<Move>, r: RequestId) returns (ms: seq<Move>)
    requires OnlyW(Exec(before)) && r !in Exec(before).callers
    ensures Exec(ms) == Exec(before).(callers := Exec(before).callers[r := Caller("w", Chosen)])
  {
    ms := Then(before, Call(r));
    ms := Then(ms, LookForIdle(r, "w"));
    ms := Then(ms, LookForOnline(r, "w"));
  }

  /** A fresh caller picks the only worker, stores its entry and marks the worker busy. */
  lemma OneMarks(before: seq<Move>, r: RequestId) returns (ms: seq<Move>)
    requires OnlyW(Exec(before)) && r !in Exec(before).callers
    ensures OnlyW(Exec(ms)) && IsBusy(Exec(ms).workers, "w")
    ensures Exec(ms).callers == Exec(before).callers[r := Caller("w", Marked)]
    ensures r in Exec(ms).desk.pending
  {
    ms := OneChooses(before, r);
    ms := Then(ms, Store(r, 0));
    ms := Then(ms, MarkBusy(r));
  }

  lemma OneWorker() returns (ms: seq<Move>)
    ensures OnlyW(Exec(ms)) && Exec(ms).callers == map[]
  {
    ms := Then([], Register("w", WorkerInfo("", 1, Online)));
  }

  /** With the channel closed the caller returns early: nobody is in flight, yet its entry is
      still pending and its worker still busy. */
  lemma ClosedChannelStrands() returns (ms: seq<Move>)
    ensures Quiet(Exec(ms)) && Exec(ms).desk.pending != map[] && IsBusy(Exec(ms).workers, "w")
  {
    ms := OneWorker();
    ms := OneMarks(ms, "r");
    ms := Then(ms, CloseChannel);
    ms := Then(ms, Send("r"));
    ms := Then(ms, Drop("r"));
    assert "r" in Exec(ms).desk.pending;
  }

  lemma BothSend(before: seq<Move>) returns (ms: seq<Move>)
    requires OnlyW(Exec(before)) && At(Exec(before), "q", Marked) && At(Exec(before), "r", Marked)
    ensures At(Exec(ms), "q", Awaiting) && At(Exec(ms), "r", Awaiting)
    ensures Exec(ms).workers == Exec(before).workers && Exec(ms).desk == Exec(before).desk
    ensures Exec(ms).callers["r"].worker == Exec(before).callers["r"].worker
    ensures Exec(ms).callers["q"].worker == Exec(before).callers["q"].worker
  {
    ms := Then(before, Send("q"));
    ms := Then(ms, Send("r"));
  }

  /** Overlapping callers share one mark: the first to time out marks the worker idle while the
      other still waits for it. */
  lemma IdleWhileInFlight() returns (ms: seq<Move>)
    ensures At(Exec(ms), "q", Awaiting) && Exec(ms).callers["q"].worker == "w" && IsIdle(Exec(ms).workers, "w")
  {
    ms := OneWorker();
    ms := OneMarks(ms, "q");
    ms := OneMarks(ms, "r");
    ms := BothSend(ms);
    ms := FirstTimesOut(ms);
  }

  lemma FirstTimesOut(before: seq<Move>) returns (ms: seq<Move>)
    requires At(Exec(before), "q", Awaiting) && At(Exec(before), "r", Awaiting)
    requires Exec(before).callers["r"].worker == "w" && "w" in Exec(before).workers
    ensures At(Exec(ms), "q", Awaiting) && Exec(ms).callers["q"] == Exec(before).callers["q"]
    ensures IsIdle(Exec(ms).workers, "w")
  {
    if Entered(Exec(before).desk, "r") == [] {
      ms := Then(before, TimeOut("r"));
      ms := Then(ms, Drop("r"));
    } else {
      ms := Then(before, Receive("r"));
    }
    ms := Then(ms, MarkIdle("r"));
  }
}
