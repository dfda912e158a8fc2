/** The relay session store run by many threads at once.

    Every public operation of `SessionManager` is split at the points where the code
    acquires or releases one of its two reader/writer locks, and every subscriber
    callback is a step of its own.  `ops` never forgets an operation, so a finished one
    still shows what it read. */
module SessionProtocol {
  import opened Options
  import opened SessionTypes

  type OpId = nat

  /** A logged entry, tagged with the `add_progress` call that wrote it. */
  datatype Item = Item(op: OpId, entry: ProgressEntry)

  datatype Session = Session(status: SessionStatus, log: seq<Item>)

  /** What a callback hands to a subscriber, and which operation made the call. */
  datatype Event =
    | Live(item: Item)
    | Replayed(via: OpId, item: Item)
    | Terminal(via: OpId, status: SessionStatus)

  function Source(e: Event): OpId {
    match e
    case Live(item) => item.op
    case Replayed(via, _) => via
    case Terminal(via, _) => via
  }

  datatype Task =
    | CreateSession
    | AddProgress(x: SessionId, entry: ProgressEntry)
    | UpdateStatus(x: SessionId, status: SessionStatus)
    | SetResult(x: SessionId)
    | ReadSession(x: SessionId)
    | Subscribe(x: SessionId, id: SubscriberId)
    | Unsubscribe(x: SessionId, id: SubscriberId)

  datatype Pc =
    | WantSessionsWrite | HoldSessionsWrite
    | WantSessionsRead | HoldSessionsRead
    | WantSubsWrite | HoldSubsWrite
    | WantSubsRead | HoldSubsRead
    | Captured      // subscribe: session cloned, `subscribers` still held
    | Delivering    // callbacks, no lock held
    | Done

  /** One call.  `before` is the set of calls that had returned when this one began.
      `snap` is the subscriber list a notifier cloned, `captured` the session clone a
      subscriber took (None inside when the session is unknown), `sent` the number of
      callbacks made so far. */
  datatype Op = Op(task: Task, pc: Pc, before: set<OpId>,
                   snap: Option<seq<OpId>>, captured: Option<Session>, sent: nat)

  datatype Lock = Lock(writer: Option<OpId>, readers: set<OpId>)

  datatype State = State(
    sessions: map<SessionId, Session>,
    subs: map<SessionId, seq<OpId>>,
    sessionsLock: Lock,
    subsLock: Lock,
    ops: map<OpId, Op>,
    received: map<OpId, seq<Event>>)

  const INIT := State(map[], map[], Lock(None, {}), Lock(None, {}), map[], map[])

  // ------------------------------------------------------------------ callbacks

  datatype Delivery = Delivery(to: OpId, event: Event)

  function SendAll(subs: seq<OpId>, e: Event): (r: seq<Delivery>)
    ensures |r| == |subs|
    ensures forall i :: 0 <= i < |subs| ==> r[i] == Delivery(subs[i], e)
  {
    seq(|subs|, i requires 0 <= i < |subs| => Delivery(subs[i], e))
  }

  function Replay(o: OpId, log: seq<Item>): (r: seq<Delivery>)
    ensures |r| == |log|
    ensures forall i :: 0 <= i < |log| ==> r[i] == Delivery(o, Replayed(o, log[i]))
  {
    seq(|log|, i requires 0 <= i < |log| => Delivery(o, Replayed(o, log[i])))
  }

  /** The callbacks an operation makes, in order, once it knows what it has to send. */
  function Plan(o: OpId, op: Op): seq<Delivery> {
    match op.task
    case AddProgress(_, entry) =>
      if op.snap.None? then [] else SendAll(op.snap.value, Live(Item(o, entry)))
    case UpdateStatus(_, status) =>
      if op.snap.None? then [] else SendAll(op.snap.value, Terminal(o, status))
    case Subscribe(_, _) =>
      if op.captured.None? then []
      else
        Replay(o, op.captured.value.log)
        + if IsTerminal(op.captured.value.status)
          then [Delivery(o, Terminal(o, op.captured.value.status))] else []
    case _ => []
  }

  // ------------------------------------------------------------------ steps

  datatype Move = Begin(o: OpId, task: Task) | Act(o: OpId, newId: SessionId)

  function Mentions(task: Task): Option<SessionId> {
    if task.CreateSession? then None else Some(task.x)
  }

  function FirstPc(task: Task): Pc {
    match task
    case CreateSession | AddProgress(_, _) | UpdateStatus(_, _) | SetResult(_) => WantSessionsWrite
    case ReadSession(_) => WantSessionsRead
    case Subscribe(_, _) | Unsubscribe(_, _) => WantSubsWrite
  }

  predicate CanWrite(l: Lock) { l.writer.None? && l.readers == {} }

  predicate CanRead(l: Lock) { l.writer.None? }

  /** May operation `o` take its next step?  Only a lock can stop it. */
  predicate Enabled(s: State, o: OpId)
    requires o in s.ops
  {
    match s.ops[o].pc
    case WantSessionsWrite => CanWrite(s.sessionsLock)
    case WantSessionsRead => CanRead(s.sessionsLock)
    case WantSubsWrite => CanWrite(s.subsLock)
    case WantSubsRead => CanRead(s.subsLock)
    case Done => false
    case _ => true
  }

  /** A created session gets an id nobody has used before (a random UUID). */
  predicate FreshSession(s: State, x: SessionId) {
    x !in s.sessions && forall p :: p in s.ops ==> Mentions(s.ops[p].task) != Some(x)
  }

  predicate CanMove(s: State, m: Move) {
    match m
    case Begin(o, _) => o !in s.ops
    case Act(o, newId) =>
      o in s.ops && Enabled(s, o) &&
      (s.ops[o].task.CreateSession? && s.ops[o].pc.HoldSessionsWrite? ==> FreshSession(s, newId))
  }

  function Returned(s: State): set<OpId> {
    set p | p in s.ops && s.ops[p].pc.Done?
  }

  /** The subscriptions made under a subscriber id, whatever their session. */
  function Bearers(s: State, id: SubscriberId): set<OpId> {
    set p | p in s.ops && s.ops[p].task.Subscribe? && s.ops[p].task.id == id
  }

  function Retain(list: seq<OpId>, gone: set<OpId>): (r: seq<OpId>)
    ensures forall p :: p in r <==> p in list && p !in gone
  {
    if list == [] then []
    else if list[0] in gone then Retain(list[1..], gone)
    else [list[0]] + Retain(list[1..], gone)
  }

  function SubsOf(s: State, x: SessionId): seq<OpId> {
    if x in s.subs then s.subs[x] else []
  }

  function SetOp(s: State, o: OpId, op: Op): State {
    s.(ops := s.ops[o := op])
  }

  /** Work done under the `sessions` write lock, and its release. */
  function WriteSessions(s: State, o: OpId, newId: SessionId): State
    requires o in s.ops && s.ops[o].pc.HoldSessionsWrite?
  {
    var op := s.ops[o];
    var t := s.(sessionsLock := s.sessionsLock.(writer := None));
    match op.task
    case CreateSession =>
      SetOp(t.(sessions := t.sessions[newId := Session(Pending, [])]), o, op.(pc := Done))
    case AddProgress(x, entry) =>
      var u :=
        if x in t.sessions
        then t.(sessions := t.sessions[x := t.sessions[x].(log := t.sessions[x].log + [Item(o, entry)])])
        else t;
      SetOp(u, o, op.(pc := WantSubsRead))
    case UpdateStatus(x, status) =>
      if x in t.sessions then
        var notify := t.sessions[x].status != status && IsTerminal(status);
        SetOp(t.(sessions := t.sessions[x := t.sessions[x].(status := status)]), o,
              op.(pc := if notify then WantSubsRead else Done))
      else
        SetOp(t, o, op.(pc := Done))
    case _ =>
      SetOp(t, o, op.(pc := Done))
  }

  /** Work done under the `sessions` read lock, and its release. */
  function ReadSessions(s: State, o: OpId): State
    requires o in s.ops && s.ops[o].pc.HoldSessionsRead?
  {
    var op := s.ops[o];
    var t := s.(sessionsLock := s.sessionsLock.(readers := s.sessionsLock.readers - {o}));
    if op.task.Subscribe? then
      SetOp(t, o, op.(pc := Captured,
                      captured := if op.task.x in s.sessions then Some(s.sessions[op.task.x]) else None))
    else
      SetOp(t, o, op.(pc := Done))
  }

  /** The end of `subscribe`'s critical section. */
  function Register(s: State, o: OpId): State
    requires o in s.ops && s.ops[o].pc.Captured? && s.ops[o].task.Subscribe?
  {
    var op := s.ops[o];
    var t := s.(subsLock := s.subsLock.(writer := None));
    if op.captured.None? then
      SetOp(t, o, op.(pc := Done))
    else
      SetOp(t.(subs := t.subs[op.task.x := SubsOf(t, op.task.x) + [o]]), o, op.(pc := Delivering))
  }

  /** All subscribers of the session with this id leave its list. */
  function RemoveSub(s: State, o: OpId): State
    requires o in s.ops && s.ops[o].pc.HoldSubsWrite? && s.ops[o].task.Unsubscribe?
  {
    var op := s.ops[o];
    var t := s.(subsLock := s.subsLock.(writer := None));
    var u :=
      if op.task.x in t.subs
      then t.(subs := t.subs[op.task.x := Retain(t.subs[op.task.x], Bearers(s, op.task.id))])
      else t;
    SetOp(u, o, op.(pc := Done))
  }

  /** A notifier clones the subscriber list and lets the lock go. */
  function Snapshot(s: State, o: OpId): State
    requires o in s.ops && s.ops[o].pc.HoldSubsRead?
    requires s.ops[o].task.AddProgress? || s.ops[o].task.UpdateStatus?
  {
    var op := s.ops[o];
    SetOp(s.(subsLock := s.subsLock.(readers := s.subsLock.readers - {o})), o,
          op.(pc := Delivering, snap := Some(SubsOf(s, op.task.x))))
  }

  /** The next callback of the plan. */
  function SendNext(s: State, o: OpId): State
    requires o in s.ops && s.ops[o].sent < |Plan(o, s.ops[o])|
  {
    var d := Plan(o, s.ops[o])[s.ops[o].sent];
    var t := SetOp(s, o, s.ops[o].(sent := s.ops[o].sent + 1));
    if d.to in s.received then t.(received := s.received[d.to := s.received[d.to] + [d.event]]) else t
  }

  /** One callback, or the return after the last one. */
  function Deliver(s: State, o: OpId): State
    requires o in s.ops && s.ops[o].pc.Delivering?
  {
    if s.ops[o].sent < |Plan(o, s.ops[o])| then SendNext(s, o) else SetOp(s, o, s.ops[o].(pc := Done))
  }

  /** Which program counters each operation goes through. */
  predicate PcFits(op: Op) {
    match op.task
    case CreateSession | SetResult(_) => (op.pc.WantSessionsWrite? || op.pc.HoldSessionsWrite? || op.pc.Done?)
    case AddProgress(_, _) | UpdateStatus(_, _) =>
      (op.pc.WantSessionsWrite? || op.pc.HoldSessionsWrite? || op.pc.WantSubsRead? || op.pc.HoldSubsRead? || op.pc.Delivering? || op.pc.Done?)
    case ReadSession(_) => (op.pc.WantSessionsRead? || op.pc.HoldSessionsRead? || op.pc.Done?)
    case Subscribe(_, _) =>
      (op.pc.WantSubsWrite? || op.pc.WantSessionsRead? || op.pc.HoldSessionsRead? || op.pc.Captured? || op.pc.Delivering? || op.pc.Done?)
    case Unsubscribe(_, _) => (op.pc.WantSubsWrite? || op.pc.HoldSubsWrite? || op.pc.Done?)
  }

  predicate WellFormed(s: State) {
    forall o :: o in s.ops ==> PcFits(s.ops[o])
  }

  function BeginOp(s: State, o: OpId, task: Task): State {
    var t := SetOp(s, o, Op(task, FirstPc(task), Returned(s), None, None, 0));
    if task.Subscribe? then t.(received := t.received[o := []]) else t
  }

  function AcquireSessionsWrite(s: State, o: OpId): State
    requires o in s.ops
  {
    SetOp(s.(sessionsLock := s.sessionsLock.(writer := Some(o))), o, s.ops[o].(pc := HoldSessionsWrite))
  }

  function AcquireSessionsRead(s: State, o: OpId): State
    requires o in s.ops
  {
    SetOp(s.(sessionsLock := s.sessionsLock.(readers := s.sessionsLock.readers + {o})), o,
          s.ops[o].(pc := HoldSessionsRead))
  }

  function AcquireSubsWrite(s: State, o: OpId): State
    requires o in s.ops
  {
    SetOp(s.(subsLock := s.subsLock.(writer := Some(o))), o,
          s.ops[o].(pc := if s.ops[o].task.Subscribe? then WantSessionsRead else HoldSubsWrite))
  }

  function AcquireSubsRead(s: State, o: OpId): State
    requires o in s.ops
  {
    SetOp(s.(subsLock := s.subsLock.(readers := s.subsLock.readers + {o})), o, s.ops[o].(pc := HoldSubsRead))
  }

  function Step(s: State, m: Move): State
    requires WellFormed(s) && CanMove(s, m)
  {
    match m
    case Begin(o, task) => BeginOp(s, o, task)
    case Act(o, newId) =>
      match s.ops[o].pc
      case WantSessionsWrite => AcquireSessionsWrite(s, o)
      case HoldSessionsWrite => WriteSessions(s, o, newId)
      case WantSessionsRead => AcquireSessionsRead(s, o)
      case HoldSessionsRead => ReadSessions(s, o)
      case WantSubsWrite => AcquireSubsWrite(s, o)
      case HoldSubsWrite => RemoveSub(s, o)
      case WantSubsRead => AcquireSubsRead(s, o)
      case HoldSubsRead => Snapshot(s, o)
      case Captured => Register(s, o)
      case Delivering => Deliver(s, o)
  }

  /** Begin and Act keep every program counter where its operation can be. */
  lemma StepWellFormed(s: State, m: Move)
    requires WellFormed(s) && CanMove(s, m)
    ensures WellFormed(Step(s, m))
  {
    var t := Step(s, m);
    if m.Act? { ActFits(s, m.o, m.newId); }
    forall p | p in t.ops && p != m.o ensures PcFits(t.ops[p]) {
      assert p in s.ops && t.ops[p] == s.ops[p];
    }
  }

  lemma ActFits(s: State, o: OpId, newId: SessionId)
    requires WellFormed(s) && CanMove(s, Act(o, newId))
    ensures PcFits(Step(s, Act(o, newId)).ops[o])
  {
    match s.ops[o].pc
    case WantSessionsWrite =>
    case HoldSessionsWrite => assert PcFits(WriteSessions(s, o, newId).ops[o]);
    case WantSessionsRead =>
    case HoldSessionsRead => assert PcFits(ReadSessions(s, o).ops[o]);
    case WantSubsWrite =>
    case HoldSubsWrite => assert PcFits(RemoveSub(s, o).ops[o]);
    case WantSubsRead =>
    case HoldSubsRead => assert PcFits(Snapshot(s, o).ops[o]);
    case Captured => assert PcFits(Register(s, o).ops[o]);
    case Delivering => assert PcFits(Deliver(s, o).ops[o]);
  }

  /** The state after a run.  A move that is not possible where it stands is skipped, so
      the reachable states are exactly the `Exec(ms)` for all move sequences `ms`. */
  function Exec(ms: seq<Move>): (s: State)
    ensures WellFormed(s)
  {
    if ms == [] then INIT
    else
      var s := Exec(ms[..|ms| - 1]);
      var m := ms[|ms| - 1];
      if CanMove(s, m) then StepWellFormed(s, m); Step(s, m) else s
  }
}
