/** What the sessions of the concurrent store hold, told from the writes made under its lock, and which
    status updates notify. */
module SessionWrites {
  import opened Options
  import opened SessionTypes
  import opened SessionProtocol
  import opened SessionInvariants

  /** The last move of the run is a call's write under the `sessions` lock. */
  predicate Writes(s: State, m: Move) {
    m.Act? && WellFormed(s) && CanMove(s, m) && s.ops[m.o].pc.HoldSessionsWrite?
  }

  function TaskOf(s: State, m: Move): Task
    requires Writes(s, m)
  {
    s.ops[m.o].task
  }

  /** The session has been created. */
  predicate Known(ms: seq<Move>, x: SessionId) {
    ms != []
    && var s, m := Exec(ms[..|ms| - 1]), ms[|ms| - 1];
       Known(ms[..|ms| - 1], x) || (Writes(s, m) && TaskOf(s, m).CreateSession? && m.newId == x)
  }

  /** The status written last since then, else `Pending`. */
  function StatusWritten(ms: seq<Move>, x: SessionId): SessionStatus
    requires Known(ms, x)
  {
    var front := ms[..|ms| - 1];
    var s, m := Exec(front), ms[|ms| - 1];
    if !Known(front, x) then Pending
    else if Writes(s, m) && TaskOf(s, m).UpdateStatus? && TaskOf(s, m).x == x then TaskOf(s, m).status
    else StatusWritten(front, x)
  }

  /** The entries written since then, in the order of the writes. */
  function LogWritten(ms: seq<Move>, x: SessionId): seq<Item>
    requires Known(ms, x)
  {
    var front := ms[..|ms| - 1];
    var s, m := Exec(front), ms[|ms| - 1];
    if !Known(front, x) then []
    else if Writes(s, m) && TaskOf(s, m).AddProgress? && TaskOf(s, m).x == x
    then LogWritten(front, x) + [Item(m.o, TaskOf(s, m).entry)]
    else LogWritten(front, x)
  }

  predicate SessionAt(ms: seq<Move>, s: State, x: SessionId) {
    && (x in s.sessions <==> Known(ms, x))
    && (x in s.sessions ==> s.sessions[x].status == StatusWritten(ms, x) && s.sessions[x].log == LogWritten(ms, x))
  }

  /** A move that writes nothing leaves every session alone. */
  lemma QuietStep(s: State, m: Move)
    requires WellFormed(s) && CanMove(s, m) && !Writes(s, m)
    ensures Step(s, m).sessions == s.sessions
  {
  }

  lemma WriteStep(s: State, m: Move, x: SessionId)
    requires Writes(s, m)
    ensures var t, task := Step(s, m), TaskOf(s, m);
            && (x in t.sessions <==> x in s.sessions || (task.CreateSession? && m.newId == x))
            && (x in t.sessions ==>
                  t.sessions[x].status == (if task.CreateSession? && m.newId == x then Pending
                                           else if task.UpdateStatus? && task.x == x then task.status
                                           else s.sessions[x].status)
                  && t.sessions[x].log == (if task.CreateSession? && m.newId == x then []
                                           else if task.AddProgress? && task.x == x then s.sessions[x].log + [Item(m.o, task.entry)]
                                           else s.sessions[x].log))
  {
  }

  /** After every run the sessions are what was written under the lock, in the order of the writes. */
  lemma {:induction false} SessionsAreTheirWrites(ms: seq<Move>, x: SessionId)
    ensures SessionAt(ms, Exec(ms), x)
  {
    if ms != [] {
      var s, m := Exec(ms[..|ms| - 1]), ms[|ms| - 1];
      SessionsAreTheirWrites(ms[..|ms| - 1], x);
      if CanMove(s, m) {
        if Writes(s, m) { WriteStep(s, m, x); } else { QuietStep(s, m); }
      }
    }
  }

  // ------------------------------------------------------------------ which updates notify

  /** Call `u` is an update that has been written, and goes on to notify or has gone on. */
  predicate Notifies(s: State, u: OpId) {
    u in s.ops && s.ops[u].task.UpdateStatus? && (AboutToSnap(s.ops[u]) || s.ops[u].snap.Some?)
  }

  /** This move is the write of call `u`, and makes the status of its session another one, a terminal one. */
  predicate EndsSession(s: State, m: Move, u: OpId) {
    Writes(s, m) && m.o == u && TaskOf(s, m).UpdateStatus?
    && var task := TaskOf(s, m);
       task.x in s.sessions && s.sessions[task.x].status != task.status && IsTerminal(task.status)
  }

  predicate OwnMove(m: Move, u: OpId) { m.o == u }

  lemma OthersNotify(s: State, m: Move, u: OpId)
    requires WellFormed(s) && Inv(s) && CanMove(s, m) && !OwnMove(m, u)
    ensures u in Step(s, m).ops <==> u in s.ops
    ensures u in s.ops ==> Step(s, m).ops[u] == s.ops[u]
  {
    if m.Act? { ActEffect(s, m.o, m.newId); }
  }

  lemma OwnNotifies(s: State, m: Move, u: OpId)
    requires WellFormed(s) && LocalInv(s) && CanMove(s, m) && OwnMove(m, u)
    ensures Notifies(Step(s, m), u) <==> Notifies(s, u) || EndsSession(s, m, u)
  {
    if m.Act? { ActNotifies(s, m, u); }
  }

  lemma ActNotifies(s: State, m: Move, u: OpId)
    requires WellFormed(s) && LocalInv(s) && CanMove(s, m) && m.Act? && m.o == u
    ensures Notifies(Step(s, m), u) <==> Notifies(s, u) || EndsSession(s, m, u)
  {
    match s.ops[u].pc
    case HoldSessionsWrite => WriteNotifies(s, m, u);
    case _ =>
  }

  lemma WriteNotifies(s: State, m: Move, u: OpId)
    requires Writes(s, m) && LocalInv(s) && m.o == u
    ensures Notifies(Step(s, m), u) <==> EndsSession(s, m, u)
  {
  }

  predicate EndedAt(ms: seq<Move>, i: nat, u: OpId)
    requires i < |ms|
  {
    EndsSession(Exec(ms[..i]), ms[i], u)
  }

  lemma NotifiesStep(s: State, m: Move, u: OpId)
    requires WellFormed(s) && Inv(s) && CanMove(s, m)
    ensures Notifies(Step(s, m), u) <==> Notifies(s, u) || EndsSession(s, m, u)
  {
    if OwnMove(m, u) { OwnNotifies(s, m, u); } else { OthersNotify(s, m, u); }
  }

  ghost predicate EverEnded(ms: seq<Move>, u: OpId) {
    exists i :: 0 <= i < |ms| && EndedAt(ms, i, u)
  }

  lemma EndedFront(ms: seq<Move>, u: OpId)
    requires ms != []
    ensures EverEnded(ms, u) <==> EverEnded(ms[..|ms| - 1], u) || EndsSession(Exec(ms[..|ms| - 1]), ms[|ms| - 1], u)
  {
    var n := |ms| - 1;
    var front := ms[..n];
    forall i | 0 <= i < n ensures EndedAt(ms, i, u) == EndedAt(front, i, u) { assert front[..i] == ms[..i]; }
    assert EndedAt(ms, n, u) == EndsSession(Exec(front), ms[n], u);
    if EverEnded(front, u) {
      var i :| 0 <= i < n && EndedAt(front, i, u);
      assert EndedAt(ms, i, u);
    }
  }

  /** A status update notifies exactly if its write changed the status to a terminal one: not when it
      sets the same status again, nor for an unknown session. */
  lemma {:induction false} NotifiesIffEnded(ms: seq<Move>, u: OpId)
    ensures Notifies(Exec(ms), u) <==> EverEnded(ms, u)
  {
    if ms != [] {
      var front, m := ms[..|ms| - 1], ms[|ms| - 1];
      NotifiesIffEnded(front, u);
      EndedFront(ms, u);
      ExecInv(front);
      if CanMove(Exec(front), m) { NotifiesStep(Exec(front), m, u); }
    }
  }
}
