/** The lock protocol of the session store never gets stuck, and every call returns. */
module SessionProgress {
  import opened Options
  import opened SessionTypes
  import opened SessionProtocol
  import opened SessionInvariants
  import opened SessionTheorems

  predicate WriterWaits(s: State, pc: Pc) {
    exists p :: p in s.ops && s.ops[p].pc == pc
  }

  /** The stingiest lock there is: a reader also gives way to every waiting writer. */
  predicate FairlyEnabled(s: State, o: OpId)
    requires o in s.ops
  {
    Enabled(s, o)
    && (s.ops[o].pc.WantSessionsRead? ==> !WriterWaits(s, WantSessionsWrite))
    && (s.ops[o].pc.WantSubsRead? ==> !WriterWaits(s, WantSubsWrite))
  }

  predicate Holds(l: Lock, o: OpId) { l.writer == Some(o) || o in l.readers }

  /** Nobody waits for `subscribers` with `sessions` in hand, and a callback runs with
      no lock held. */
  lemma LockOrder(ms: seq<Move>, s: State, o: OpId)
    requires s == Exec(ms) && o in s.ops
    ensures s.ops[o].pc.WantSubsRead? || s.ops[o].pc.WantSubsWrite? ==> !Holds(s.sessionsLock, o)
    ensures s.ops[o].pc.Delivering? ==> !Holds(s.sessionsLock, o) && !Holds(s.subsLock, o)
  {
    ExecInv(ms);
  }

  /** While a call is unfinished, some call can take its next step. */
  lemma NeverStuck(ms: seq<Move>, s: State) returns (o: OpId)
    requires s == Exec(ms) && !Quiescent(s)
    ensures o in s.ops && FairlyEnabled(s, o)
  {
    ExecInv(ms);
    o := SomeoneMoves(s);
  }

  lemma SomeoneMoves(s: State) returns (o: OpId)
    requires LocksInv(s) && WellFormed(s) && !Quiescent(s)
    ensures o in s.ops && FairlyEnabled(s, o)
  {
    if p :| p in s.ops && (s.ops[p].pc.Captured? || s.ops[p].pc.Delivering? || HoldsAnyLock(s.ops[p]))
                       && !s.ops[p].pc.WantSessionsRead? {
      o := p;
    } else if p :| p in s.ops && s.ops[p].pc.WantSessionsWrite? {
      assert CanWrite(s.sessionsLock);
      o := p;
    } else if p :| p in s.ops && s.ops[p].pc.WantSessionsRead? {
      assert CanWrite(s.sessionsLock);
      o := p;
    } else if p :| p in s.ops && s.ops[p].pc.WantSubsWrite? {
      assert CanWrite(s.subsLock);
      o := p;
    } else {
      var p :| p in s.ops && !s.ops[p].pc.Done?;
      assert s.ops[p].pc.WantSubsRead?;
      assert CanWrite(s.subsLock);
      o := p;
    }
  }

  // ------------------------------------------------------------------ a measure

  function Phase(pc: Pc): nat {
    match pc
    case WantSessionsWrite => 8
    case HoldSessionsWrite => 7
    case WantSubsRead => 6
    case HoldSubsRead => 5
    case WantSubsWrite => 5
    case HoldSubsWrite => 4
    case WantSessionsRead => 4
    case HoldSessionsRead => 3
    case Captured => 2
    case Delivering => 1
    case Done => 0
  }

  /** Callbacks still to make. */
  function Left(o: OpId, op: Op): nat {
    if op.sent <= |Plan(o, op)| then |Plan(o, op)| - op.sent else 0
  }

  ghost function Sum(m: map<OpId, nat>): nat {
    if m == map[] then 0 else var k :| k in m; m[k] + Sum(m - {k})
  }

  lemma {:induction false} SumSplit(m: map<OpId, nat>, k: OpId)
    requires k in m
    ensures Sum(m) == m[k] + Sum(m - {k})
    decreases |m|
  {
    var j :| j in m && Sum(m) == m[j] + Sum(m - {j});
    if j != k {
      SumSplit(m - {j}, k);
      SumSplit(m - {k}, j);
      assert m - {j} - {k} == m - {k} - {j};
    }
  }

  lemma SumUpdate(m: map<OpId, nat>, k: OpId, v: nat)
    requires k in m
    ensures Sum(m[k := v]) == Sum(m) - m[k] + v
  {
    SumSplit(m, k);
    SumSplit(m[k := v], k);
    assert m[k := v] - {k} == m - {k};
  }

  function PhaseMap(s: State): map<OpId, nat> { map o | o in s.ops :: Phase(s.ops[o].pc) }

  function LeftMap(s: State): map<OpId, nat> { map o | o in s.ops :: Left(o, s.ops[o]) }

  ghost function Phases(s: State): nat { Sum(PhaseMap(s)) }

  ghost function Lefts(s: State): nat { Sum(LeftMap(s)) }

  ghost predicate OnlyOne(s: State, t: State, o: OpId) {
    o in s.ops && t.ops.Keys == s.ops.Keys && forall p :: p in s.ops && p != o ==> t.ops[p] == s.ops[p]
  }

  lemma PhaseMeasure(s: State, t: State, o: OpId)
    requires OnlyOne(s, t, o)
    ensures Phases(t) == Phases(s) - Phase(s.ops[o].pc) + Phase(t.ops[o].pc)
  {
    SumUpdate(PhaseMap(s), o, Phase(t.ops[o].pc));
    assert PhaseMap(t) == PhaseMap(s)[o := Phase(t.ops[o].pc)];
  }

  lemma LeftMeasure(s: State, t: State, o: OpId)
    requires OnlyOne(s, t, o)
    ensures Lefts(t) == Lefts(s) - Left(o, s.ops[o]) + Left(o, t.ops[o])
  {
    SumUpdate(LeftMap(s), o, Left(o, t.ops[o]));
    assert LeftMap(t) == LeftMap(s)[o := Left(o, t.ops[o])];
  }

  predicate Nearer(p: Op, q: Op, o: OpId) {
    Phase(q.pc) < Phase(p.pc) || (Phase(q.pc) == Phase(p.pc) && Left(o, q) < Left(o, p))
  }

  lemma WriteNearer(s: State, o: OpId, newId: SessionId)
    requires o in s.ops && s.ops[o].pc.HoldSessionsWrite?
    ensures Phase(WriteSessions(s, o, newId).ops[o].pc) < 7
  {
  }

  lemma DeliverNearer(s: State, o: OpId)
    requires o in s.ops && s.ops[o].pc.Delivering? && SentOk(o, s.ops[o])
    ensures Nearer(s.ops[o], Deliver(s, o).ops[o], o)
  {
  }

  lemma OpNearer(s: State, o: OpId, newId: SessionId)
    requires WellFormed(s) && o in s.ops && SentOk(o, s.ops[o]) && CanMove(s, Act(o, newId))
    ensures Nearer(s.ops[o], Step(s, Act(o, newId)).ops[o], o)
  {
    assert PcFits(s.ops[o]);
    match s.ops[o].pc
    case HoldSessionsWrite => WriteNearer(s, o, newId);
    case Delivering => DeliverNearer(s, o);
    case _ =>
  }

  predicate Less(s: (nat, nat), t: (nat, nat)) {
    s.0 < t.0 || (s.0 == t.0 && s.1 < t.1)
  }

  ghost function Work(s: State): (nat, nat) { (Phases(s), Lefts(s)) }

  /** No livelock: each step brings the calls in flight nearer to their returns, so only
      finitely many steps can be taken before a new call begins. */
  lemma EveryStepCounts(ms: seq<Move>, s: State, o: OpId, newId: SessionId)
    requires s == Exec(ms) && CanMove(s, Act(o, newId))
    ensures Less(Work(Step(s, Act(o, newId))), Work(s))
  {
    ExecInv(ms);
    WorkDrops(s, Step(s, Act(o, newId)), o, newId);
  }

  lemma WorkDrops(s: State, t: State, o: OpId, newId: SessionId)
    requires Inv(s) && WellFormed(s) && CanMove(s, Act(o, newId)) && t == Step(s, Act(o, newId))
    ensures Less(Work(t), Work(s))
  {
    ActEffect(s, o, newId);
    assert SentOk(o, s.ops[o]);
    OpNearer(s, o, newId);
    assert OnlyOne(s, t, o);
    PhaseMeasure(s, t, o);
    LeftMeasure(s, t, o);
  }

  // ------------------------------------------------------------------ every call can finish

  lemma {:induction false} LongerThanAll(xs: set<SessionId>) returns (n: nat)
    ensures forall x :: x in xs ==> |x| < n
  {
    if xs == {} { n := 0; }
    else {
      var x :| x in xs;
      n := LongerThanAll(xs - {x});
      if n <= |x| { n := |x| + 1; }
    }
  }

  lemma FreshExists(s: State) returns (x: SessionId)
    ensures FreshSession(s, x)
  {
    var used := set p | p in s.ops && !s.ops[p].task.CreateSession? :: s.ops[p].task.x;
    var n := LongerThanAll(s.sessions.Keys + used);
    x := seq(n, _ => 'a');
    forall p | p in s.ops ensures Mentions(s.ops[p].task) != Some(x) {
      if !s.ops[p].task.CreateSession? { assert s.ops[p].task.x in used; }
    }
  }

  lemma ExecNext(ms: seq<Move>, m: Move)
    requires CanMove(Exec(ms), m)
    ensures Exec(ms + [m]) == Step(Exec(ms), m)
  {
    assert (ms + [m])[..|ms + [m]| - 1] == ms;
  }

  lemma OneMore(ms: seq<Move>) returns (m: Move)
    requires !Quiescent(Exec(ms))
    ensures m.Act? && Less(Work(Exec(ms + [m])), Work(Exec(ms)))
  {
    var o := NeverStuck(ms, Exec(ms));
    var x := FreshExists(Exec(ms));
    m := Act(o, x);
    EveryStepCounts(ms, Exec(ms), o, x);
    ExecNext(ms, m);
  }

  ghost predicate Finishes(ms: seq<Move>, more: seq<Move>) {
    (forall i :: 0 <= i < |more| ==> more[i].Act?) && Quiescent(Exec(ms + more))
  }

  lemma FinishesNow(ms: seq<Move>)
    requires Quiescent(Exec(ms))
    ensures Finishes(ms, [])
  {
    assert ms + [] == ms;
  }

  lemma FinishesLater(ms: seq<Move>, m: Move, rest: seq<Move>)
    requires m.Act? && Finishes(ms + [m], rest)
    ensures Finishes(ms, [m] + rest)
  {
    assert ms + [m] + rest == ms + ([m] + rest);
  }

  /** From every reachable state the calls in flight can all be run to their returns. */
  lemma {:induction false} CanFinish(ms: seq<Move>) returns (more: seq<Move>)
    ensures Finishes(ms, more)
    decreases Work(Exec(ms)).0, Work(Exec(ms)).1
  {
    if Quiescent(Exec(ms)) {
      FinishesNow(ms);
      more := [];
    } else {
      var m := OneMore(ms);
      var rest := CanFinish(ms + [m]);
      FinishesLater(ms, m, rest);
      more := [m] + rest;
    }
  }
}
