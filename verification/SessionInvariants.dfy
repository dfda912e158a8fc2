/** What every step of the session protocol keeps. */
module SessionInvariants {
  import opened Options
  import opened Sequences
  import opened SessionTypes
  import opened SessionProtocol

  predicate Notifier(task: Task) { task.AddProgress? || task.UpdateStatus? }

  predicate PastWrite(op: Op) { !op.pc.WantSessionsWrite? && !op.pc.HoldSessionsWrite? }

  /** Between the write under `sessions` and the clone of the subscriber list. */
  predicate AboutToSnap(op: Op) { op.pc.WantSubsRead? || op.pc.HoldSubsRead? }

  predicate HoldsSubsWrite(op: Op) {
    op.pc.HoldSubsWrite? ||
    (op.task.Subscribe? && (op.pc.WantSessionsRead? || op.pc.HoldSessionsRead? || op.pc.Captured?))
  }

  predicate HoldsAnyLock(op: Op) {
    op.pc.HoldSessionsWrite? || op.pc.HoldSessionsRead? || op.pc.HoldSubsRead? || HoldsSubsWrite(op)
  }

  predicate Snapped(op: Op, sub: OpId) { op.snap.Some? && sub in op.snap.value }

  predicate HasItem(log: seq<Item>, o: OpId) {
    exists k :: 0 <= k < |log| && log[k].op == o
  }

  // ------------------------------------------------------------------ the invariants

  ghost predicate LocksInv(s: State) {
    && (s.sessionsLock.writer.Some? ==>
          s.sessionsLock.readers == {} && s.sessionsLock.writer.value in s.ops)
    && (forall o :: o in s.ops ==>
          (s.ops[o].pc.HoldSessionsWrite? <==> s.sessionsLock.writer == Some(o)))
    && (forall o :: o in s.sessionsLock.readers ==> o in s.ops)
    && (forall o :: o in s.ops ==> (s.ops[o].pc.HoldSessionsRead? <==> o in s.sessionsLock.readers))
    && (s.subsLock.writer.Some? ==>
          s.subsLock.readers == {} && s.subsLock.writer.value in s.ops)
    && (forall o :: o in s.ops ==> (HoldsSubsWrite(s.ops[o]) <==> s.subsLock.writer == Some(o)))
    && (forall o :: o in s.subsLock.readers ==> o in s.ops)
    && (forall o :: o in s.ops ==> (s.ops[o].pc.HoldSubsRead? <==> o in s.subsLock.readers))
  }

  ghost predicate LocalOk(op: Op) {
    && PcFits(op)
    && (op.snap.Some? ==> Notifier(op.task) && (op.pc.Delivering? || op.pc.Done?))
    && (op.pc.Delivering? && Notifier(op.task) ==> op.snap.Some?)
    && (op.pc.Done? && op.task.AddProgress? ==> op.snap.Some?)
    && (op.task.UpdateStatus? && (AboutToSnap(op) || op.snap.Some?) ==> IsTerminal(op.task.status))
    && (op.captured.Some? ==>
          op.task.Subscribe? && (op.pc.Captured? || op.pc.Delivering? || op.pc.Done?))
    && (op.pc.Delivering? && op.task.Subscribe? ==> op.captured.Some?)
    && (!op.pc.Delivering? && !op.pc.Done? ==> op.sent == 0)
  }

  ghost predicate LocalInv(s: State) {
    && (forall o :: o in s.ops ==> LocalOk(s.ops[o]))
    && (forall o :: o in s.received <==> o in s.ops && s.ops[o].task.Subscribe?)
  }

  /** Subscriber lists belong to existing sessions and name each subscription once. */
  ghost predicate SubsInv(s: State) {
    && (forall x :: x in s.subs ==> x in s.sessions && NoDup(s.subs[x]))
    && (forall x, o :: x in s.subs && o in s.subs[x] ==> ListedOk(s, x, o))
    && (forall a, o :: a in s.ops && Snapped(s.ops[a], o) ==>
          Notifier(s.ops[a].task) && ListedOk(s, s.ops[a].task.x, o))
    && (forall a :: a in s.ops && s.ops[a].snap.Some? ==> NoDup(s.ops[a].snap.value))
  }

  ghost predicate ListedOk(s: State, x: SessionId, o: OpId) {
    o in s.ops && s.ops[o].task.Subscribe? && s.ops[o].task.x == x && s.ops[o].captured.Some?
    && (s.ops[o].pc.Delivering? || s.ops[o].pc.Done?)
  }

  /** The log holds exactly the entries of the `add_progress` calls that wrote it. */
  ghost predicate LogInv(s: State) {
    && (forall x, k :: x in s.sessions && 0 <= k < |s.sessions[x].log| ==> WrittenBy(s, x, s.sessions[x].log[k]))
    && (forall x, j, k :: x in s.sessions && 0 <= j < k < |s.sessions[x].log| ==>
          s.sessions[x].log[j].op != s.sessions[x].log[k].op)
    && (forall o :: o in s.ops && s.ops[o].task.AddProgress? && PastWrite(s.ops[o]) ==> Logged(s, o))
  }

  ghost predicate Logged(s: State, o: OpId)
    requires o in s.ops && s.ops[o].task.AddProgress?
  {
    s.ops[o].task.x in s.sessions ==>
      Item(o, s.ops[o].task.entry) in s.sessions[s.ops[o].task.x].log
  }

  ghost predicate WrittenBy(s: State, x: SessionId, item: Item) {
    item.op in s.ops && s.ops[item.op].task == AddProgress(x, item.entry) && PastWrite(s.ops[item.op])
  }

  /** A captured clone stays a prefix of its session's log. */
  ghost predicate CapturedInv(s: State) {
    forall o :: o in s.ops && s.ops[o].captured.Some? ==>
      s.ops[o].task.Subscribe? && s.ops[o].task.x in s.sessions
      && s.ops[o].captured.value.log <= s.sessions[s.ops[o].task.x].log
  }

  /** Is `o` a subscriber that must hear of everything written from now on? */
  predicate Listening(s: State, o: OpId)
    requires o in s.ops
  {
    s.ops[o].task.Subscribe? && s.ops[o].captured.Some?
    && (s.ops[o].pc.Captured? || o in SubsOf(s, s.ops[o].task.x))
  }

  /** Every entry the clone missed is on its way to a listening subscriber. */
  ghost predicate CoverInv(s: State) {
    forall o :: o in s.ops && Listening(s, o) ==> Covered(s, o)
  }

  ghost predicate Covered(s: State, o: OpId)
    requires o in s.ops && Listening(s, o)
  {
    s.ops[o].task.x in s.sessions ==>
      var log := s.sessions[s.ops[o].task.x].log;
      forall k :: |s.ops[o].captured.value.log| <= k < |log| ==> Covers(s, log[k].op, o)
  }

  ghost predicate Covers(s: State, a: OpId, o: OpId) {
    a in s.ops && (AboutToSnap(s.ops[a]) || Snapped(s.ops[a], o))
  }

  /** The terminal status of a session was captured by, or is on its way to, each listener. */
  ghost predicate TerminalInv(s: State) {
    forall o :: o in s.ops && Listening(s, o) && s.ops[o].task.x in s.sessions ==>
      IsTerminal(s.sessions[s.ops[o].task.x].status) ==> TerminalOwed(s, o, s.sessions[s.ops[o].task.x].status)
  }

  ghost predicate TerminalOwed(s: State, o: OpId, status: SessionStatus)
    requires o in s.ops && Listening(s, o)
  {
    s.ops[o].captured.value.status == status ||
    exists u :: u in s.ops && s.ops[u].task == UpdateStatus(s.ops[o].task.x, status) && Covers(s, u, o)
  }

  /** A subscriber that nobody unsubscribes stays listed. */
  ghost predicate LiveInv(s: State) {
    forall o :: o in s.ops && Registered(s.ops[o]) ==> Unsubscribed(s, o) || o in SubsOf(s, s.ops[o].task.x)
  }

  predicate Registered(op: Op) {
    op.task.Subscribe? && op.captured.Some? && (op.pc.Delivering? || op.pc.Done?)
  }

  /** Call `u` unsubscribes the id that `o` subscribed under, and did not return before `o` began. */
  predicate Unsubscribes(s: State, u: OpId, o: OpId)
    requires o in s.ops && s.ops[o].task.Subscribe?
  {
    u in s.ops && s.ops[u].task == Unsubscribe(s.ops[o].task.x, s.ops[o].task.id) && u !in s.ops[o].before
  }

  ghost predicate Unsubscribed(s: State, o: OpId)
    requires o in s.ops && s.ops[o].task.Subscribe?
  {
    exists u :: Unsubscribes(s, u, o)
  }

  /** What `before` records: the calls in it had returned, so an add in it cannot have
      snapped a later subscriber, and a subscribe in it cannot have cloned a later entry. */
  ghost predicate OrderInv(s: State) {
    forall o, a :: o in s.ops && a in s.ops[o].before ==>
      a in s.ops && s.ops[a].pc.Done? && !Snapped(s.ops[a], o)
      && (s.ops[a].captured.Some? ==> !HasItem(s.ops[a].captured.value.log, o))
  }

  // ------------------------------------------------------------------ accounting

  /** The callbacks made by `o`, in order, among those in `r`. */
  function From(r: seq<Event>, o: OpId): seq<Event> {
    if r == [] then []
    else From(r[..|r| - 1], o) + if Source(r[|r| - 1]) == o then [r[|r| - 1]] else []
  }

  /** The events of a plan addressed to `to`, in order. */
  function For(plan: seq<Delivery>, to: OpId): seq<Event> {
    if plan == [] then []
    else For(plan[..|plan| - 1], to) + if plan[|plan| - 1].to == to then [plan[|plan| - 1].event] else []
  }

  /** Each subscriber has received from each operation exactly what that operation has
      sent so far, in the order of its plan. */
  ghost predicate AccountInv(s: State) {
    && (forall o :: o in s.ops ==> SentOk(o, s.ops[o]))
    && (forall r, o :: r in s.received && o in s.ops ==> Accounted(s, r, o))
    && (forall r, i :: r in s.received && 0 <= i < |s.received[r]| ==> Source(s.received[r][i]) in s.ops)
  }

  predicate SentOk(o: OpId, op: Op) {
    op.sent <= |Plan(o, op)| && (op.pc.Done? ==> op.sent == |Plan(o, op)|)
  }

  ghost predicate Accounted(s: State, r: OpId, o: OpId)
    requires r in s.received && o in s.ops
  {
    s.ops[o].sent <= |Plan(o, s.ops[o])| &&
    From(s.received[r], o) == For(Plan(o, s.ops[o])[..s.ops[o].sent], r)
  }

  ghost predicate Inv(s: State) {
    && LocksInv(s)
    && LocalInv(s)
    && SubsInv(s)
    && LogInv(s)
    && CapturedInv(s)
    && CoverInv(s)
    && TerminalInv(s)
    && LiveInv(s)
    && OrderInv(s)
    && AccountInv(s)
  }

  // ------------------------------------------------------------------ effects of a step

  /** Only operation `o` moved (or began), and it is still the same call. */
  ghost predicate OpsMoved(s: State, t: State, o: OpId) {
    && t.ops.Keys == s.ops.Keys + {o}
    && (forall p :: p in s.ops && p != o ==> t.ops[p] == s.ops[p])
    && (o in s.ops ==>
          t.ops[o].task == s.ops[o].task && t.ops[o].before == s.ops[o].before && !s.ops[o].pc.Done?)
    && (o !in s.ops ==> t.ops[o] == Op(t.ops[o].task, FirstPc(t.ops[o].task), Returned(s), None, None, 0))
    && LocalOk(t.ops[o])
  }

  /** One lock, seen from the operation that moved: it gave up what it held (`held…`) and
      now holds `holds…`, which it may only if the lock let it. */
  predicate LockMoved(l: Lock, k: Lock, o: OpId, heldW: bool, heldR: bool, holdsW: bool, holdsR: bool) {
    && k.writer == (if holdsW && !heldW then Some(o) else if heldW && !holdsW then None else l.writer)
    && k.readers == (if holdsR && !heldR then l.readers + {o}
                     else if heldR && !holdsR then l.readers - {o} else l.readers)
    && (holdsW && !heldW ==> CanWrite(l))
    && (holdsR && !heldR ==> CanRead(l))
    && !(holdsW && holdsR)
  }

  ghost predicate LocksMoved(s: State, t: State, o: OpId)
    requires o in t.ops
  {
    var had, q := o in s.ops, t.ops[o];
    && LockMoved(s.sessionsLock, t.sessionsLock, o,
                 had && s.ops[o].pc.HoldSessionsWrite?, had && s.ops[o].pc.HoldSessionsRead?,
                 q.pc.HoldSessionsWrite?, q.pc.HoldSessionsRead?)
    && LockMoved(s.subsLock, t.subsLock, o,
                 had && HoldsSubsWrite(s.ops[o]), had && s.ops[o].pc.HoldSubsRead?,
                 HoldsSubsWrite(q), q.pc.HoldSubsRead?)
  }

  /** Sessions appear empty under an unused id; a log grows by the entry of `o` alone. */
  ghost predicate LogsMoved(s: State, t: State, o: OpId)
    requires o in t.ops
  {
    && (forall x :: x in s.sessions ==> x in t.sessions && LogMoved(s, t, o, x))
    && (forall x :: x in t.sessions && x !in s.sessions ==>
          t.sessions[x] == Session(Pending, []) && forall p :: p in s.ops ==> Mentions(s.ops[p].task) != Some(x))
    && (o in s.ops && t.ops[o].task.AddProgress? && PastWrite(t.ops[o]) && !PastWrite(s.ops[o]) ==> Logged(t, o))
    && (o in s.ops && PastWrite(s.ops[o]) ==> PastWrite(t.ops[o]))
  }

  ghost predicate LogMoved(s: State, t: State, o: OpId, x: SessionId)
    requires o in t.ops && x in s.sessions && x in t.sessions
  {
    t.sessions[x].log == s.sessions[x].log ||
    (o in s.ops && t.ops[o].task.AddProgress? && t.ops[o].task.x == x
     && t.sessions[x].log == s.sessions[x].log + [Item(o, t.ops[o].task.entry)]
     && !PastWrite(s.ops[o]) && t.ops[o].pc.WantSubsRead?)
  }

  /** A status changes by `o` alone, which is about to notify if it is now terminal. */
  ghost predicate StatusMoved(s: State, t: State, o: OpId, x: SessionId)
    requires o in t.ops && x in s.sessions && x in t.sessions
  {
    t.sessions[x].status == s.sessions[x].status ||
    (t.ops[o].task == UpdateStatus(x, t.sessions[x].status)
     && (IsTerminal(t.sessions[x].status) ==> t.ops[o].pc.WantSubsRead?))
  }

  /** A subscriber list gains `o` at its end, or loses those with the id of `o`. */
  ghost predicate SubsMoved(s: State, t: State, o: OpId)
    requires o in t.ops
  {
    && t.subs.Keys <= s.subs.Keys + (if t.ops[o].task.Subscribe? && Registered(t.ops[o]) then {t.ops[o].task.x} else {})
    && (forall x :: SubsOf(t, x) == SubsOf(s, x) || ListGained(s, t, o, x) || ListLost(s, t, o, x))
  }

  ghost predicate ListGained(s: State, t: State, o: OpId, x: SessionId)
    requires o in t.ops
  {
    SubsOf(t, x) == SubsOf(s, x) + [o] && t.ops[o].task.Subscribe? && t.ops[o].task.x == x
    && o in s.ops && s.ops[o].pc.Captured? && Registered(t.ops[o])
  }

  ghost predicate ListLost(s: State, t: State, o: OpId, x: SessionId)
    requires o in t.ops
  {
    t.ops[o].task.Unsubscribe? && t.ops[o].task.x == x
    && o in s.ops && !s.ops[o].pc.Done?
    && SubsOf(t, x) == Retain(SubsOf(s, x), Bearers(s, t.ops[o].task.id))
  }

  /** `captured` and `snap` are written once, from the state they are read in; a notifier
      reads the lists only while no operation holds them for writing. */
  ghost predicate ReadsMoved(s: State, t: State, o: OpId)
    requires o in t.ops && o in s.ops
  {
    var p, q := s.ops[o], t.ops[o];
    && (q.captured == p.captured ||
        (p.captured.None? && q.pc.Captured? && q.task.Subscribe? && q.task.x in s.sessions
         && q.captured == Some(s.sessions[q.task.x])))
    && (q.snap == p.snap ||
        (p.snap.None? && AboutToSnap(p) && Notifier(q.task) && q.snap == Some(SubsOf(s, q.task.x))
         && forall u :: u in s.ops ==> !HoldsSubsWrite(s.ops[u])))
    && (AboutToSnap(p) ==> AboutToSnap(q) || q.snap.Some?)
    && (Registered(p) ==> Registered(q))
    && (p.captured.Some? ==> !q.pc.Captured?)
    && (p.captured.Some? && p.pc.Captured? ==> Registered(q))
    && (Registered(q) && !Registered(p) ==> o in SubsOf(t, q.task.x))
  }

  // ------------------------------------------------------------------ what the effects keep

  lemma LocksKept(s: State, t: State, o: OpId)
    requires LocksInv(s) && OpsMoved(s, t, o) && LocksMoved(s, t, o)
    ensures LocksInv(t)
  {
    forall p | p in t.ops
      ensures t.ops[p].pc.HoldSessionsWrite? <==> t.sessionsLock.writer == Some(p)
      ensures t.ops[p].pc.HoldSessionsRead? <==> p in t.sessionsLock.readers
      ensures HoldsSubsWrite(t.ops[p]) <==> t.subsLock.writer == Some(p)
      ensures t.ops[p].pc.HoldSubsRead? <==> p in t.subsLock.readers
    {
      if p != o { assert t.ops[p] == s.ops[p]; }
    }
  }

  lemma LocalKept(s: State, t: State, o: OpId)
    requires LocalInv(s) && OpsMoved(s, t, o)
    requires t.received.Keys == s.received.Keys + if o !in s.ops && t.ops[o].task.Subscribe? then {o} else {}
    ensures LocalInv(t)
  {
  }

  lemma RetainNoDup(list: seq<OpId>, gone: set<OpId>)
    requires NoDup(list)
    ensures NoDup(Retain(list, gone))
  {
    if list != [] {
      RetainNoDup(list[1..], gone);
      assert list[0] !in list[1..];
      assert forall p :: p in Retain(list[1..], gone) ==> p in list[1..];
    }
  }

  lemma LogsKept(s: State, t: State, o: OpId)
    requires LogInv(s) && OpsMoved(s, t, o) && LogsMoved(s, t, o)
    ensures LogInv(t)
  {
    forall x, k | x in t.sessions && 0 <= k < |t.sessions[x].log|
      ensures WrittenBy(t, x, t.sessions[x].log[k])
    {
      if x in s.sessions && k < |s.sessions[x].log| {
        assert WrittenBy(s, x, s.sessions[x].log[k]);
      }
    }
    forall x, j, k | x in t.sessions && 0 <= j < k < |t.sessions[x].log|
      ensures t.sessions[x].log[j].op != t.sessions[x].log[k].op
    {
      assert WrittenBy(s, x, s.sessions[x].log[j]);
    }
    forall p | p in t.ops && t.ops[p].task.AddProgress? && PastWrite(t.ops[p])
      ensures Logged(t, p)
    {
      if p in s.ops && PastWrite(s.ops[p]) {
        assert Logged(s, p);
      }
    }
  }

  lemma CapturedKept(s: State, t: State, o: OpId)
    requires CapturedInv(s) && OpsMoved(s, t, o) && LogsMoved(s, t, o)
    requires o in s.ops ==> ReadsMoved(s, t, o)
    ensures CapturedInv(t)
  {
  }

  lemma SubsKept(s: State, t: State, o: OpId)
    requires LocalInv(s) && SubsInv(s) && CapturedInv(t)
    requires OpsMoved(s, t, o) && SubsMoved(s, t, o) && (o in s.ops ==> ReadsMoved(s, t, o))
    requires s.sessions.Keys <= t.sessions.Keys
    ensures SubsInv(t)
  {
    forall x, p | ListedOk(s, x, p) ensures ListedOk(t, x, p) {}
    forall x | x in t.subs
      ensures x in t.sessions && NoDup(t.subs[x])
      ensures forall p :: p in t.subs[x] ==> ListedOk(t, x, p)
    {
      ListKept(s, t, o, x);
    }
    SnapsKept(s, t, o);
  }

  lemma ListKept(s: State, t: State, o: OpId, x: SessionId)
    requires SubsInv(s) && CapturedInv(t)
    requires OpsMoved(s, t, o) && SubsMoved(s, t, o)
    requires s.sessions.Keys <= t.sessions.Keys
    requires forall p :: ListedOk(s, x, p) ==> ListedOk(t, x, p)
    requires x in t.subs
    ensures x in t.sessions && NoDup(t.subs[x])
    ensures forall p :: p in t.subs[x] ==> ListedOk(t, x, p)
  {
    assert SubsOf(t, x) == t.subs[x];
    assert forall p :: p in SubsOf(s, x) ==> ListedOk(s, x, p);
    if ListLost(s, t, o, x) {
      RetainNoDup(SubsOf(s, x), Bearers(s, t.ops[o].task.id));
    } else if ListGained(s, t, o, x) {
      assert !ListedOk(s, x, o);
    }
  }

  lemma SnapsKept(s: State, t: State, o: OpId)
    requires SubsInv(s) && OpsMoved(s, t, o) && (o in s.ops ==> ReadsMoved(s, t, o))
    requires forall x, p :: ListedOk(s, x, p) ==> ListedOk(t, x, p)
    ensures forall a :: a in t.ops && t.ops[a].snap.Some? ==> NoDup(t.ops[a].snap.value)
    ensures forall a, p :: a in t.ops && Snapped(t.ops[a], p) ==>
              Notifier(t.ops[a].task) && ListedOk(t, t.ops[a].task.x, p)
  {
    forall a | a in t.ops && t.ops[a].snap.Some?
      ensures NoDup(t.ops[a].snap.value)
      ensures forall p :: p in t.ops[a].snap.value ==> Notifier(t.ops[a].task) && ListedOk(t, t.ops[a].task.x, p)
    {
      assert a in s.ops;
      forall p | p in t.ops[a].snap.value
        ensures Notifier(t.ops[a].task) && ListedOk(t, t.ops[a].task.x, p)
      {
        if t.ops[a].snap == s.ops[a].snap { assert Snapped(s.ops[a], p); }
        else { assert ListedOk(s, t.ops[a].task.x, p); }
      }
    }
  }

  /** A listener was listening before the step, unless it is just taking its clone. */
  lemma ListeningBefore(s: State, t: State, o: OpId, p: OpId)
    requires OpsMoved(s, t, o) && SubsMoved(s, t, o) && (o in s.ops ==> ReadsMoved(s, t, o))
    requires p in t.ops && Listening(t, p)
    ensures p in s.ops
    ensures (Listening(s, p) && s.ops[p].captured == t.ops[p].captured) ||
            (p == o && t.ops[p].task.x in s.sessions && t.ops[p].captured == Some(s.sessions[t.ops[p].task.x]))
  {
  }

  /** What covers a listener keeps covering it: a snapshot taken now includes it. */
  lemma CoversKept(s: State, t: State, o: OpId, a: OpId, p: OpId)
    requires OpsMoved(s, t, o) && (o in s.ops ==> ReadsMoved(s, t, o))
    requires LocalInv(s)
    requires p in s.ops && Listening(s, p) && Covers(s, a, p)
    requires Notifier(s.ops[a].task) && s.ops[a].task.x == s.ops[p].task.x
    ensures Covers(t, a, p)
  {
  }

  lemma CoverKept(s: State, t: State, o: OpId)
    requires LocalInv(s) && LogInv(s) && CoverInv(s) && CapturedInv(s)
    requires OpsMoved(s, t, o) && SubsMoved(s, t, o) && LogsMoved(s, t, o) && (o in s.ops ==> ReadsMoved(s, t, o))
    ensures CoverInv(t)
  {
    forall p | p in t.ops && Listening(t, p) ensures Covered(t, p) {
      ListeningBefore(s, t, o, p);
      var x := t.ops[p].task.x;
      if x in s.sessions {
        assert LogMoved(s, t, o, x);
        forall k | |t.ops[p].captured.value.log| <= k < |t.sessions[x].log|
          ensures Covers(t, t.sessions[x].log[k].op, p)
        {
          if k < |s.sessions[x].log| && Listening(s, p) {
            var a := s.sessions[x].log[k].op;
            assert Covered(s, p);
            assert Covers(s, a, p) && WrittenBy(s, x, s.sessions[x].log[k]);
            CoversKept(s, t, o, a, p);
          }
        }
      }
    }
  }

  lemma TerminalKept(s: State, t: State, o: OpId)
    requires LocalInv(s) && TerminalInv(s) && CapturedInv(s) && CapturedInv(t)
    requires OpsMoved(s, t, o) && SubsMoved(s, t, o) && (o in s.ops ==> ReadsMoved(s, t, o))
    requires forall x :: x in s.sessions ==> x in t.sessions && StatusMoved(s, t, o, x)
    ensures TerminalInv(t)
  {
    forall p | p in t.ops && Listening(t, p) && t.ops[p].task.x in t.sessions
      && IsTerminal(t.sessions[t.ops[p].task.x].status)
      ensures TerminalOwed(t, p, t.sessions[t.ops[p].task.x].status)
    {
      ListeningBefore(s, t, o, p);
      var x := t.ops[p].task.x;
      assert x in s.sessions;
      var status := t.sessions[x].status;
      if status != s.sessions[x].status {
        assert Covers(t, o, p);
      } else if Listening(s, p) && s.ops[p].captured.value.status != status {
        assert TerminalOwed(s, p, status);
        var u :| u in s.ops && s.ops[u].task == UpdateStatus(x, status) && Covers(s, u, p);
        CoversKept(s, t, o, u, p);
      }
    }
  }

  lemma LiveKept(s: State, t: State, o: OpId)
    requires LiveInv(s) && OrderInv(s) && OpsMoved(s, t, o) && SubsMoved(s, t, o) && (o in s.ops ==> ReadsMoved(s, t, o))
    ensures LiveInv(t)
  {
    forall p | p in t.ops && Registered(t.ops[p])
      ensures Unsubscribed(t, p) || p in SubsOf(t, t.ops[p].task.x)
    {
      if p in s.ops && Registered(s.ops[p]) {
        var x := t.ops[p].task.x;
        if Unsubscribed(s, p) {
          var u :| Unsubscribes(s, u, p);
          assert Unsubscribes(t, u, p);
        } else if ListLost(s, t, o, x) && t.ops[o].task.id == s.ops[p].task.id {
          assert Unsubscribes(t, o, p);
        }
      }
    }
  }

  lemma OrderKept(s: State, t: State, o: OpId)
    requires LocalInv(s) && SubsInv(s) && LogInv(s) && CapturedInv(s) && OrderInv(s)
    requires OpsMoved(s, t, o)
    ensures OrderInv(t)
  {
    forall p, a | p in t.ops && a in t.ops[p].before
      ensures a in t.ops && t.ops[a].pc.Done? && !Snapped(t.ops[a], p)
      ensures t.ops[a].captured.Some? ==> !HasItem(t.ops[a].captured.value.log, p)
    {
      if p in s.ops {
        assert a in s.ops[p].before;
      } else {
        assert p == o && a in Returned(s);
        OrderBegun(s, o, a);
      }
    }
  }

  /** A call that has returned knows nothing of an operation that has not begun. */
  lemma OrderBegun(s: State, o: OpId, a: OpId)
    requires SubsInv(s) && LogInv(s) && CapturedInv(s) && o !in s.ops && a in s.ops
    ensures !Snapped(s.ops[a], o)
    ensures s.ops[a].captured.Some? ==> !HasItem(s.ops[a].captured.value.log, o)
  {
    if s.ops[a].captured.Some? {
      var log := s.ops[a].captured.value.log;
      forall k | 0 <= k < |log| ensures log[k].op in s.ops {
        assert WrittenBy(s, s.ops[a].task.x, s.sessions[s.ops[a].task.x].log[k]);
      }
    }
  }

  /** Either no callback was made, or `o` made the next one of its plan. */
  ghost predicate SendMoved(s: State, t: State, o: OpId)
    requires o in t.ops
  {
    if o in s.ops && s.ops[o].sent < t.ops[o].sent then
      var plan := Plan(o, s.ops[o]);
      Plan(o, t.ops[o]) == plan && t.ops[o].sent == s.ops[o].sent + 1 && s.ops[o].sent < |plan|
      && var d := plan[s.ops[o].sent];
         d.to in s.received && t.received == s.received[d.to := s.received[d.to] + [d.event]]
         && !t.ops[o].pc.Done?
    else
      && SentOk(o, t.ops[o])
      && (o in s.ops ==> t.ops[o].sent == s.ops[o].sent
                         && (t.ops[o].sent == 0 || Plan(o, t.ops[o]) == Plan(o, s.ops[o])))
      && t.received == if o !in s.ops && t.ops[o].task.Subscribe? then s.received[o := []] else s.received
  }

  lemma FromAppend(r: seq<Event>, e: Event, o: OpId)
    ensures From(r + [e], o) == From(r, o) + if Source(e) == o then [e] else []
  {
    assert (r + [e])[..|r|] == r;
  }

  lemma ForNext(plan: seq<Delivery>, n: nat, to: OpId)
    requires n < |plan|
    ensures For(plan[..n + 1], to) == For(plan[..n], to) + if plan[n].to == to then [plan[n].event] else []
  {
    assert plan[..n + 1][..n] == plan[..n];
  }

  lemma FromStranger(r: seq<Event>, o: OpId)
    requires forall i :: 0 <= i < |r| ==> Source(r[i]) != o
    ensures From(r, o) == []
  {
  }

  lemma PlanSource(o: OpId, op: Op, n: nat)
    requires n < |Plan(o, op)|
    ensures Source(Plan(o, op)[n].event) == o
  {
  }

  /** Every callback goes to a subscription the store knows. */
  lemma PlanTarget(s: State, o: OpId, n: nat)
    requires LocalInv(s) && SubsInv(s) && o in s.ops && n < |Plan(o, s.ops[o])|
    ensures Plan(o, s.ops[o])[n].to in s.received
  {
    var op := s.ops[o];
    if op.task.Subscribe? {
    } else {
      assert Snapped(op, op.snap.value[n]);
      assert ListedOk(s, op.task.x, op.snap.value[n]);
    }
  }

  lemma AccountKept(s: State, t: State, o: OpId)
    requires LocalInv(s) && SubsInv(s) && AccountInv(s) && OpsMoved(s, t, o) && SendMoved(s, t, o)
    ensures AccountInv(t)
  {
    forall r, p | r in t.received && p in t.ops ensures Accounted(t, r, p) {
      if p !in s.ops {
        if r in s.received { FromStranger(s.received[r], p); }
      } else if r !in s.received {
        ForStranger(s, o, p, s.ops[p].sent);
      } else {
        assert Accounted(s, r, p);
        AccountedKept(s, t, o, r, p);
      }
    }
    SourcesKept(s, t, o);
  }

  /** No plan is addressed to an operation that has not begun. */
  lemma ForStranger(s: State, o: OpId, p: OpId, n: nat)
    requires LocalInv(s) && SubsInv(s) && o !in s.received && p in s.ops && n <= |Plan(p, s.ops[p])|
    ensures For(Plan(p, s.ops[p])[..n], o) == []
  {
    if n > 0 {
      ForStranger(s, o, p, n - 1);
      ForNext(Plan(p, s.ops[p]), n - 1, o);
      PlanTarget(s, p, n - 1);
    }
  }

  lemma SourcesKept(s: State, t: State, o: OpId)
    requires AccountInv(s) && OpsMoved(s, t, o) && SendMoved(s, t, o)
    ensures forall r, i :: r in t.received && 0 <= i < |t.received[r]| ==> Source(t.received[r][i]) in t.ops
  {
    if o in s.ops && s.ops[o].sent < t.ops[o].sent { PlanSource(o, s.ops[o], s.ops[o].sent); }
  }

  lemma AccountedKept(s: State, t: State, o: OpId, r: OpId, p: OpId)
    requires LocalInv(s) && OpsMoved(s, t, o) && SendMoved(s, t, o)
    requires r in s.received && p in s.ops && Accounted(s, r, p)
    ensures r in t.received && Accounted(t, r, p)
  {
    if o in s.ops && s.ops[o].sent < t.ops[o].sent { AccountedSent(s, t, o, r, p); }
    else if p == o { AccountedUnsent(s, t, o, r); }
  }

  lemma AccountedUnsent(s: State, t: State, o: OpId, r: OpId)
    requires o in s.ops && o in t.ops && SendMoved(s, t, o) && s.ops[o].sent >= t.ops[o].sent
    requires r in s.received && Accounted(s, r, o)
    ensures r in t.received && Accounted(t, r, o)
  {
    if t.ops[o].sent == 0 {
      assert Plan(o, s.ops[o])[..0] == Plan(o, t.ops[o])[..0];
    }
  }

  lemma AccountedSent(s: State, t: State, o: OpId, r: OpId, p: OpId)
    requires OpsMoved(s, t, o) && SendMoved(s, t, o)
    requires r in s.received && p in s.ops && o in s.ops && s.ops[o].sent < t.ops[o].sent
    requires Accounted(s, r, p)
    ensures r in t.received && Accounted(t, r, p)
  {
    var plan, n := Plan(o, s.ops[o]), s.ops[o].sent;
    PlanSource(o, s.ops[o], n);
    ForNext(plan, n, r);
    if plan[n].to == r { FromAppend(s.received[r], plan[n].event, p); }
  }

  // ------------------------------------------------------------------ the effects of each step

  ghost predicate Control(s: State, t: State, o: OpId) {
    OpsMoved(s, t, o) && LocksMoved(s, t, o)
  }

  ghost predicate Data(s: State, t: State, o: OpId)
    requires o in t.ops
  {
    && LogsMoved(s, t, o)
    && (forall x :: x in s.sessions ==> x in t.sessions && StatusMoved(s, t, o, x))
    && SubsMoved(s, t, o)
    && (o in s.ops ==> ReadsMoved(s, t, o))
    && SendMoved(s, t, o)
  }

  lemma ControlKeeps(s: State, t: State, o: OpId)
    requires LocksInv(s) && LocalInv(s) && Control(s, t, o) && SendMoved(s, t, o)
    ensures LocksInv(t) && LocalInv(t)
  {
    LocksKept(s, t, o);
    LocalKept(s, t, o);
  }

  lemma DataKeeps(s: State, t: State, o: OpId)
    requires Inv(s) && OpsMoved(s, t, o) && Data(s, t, o)
    ensures SubsInv(t) && LogInv(t) && CapturedInv(t) && CoverInv(t) && TerminalInv(t)
    ensures LiveInv(t) && OrderInv(t) && AccountInv(t)
  {
    LogsKept(s, t, o);
    CapturedKept(s, t, o);
    SubsKept(s, t, o);
    CoverKept(s, t, o);
    TerminalKept(s, t, o);
    LiveKept(s, t, o);
    OrderKept(s, t, o);
    AccountKept(s, t, o);
  }

  lemma BeginControl(s: State, o: OpId, task: Task)
    requires LocalInv(s) && o !in s.ops
    ensures Control(s, BeginOp(s, o, task), o)
  {
  }

  lemma BeginData(s: State, o: OpId, task: Task)
    requires LocalInv(s) && o !in s.ops
    ensures Data(s, BeginOp(s, o, task), o)
  {
  }

  lemma AcquireSessionsWriteControl(s: State, o: OpId)
    requires LocalInv(s) && o in s.ops && s.ops[o].pc.WantSessionsWrite? && CanWrite(s.sessionsLock)
    ensures Control(s, AcquireSessionsWrite(s, o), o)
  {
  }

  lemma AcquireSessionsWriteData(s: State, o: OpId)
    requires LocalInv(s) && o in s.ops && s.ops[o].pc.WantSessionsWrite? && CanWrite(s.sessionsLock)
    ensures Data(s, AcquireSessionsWrite(s, o), o)
  {
  }

  lemma AcquireSessionsReadControl(s: State, o: OpId)
    requires LocalInv(s) && o in s.ops && s.ops[o].pc.WantSessionsRead? && CanRead(s.sessionsLock)
    ensures Control(s, AcquireSessionsRead(s, o), o)
  {
  }

  lemma AcquireSessionsReadData(s: State, o: OpId)
    requires LocalInv(s) && o in s.ops && s.ops[o].pc.WantSessionsRead? && CanRead(s.sessionsLock)
    ensures Data(s, AcquireSessionsRead(s, o), o)
  {
  }

  lemma AcquireSubsWriteControl(s: State, o: OpId)
    requires LocalInv(s) && o in s.ops && s.ops[o].pc.WantSubsWrite? && CanWrite(s.subsLock)
    ensures Control(s, AcquireSubsWrite(s, o), o)
  {
  }

  lemma AcquireSubsWriteData(s: State, o: OpId)
    requires LocalInv(s) && o in s.ops && s.ops[o].pc.WantSubsWrite? && CanWrite(s.subsLock)
    ensures Data(s, AcquireSubsWrite(s, o), o)
  {
  }

  lemma AcquireSubsReadControl(s: State, o: OpId)
    requires LocalInv(s) && o in s.ops && s.ops[o].pc.WantSubsRead? && CanRead(s.subsLock)
    ensures Control(s, AcquireSubsRead(s, o), o)
  {
  }

  lemma AcquireSubsReadData(s: State, o: OpId)
    requires LocalInv(s) && o in s.ops && s.ops[o].pc.WantSubsRead? && CanRead(s.subsLock)
    ensures Data(s, AcquireSubsRead(s, o), o)
  {
  }

  lemma CreateControl(s: State, o: OpId, newId: SessionId)
    requires LocalInv(s) && o in s.ops && s.ops[o].pc.HoldSessionsWrite? && s.ops[o].task.CreateSession? && FreshSession(s, newId)
    ensures Control(s, WriteSessions(s, o, newId), o)
  {
  }

  lemma CreateData(s: State, o: OpId, newId: SessionId)
    requires LocalInv(s) && o in s.ops && s.ops[o].pc.HoldSessionsWrite? && s.ops[o].task.CreateSession? && FreshSession(s, newId)
    ensures Data(s, WriteSessions(s, o, newId), o)
  {
  }

  lemma AppendControl(s: State, o: OpId, newId: SessionId)
    requires LocalInv(s) && o in s.ops && s.ops[o].pc.HoldSessionsWrite? && s.ops[o].task.AddProgress?
    ensures Control(s, WriteSessions(s, o, newId), o)
  {
  }

  lemma AppendData(s: State, o: OpId, newId: SessionId)
    requires LocalInv(s) && o in s.ops && s.ops[o].pc.HoldSessionsWrite? && s.ops[o].task.AddProgress?
    ensures Data(s, WriteSessions(s, o, newId), o)
  {
  }

  lemma SetStatusControl(s: State, o: OpId, newId: SessionId)
    requires LocalInv(s) && o in s.ops && s.ops[o].pc.HoldSessionsWrite? && s.ops[o].task.UpdateStatus?
    ensures Control(s, WriteSessions(s, o, newId), o)
  {
  }

  lemma SetStatusData(s: State, o: OpId, newId: SessionId)
    requires LocalInv(s) && o in s.ops && s.ops[o].pc.HoldSessionsWrite? && s.ops[o].task.UpdateStatus?
    ensures Data(s, WriteSessions(s, o, newId), o)
  {
  }

  lemma SetResultControl(s: State, o: OpId, newId: SessionId)
    requires LocalInv(s) && o in s.ops && s.ops[o].pc.HoldSessionsWrite? && s.ops[o].task.SetResult?
    ensures Control(s, WriteSessions(s, o, newId), o)
  {
  }

  lemma SetResultData(s: State, o: OpId, newId: SessionId)
    requires LocalInv(s) && o in s.ops && s.ops[o].pc.HoldSessionsWrite? && s.ops[o].task.SetResult?
    ensures Data(s, WriteSessions(s, o, newId), o)
  {
  }

  lemma ReadSessionsControl(s: State, o: OpId)
    requires LocalInv(s) && o in s.ops && s.ops[o].pc.HoldSessionsRead?
    ensures Control(s, ReadSessions(s, o), o)
  {
  }

  lemma ReadSessionsData(s: State, o: OpId)
    requires LocalInv(s) && o in s.ops && s.ops[o].pc.HoldSessionsRead?
    ensures Data(s, ReadSessions(s, o), o)
  {
  }

  lemma RemoveSubControl(s: State, o: OpId)
    requires LocalInv(s) && o in s.ops && s.ops[o].pc.HoldSubsWrite?
    ensures Control(s, RemoveSub(s, o), o)
  {
  }

  lemma RemoveSubData(s: State, o: OpId)
    requires LocalInv(s) && o in s.ops && s.ops[o].pc.HoldSubsWrite?
    ensures Data(s, RemoveSub(s, o), o)
  {
  }

  lemma SnapshotControl(s: State, o: OpId)
    requires LocalInv(s) && o in s.ops && s.ops[o].pc.HoldSubsRead?
    ensures Control(s, Snapshot(s, o), o)
  {
  }

  lemma SnapshotData(s: State, o: OpId)
    requires LocksInv(s) && LocalInv(s) && o in s.ops && s.ops[o].pc.HoldSubsRead?
    ensures Data(s, Snapshot(s, o), o)
  {
  }

  lemma RegisterControl(s: State, o: OpId)
    requires LocalInv(s) && o in s.ops && s.ops[o].pc.Captured?
    ensures Control(s, Register(s, o), o)
  {
  }

  lemma RegisterData(s: State, o: OpId)
    requires LocalInv(s) && o in s.ops && s.ops[o].pc.Captured?
    ensures Data(s, Register(s, o), o)
  {
  }

  lemma SendNextControl(s: State, o: OpId)
    requires LocalInv(s) && o in s.ops && s.ops[o].pc.Delivering? && s.ops[o].sent < |Plan(o, s.ops[o])|
    ensures Control(s, SendNext(s, o), o)
  {
  }

  lemma SendNextData(s: State, o: OpId)
    requires o in s.ops && s.ops[o].pc.Delivering?
    requires s.ops[o].sent < |Plan(o, s.ops[o])| && Plan(o, s.ops[o])[s.ops[o].sent].to in s.received
    ensures Data(s, SendNext(s, o), o)
  {
  }

  lemma ReturnControl(s: State, o: OpId)
    requires LocalInv(s) && o in s.ops && s.ops[o].pc.Delivering?
    ensures Control(s, SetOp(s, o, s.ops[o].(pc := Done)), o)
  {
  }

  lemma ReturnData(s: State, o: OpId)
    requires o in s.ops && s.ops[o].pc.Delivering? && s.ops[o].sent == |Plan(o, s.ops[o])|
    ensures Data(s, SetOp(s, o, s.ops[o].(pc := Done)), o)
  {
  }

  lemma DeliverEffect(s: State, o: OpId)
    requires LocalInv(s) && SubsInv(s) && o in s.ops && s.ops[o].pc.Delivering? && SentOk(o, s.ops[o])
    ensures Control(s, Deliver(s, o), o) && Data(s, Deliver(s, o), o)
  {
    if s.ops[o].sent < |Plan(o, s.ops[o])| {
      PlanTarget(s, o, s.ops[o].sent);
      SendNextControl(s, o);
      SendNextData(s, o);
    } else {
      ReturnControl(s, o);
      ReturnData(s, o);
    }
  }

  lemma WriteSessionsEffect(s: State, o: OpId, newId: SessionId)
    requires LocalInv(s) && o in s.ops && s.ops[o].pc.HoldSessionsWrite?
    requires s.ops[o].task.CreateSession? ==> FreshSession(s, newId)
    ensures Control(s, WriteSessions(s, o, newId), o) && Data(s, WriteSessions(s, o, newId), o)
  {
    assert LocalOk(s.ops[o]);
    match s.ops[o].task
    case CreateSession => CreateControl(s, o, newId); CreateData(s, o, newId);
    case AddProgress(_, _) => AppendControl(s, o, newId); AppendData(s, o, newId);
    case UpdateStatus(_, _) => SetStatusControl(s, o, newId); SetStatusData(s, o, newId);
    case SetResult(_) => SetResultControl(s, o, newId); SetResultData(s, o, newId);
  }

  lemma ActEffect(s: State, o: OpId, newId: SessionId)
    requires LocksInv(s) && LocalInv(s) && SubsInv(s) && AccountInv(s)
    requires WellFormed(s) && CanMove(s, Act(o, newId))
    ensures Control(s, Step(s, Act(o, newId)), o) && Data(s, Step(s, Act(o, newId)), o)
  {
    match s.ops[o].pc
    case WantSessionsWrite => AcquireSessionsWriteControl(s, o); AcquireSessionsWriteData(s, o);
    case HoldSessionsWrite => WriteSessionsEffect(s, o, newId);
    case WantSessionsRead => AcquireSessionsReadControl(s, o); AcquireSessionsReadData(s, o);
    case HoldSessionsRead => ReadSessionsControl(s, o); ReadSessionsData(s, o);
    case WantSubsWrite => AcquireSubsWriteControl(s, o); AcquireSubsWriteData(s, o);
    case HoldSubsWrite => RemoveSubControl(s, o); RemoveSubData(s, o);
    case WantSubsRead => AcquireSubsReadControl(s, o); AcquireSubsReadData(s, o);
    case HoldSubsRead => SnapshotControl(s, o); SnapshotData(s, o);
    case Captured => RegisterControl(s, o); RegisterData(s, o);
    case Delivering =>
      assert SentOk(o, s.ops[o]);
      DeliverEffect(s, o);
  }

  lemma EffectKeeps(s: State, t: State, o: OpId)
    requires Inv(s) && Control(s, t, o) && Data(s, t, o)
    ensures Inv(t)
  {
    ControlKeeps(s, t, o);
    DataKeeps(s, t, o);
  }

  lemma BeginKeeps(s: State, o: OpId, task: Task)
    requires Inv(s) && o !in s.ops
    ensures Inv(BeginOp(s, o, task))
  {
    BeginControl(s, o, task);
    BeginData(s, o, task);
    EffectKeeps(s, BeginOp(s, o, task), o);
  }

  /** Every step of every operation keeps the whole invariant. */
  lemma StepKeeps(s: State, m: Move)
    requires Inv(s) && WellFormed(s) && CanMove(s, m)
    ensures Inv(Step(s, m))
  {
    if m.Begin? {
      BeginKeeps(s, m.o, m.task);
    } else {
      ActEffect(s, m.o, m.newId);
      EffectKeeps(s, Step(s, Act(m.o, m.newId)), m.o);
    }
  }

  lemma {:induction false} ExecInv(ms: seq<Move>)
    ensures Inv(Exec(ms))
  {
    if ms != [] {
      var s := Exec(ms[..|ms| - 1]);
      ExecInv(ms[..|ms| - 1]);
      if CanMove(s, ms[|ms| - 1]) { StepKeeps(s, ms[|ms| - 1]); }
    }
  }
}
