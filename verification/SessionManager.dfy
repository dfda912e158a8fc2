/** The session store of relay-engine/src/session.rs, one call at a time: a class over the
    two maps, the functions its methods are proved against, and what whole runs keep. */
module SessionManager {
  import opened Options
  import opened Sequences
  import opened SessionTypes


  datatype ExecutionTask = ExecutionTask(originalSuggestion: string, dispatchedTask: string, agentName: string)

  datatype ExecutionResult = ExecutionResult(
    summary: string, rawOutput: string, durationSecs: int, success: bool, errorMessage: string)

  datatype Session = Session(
    task: ExecutionTask,
    status: SessionStatus,
    progressLogs: seq<ProgressEntry>,
    startedAt: int,
    updatedAt: int,
    finalResult: Option<ExecutionResult>)

  /** A call made on a subscriber. */
  datatype Notice = OnProgress(x: SessionId, entry: ProgressEntry) | OnTerminal(x: SessionId, status: SessionStatus)

  type Delivered = map<SubscriberId, seq<Notice>>

  /** The store as a value; `delivered` is what each subscriber has been handed so far. */
  datatype Store = Store(
    sessions: map<SessionId, Session>,
    subscribers: map<SessionId, seq<SubscriberId>>,
    delivered: Delivered)

  const EMPTY := Store(map[], map[], map[])

  function Got(delivered: Delivered, sub: SubscriberId): seq<Notice> {
    if sub in delivered then delivered[sub] else []
  }

  function Hand(delivered: Delivered, sub: SubscriberId, n: Notice): Delivered {
    delivered[sub := Got(delivered, sub) + [n]]
  }

  function HandEach(delivered: Delivered, subs: seq<SubscriberId>, n: Notice): Delivered {
    if subs == [] then delivered else Hand(HandEach(delivered, subs[..|subs| - 1], n), subs[|subs| - 1], n)
  }

  function HandAll(delivered: Delivered, sub: SubscriberId, x: SessionId, log: seq<ProgressEntry>): Delivered {
    if log == [] then delivered
    else Hand(HandAll(delivered, sub, x, log[..|log| - 1]), sub, OnProgress(x, log[|log| - 1]))
  }

  function SubscribersOf(s: Store, x: SessionId): seq<SubscriberId> {
    if x in s.subscribers then s.subscribers[x] else []
  }

  function Without(subs: seq<SubscriberId>, id: SubscriberId): (r: seq<SubscriberId>)
    ensures forall p :: p in r <==> p in subs && p != id
  {
    if subs == [] then []
    else Without(subs[..|subs| - 1], id) + if subs[|subs| - 1] == id then [] else [subs[|subs| - 1]]
  }

  // ------------------------------------------------------------------ the calls as functions

  function Created(s: Store, x: SessionId, task: ExecutionTask, now: int): Store {
    s.(sessions := s.sessions[x := Session(task, Pending, [], now, now, None)])
  }

  function Progressed(s: Store, x: SessionId, entry: ProgressEntry, now: int): Store {
    var t :=
      if x in s.sessions
      then s.(sessions := s.sessions[x := s.sessions[x].(progressLogs := s.sessions[x].progressLogs + [entry], updatedAt := now)])
      else s;
    t.(delivered := HandEach(t.delivered, SubscribersOf(t, x), OnProgress(x, entry)))
  }

  function StatusUpdated(s: Store, x: SessionId, status: SessionStatus, now: int): Store {
    if x !in s.sessions then s
    else
      var notify := s.sessions[x].status != status && IsTerminal(status);
      var t := s.(sessions := s.sessions[x := s.sessions[x].(status := status, updatedAt := now)]);
      if notify then t.(delivered := HandEach(t.delivered, SubscribersOf(t, x), OnTerminal(x, status))) else t
  }

  function ResultSet(s: Store, x: SessionId, result: ExecutionResult, now: int): Store {
    if x !in s.sessions then s
    else s.(sessions := s.sessions[x := s.sessions[x].(finalResult := Some(result), updatedAt := now)])
  }

  function Subscribed(s: Store, x: SessionId, sub: SubscriberId): Store {
    if x !in s.sessions then s
    else
      var replayed := HandAll(s.delivered, sub, x, s.sessions[x].progressLogs);
      var status := s.sessions[x].status;
      s.(subscribers := s.subscribers[x := SubscribersOf(s, x) + [sub]],
         delivered := if IsTerminal(status) then Hand(replayed, sub, OnTerminal(x, status)) else replayed)
  }

  function Unsubscribed(s: Store, x: SessionId, id: SubscriberId): Store {
    if x !in s.subscribers then s
    else s.(subscribers := s.subscribers[x := Without(s.subscribers[x], id)])
  }

  // ------------------------------------------------------------------ the class

  class SessionManager {
    var sessions: map<SessionId, Session>
    var subscribers: map<SessionId, seq<SubscriberId>>
    var delivered: Delivered

    function View(): Store
      reads this
    {
      Store(sessions, subscribers, delivered)
    }

    constructor ()
      ensures View() == EMPTY
    {
      sessions, subscribers, delivered := map[], map[], map[];
    }

    /** `id` is the generated UUID and `now` the clock. */
    method CreateSession(task: ExecutionTask, id: SessionId, now: int)
      modifies this`sessions
      ensures View() == Created(old(View()), id, task, now)
    {
      sessions := sessions[id := Session(task, Pending, [], now, now, None)];
    }

    method UpdateStatus(x: SessionId, status: SessionStatus, now: int)
      modifies this`sessions, this`delivered
      ensures View() == StatusUpdated(old(View()), x, status, now)
    {
      var shouldNotifyTerminal := false;
      if x in sessions {
        if sessions[x].status != status && IsTerminal(status) {
          shouldNotifyTerminal := true;
        }
        sessions := sessions[x := sessions[x].(status := status, updatedAt := now)];
      }
      if shouldNotifyTerminal {
        Notify(x, OnTerminal(x, status));
      }
    }

    method AddProgress(x: SessionId, entry: ProgressEntry, now: int)
      modifies this`sessions, this`delivered
      ensures View() == Progressed(old(View()), x, entry, now)
    {
      if x in sessions {
        sessions := sessions[x := sessions[x].(progressLogs := sessions[x].progressLogs + [entry], updatedAt := now)];
      }
      Notify(x, OnProgress(x, entry));
    }

    method SetResult(x: SessionId, result: ExecutionResult, now: int)
      modifies this`sessions
      ensures View() == ResultSet(old(View()), x, result, now)
    {
      if x in sessions {
        sessions := sessions[x := sessions[x].(finalResult := Some(result), updatedAt := now)];
      }
    }

    method Subscribe(x: SessionId, sub: SubscriberId)
      modifies this`subscribers, this`delivered
      ensures View() == Subscribed(old(View()), x, sub)
    {
      if x !in sessions {
        return;
      }
      var session := sessions[x];
      var listed := if x in subscribers then subscribers[x] else [];
      subscribers := subscribers[x := listed + [sub]];
      var entries := session.progressLogs;
      for i := 0 to |entries|
        invariant delivered == HandAll(old(delivered), sub, x, entries[..i])
        invariant sessions == old(sessions) && subscribers == old(subscribers)[x := listed + [sub]]
      {
        assert entries[..i + 1][..i] == entries[..i];
        delivered := Hand(delivered, sub, OnProgress(x, entries[i]));
      }
      assert entries[..|entries|] == entries;
      if IsTerminal(session.status) {
        delivered := Hand(delivered, sub, OnTerminal(x, session.status));
      }
    }

    method Unsubscribe(x: SessionId, id: SubscriberId)
      modifies this`subscribers
      ensures View() == Unsubscribed(old(View()), x, id)
    {
      if x in subscribers {
        subscribers := subscribers[x := Without(subscribers[x], id)];
      }
    }

    /** `notify_progress` and `notify_terminal`: one callback per listed subscriber, in order. */
    method Notify(x: SessionId, n: Notice)
      modifies this`delivered
      ensures delivered == HandEach(old(delivered), SubscribersOf(old(View()), x), n)
    {
      var subs := if x in subscribers then subscribers[x] else [];
      for i := 0 to |subs|
        invariant delivered == HandEach(old(delivered), subs[..i], n)
        invariant subscribers == old(subscribers)
      {
        assert subs[..i + 1][..i] == subs[..i];
        delivered := Hand(delivered, subs[i], n);
      }
      assert subs[..|subs|] == subs;
    }
  }

  // ------------------------------------------------------------------ whole runs

  datatype Call =
    | Create(x: SessionId, task: ExecutionTask, now: int)
    | Progress(x: SessionId, entry: ProgressEntry, now: int)
    | Status(x: SessionId, status: SessionStatus, now: int)
    | Result(x: SessionId, result: ExecutionResult, now: int)
    | Join(x: SessionId, sub: SubscriberId)
    | Leave(x: SessionId, sub: SubscriberId)

  /** A run remembers in which session each subscriber was accepted. */
  datatype Run = Run(store: Store, home: map<SubscriberId, SessionId>)

  /** Generated ids are unused: UUIDs name new sessions and new subscribers only. */
  predicate Possible(r: Run, c: Call) {
    match c
    case Create(x, _, _) => x !in r.store.sessions
    case Join(_, sub) => sub !in r.home && sub !in r.store.delivered
    case _ => true
  }

  function Apply(r: Run, c: Call): Run {
    match c
    case Create(x, task, now) => r.(store := Created(r.store, x, task, now))
    case Progress(x, entry, now) => r.(store := Progressed(r.store, x, entry, now))
    case Status(x, status, now) => r.(store := StatusUpdated(r.store, x, status, now))
    case Result(x, result, now) => r.(store := ResultSet(r.store, x, result, now))
    case Join(x, sub) =>
      Run(Subscribed(r.store, x, sub), if x in r.store.sessions then r.home[sub := x] else r.home)
    case Leave(x, sub) => r.(store := Unsubscribed(r.store, x, sub))
  }

  /** Impossible calls are skipped. */
  function After(calls: seq<Call>): Run {
    if calls == [] then Run(EMPTY, map[])
    else
      var r := After(calls[..|calls| - 1]);
      if Possible(r, calls[|calls| - 1]) then Apply(r, calls[|calls| - 1]) else r
  }

  /** The progress entries among the notices, in order. */
  function ProgressOf(notices: seq<Notice>): seq<ProgressEntry> {
    if notices == [] then []
    else ProgressOf(notices[..|notices| - 1]) +
         match notices[|notices| - 1] { case OnProgress(_, e) => [e] case OnTerminal(_, _) => [] }
  }

  predicate Listed(r: Run, sub: SubscriberId)
    requires sub in r.home
  {
    sub in SubscribersOf(r.store, r.home[sub])
  }

  /** Lists belong to existing sessions, hold nobody twice, and name only accepted subscribers. */
  ghost predicate ListsInv(r: Run) {
    && (forall x :: x in r.store.subscribers ==> x in r.store.sessions && NoDup(r.store.subscribers[x]))
    && (forall x, sub :: x in r.store.subscribers && sub in r.store.subscribers[x] ==> sub in r.home && r.home[sub] == x)
    && r.store.delivered.Keys <= r.home.Keys
    && (forall sub :: sub in r.home ==> r.home[sub] in r.store.sessions)
  }

  /** A listed subscriber holds the whole log, in order, each entry once, and knows of a
      terminal status; one that left holds a prefix of the log. */
  predicate FaithfulTo(x: SessionId, session: Session, got: seq<Notice>, listed: bool) {
    && ProgressOf(got) <= session.progressLogs
    && (listed ==> ProgressOf(got) == session.progressLogs)
    && (listed && IsTerminal(session.status) ==> OnTerminal(x, session.status) in got)
  }

  ghost predicate Faithful(r: Run, sub: SubscriberId)
    requires sub in r.home && r.home[sub] in r.store.sessions
  {
    FaithfulTo(r.home[sub], r.store.sessions[r.home[sub]], Got(r.store.delivered, sub), Listed(r, sub))
  }

  ghost predicate Inv(r: Run) {
    ListsInv(r) && forall sub :: sub in r.home ==> Faithful(r, sub)
  }

  lemma ProgressAppend(notices: seq<Notice>, n: Notice)
    ensures ProgressOf(notices + [n]) == ProgressOf(notices) + match n { case OnProgress(_, e) => [e] case OnTerminal(_, _) => [] }
  {
    assert (notices + [n])[..|notices|] == notices;
  }

  /** Distinct subscribers are each handed the notice once, the rest nothing. */
  lemma {:induction false} HandEachOnce(delivered: Delivered, subs: seq<SubscriberId>, n: Notice, sub: SubscriberId)
    requires NoDup(subs)
    ensures Got(HandEach(delivered, subs, n), sub) == Got(delivered, sub) + if sub in subs then [n] else []
  {
    if subs != [] {
      var front := subs[..|subs| - 1];
      HandEachOnce(delivered, front, n, sub);
      assert subs == front + [subs[|subs| - 1]];
    }
  }

  lemma {:induction false} HandEachKeys(delivered: Delivered, subs: seq<SubscriberId>, n: Notice, sub: SubscriberId)
    requires sub in HandEach(delivered, subs, n)
    ensures sub in delivered || sub in subs
  {
    if subs != [] && sub != subs[|subs| - 1] {
      HandEachKeys(delivered, subs[..|subs| - 1], n, sub);
    }
  }

  /** What the subscriber holds after a replay: what it had, and the entries in order. */
  lemma {:induction false} HandAllLog(delivered: Delivered, sub: SubscriberId, x: SessionId, log: seq<ProgressEntry>)
    ensures ProgressOf(Got(HandAll(delivered, sub, x, log), sub)) == ProgressOf(Got(delivered, sub)) + log
  {
    if log != [] {
      var front, e := log[..|log| - 1], log[|log| - 1];
      HandAllLog(delivered, sub, x, front);
      HandAllMore(delivered, sub, x, log);
      ProgressAppend(Got(HandAll(delivered, sub, x, front), sub), OnProgress(x, e));
      Regroup(ProgressOf(Got(delivered, sub)), log);
    }
  }

  lemma HandAllMore(delivered: Delivered, sub: SubscriberId, x: SessionId, log: seq<ProgressEntry>)
    requires log != []
    ensures Got(HandAll(delivered, sub, x, log), sub) ==
            Got(HandAll(delivered, sub, x, log[..|log| - 1]), sub) + [OnProgress(x, log[|log| - 1])]
  {
  }

  lemma Regroup<T>(a: seq<T>, b: seq<T>)
    requires b != []
    ensures (a + b[..|b| - 1]) + [b[|b| - 1]] == a + b
  {
  }

  lemma {:induction false} HandAllOthers(delivered: Delivered, sub: SubscriberId, x: SessionId, log: seq<ProgressEntry>)
    ensures HandAll(delivered, sub, x, log).Keys <= delivered.Keys + {sub}
    ensures forall other :: other != sub ==> Got(HandAll(delivered, sub, x, log), other) == Got(delivered, other)
  {
    if log != [] {
      HandAllOthers(delivered, sub, x, log[..|log| - 1]);
    }
  }

  lemma WithoutNoDup(subs: seq<SubscriberId>, id: SubscriberId)
    requires NoDup(subs)
    ensures NoDup(Without(subs, id))
  {
    if subs != [] {
      WithoutNoDup(subs[..|subs| - 1], id);
      assert subs[|subs| - 1] !in subs[..|subs| - 1];
    }
  }

  /** What one round of notifications needs: nobody is listed twice, nor away from home. */
  predicate Homed(r: Run, x: SessionId, sub: SubscriberId)
    requires sub in r.home
  {
    NoDup(SubscribersOf(r.store, x)) && (sub in SubscribersOf(r.store, x) ==> r.home[sub] == x)
  }

  lemma HandedTo(r: Run, x: SessionId, n: Notice, sub: SubscriberId)
    requires sub in r.home && Homed(r, x, sub)
    ensures Got(HandEach(r.store.delivered, SubscribersOf(r.store, x), n), sub) ==
            if r.home[sub] == x && Listed(r, sub) then Got(r.store.delivered, sub) + [n] else Got(r.store.delivered, sub)
  {
    HandEachOnce(r.store.delivered, SubscribersOf(r.store, x), n, sub);
    assert Got(r.store.delivered, sub) + [] == Got(r.store.delivered, sub);
  }

  lemma NotifiedLists(r: Run, x: SessionId, n: Notice)
    requires ListsInv(r)
    ensures HandEach(r.store.delivered, SubscribersOf(r.store, x), n).Keys <= r.home.Keys
  {
    forall sub | sub in HandEach(r.store.delivered, SubscribersOf(r.store, x), n) ensures sub in r.home {
      HandEachKeys(r.store.delivered, SubscribersOf(r.store, x), n, sub);
    }
  }

  lemma FaithfulProgress(x: SessionId, session: Session, got: seq<Notice>, listed: bool, entry: ProgressEntry, now: int)
    requires FaithfulTo(x, session, got, listed)
    ensures FaithfulTo(x, session.(progressLogs := session.progressLogs + [entry], updatedAt := now),
                       if listed then got + [OnProgress(x, entry)] else got, listed)
  {
    ProgressAppend(got, OnProgress(x, entry));
  }

  lemma ProgressFaithful(r: Run, x: SessionId, entry: ProgressEntry, now: int, sub: SubscriberId)
    requires sub in r.home && r.home[sub] in r.store.sessions && x in r.store.sessions
    requires Homed(r, x, sub) && Faithful(r, sub)
    ensures Faithful(r.(store := Progressed(r.store, x, entry, now)), sub)
  {
    HandedTo(r, x, OnProgress(x, entry), sub);
    if r.home[sub] == x {
      FaithfulProgress(x, r.store.sessions[x], Got(r.store.delivered, sub), Listed(r, sub), entry, now);
    }
  }

  lemma ProgressKeeps(r: Run, x: SessionId, entry: ProgressEntry, now: int)
    requires Inv(r)
    ensures Inv(r.(store := Progressed(r.store, x, entry, now)))
  {
    if x in r.store.sessions {
      NotifiedLists(r, x, OnProgress(x, entry));
      forall sub | sub in r.home ensures Faithful(r.(store := Progressed(r.store, x, entry, now)), sub) {
        ProgressFaithful(r, x, entry, now, sub);
      }
    }
  }

  lemma FaithfulStatus(x: SessionId, session: Session, got: seq<Notice>, listed: bool, status: SessionStatus, now: int)
    requires FaithfulTo(x, session, got, listed)
    ensures FaithfulTo(x, session.(status := status, updatedAt := now),
                       if session.status != status && IsTerminal(status) && listed then got + [OnTerminal(x, status)] else got, listed)
  {
    ProgressAppend(got, OnTerminal(x, status));
    assert ProgressOf(got) + [] == ProgressOf(got);
  }

  lemma StatusFaithful(r: Run, x: SessionId, status: SessionStatus, now: int, sub: SubscriberId)
    requires sub in r.home && r.home[sub] in r.store.sessions && x in r.store.sessions
    requires Homed(r, x, sub) && Faithful(r, sub)
    ensures Faithful(r.(store := StatusUpdated(r.store, x, status, now)), sub)
  {
    HandedTo(r, x, OnTerminal(x, status), sub);
    if r.home[sub] == x {
      FaithfulStatus(x, r.store.sessions[x], Got(r.store.delivered, sub), Listed(r, sub), status, now);
    }
  }

  lemma StatusKeeps(r: Run, x: SessionId, status: SessionStatus, now: int)
    requires Inv(r)
    ensures Inv(r.(store := StatusUpdated(r.store, x, status, now)))
  {
    if x in r.store.sessions {
      NotifiedLists(r, x, OnTerminal(x, status));
      forall sub | sub in r.home ensures Faithful(r.(store := StatusUpdated(r.store, x, status, now)), sub) {
        StatusFaithful(r, x, status, now, sub);
      }
    }
  }

  lemma JoinerFaithful(s: Store, x: SessionId, sub: SubscriberId)
    requires x in s.sessions && sub !in s.delivered
    ensures FaithfulTo(x, s.sessions[x], Got(Subscribed(s, x, sub).delivered, sub), true)
    ensures Subscribed(s, x, sub).delivered.Keys <= s.delivered.Keys + {sub}
  {
    var log := s.sessions[x].progressLogs;
    HandAllLog(s.delivered, sub, x, log);
    HandAllOthers(s.delivered, sub, x, log);
    assert [] + log == log;
    ProgressAppend(Got(HandAll(s.delivered, sub, x, log), sub), OnTerminal(x, s.sessions[x].status));
    assert log + [] == log;
  }

  lemma OthersFaithful(r: Run, x: SessionId, sub: SubscriberId, p: SubscriberId)
    requires x in r.store.sessions && p != sub && p in r.home && r.home[p] in r.store.sessions && Faithful(r, p)
    ensures Faithful(Apply(r, Join(x, sub)), p)
  {
    HandAllOthers(r.store.delivered, sub, x, r.store.sessions[x].progressLogs);
    assert Listed(Apply(r, Join(x, sub)), p) <==> Listed(r, p);
  }

  lemma JoinKeeps(r: Run, x: SessionId, sub: SubscriberId)
    requires Inv(r) && Possible(r, Join(x, sub)) && x in r.store.sessions
    ensures Inv(Apply(r, Join(x, sub)))
  {
    var u := Apply(r, Join(x, sub));
    JoinerFaithful(r.store, x, sub);
    JoinLists(r, x, sub);
    forall p | p in u.home ensures Faithful(u, p) {
      if p != sub {
        assert Faithful(r, p);
        OthersFaithful(r, x, sub, p);
      }
    }
  }

  lemma JoinLists(r: Run, x: SessionId, sub: SubscriberId)
    requires ListsInv(r) && Possible(r, Join(x, sub)) && x in r.store.sessions
    requires Subscribed(r.store, x, sub).delivered.Keys <= r.store.delivered.Keys + {sub}
    ensures ListsInv(Apply(r, Join(x, sub)))
  {
    assert sub !in SubscribersOf(r.store, x);
  }

  lemma LeaveKeeps(r: Run, x: SessionId, sub: SubscriberId)
    requires Inv(r)
    ensures Inv(Apply(r, Leave(x, sub)))
  {
    if x in r.store.subscribers {
      WithoutNoDup(r.store.subscribers[x], sub);
      forall p | p in r.home ensures Faithful(Apply(r, Leave(x, sub)), p) {
        assert Faithful(r, p);
      }
    }
  }

  lemma SessionOnlyKeeps(r: Run, t: Store)
    requires Inv(r) && t == r.store.(sessions := t.sessions)
    requires r.store.sessions.Keys <= t.sessions.Keys
    requires forall y :: y in r.store.sessions ==>
               t.sessions[y].status == r.store.sessions[y].status && t.sessions[y].progressLogs == r.store.sessions[y].progressLogs
    ensures Inv(r.(store := t))
  {
    forall p | p in r.home ensures Faithful(r.(store := t), p) {
      assert Faithful(r, p);
    }
  }

  lemma ApplyKeeps(r: Run, c: Call)
    requires Inv(r) && Possible(r, c)
    ensures Inv(Apply(r, c))
  {
    match c
    case Create(x, task, now) => SessionOnlyKeeps(r, Created(r.store, x, task, now));
    case Progress(x, entry, now) => ProgressKeeps(r, x, entry, now);
    case Status(x, status, now) => StatusKeeps(r, x, status, now);
    case Result(x, result, now) => SessionOnlyKeeps(r, ResultSet(r.store, x, result, now));
    case Join(x, sub) => if x in r.store.sessions { JoinKeeps(r, x, sub); }
    case Leave(x, sub) => LeaveKeeps(r, x, sub);
  }

  lemma {:induction false} AfterInv(calls: seq<Call>)
    ensures Inv(After(calls))
  {
    if calls != [] {
      var r := After(calls[..|calls| - 1]);
      AfterInv(calls[..|calls| - 1]);
      if Possible(r, calls[|calls| - 1]) { ApplyKeeps(r, calls[|calls| - 1]); }
    }
  }

  /** After any run of whole calls: a listed subscriber has received its session's log,
      entry by entry and in order; one that left has a prefix of it. */
  lemma ReceivedIsTheLog(calls: seq<Call>, r: Run, sub: SubscriberId)
    requires r == After(calls) && sub in r.home
    ensures r.home[sub] in r.store.sessions
    ensures ProgressOf(Got(r.store.delivered, sub)) <= r.store.sessions[r.home[sub]].progressLogs
    ensures Listed(r, sub) ==>
              ProgressOf(Got(r.store.delivered, sub)) == r.store.sessions[r.home[sub]].progressLogs
    ensures Listed(r, sub) && IsTerminal(r.store.sessions[r.home[sub]].status) ==>
              OnTerminal(r.home[sub], r.store.sessions[r.home[sub]].status) in Got(r.store.delivered, sub)
  {
    AfterInv(calls);
    assert Faithful(r, sub);
  }

  /** Progress for a session nobody created changes nothing and reaches nobody. */
  lemma UnknownReachesNobody(calls: seq<Call>, r: Run, x: SessionId, entry: ProgressEntry, now: int)
    requires r == After(calls) && x !in r.store.sessions
    ensures Progressed(r.store, x, entry, now) == r.store
  {
    AfterInv(calls);
  }
}
