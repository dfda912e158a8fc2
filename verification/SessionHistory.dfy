/** What the session store holds and what its subscribers have been handed, told from the list of
    calls alone. */
module SessionHistory {
  import opened Options
  import opened Sequences
  import opened SessionTypes
  import opened SessionManager

  // ------------------------------------------------------------------ sessions

  /** Some call has created the session. */
  predicate Known(calls: seq<Call>, x: SessionId) {
    calls != [] && (Known(calls[..|calls| - 1], x) || (calls[|calls| - 1].Create? && calls[|calls| - 1].x == x))
  }

  /** The call that created it, the first of its id. */
  function Birth(calls: seq<Call>, x: SessionId): (c: Call)
    requires Known(calls, x)
    ensures c.Create? && c.x == x
  {
    if Known(calls[..|calls| - 1], x) then Birth(calls[..|calls| - 1], x) else calls[|calls| - 1]
  }

  /** The status the last `update_status` set since the session was created, else `Pending`. */
  function StatusOf(calls: seq<Call>, x: SessionId): SessionStatus
    requires Known(calls, x)
  {
    var front, c := calls[..|calls| - 1], calls[|calls| - 1];
    if !Known(front, x) then Pending else if c.Status? && c.x == x then c.status else StatusOf(front, x)
  }

  /** The entries added since the session was created. */
  function LogOf(calls: seq<Call>, x: SessionId): seq<ProgressEntry>
    requires Known(calls, x)
  {
    var front, c := calls[..|calls| - 1], calls[|calls| - 1];
    if !Known(front, x) then [] else LogOf(front, x) + if c.Progress? && c.x == x then [c.entry] else []
  }

  function ResultOf(calls: seq<Call>, x: SessionId): Option<ExecutionResult>
    requires Known(calls, x)
  {
    var front, c := calls[..|calls| - 1], calls[|calls| - 1];
    if !Known(front, x) then None else if c.Result? && c.x == x then Some(c.result) else ResultOf(front, x)
  }

  /** The time of the last call that changed the session. */
  function TouchedAt(calls: seq<Call>, x: SessionId): int
    requires Known(calls, x)
  {
    var front, c := calls[..|calls| - 1], calls[|calls| - 1];
    if !Known(front, x) then c.now
    else if (c.Status? || c.Progress? || c.Result?) && c.x == x then c.now else TouchedAt(front, x)
  }

  predicate SessionIs(calls: seq<Call>, x: SessionId, session: Session)
    requires Known(calls, x)
  {
    && session.task == Birth(calls, x).task && session.startedAt == Birth(calls, x).now
    && session.status == StatusOf(calls, x) && session.progressLogs == LogOf(calls, x)
    && session.finalResult == ResultOf(calls, x) && session.updatedAt == TouchedAt(calls, x)
  }

  predicate SessionAt(calls: seq<Call>, s: Store, x: SessionId) {
    && (x in s.sessions <==> Known(calls, x))
    && (x in s.sessions ==> SessionIs(calls, x, s.sessions[x]))
  }

  lemma SessionKept(calls: seq<Call>, c: Call, r: Run, x: SessionId)
    requires SessionAt(calls, r.store, x)
    ensures SessionAt(calls + [c], (if Possible(r, c) then Apply(r, c) else r).store, x)
  {
    assert (calls + [c])[..|calls|] == calls;
    if c.Create? && c.x == x && !Known(calls, x) { assert !Known(calls, x) && Known(calls + [c], x); }
  }

  /** After any run exactly the created sessions exist, and each field of each is what the calls made
      it: the status is the one last set, else `Pending`. */
  lemma {:induction false} SessionsAreTheirHistory(calls: seq<Call>, x: SessionId)
    ensures SessionAt(calls, After(calls).store, x)
  {
    if calls != [] {
      var front, c := calls[..|calls| - 1], calls[|calls| - 1];
      SessionsAreTheirHistory(front, x);
      assert front + [c] == calls;
      SessionKept(front, c, After(front), x);
    }
  }

  // ------------------------------------------------------------------ subscribers

  /** The session that accepted the subscriber: the first known one it tried to join. */
  function HomeOf(calls: seq<Call>, sub: SubscriberId): Option<SessionId> {
    if calls == [] then None
    else
      var front, c := calls[..|calls| - 1], calls[|calls| - 1];
      if HomeOf(front, sub).Some? then HomeOf(front, sub)
      else if c.Join? && c.sub == sub && Known(front, c.x) then Some(c.x) else None
  }

  /** It was accepted and has not left since. */
  predicate Stays(calls: seq<Call>, sub: SubscriberId) {
    && HomeOf(calls, sub).Some?
    && var front, c := calls[..|calls| - 1], calls[|calls| - 1];
       HomeOf(front, sub).None? || (Stays(front, sub) && c != Leave(HomeOf(calls, sub).value, sub))
  }

  /** When it was accepted. */
  function JoinedAt(calls: seq<Call>, sub: SubscriberId): nat
    requires HomeOf(calls, sub).Some?
  {
    var front := calls[..|calls| - 1];
    if HomeOf(front, sub).Some? then JoinedAt(front, sub) else |front|
  }

  function Replayed(x: SessionId, log: seq<ProgressEntry>): (r: seq<Notice>)
    ensures |r| == |log| && forall i :: 0 <= i < |log| ==> r[i] == OnProgress(x, log[i])
  {
    seq(|log|, i requires 0 <= i < |log| => OnProgress(x, log[i]))
  }

  /** What the last call hands to the subscriber: the backlog and a terminal status as it joins; and
      while it stays, each entry added to its session and each change of it to a terminal status. */
  function News(calls: seq<Call>, sub: SubscriberId): seq<Notice>
    requires calls != []
  {
    var front, c := calls[..|calls| - 1], calls[|calls| - 1];
    if HomeOf(front, sub).None? then
      if HomeOf(calls, sub).None? then []
      else
        Replayed(c.x, LogOf(front, c.x)) + if IsTerminal(StatusOf(front, c.x)) then [OnTerminal(c.x, StatusOf(front, c.x))] else []
    else if !Stays(front, sub) then []
    else
      var x := HomeOf(front, sub).value;
      if c.Progress? && c.x == x then [OnProgress(x, c.entry)]
      else if c.Status? && c.x == x && Known(front, x) && c.status != StatusOf(front, x) && IsTerminal(c.status)
      then [OnTerminal(x, c.status)] else []
  }

  function Heard(calls: seq<Call>, sub: SubscriberId): seq<Notice> {
    if calls == [] then [] else Heard(calls[..|calls| - 1], sub) + News(calls, sub)
  }

  lemma {:induction false} HomeIsKnown(calls: seq<Call>, sub: SubscriberId)
    ensures HomeOf(calls, sub).Some? ==> Known(calls, HomeOf(calls, sub).value)
  {
    if calls != [] { HomeIsKnown(calls[..|calls| - 1], sub); }
  }

  predicate Lists(calls: seq<Call>, r: Run, sub: SubscriberId) {
    && (sub in r.home <==> HomeOf(calls, sub).Some?)
    && (sub in r.home ==> r.home[sub] == HomeOf(calls, sub).value && (Listed(r, sub) <==> Stays(calls, sub)))
    && Got(r.store.delivered, sub) == Heard(calls, sub)
  }

  lemma ReplayedMore(x: SessionId, log: seq<ProgressEntry>, before: seq<Notice>)
    requires log != []
    ensures before + Replayed(x, log) == (before + Replayed(x, log[..|log| - 1])) + [OnProgress(x, log[|log| - 1])]
  {
  }

  lemma {:induction false} HandAllReplays(delivered: Delivered, sub: SubscriberId, x: SessionId, log: seq<ProgressEntry>)
    ensures Got(HandAll(delivered, sub, x, log), sub) == Got(delivered, sub) + Replayed(x, log)
  {
    if log != [] {
      var front := log[..|log| - 1];
      HandAllReplays(delivered, sub, x, front);
      HandAllMore(delivered, sub, x, log);
      ReplayedMore(x, log, Got(delivered, sub));
    }
  }

  lemma HeardMore(calls: seq<Call>, c: Call, sub: SubscriberId)
    ensures Heard(calls + [c], sub) == Heard(calls, sub) + News(calls + [c], sub)
  {
    assert (calls + [c])[..|calls|] == calls;
  }

  lemma HeardNothing(calls: seq<Call>, c: Call, r: Run, t: Run, sub: SubscriberId)
    requires Lists(calls, r, sub) && News(calls + [c], sub) == [] && HomeOf(calls + [c], sub) == HomeOf(calls, sub)
    requires Stays(calls + [c], sub) == Stays(calls, sub)
    requires t.home == r.home && t.store.subscribers == r.store.subscribers
    requires Got(t.store.delivered, sub) == Got(r.store.delivered, sub)
    ensures Lists(calls + [c], t, sub)
  {
    HeardMore(calls, c, sub);
    assert Heard(calls, sub) + [] == Heard(calls, sub);
  }

  /** A call that neither joins nor leaves. */
  lemma SamePlace(calls: seq<Call>, c: Call, sub: SubscriberId)
    requires !c.Join? && !c.Leave?
    ensures HomeOf(calls + [c], sub) == HomeOf(calls, sub) && Stays(calls + [c], sub) == Stays(calls, sub)
  {
    assert (calls + [c])[..|calls|] == calls;
  }

  /** One round of notifications: those who stay in the session are handed the notice. */
  lemma Notified(calls: seq<Call>, c: Call, r: Run, x: SessionId, n: Notice, sub: SubscriberId)
    requires ListsInv(r) && Lists(calls, r, sub)
    ensures Got(HandEach(r.store.delivered, SubscribersOf(r.store, x), n), sub) ==
            Heard(calls, sub) + if HomeOf(calls, sub) == Some(x) && Stays(calls, sub) then [n] else []
  {
    HandEachOnce(r.store.delivered, SubscribersOf(r.store, x), n, sub);
    assert sub in SubscribersOf(r.store, x) <==> HomeOf(calls, sub) == Some(x) && Stays(calls, sub);
  }

  lemma ProgressLists(calls: seq<Call>, c: Call, r: Run, sub: SubscriberId)
    requires ListsInv(r) && Lists(calls, r, sub) && c.Progress?
    ensures Lists(calls + [c], Apply(r, c), sub)
  {
    SamePlace(calls, c, sub);
    HeardMore(calls, c, sub);
    assert (calls + [c])[..|calls|] == calls;
    Notified(calls, c, r, c.x, OnProgress(c.x, c.entry), sub);
  }

  lemma StatusLists(calls: seq<Call>, c: Call, r: Run, sub: SubscriberId)
    requires ListsInv(r) && Lists(calls, r, sub) && SessionAt(calls, r.store, c.x) && c.Status?
    ensures Lists(calls + [c], Apply(r, c), sub)
  {
    SamePlace(calls, c, sub);
    HeardMore(calls, c, sub);
    assert (calls + [c])[..|calls|] == calls;
    assert Heard(calls, sub) + [] == Heard(calls, sub);
    Notified(calls, c, r, c.x, OnTerminal(c.x, c.status), sub);
  }

  lemma QuietLists(calls: seq<Call>, c: Call, r: Run, sub: SubscriberId)
    requires Lists(calls, r, sub) && (c.Create? || c.Result?)
    ensures Lists(calls + [c], if Possible(r, c) then Apply(r, c) else r, sub)
  {
    SamePlace(calls, c, sub);
    assert (calls + [c])[..|calls|] == calls;
    HeardNothing(calls, c, r, if Possible(r, c) then Apply(r, c) else r, sub);
  }

  lemma JoinedLists(calls: seq<Call>, x: SessionId, r: Run, sub: SubscriberId)
    requires ListsInv(r) && Lists(calls, r, sub) && SessionAt(calls, r.store, x)
    ensures var c := Join(x, sub); Lists(calls + [c], if Possible(r, c) then Apply(r, c) else r, sub)
  {
    var c := Join(x, sub);
    var more := calls + [c];
    assert more[..|calls|] == calls;
    HeardMore(calls, c, sub);
    assert Heard(calls, sub) + [] == Heard(calls, sub);
    if HomeOf(calls, sub).None? && Known(calls, x) {
      assert Got(r.store.delivered, sub) == [] && Possible(r, c);
      HandAllReplays(r.store.delivered, sub, x, LogOf(calls, x));
      assert Stays(more, sub) && Listed(Apply(r, c), sub);
    }
  }

  /** What others do on joining or leaving does not concern the subscriber. */
  lemma OthersQuiet(calls: seq<Call>, c: Call, r: Run, sub: SubscriberId)
    requires (c.Join? || c.Leave?) && c.sub != sub
    ensures Got(Apply(r, c).store.delivered, sub) == Got(r.store.delivered, sub)
    ensures HomeOf(calls + [c], sub) == HomeOf(calls, sub) && Stays(calls + [c], sub) == Stays(calls, sub)
    ensures News(calls + [c], sub) == []
  {
    assert (calls + [c])[..|calls|] == calls;
    if c.Join? && c.x in r.store.sessions {
      HandAllOthers(r.store.delivered, c.sub, c.x, r.store.sessions[c.x].progressLogs);
    }
  }

  lemma OthersLists(calls: seq<Call>, c: Call, r: Run, sub: SubscriberId)
    requires Lists(calls, r, sub) && (c.Join? || c.Leave?) && c.sub != sub
    ensures Lists(calls + [c], if Possible(r, c) then Apply(r, c) else r, sub)
  {
    OthersQuiet(calls, c, r, sub);
    HeardMore(calls, c, sub);
    assert Heard(calls, sub) + [] == Heard(calls, sub);
    if sub in r.home && Possible(r, c) { assert Listed(Apply(r, c), sub) <==> Listed(r, sub); }
  }

  lemma LeftLists(calls: seq<Call>, x: SessionId, r: Run, sub: SubscriberId)
    requires ListsInv(r) && Lists(calls, r, sub)
    ensures Lists(calls + [Leave(x, sub)], Apply(r, Leave(x, sub)), sub)
  {
    assert (calls + [Leave(x, sub)])[..|calls|] == calls;
    HeardMore(calls, Leave(x, sub), sub);
    assert Heard(calls, sub) + [] == Heard(calls, sub);
  }

  lemma ListsKept(calls: seq<Call>, c: Call, r: Run, sub: SubscriberId)
    requires ListsInv(r) && Lists(calls, r, sub) && forall x :: SessionAt(calls, r.store, x)
    ensures Lists(calls + [c], if Possible(r, c) then Apply(r, c) else r, sub)
  {
    match c
    case Create(_, _, _) => QuietLists(calls, c, r, sub);
    case Result(_, _, _) => QuietLists(calls, c, r, sub);
    case Progress(_, _, _) => ProgressLists(calls, c, r, sub);
    case Status(_, _, _) => StatusLists(calls, c, r, sub);
    case Join(x, who) => if who == sub { JoinedLists(calls, x, r, sub); } else { OthersLists(calls, c, r, sub); }
    case Leave(x, who) => if who == sub { LeftLists(calls, x, r, sub); } else { OthersLists(calls, c, r, sub); }
  }

  /** After any run a subscriber is listed in the session that accepted it, until it leaves, and has
      been handed just what the calls had for it, in their order: its session's backlog, then each
      entry once, and one notice for each change of the session to a terminal status. */
  lemma {:induction false} HandedIsHeard(calls: seq<Call>, sub: SubscriberId)
    ensures Lists(calls, After(calls), sub)
  {
    if calls != [] {
      var front, c := calls[..|calls| - 1], calls[|calls| - 1];
      HandedIsHeard(front, sub);
      AfterInv(front);
      forall x ensures SessionAt(front, After(front).store, x) { SessionsAreTheirHistory(front, x); }
      assert front + [c] == calls;
      ListsKept(front, c, After(front), sub);
    }
  }

  // ------------------------------------------------------------------ the order of a list

  /** These subscribers were accepted one after the other. */
  predicate InJoinOrder(calls: seq<Call>, subs: seq<SubscriberId>) {
    && (forall i :: 0 <= i < |subs| ==> HomeOf(calls, subs[i]).Some?)
    && (forall i, j :: 0 <= i < j < |subs| ==> JoinedAt(calls, subs[i]) < JoinedAt(calls, subs[j]))
  }

  lemma {:induction false} JoinedBefore(calls: seq<Call>, sub: SubscriberId)
    requires HomeOf(calls, sub).Some?
    ensures JoinedAt(calls, sub) < |calls|
  {
    var front := calls[..|calls| - 1];
    if HomeOf(front, sub).Some? { JoinedBefore(front, sub); }
  }

  lemma {:induction false} WithoutInOrder(calls: seq<Call>, subs: seq<SubscriberId>, id: SubscriberId)
    requires InJoinOrder(calls, subs)
    ensures InJoinOrder(calls, Without(subs, id))
  {
    if subs != [] {
      var front, last := subs[..|subs| - 1], subs[|subs| - 1];
      WithoutInOrder(calls, front, id);
      var kept := Without(front, id);
      forall i | 0 <= i < |kept| ensures JoinedAt(calls, kept[i]) < JoinedAt(calls, last) {
        assert kept[i] in front;
      }
      assert kept + [] == kept;
    }
  }

  lemma OrderStays(calls: seq<Call>, c: Call, subs: seq<SubscriberId>)
    requires InJoinOrder(calls, subs)
    ensures InJoinOrder(calls + [c], subs)
  {
    assert (calls + [c])[..|calls|] == calls;
  }

  lemma JoinerIsLast(calls: seq<Call>, c: Call, r: Run, subs: seq<SubscriberId>)
    requires c.Join? && Possible(r, c) && c.x in r.store.sessions && InJoinOrder(calls, subs)
    requires Lists(calls, r, c.sub) && SessionAt(calls, r.store, c.x)
    ensures InJoinOrder(calls + [c], subs + [c.sub])
  {
    assert (calls + [c])[..|calls|] == calls;
    OrderStays(calls, c, subs);
    forall i | 0 <= i < |subs| ensures JoinedAt(calls + [c], subs[i]) < |calls| { JoinedBefore(calls, subs[i]); }
    assert JoinedAt(calls + [c], c.sub) == |calls|;
  }

  /** Each session's list is in the order in which its subscribers were accepted, so callbacks are made
      in that order. */
  lemma {:induction false} ListsAreInJoinOrder(calls: seq<Call>, x: SessionId)
    ensures InJoinOrder(calls, SubscribersOf(After(calls).store, x))
  {
    if calls != [] {
      var front, c := calls[..|calls| - 1], calls[|calls| - 1];
      var r := After(front);
      var subs := SubscribersOf(r.store, x);
      ListsAreInJoinOrder(front, x);
      assert front + [c] == calls;
      OrderStays(front, c, subs);
      if c.Join? && c.x == x && Possible(r, c) && x in r.store.sessions {
        HandedIsHeard(front, c.sub);
        SessionsAreTheirHistory(front, x);
        JoinerIsLast(front, c, r, subs);
      } else if c.Leave? && c.x == x {
        WithoutInOrder(front, subs, c.sub);
        OrderStays(front, c, Without(subs, c.sub));
      }
    }
  }
}
