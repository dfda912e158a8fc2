/** What the invariants of the session protocol give over every run. */
module SessionTheorems {
  import opened Options
  import opened Sequences
  import opened SessionTypes
  import opened SessionProtocol
  import opened SessionInvariants

  ghost predicate Quiescent(s: State) {
    forall o :: o in s.ops ==> s.ops[o].pc.Done?
  }

  /** `o` subscribed to an existing session. */
  predicate IsSubscriber(s: State, o: OpId) {
    o in s.ops && s.ops[o].task.Subscribe? && s.ops[o].captured.Some?
  }

  predicate Carries(e: Event, item: Item) {
    (e.Live? || e.Replayed?) && e.item == item
  }

  /** How often an entry was handed over. */
  function Copies(r: seq<Event>, item: Item): nat {
    if r == [] then 0 else Copies(r[..|r| - 1], item) + if Carries(r[|r| - 1], item) then 1 else 0
  }

  /** Two calls overlap when neither had returned before the other began. */
  predicate Overlap(s: State, a: OpId, b: OpId)
    requires a in s.ops && b in s.ops
  {
    a !in s.ops[b].before && b !in s.ops[a].before
  }

  // ------------------------------------------------------------------ counting

  function CountOf(r: seq<Event>, e: Event): nat {
    if r == [] then 0 else CountOf(r[..|r| - 1], e) + if r[|r| - 1] == e then 1 else 0
  }

  lemma CountAppend(r: seq<Event>, f: Event, e: Event)
    ensures CountOf(r + [f], e) == CountOf(r, e) + if f == e then 1 else 0
  {
    assert (r + [f])[..|r|] == r;
  }

  /** The copies of an entry come from its own `add_progress` or from the replay. */
  lemma {:induction false} CopiesSplit(r: seq<Event>, o: OpId, item: Item)
    requires o != item.op
    requires forall i :: 0 <= i < |r| && r[i].Replayed? ==> r[i].via == o
    ensures Copies(r, item) == CountOf(From(r, item.op), Live(item)) + CountOf(From(r, o), Replayed(o, item))
  {
    if r != [] {
      var q, e := r[..|r| - 1], r[|r| - 1];
      CopiesSplit(q, o, item);
      CountAppend(From(q, item.op), e, Live(item));
      CountAppend(From(q, o), e, Replayed(o, item));
      assert From(q, item.op) + [] == From(q, item.op) && From(q, o) + [] == From(q, o);
    }
  }

  lemma {:induction false} SentOnce(subs: seq<OpId>, n: nat, e: Event, o: OpId)
    requires NoDup(subs) && n <= |subs|
    ensures For(SendAll(subs, e)[..n], o) == if o in subs[..n] then [e] else []
  {
    if n > 0 {
      SentOnce(subs, n - 1, e, o);
      ForNext(SendAll(subs, e), n - 1, o);
      assert subs[..n] == subs[..n - 1] + [subs[n - 1]];
    }
  }

  function Events(plan: seq<Delivery>): (r: seq<Event>)
    ensures |r| == |plan| && forall i :: 0 <= i < |r| ==> r[i] == plan[i].event
  {
    seq(|plan|, i requires 0 <= i < |plan| => plan[i].event)
  }

  lemma {:induction false} ForAll(plan: seq<Delivery>, n: nat, o: OpId)
    requires n <= |plan| && forall i :: 0 <= i < |plan| ==> plan[i].to == o
    ensures For(plan[..n], o) == Events(plan[..n])
  {
    if n > 0 {
      ForAll(plan, n - 1, o);
      ForNext(plan, n - 1, o);
    }
  }

  lemma {:induction false} CountDistinct(r: seq<Event>, e: Event)
    requires forall i, j :: 0 <= i < j < |r| && r[i] == e ==> r[j] != e
    ensures CountOf(r, e) == if e in r then 1 else 0
  {
    if r != [] {
      var q := r[..|r| - 1];
      CountDistinct(q, e);
      assert r == q + [r[|r| - 1]];
    }
  }

  // ------------------------------------------------------------------ what a subscriber has

  /** Has the replay of `o` reached this entry?  Has the notifier reached `o`? */
  predicate ReplayReached(s: State, o: OpId, item: Item)
    requires IsSubscriber(s, o)
  {
    exists k :: 0 <= k < |s.ops[o].captured.value.log| && k < s.ops[o].sent && s.ops[o].captured.value.log[k] == item
  }

  predicate NotifyReached(s: State, a: OpId, o: OpId)
    requires a in s.ops
  {
    s.ops[a].snap.Some? && s.ops[a].sent <= |s.ops[a].snap.value| && o in s.ops[a].snap.value[..s.ops[a].sent]
  }

  /** The events of a subscription's own plan are all different. */
  lemma PlanDistinct(s: State, o: OpId, i: nat, j: nat)
    requires LogInv(s) && CapturedInv(s) && IsSubscriber(s, o)
    requires i < j < |Plan(o, s.ops[o])|
    ensures Plan(o, s.ops[o])[i].event != Plan(o, s.ops[o])[j].event
  {
    var op := s.ops[o];
    if j < |op.captured.value.log| {
      var log := s.sessions[op.task.x].log;
      assert op.captured.value.log[i] == log[i] && op.captured.value.log[j] == log[j];
    }
  }

  lemma ReplaySoFar(s: State, o: OpId)
    requires IsSubscriber(s, o) && o in s.received && Accounted(s, o, o)
    ensures From(s.received[o], o) == Events(Plan(o, s.ops[o])[..s.ops[o].sent])
  {
    ForAll(Plan(o, s.ops[o]), s.ops[o].sent, o);
  }

  lemma ReplayCount(s: State, o: OpId, item: Item)
    requires LocalInv(s) && LogInv(s) && CapturedInv(s) && AccountInv(s) && IsSubscriber(s, o)
    ensures o in s.received
    ensures CountOf(From(s.received[o], o), Replayed(o, item)) == if ReplayReached(s, o, item) then 1 else 0
  {
    var plan, n := Plan(o, s.ops[o]), s.ops[o].sent;
    assert Accounted(s, o, o);
    ReplaySoFar(s, o);
    forall i, j | 0 <= i < j < n ensures plan[i].event != plan[j].event {
      PlanDistinct(s, o, i, j);
    }
    CountDistinct(Events(plan[..n]), Replayed(o, item));
    ReplayedIn(s, o, item, n);
  }

  lemma ReplayedIn(s: State, o: OpId, item: Item, n: nat)
    requires IsSubscriber(s, o) && n == s.ops[o].sent <= |Plan(o, s.ops[o])|
    ensures Replayed(o, item) in Events(Plan(o, s.ops[o])[..n]) <==> ReplayReached(s, o, item)
  {
    var ev := Events(Plan(o, s.ops[o])[..n]);
    if ReplayReached(s, o, item) {
      var k :| 0 <= k < |s.ops[o].captured.value.log| && k < n && s.ops[o].captured.value.log[k] == item;
      assert ev[k] == Replayed(o, item);
    }
  }

  lemma NotifyCount(s: State, o: OpId, item: Item)
    requires LocalInv(s) && SubsInv(s) && AccountInv(s) && IsSubscriber(s, o)
    requires item.op in s.ops && s.ops[item.op].task.AddProgress? && s.ops[item.op].task.entry == item.entry
    ensures o in s.received
    ensures CountOf(From(s.received[o], item.op), Live(item)) == if NotifyReached(s, item.op, o) then 1 else 0
  {
    var a := item.op;
    assert Accounted(s, o, a);
    if s.ops[a].snap.Some? {
      SentOnce(s.ops[a].snap.value, s.ops[a].sent, Live(item), o);
    }
  }

  lemma {:induction false} InFrom(r: seq<Event>, i: nat)
    requires i < |r|
    ensures r[i] in From(r, Source(r[i]))
  {
    if i < |r| - 1 { InFrom(r[..|r| - 1], i); }
  }

  lemma {:induction false} InFor(plan: seq<Delivery>, n: nat, o: OpId, e: Event) returns (j: nat)
    requires n <= |plan| && e in For(plan[..n], o)
    ensures j < n && plan[j] == Delivery(o, e)
  {
    ForNext(plan, n - 1, o);
    if plan[n - 1] == Delivery(o, e) { j := n - 1; }
    else { j := InFor(plan, n - 1, o, e); }
  }

  /** Every event a subscriber holds was sent to it by the operation it names. */
  lemma Origin(s: State, o: OpId, i: nat) returns (j: nat)
    requires LocalInv(s) && AccountInv(s) && IsSubscriber(s, o) && o in s.received && i < |s.received[o]|
    ensures var a := Source(s.received[o][i]);
            a in s.ops && s.ops[a].sent <= |Plan(a, s.ops[a])| && j < s.ops[a].sent
            && Plan(a, s.ops[a])[j] == Delivery(o, s.received[o][i])
  {
    var a := Source(s.received[o][i]);
    InFrom(s.received[o], i);
    assert Accounted(s, o, a);
    j := InFor(Plan(a, s.ops[a]), s.ops[a].sent, o, s.received[o][i]);
  }

  lemma ReplaysAreOwn(s: State, o: OpId)
    requires LocalInv(s) && AccountInv(s) && IsSubscriber(s, o)
    ensures o in s.received
    ensures forall i :: 0 <= i < |s.received[o]| && s.received[o][i].Replayed? ==> s.received[o][i].via == o
  {
    forall i | 0 <= i < |s.received[o]| && s.received[o][i].Replayed?
      ensures s.received[o][i].via == o
    {
      var j := Origin(s, o, i);
    }
  }

  lemma CopiesSoFar(s: State, o: OpId, item: Item)
    requires Inv(s) && IsSubscriber(s, o)
    requires s.ops[o].task.x in s.sessions && item in s.sessions[s.ops[o].task.x].log
    ensures o in s.received && item.op in s.ops
    ensures Copies(s.received[o], item) ==
              (if ReplayReached(s, o, item) then 1 else 0) + (if NotifyReached(s, item.op, o) then 1 else 0)
  {
    var x := s.ops[o].task.x;
    var k :| 0 <= k < |s.sessions[x].log| && s.sessions[x].log[k] == item;
    assert WrittenBy(s, x, s.sessions[x].log[k]);
    ReplaysAreOwn(s, o);
    CopiesSplit(s.received[o], o, item);
    ReplayCount(s, o, item);
    NotifyCount(s, o, item);
  }

  // ------------------------------------------------------------------ the theorems

  predicate InLog(s: State, o: OpId, item: Item)
    requires IsSubscriber(s, o)
  {
    s.ops[o].task.x in s.sessions && item in s.sessions[s.ops[o].task.x].log
  }

  /** In every reachable state a subscriber has got an entry once from the replay if the
      replay has reached it, and once live if the notifier has reached the subscriber. */
  lemma CopiesExact(ms: seq<Move>, s: State, o: OpId, item: Item)
    requires s == Exec(ms) && IsSubscriber(s, o) && InLog(s, o, item)
    ensures o in s.received && item.op in s.ops
    ensures Copies(s.received[o], item) ==
              (if ReplayReached(s, o, item) then 1 else 0) + (if NotifyReached(s, item.op, o) then 1 else 0)
  {
    ExecInv(ms);
    CopiesSoFar(s, o, item);
  }

  /** Once its subscribe has returned, what a subscriber got from the replay is the first part of
      the session's log, entry by entry and in order, with a terminal status at the end if any. */
  lemma ReplayInOrder(ms: seq<Move>, s: State, o: OpId, k: nat)
    requires s == Exec(ms) && IsSubscriber(s, o) && s.ops[o].pc.Done?
    requires k < |s.ops[o].captured.value.log|
    ensures o in s.received && s.ops[o].task.x in s.sessions
    ensures var x := s.ops[o].task.x;
            var replay := From(s.received[o], o);
            && k < |replay| && k < |s.sessions[x].log| && replay[k] == Replayed(o, s.sessions[x].log[k])
            && |replay| == |s.ops[o].captured.value.log| + (if IsTerminal(s.ops[o].captured.value.status) then 1 else 0)
  {
    ExecInv(ms);
    assert Accounted(s, o, o) && SentOk(o, s.ops[o]);
    assert s.ops[o].captured.value.log[k] == s.sessions[s.ops[o].task.x].log[k];
    WholeReplay(s, o, k);
  }

  lemma WholeReplay(s: State, o: OpId, k: nat)
    requires IsSubscriber(s, o) && o in s.received && Accounted(s, o, o) && s.ops[o].sent == |Plan(o, s.ops[o])|
    requires k < |s.ops[o].captured.value.log|
    ensures var replay := From(s.received[o], o);
            && |replay| == |s.ops[o].captured.value.log| + (if IsTerminal(s.ops[o].captured.value.status) then 1 else 0)
            && replay[k] == Replayed(o, s.ops[o].captured.value.log[k])
  {
    ReplaySoFar(s, o);
    assert Plan(o, s.ops[o])[..s.ops[o].sent] == Plan(o, s.ops[o]);
  }

  /** Safety at every moment: nobody ever gets an entry more than twice, and twice only
      from an `add_progress` that overlapped the `subscribe`. */
  lemma AtMostTwice(ms: seq<Move>, s: State, o: OpId, item: Item)
    requires s == Exec(ms) && IsSubscriber(s, o) && InLog(s, o, item)
    ensures o in s.received && item.op in s.ops
    ensures Copies(s.received[o], item) <= 2
    ensures Copies(s.received[o], item) == 2 ==> Overlap(s, item.op, o)
  {
    ExecInv(ms);
    CopiesSoFar(s, o, item);
    if Copies(s.received[o], item) == 2 { TwiceOverlaps(s, o, item); }
  }

  lemma TwiceOverlaps(s: State, o: OpId, item: Item)
    requires OrderInv(s) && IsSubscriber(s, o) && item.op in s.ops
    requires ReplayReached(s, o, item) && NotifyReached(s, item.op, o)
    ensures Overlap(s, item.op, o)
  {
    assert HasItem(s.ops[o].captured.value.log, item.op);
    assert Snapped(s.ops[item.op], o);
  }

  /** Once every call has returned, a subscriber nobody unsubscribed holds every entry of
      its session's log, once or twice, and a terminal status has been announced to it. */
  lemma FanOutComplete(ms: seq<Move>, s: State, o: OpId)
    requires s == Exec(ms) && Quiescent(s) && IsSubscriber(s, o) && !Unsubscribed(s, o)
    ensures o in s.received && s.ops[o].task.x in s.sessions
    ensures forall item :: InLog(s, o, item) ==> 1 <= Copies(s.received[o], item) <= 2
    ensures IsTerminal(s.sessions[s.ops[o].task.x].status) ==>
              exists u :: Terminal(u, s.sessions[s.ops[o].task.x].status) in s.received[o]
  {
    ExecInv(ms);
    QuietListener(s, o);
    var x := s.ops[o].task.x;
    forall item | InLog(s, o, item)
      ensures 1 <= Copies(s.received[o], item) <= 2
    {
      var k :| 0 <= k < |s.sessions[x].log| && s.sessions[x].log[k] == item;
      DeliveredOnceDone(s, o, k);
    }
    if IsTerminal(s.sessions[x].status) {
      var u := TerminalDelivered(s, o);
    }
  }

  lemma QuietListener(s: State, o: OpId)
    requires LocalInv(s) && CapturedInv(s) && LiveInv(s)
    requires Quiescent(s) && IsSubscriber(s, o) && !Unsubscribed(s, o)
    ensures o in s.received && s.ops[o].task.x in s.sessions && Listening(s, o)
  {
    assert Registered(s.ops[o]);
  }

  lemma DeliveredOnceDone(s: State, o: OpId, k: nat)
    requires Inv(s) && Quiescent(s) && IsSubscriber(s, o) && Listening(s, o) && s.ops[o].task.x in s.sessions
    requires k < |s.sessions[s.ops[o].task.x].log|
    ensures o in s.received && 1 <= Copies(s.received[o], s.sessions[s.ops[o].task.x].log[k]) <= 2
  {
    var op := s.ops[o];
    var log := s.sessions[op.task.x].log;
    var item := log[k];
    CopiesSoFar(s, o, item);
    if k < |op.captured.value.log| {
      ReplayDone(s, o, k);
    } else {
      assert Covered(s, o);
      assert Covers(s, item.op, o) && WrittenBy(s, op.task.x, item);
      NotifyDone(s, item.op, o);
    }
  }

  lemma ReplayDone(s: State, o: OpId, k: nat)
    requires CapturedInv(s) && AccountInv(s) && IsSubscriber(s, o) && s.ops[o].pc.Done?
    requires k < |s.ops[o].captured.value.log|
    ensures s.ops[o].task.x in s.sessions && k < |s.sessions[s.ops[o].task.x].log|
    ensures ReplayReached(s, o, s.sessions[s.ops[o].task.x].log[k])
  {
    assert SentOk(o, s.ops[o]);
    assert s.ops[o].captured.value.log[k] == s.sessions[s.ops[o].task.x].log[k];
  }

  lemma NotifyDone(s: State, a: OpId, o: OpId)
    requires AccountInv(s) && a in s.ops && s.ops[a].pc.Done? && Notifier(s.ops[a].task) && Snapped(s.ops[a], o)
    ensures NotifyReached(s, a, o)
  {
    assert SentOk(a, s.ops[a]);
    assert s.ops[a].snap.value[..s.ops[a].sent] == s.ops[a].snap.value;
  }

  lemma {:induction false} FromSubset(r: seq<Event>, a: OpId, e: Event)
    requires e in From(r, a)
    ensures e in r
  {
    if r[|r| - 1] != e { FromSubset(r[..|r| - 1], a, e); }
  }

  lemma TerminalDelivered(s: State, o: OpId) returns (u: OpId)
    requires LocalInv(s) && SubsInv(s) && CapturedInv(s) && TerminalInv(s) && AccountInv(s)
    requires Quiescent(s) && IsSubscriber(s, o) && Listening(s, o) && s.ops[o].task.x in s.sessions
    requires IsTerminal(s.sessions[s.ops[o].task.x].status)
    ensures o in s.received && Terminal(u, s.sessions[s.ops[o].task.x].status) in s.received[o]
  {
    var op := s.ops[o];
    var status := s.sessions[op.task.x].status;
    assert TerminalOwed(s, o, status);
    if op.captured.value.status == status {
      u := o;
      assert Accounted(s, o, o);
    ReplaySoFar(s, o);
      assert SentOk(o, op);
      var plan := Plan(o, op);
      assert Events(plan[..op.sent])[|op.captured.value.log|] == Terminal(o, status);
    } else {
      u :| u in s.ops && s.ops[u].task == UpdateStatus(op.task.x, status) && Covers(s, u, o);
      assert Accounted(s, o, u);
      NotifyDone(s, u, o);
      SentOnce(s.ops[u].snap.value, s.ops[u].sent, Terminal(u, status), o);
    }
    FromSubset(s.received[o], u, Terminal(u, status));
  }

  /** An event that belongs to the session of subscriber `o`: an entry of its log, or a
      terminal status that somebody set on it or that `o` found when it subscribed. */
  predicate Genuine(s: State, o: OpId, e: Event)
    requires IsSubscriber(s, o)
  {
    match e
    case Live(item) => InLog(s, o, item)
    case Replayed(via, item) => via == o && InLog(s, o, item)
    case Terminal(via, status) =>
      IsTerminal(status) && via in s.ops &&
      (if via == o then status == s.ops[o].captured.value.status
       else s.ops[via].task == UpdateStatus(s.ops[o].task.x, status))
  }

  /** Nothing is invented: whatever a subscriber holds, at any moment, is genuine. */
  lemma NothingInvented(ms: seq<Move>, s: State, o: OpId, e: Event)
    requires s == Exec(ms) && IsSubscriber(s, o) && o in s.received && e in s.received[o]
    ensures Genuine(s, o, e)
  {
    ExecInv(ms);
    EventGenuine(s, o, e);
  }

  /** The operation an event names sent it, and is a notifier or the subscriber itself. */
  lemma Sender(s: State, o: OpId, e: Event) returns (j: nat)
    requires LocalInv(s) && AccountInv(s)
    requires IsSubscriber(s, o) && o in s.received && e in s.received[o]
    ensures var a := Source(e);
            a in s.ops && j < |Plan(a, s.ops[a])| && Plan(a, s.ops[a])[j] == Delivery(o, e)
            && (Notifier(s.ops[a].task) || a == o)
  {
    var i :| 0 <= i < |s.received[o]| && s.received[o][i] == e;
    j := Origin(s, o, i);
  }

  lemma EventGenuine(s: State, o: OpId, e: Event)
    requires LocalInv(s) && SubsInv(s) && LogInv(s) && CapturedInv(s) && AccountInv(s)
    requires IsSubscriber(s, o) && o in s.received && e in s.received[o]
    ensures Genuine(s, o, e)
  {
    var j := Sender(s, o, e);
    if Notifier(s.ops[Source(e)].task) {
      NotifiedGenuine(s, o, Source(e), j);
    } else {
      ReplayGenuine(s, o, j);
    }
  }

  lemma NotifiedGenuine(s: State, o: OpId, a: OpId, j: nat)
    requires LocalInv(s) && SubsInv(s) && LogInv(s) && CapturedInv(s) && IsSubscriber(s, o)
    requires a in s.ops && Notifier(s.ops[a].task) && j < |Plan(a, s.ops[a])| && Plan(a, s.ops[a])[j].to == o
    ensures Genuine(s, o, Plan(a, s.ops[a])[j].event)
  {
    assert Snapped(s.ops[a], o);
    assert ListedOk(s, s.ops[a].task.x, o);
    if s.ops[a].task.AddProgress? { assert Logged(s, a); }
  }

  lemma ReplayGenuine(s: State, o: OpId, j: nat)
    requires CapturedInv(s) && IsSubscriber(s, o) && j < |Plan(o, s.ops[o])|
    ensures Genuine(s, o, Plan(o, s.ops[o])[j].event)
  {
    var c := s.ops[o].captured.value.log;
    assert j < |c| ==> c[j] == s.sessions[s.ops[o].task.x].log[j];
  }
}
