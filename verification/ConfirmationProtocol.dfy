/** Whole runs of the confirmation protocol.  The main loop has its own thread and stores a suggestion
    in three steps, the toast, the emptied task and the pending slot, and expires one in two.  The
    window's commands run one after the other on the main thread, the toast's on others.  A
    confirmation is two steps: it takes the pending suggestion out, and stores its task when its
    inference or its recording is over; the other commands are one step each.  `ConfirmationRace`
    says what happens when the accesses to the pending slot inside a command interleave. */
module ConfirmationProtocol {
  import opened Options
  import opened Sequences
  import opened Confirmation

  /** Where the main loop is: `Free` when it has found nothing to wait for, `Told` with the toast of
      a suggestion out, `Cleared` with the task emptied as well. */
  datatype Loop = Idle | Free | Told(x: Trace) | Cleared(x: Trace) | Expiring

  /** `confirming`: suggestions taken out by a confirmation that has not stored its task yet.
      `window`: the one, if any, that the window's own confirmation has taken out. */
  datatype State = State(
    slots: Slots, loop: Loop, confirming: set<Trace>, window: Option<Trace>, traces: set<Trace>, tokens: set<Token>)

  const INIT := State(EMPTY, Idle, {}, None, {}, {})

  datatype Move =
    | LoopCheck
    | LoopExpire(now: int)
    | LoopNotify(x: Trace, token: Token, now: int, shown: bool)
    | LoopClear
    | LoopStore(now: int)
    | LoopGiveUp
    | ConfirmTake
    | ConfirmToken(x: Trace, token: Token, now: int)
    | ConfirmDispatch(x: Trace, ok: bool)
    | Cancel
    | Dismiss
    | CancelToken(x: Trace, token: Token, now: int)
    | StoreTaskState(state: string)

  predicate CanMove(s: State, m: Move) {
    match m
    case LoopCheck => s.loop.Idle? && s.slots.pending.None? && !HasActiveTask(s.slots)
    case LoopExpire(now) => s.loop.Idle? && IsStale(s.slots, now)
    case LoopNotify(x, token, _, _) => s.loop.Free? && x !in s.traces && token !in s.tokens
    case LoopClear => s.loop.Told? || s.loop.Expiring?
    case LoopStore(_) => s.loop.Cleared?
    case LoopGiveUp => s.loop.Free?
    case ConfirmTake => s.window.None?
    case Cancel => s.window.None?
    case Dismiss => s.window.None?
    case ConfirmDispatch(x, _) => x in s.confirming
    case _ => true
  }

  function LoopStep(s: State, m: Move): State
    requires CanMove(s, m)
  {
    match m
    case LoopCheck => s.(loop := Free)
    case LoopExpire(now) => s.(loop := Expiring, slots := PendingExpired(s.slots))
    case LoopNotify(x, token, now, shown) =>
      s.(loop := Told(x), slots := Notified(s.slots, x, token, now, shown), traces := s.traces + {x}, tokens := s.tokens + {token})
    case LoopClear => s.(loop := if s.loop.Told? then Cleared(s.loop.x) else Idle, slots := TaskCleared(s.slots))
    case LoopStore(now) => s.(loop := Idle, slots := PendingStored(s.slots, s.loop.x, now))
    case LoopGiveUp => s.(loop := Idle)
    case _ => s
  }

  function CommandStep(s: State, m: Move): State
    requires CanMove(s, m)
  {
    match m
    case ConfirmTake =>
      if s.slots.pending.None? then s
      else
        var x := s.slots.pending.value.trace;
        s.(slots := Taken(s.slots), confirming := s.confirming + {x}, window := Some(x))
    case ConfirmToken(x, token, now) =>
      s.(slots := TakenByToken(s.slots, x, token, now),
         confirming := if TokenTakes(s.slots, x, token, now) then s.confirming + {x} else s.confirming)
    case ConfirmDispatch(x, ok) =>
      s.(slots := DispatchedTask(s.slots, x, ok), confirming := s.confirming - {x},
         window := if s.window == Some(x) then None else s.window)
    case Cancel => s.(slots := CancelledPending(s.slots, Cancelled))
    case Dismiss => s.(slots := CancelledPending(s.slots, Dismissed))
    case CancelToken(x, token, now) => s.(slots := CancelledByToken(s.slots, x, token, now))
    case StoreTaskState(state) => s.(slots := TaskStateStored(s.slots, state))
    case _ => s
  }

  predicate OfLoop(m: Move) {
    m.LoopCheck? || m.LoopExpire? || m.LoopNotify? || m.LoopClear? || m.LoopStore? || m.LoopGiveUp?
  }

  function Step(s: State, m: Move): State
    requires CanMove(s, m)
  {
    if OfLoop(m) then LoopStep(s, m) else CommandStep(s, m)
  }

  /** Moves that are not possible are skipped. */
  function Exec(ms: seq<Move>): State {
    if ms == [] then INIT
    else
      var s := Exec(ms[..|ms| - 1]);
      if CanMove(s, ms[|ms| - 1]) then Step(s, ms[|ms| - 1]) else s
  }

  // ------------------------------------------------------------------ where a trace is

  predicate IsPending(s: State, x: Trace) { s.slots.pending.Some? && s.slots.pending.value.trace == x }

  /** The main loop has sent the toast of this suggestion and not stored it yet. */
  predicate IsBeingStored(s: State, x: Trace) { (s.loop.Told? || s.loop.Cleared?) && s.loop.x == x }

  /** A trace is in exactly one place: not yet suggested, being stored, pending, being confirmed, or ended. */
  predicate InOnePlace(s: State, x: Trace) {
    if x !in s.traces then !IsPending(s, x) && x !in s.confirming && !IsBeingStored(s, x) && OutcomesOf(s.slots, x) == []
    else if IsPending(s, x) then x !in s.confirming && !IsBeingStored(s, x) && OutcomesOf(s.slots, x) == []
    else if x in s.confirming then !IsBeingStored(s, x) && OutcomesOf(s.slots, x) == []
    else if IsBeingStored(s, x) then OutcomesOf(s.slots, x) == []
    else |OutcomesOf(s.slots, x)| == 1
  }

  ghost predicate TracesInv(s: State) { forall x :: InOnePlace(s, x) }

  predicate TokensInv(s: State) {
    && NoDup(s.slots.consumed)
    && (forall t :: t in s.slots.consumed ==> t in s.tokens)
    && (s.slots.notification.Some? ==>
          s.slots.notification.value.token in s.tokens && s.slots.notification.value.token !in s.slots.consumed)
  }

  predicate SlotsInv(s: State) {
    && (!s.loop.Idle? ==> s.slots.pending.None?)
    && (s.slots.current.Some? ==> OutcomesOf(s.slots, s.slots.current.value.trace) == [Dispatched])
  }

  ghost predicate Inv(s: State) { TracesInv(s) && TokensInv(s) && SlotsInv(s) }

  // ------------------------------------------------------------------ every step keeps it

  predicate ByToken(m: Move) { m.ConfirmToken? || m.CancelToken? }

  lemma TraceKeptByToken(s: State, m: Move, x: Trace)
    requires CanMove(s, m) && InOnePlace(s, x) && ByToken(m)
    ensures InOnePlace(Step(s, m), x)
  {
  }

  lemma TraceKeptByLoop(s: State, m: Move, x: Trace)
    requires CanMove(s, m) && InOnePlace(s, x) && SlotsInv(s) && OfLoop(m)
    ensures InOnePlace(Step(s, m), x)
  {
  }

  lemma TraceKept(s: State, m: Move, x: Trace)
    requires CanMove(s, m) && InOnePlace(s, x) && !ByToken(m) && !OfLoop(m)
    ensures InOnePlace(Step(s, m), x)
  {
  }

  lemma ConsumeKeepsTokens(s: State, x: Trace, token: Token, now: int, t: State)
    requires TokensInv(s) && t.tokens == s.tokens
    requires t.slots.notification == Consume(s.slots, x, token, now).slots.notification
    requires t.slots.consumed == Consume(s.slots, x, token, now).slots.consumed
    ensures TokensInv(t)
  {
  }

  lemma TokensKept(s: State, m: Move)
    requires CanMove(s, m) && TokensInv(s)
    ensures TokensInv(Step(s, m))
  {
    match m
    case ConfirmToken(x, token, now) => ConsumeKeepsTokens(s, x, token, now, Step(s, m));
    case CancelToken(x, token, now) => ConsumeKeepsTokens(s, x, token, now, Step(s, m));
    case _ =>
  }

  lemma SlotsKept(s: State, m: Move)
    requires CanMove(s, m) && TracesInv(s) && SlotsInv(s)
    ensures SlotsInv(Step(s, m))
  {
    if s.slots.pending.Some? { assert InOnePlace(s, s.slots.pending.value.trace); }
    if m.ConfirmDispatch? { assert InOnePlace(s, m.x); }
    if s.slots.current.Some? { assert InOnePlace(s, s.slots.current.value.trace); }
  }

  lemma StepKeeps(s: State, m: Move)
    requires CanMove(s, m) && Inv(s)
    ensures Inv(Step(s, m))
  {
    TokensKept(s, m);
    SlotsKept(s, m);
    forall x ensures InOnePlace(Step(s, m), x) {
      if ByToken(m) {
        TraceKeptByToken(s, m, x);
      } else if OfLoop(m) {
        TraceKeptByLoop(s, m, x);
      } else {
        TraceKept(s, m, x);
      }
    }
  }

  lemma {:induction false} ExecInv(ms: seq<Move>)
    ensures Inv(Exec(ms))
  {
    if ms != [] {
      ExecInv(ms[..|ms| - 1]);
      var s := Exec(ms[..|ms| - 1]);
      if CanMove(s, ms[|ms| - 1]) { StepKeeps(s, ms[|ms| - 1]); }
    }
  }

  // ------------------------------------------------------------------ what every run guarantees

  /** Every suggested trace is being stored, pending, being confirmed, or ended in exactly one way. */
  lemma OneOutcome(ms: seq<Move>, s: State, x: Trace)
    requires s == Exec(ms)
    ensures |OutcomesOf(s.slots, x)| <= 1
    ensures x in s.traces ==>
              (|OutcomesOf(s.slots, x)| == 0 <==> IsBeingStored(s, x) || IsPending(s, x) || x in s.confirming)
    ensures !(IsPending(s, x) && x in s.confirming)
    ensures IsBeingStored(s, x) ==> !IsPending(s, x) && x !in s.confirming
  {
    ExecInv(ms);
    assert InOnePlace(s, x);
  }

  lemma OutcomeKept(s: State, m: Move, x: Trace)
    requires CanMove(s, m)
    ensures OutcomesOf(s.slots, x) <= OutcomesOf(Step(s, m).slots, x)
  {
  }

  lemma {:induction false} OutcomesGrow(ms: seq<Move>, more: seq<Move>, x: Trace)
    ensures OutcomesOf(Exec(ms).slots, x) <= OutcomesOf(Exec(ms + more).slots, x)
    decreases |more|
  {
    if more == [] {
      assert ms + more == ms;
    } else {
      var front, m := more[..|more| - 1], more[|more| - 1];
      OutcomesGrow(ms, front, x);
      assert ms + more == ms + front + [m];
      OneMoreMove(ms + front, m, x);
    }
  }

  lemma OneMoreMove(ms: seq<Move>, m: Move, x: Trace)
    ensures OutcomesOf(Exec(ms).slots, x) <= OutcomesOf(Exec(ms + [m]).slots, x)
  {
    assert (ms + [m])[..|ms|] == ms;
    if CanMove(Exec(ms), m) { OutcomeKept(Exec(ms), m, x); }
  }

  /** How a trace ended never changes: a cancelled, dismissed, expired or dropped one is never
      dispatched, and a dispatched one is not dispatched again. */
  lemma OutcomeIsFinal(ms: seq<Move>, more: seq<Move>, x: Trace)
    requires OutcomesOf(Exec(ms).slots, x) != []
    ensures OutcomesOf(Exec(ms + more).slots, x) == OutcomesOf(Exec(ms).slots, x)
  {
    OutcomesGrow(ms, more, x);
    OneOutcome(ms + more, Exec(ms + more), x);
  }

  /** A token is used up at most once. */
  lemma TokenOnce(ms: seq<Move>)
    ensures NoDup(Exec(ms).slots.consumed)
  {
    ExecInv(ms);
  }

  /** Only the token of the very suggestion that is pending can take it out for dispatching, and
      taken out by it, it is dispatched. */
  lemma TokenDispatchesItsOwn(ms: seq<Move>, s: State, m: Move, y: Trace)
    requires s == Exec(ms) && m.ConfirmToken? && y !in s.confirming
    ensures y in Step(s, m).confirming <==>
              y == m.x && IsPending(s, y) && s.slots.notification.Some?
              && s.slots.notification.value.trace == y && s.slots.notification.value.token == m.token
              && m.now <= s.slots.notification.value.createdAt + CONFIRM_TOKEN_TTL_SECS
    ensures OutcomesOf(Step(s, m).slots, y) == OutcomesOf(s.slots, y)
    ensures y in Step(s, m).confirming ==>
              forall ok :: CanMove(Step(s, m), ConfirmDispatch(y, ok))
                           && OutcomesOf(Step(Step(s, m), ConfirmDispatch(y, ok)).slots, y) == [Dispatched]
  {
    ExecInv(ms);
    assert InOnePlace(s, y);
  }

  /** A trace comes to be dispatched only as the last step of a confirmation that took it out. */
  lemma DispatchedWasTaken(s: State, m: Move, y: Trace)
    requires CanMove(s, m) && Dispatched !in OutcomesOf(s.slots, y)
    ensures Dispatched in OutcomesOf(Step(s, m).slots, y) <==> m.ConfirmDispatch? && m.x == y
  {
    if m.ConfirmDispatch? && m.x == y {
      assert OutcomesOf(Step(s, m).slots, y)[|OutcomesOf(s.slots, y)|] == Dispatched;
    }
  }

  // ------------------------------------------------------------------ the window's one thread

  /** What the window's confirmations have taken out. */
  function TakenByWindow(ms: seq<Move>): set<Trace> {
    if ms == [] then {}
    else
      var s := Exec(ms[..|ms| - 1]);
      TakenByWindow(ms[..|ms| - 1])
      + if ms[|ms| - 1].ConfirmTake? && CanMove(s, ConfirmTake) && s.slots.pending.Some? then {s.slots.pending.value.trace} else {}
  }

  predicate WindowInv(s: State, taken: set<Trace>) {
    && (s.window.Some? ==> s.window.value in taken && s.window.value in s.confirming)
    && (forall x :: x in taken ==> x in s.traces && !IsPending(s, x) && !IsBeingStored(s, x))
    && (forall x :: x in taken && x in s.confirming ==> s.window == Some(x))
  }

  lemma WindowStep(s: State, m: Move, taken: set<Trace>)
    requires CanMove(s, m) && SlotsInv(s) && WindowInv(s, taken)
    requires s.slots.pending.Some? ==> s.slots.pending.value.trace in s.traces
    ensures WindowInv(Step(s, m),
              taken + if m.ConfirmTake? && s.slots.pending.Some? then {s.slots.pending.value.trace} else {})
  {
  }

  lemma {:induction false} WindowKept(ms: seq<Move>)
    ensures WindowInv(Exec(ms), TakenByWindow(ms))
  {
    if ms != [] {
      var s, m := Exec(ms[..|ms| - 1]), ms[|ms| - 1];
      WindowKept(ms[..|ms| - 1]);
      ExecInv(ms[..|ms| - 1]);
      if s.slots.pending.Some? { assert InOnePlace(s, s.slots.pending.value.trace); }
      if CanMove(s, m) { WindowStep(s, m, TakenByWindow(ms[..|ms| - 1])); }
    }
  }

  /** A window command can begin exactly when whatever an earlier window confirmation took out has been
      dispatched: they run one after the other. */
  lemma WindowCommandsWait(ms: seq<Move>, m: Move)
    requires m.ConfirmTake? || m.Cancel? || m.Dismiss?
    ensures CanMove(Exec(ms), m) <==> TakenByWindow(ms) * Exec(ms).confirming == {}
  {
    WindowKept(ms);
    var s := Exec(ms);
    if s.window.Some? { assert s.window.value in TakenByWindow(ms) * s.confirming; }
  }

  // ------------------------------------------------------------------ pending beside current

  predicate Coexist(s: State) { s.slots.pending.Some? && s.slots.current.Some? }

  /** A confirmation's inference ends and its task is stored while another suggestion is pending. */
  predicate DispatchMeetsPending(s: State, m: Move) {
    CanMove(s, m) && m.ConfirmDispatch? && s.slots.pending.Some?
  }

  /** The main loop stores a suggestion beside a task it did not find when it emptied the slot. */
  predicate StoreMeetsTask(s: State, m: Move) {
    CanMove(s, m) && m.LoopStore? && s.slots.current.Some?
  }

  predicate Meets(s: State, m: Move) { DispatchMeetsPending(s, m) || StoreMeetsTask(s, m) }

  lemma CoexistStep(s: State, m: Move)
    requires CanMove(s, m) && !Coexist(s)
    ensures Coexist(Step(s, m)) <==> Meets(s, m)
  {
  }

  lemma MeetingCoexists(s: State, m: Move)
    requires Meets(s, m)
    ensures Coexist(Step(s, m))
  {
  }

  predicate NeverCoexist(ms: seq<Move>) {
    forall n :: 0 <= n <= |ms| ==> !Coexist(Exec(ms[..n]))
  }

  predicate NeverMeet(ms: seq<Move>) {
    forall i :: 0 <= i < |ms| ==> !Meets(Exec(ms[..i]), ms[i])
  }

  lemma {:induction false} ApartWithoutMeeting(ms: seq<Move>)
    requires NeverMeet(ms)
    ensures !Coexist(Exec(ms))
  {
    if ms != [] {
      var front, m := ms[..|ms| - 1], ms[|ms| - 1];
      assert forall i :: 0 <= i < |front| ==> front[..i] == ms[..i];
      ApartWithoutMeeting(front);
      assert !Meets(Exec(ms[..|front|]), ms[|front|]);
      if CanMove(Exec(front), m) { CoexistStep(Exec(front), m); }
    }
  }

  /** A pending confirmation and a current task are beside each other at no point of a run exactly
      when no confirmation in it finds another suggestion pending as it stores its task, and the main
      loop finds no task as it stores a suggestion. */
  lemma CoexistIffMet(ms: seq<Move>)
    ensures NeverCoexist(ms) <==> NeverMeet(ms)
  {
    if NeverMeet(ms) {
      forall n | 0 <= n <= |ms| ensures !Coexist(Exec(ms[..n])) {
        assert forall i :: 0 <= i < n ==> ms[..n][..i] == ms[..i];
        ApartWithoutMeeting(ms[..n]);
      }
    }
    if NeverCoexist(ms) {
      forall i | 0 <= i < |ms| ensures !Meets(Exec(ms[..i]), ms[i]) {
        assert !Coexist(Exec(ms[..i + 1]));
        assert ms[..i + 1][..i] == ms[..i];
        if Meets(Exec(ms[..i]), ms[i]) { MeetingCoexists(Exec(ms[..i]), ms[i]); }
      }
    }
  }

  /** A confirmation stores its task after the main loop has emptied the task for a suggestion. */
  predicate SlipsIn(s: State, m: Move) {
    CanMove(s, m) && m.ConfirmDispatch? && s.loop.Cleared?
  }

  predicate ClearedAt(ms: seq<Move>, k: nat)
    requires k <= |ms|
  {
    Exec(ms[..k]).loop.Cleared?
  }

  /** The `i`-th move does, and the main loop has not stored that suggestion since. */
  predicate SlippedSince(ms: seq<Move>, i: nat)
    requires i < |ms|
  {
    SlipsIn(Exec(ms[..i]), ms[i]) && forall k :: i < k <= |ms| ==> ClearedAt(ms, k)
  }

  lemma TaskWhileCleared(s: State, m: Move)
    requires CanMove(s, m) && Step(s, m).loop.Cleared?
    ensures Step(s, m).slots.current.Some? <==> SlipsIn(s, m) || (s.loop.Cleared? && s.slots.current.Some?)
  {
  }

  lemma SlippedFront(ms: seq<Move>, i: nat)
    requires i < |ms| - 1 && Exec(ms).loop.Cleared?
    ensures SlippedSince(ms, i) <==> SlippedSince(ms[..|ms| - 1], i)
  {
    var front := ms[..|ms| - 1];
    assert front[..i] == ms[..i] && ms[..|ms|] == ms;
    assert ClearedAt(ms, |ms|);
    forall k | i < k <= |front| ensures ClearedAt(front, k) == ClearedAt(ms, k) { assert front[..k] == ms[..k]; }
    if SlippedSince(front, i) {
      forall k | i < k <= |ms| ensures ClearedAt(ms, k) { assert k <= |front| ==> ClearedAt(front, k); }
    }
    if SlippedSince(ms, i) {
      forall k | i < k <= |front| ensures ClearedAt(front, k) { assert ClearedAt(ms, k); }
    }
  }

  /** About to store a suggestion, the main loop finds a task exactly when a confirmation stored it
      after the slot was emptied. */
  lemma {:induction false} TaskFoundIffSlippedIn(ms: seq<Move>)
    requires Exec(ms).loop.Cleared?
    ensures Exec(ms).slots.current.Some? <==> exists i :: 0 <= i < |ms| && SlippedSince(ms, i)
  {
    var n := |ms| - 1;
    var front, m := ms[..n], ms[n];
    var s := Exec(front);
    assert ms[..|ms|] == ms;
    if CanMove(s, m) { TaskWhileCleared(s, m); }
    if s.loop.Cleared? {
      TaskFoundIffSlippedIn(front);
      forall i | 0 <= i < n ensures SlippedSince(ms, i) <==> SlippedSince(front, i) { SlippedFront(ms, i); }
      if SlipsIn(s, m) { assert SlippedSince(ms, n); }
    } else {
      forall i | 0 <= i < |ms| ensures !SlippedSince(ms, i) { assert i < n ==> !ClearedAt(ms, n); }
    }
  }

  /** No confirmation waits when the main loop begins to store a suggestion. */
  predicate Atomic(ms: seq<Move>) {
    forall i :: 0 <= i < |ms| && ms[i].LoopClear? && Exec(ms[..i]).loop.Told? ==> Exec(ms[..i]).confirming == {}
  }

  /** Nobody confirms while a suggestion is pending or about to be. */
  predicate Alone(s: State) {
    && (s.slots.pending.Some? ==> s.confirming == {})
    && (s.loop.Cleared? ==> s.confirming == {} && s.slots.current.None?)
  }

  lemma AloneKept(s: State, m: Move)
    requires CanMove(s, m) && SlotsInv(s) && Alone(s) && (m.LoopClear? && s.loop.Told? ==> s.confirming == {})
    ensures Alone(Step(s, m))
  {
  }

  lemma {:induction false} AtomicApart(ms: seq<Move>)
    requires Atomic(ms)
    ensures Alone(Exec(ms))
  {
    if ms != [] {
      var front := ms[..|ms| - 1];
      AtomicFront(ms, |front|);
      AtomicApart(front);
      ExecInv(front);
      assert ms[|front|].LoopClear? && Exec(ms[..|front|]).loop.Told? ==> Exec(ms[..|front|]).confirming == {};
      if CanMove(Exec(front), ms[|front|]) { AloneKept(Exec(front), ms[|front|]); }
    }
  }

  lemma AtomicFront(ms: seq<Move>, n: nat)
    requires Atomic(ms) && n <= |ms|
    ensures Atomic(ms[..n])
  {
    assert forall i :: 0 <= i < n ==> ms[..n][..i] == ms[..i];
  }

  /** With confirmations run to their end before the next suggestion is stored, they never coexist. */
  lemma AtomicNoCoexistence(ms: seq<Move>)
    requires Atomic(ms)
    ensures NeverCoexist(ms)
  {
    forall i | 0 <= i < |ms| ensures !Meets(Exec(ms[..i]), ms[i]) {
      AtomicFront(ms, i);
      AtomicApart(ms[..i]);
    }
    CoexistIffMet(ms);
  }

  /** The current task, if any, is one that was dispatched and ended in no other way. */
  lemma CurrentWasDispatched(ms: seq<Move>, s: State)
    requires s == Exec(ms) && s.slots.current.Some?
    ensures OutcomesOf(s.slots, s.slots.current.value.trace) == [Dispatched]
  {
    ExecInv(ms);
  }

  // ------------------------------------------------------------------ cancelling by token

  /** A cancellation by token ends a trace it does not name exactly when its token is good and that
      other trace is pending. */
  lemma CancelEndsAnother(ms: seq<Move>, s: State, x: Trace, token: Token, now: int, y: Trace)
    requires s == Exec(ms) && y != x
    ensures OutcomesOf(CancelledByToken(s.slots, x, token, now), y) != OutcomesOf(s.slots, y) <==>
            Consume(s.slots, x, token, now).ok && IsPending(s, y)
  {
  }

  /** This move drops trace `y`. */
  predicate Drops(s: State, m: Move, y: Trace) {
    CanMove(s, m) && m.CancelToken? && m.x != y && Consume(s.slots, m.x, m.token, m.now).ok && IsPending(s, y)
  }

  predicate WasDropped(s: State, y: Trace) { Dropped in OutcomesOf(s.slots, y) }

  lemma DropStep(s: State, m: Move, y: Trace)
    requires CanMove(s, m)
    ensures WasDropped(Step(s, m), y) <==> WasDropped(s, y) || Drops(s, m, y)
  {
    var t := Step(s, m);
    if Drops(s, m, y) {
      assert OutcomesOf(t.slots, y)[|OutcomesOf(s.slots, y)|] == Dropped;
    }
    OutcomeKept(s, m, y);
    if WasDropped(s, y) {
      var i :| 0 <= i < |OutcomesOf(s.slots, y)| && OutcomesOf(s.slots, y)[i] == Dropped;
      assert OutcomesOf(t.slots, y)[i] == Dropped;
    }
  }

  predicate EverDrops(ms: seq<Move>, y: Trace) {
    exists i :: 0 <= i < |ms| && Drops(Exec(ms[..i]), ms[i], y)
  }

  lemma DropsFront(ms: seq<Move>, y: Trace)
    requires ms != []
    ensures EverDrops(ms, y) <==> EverDrops(ms[..|ms| - 1], y) || Drops(Exec(ms[..|ms| - 1]), ms[|ms| - 1], y)
  {
    var front := ms[..|ms| - 1];
    forall i | 0 <= i < |front| ensures front[..i] == ms[..i] {}
    if EverDrops(front, y) {
      var i :| 0 <= i < |front| && Drops(Exec(front[..i]), front[i], y);
      assert Drops(Exec(ms[..i]), ms[i], y);
    }
    if EverDrops(ms, y) {
      var i :| 0 <= i < |ms| && Drops(Exec(ms[..i]), ms[i], y);
      assert i < |front| ==> Drops(Exec(front[..i]), front[i], y);
    }
  }

  /** Over any run, a trace is dropped exactly when a good token of another trace cancelled while it
      was pending. */
  lemma {:induction false} DroppedIff(ms: seq<Move>, y: Trace)
    ensures WasDropped(Exec(ms), y) <==> EverDrops(ms, y)
  {
    if ms != [] {
      var front, m := ms[..|ms| - 1], ms[|ms| - 1];
      DroppedIff(front, y);
      DropsFront(ms, y);
      if CanMove(Exec(front), m) { DropStep(Exec(front), m, y); }
    }
  }

  /** No further toast comes up. */
  predicate NoToast(ms: seq<Move>) {
    forall i :: 0 <= i < |ms| ==> !(ms[i].LoopNotify? && ms[i].shown)
  }

  lemma {:induction false} NoTokenAppears(ms: seq<Move>, more: seq<Move>)
    requires Exec(ms).slots.notification.None? && NoToast(more)
    ensures Exec(ms + more).slots.notification.None?
    decreases |more|
  {
    if more == [] {
      assert ms + more == ms;
    } else {
      var front, m := more[..|more| - 1], more[|more| - 1];
      NoTokenAppears(ms, front);
      assert (ms + more)[..|ms + more| - 1] == ms + front && (ms + more)[|ms + more| - 1] == m;
      if CanMove(Exec(ms + front), m) { NoTokenFromStep(Exec(ms + front), m); }
    }
  }

  lemma NoTokenFromStep(s: State, m: Move)
    requires CanMove(s, m) && s.slots.notification.None? && !(m.LoopNotify? && m.shown)
    ensures Step(s, m).slots.notification.None?
  {
  }

  /** Once the window has confirmed, cancelled or dismissed what was pending, no token is good until
      another toast comes up. */
  lemma WindowVoidsTokens(ms: seq<Move>, m: Move, more: seq<Move>, x: Trace, token: Token, now: int)
    requires CanMove(Exec(ms), m) && (m.ConfirmTake? || m.Cancel? || m.Dismiss?)
    requires Exec(ms).slots.pending.Some? && NoToast(more)
    ensures !Consume(Exec(ms + [m] + more).slots, x, token, now).ok
  {
    assert (ms + [m])[..|ms|] == ms;
    NoTokenAppears(ms + [m], more);
  }

  /** Expiring a suggestion leaves its token as good as it was. */
  lemma ExpirySparesTokens(s: State, expiredAt: int, x: Trace, token: Token, now: int)
    requires CanMove(s, LoopExpire(expiredAt))
    ensures Consume(Step(s, LoopExpire(expiredAt)).slots, x, token, now).ok == Consume(s.slots, x, token, now).ok
    ensures expiredAt > s.slots.pending.value.createdAt + 60
  {
  }

  /** Every toast could be shown. */
  predicate AllShown(ms: seq<Move>) {
    forall i :: 0 <= i < |ms| && ms[i].LoopNotify? ==> ms[i].shown
  }

  /** What the notification names is what is pending, or about to be. */
  predicate SameTrace(s: State) {
    s.slots.notification.Some? ==>
      && (s.slots.pending.Some? ==> s.slots.pending.value.trace == s.slots.notification.value.trace)
      && (s.loop.Told? || s.loop.Cleared? ==> s.loop.x == s.slots.notification.value.trace)
  }

  lemma SameTraceKept(s: State, m: Move)
    requires CanMove(s, m) && SlotsInv(s) && SameTrace(s) && (m.LoopNotify? ==> m.shown)
    ensures SameTrace(Step(s, m))
  {
  }

  lemma {:induction false} ShownSameTrace(ms: seq<Move>)
    requires AllShown(ms)
    ensures SameTrace(Exec(ms))
  {
    if ms != [] {
      var front := ms[..|ms| - 1];
      assert forall i :: 0 <= i < |front| ==> front[i] == ms[i];
      ShownSameTrace(front);
      ExecInv(front);
      if CanMove(Exec(front), ms[|front|]) { SameTraceKept(Exec(front), ms[|front|]); }
    }
  }

  /** If every toast was shown, a cancellation by token never ends another trace, and none was ever
      dropped. */
  lemma ShownCancelsOwn(ms: seq<Move>, s: State, x: Trace, token: Token, now: int, y: Trace)
    requires s == Exec(ms) && AllShown(ms) && y != x
    ensures OutcomesOf(CancelledByToken(s.slots, x, token, now), y) == OutcomesOf(s.slots, y)
    ensures !WasDropped(s, y)
  {
    ShownSameTrace(ms);
    CancelEndsAnother(ms, s, x, token, now, y);
    DroppedIff(ms, y);
    forall i | 0 <= i < |ms| ensures !Drops(Exec(ms[..i]), ms[i], y) {
      assert AllShown(ms[..i]);
      ShownSameTrace(ms[..i]);
    }
  }

  // ------------------------------------------------------------------ such runs

  lemma Then(ms: seq<Move>, m: Move) returns (longer: seq<Move>)
    requires CanMove(Exec(ms), m)
    ensures longer == ms + [m] && Exec(longer) == Step(Exec(ms), m)
  {
    longer := ms + [m];
    assert longer[..|ms|] == ms;
  }

  /** The main loop stores a suggestion, with nothing in between. */
  lemma Suggest(ms: seq<Move>, x: Trace, token: Token, now: int, shown: bool) returns (longer: seq<Move>)
    requires CanMove(Exec(ms), LoopCheck) && x !in Exec(ms).traces && token !in Exec(ms).tokens
    ensures longer == ms + [LoopCheck, LoopNotify(x, token, now, shown), LoopClear, LoopStore(now)]
    ensures var s := Exec(ms);
            Exec(longer) == s.(slots := Created(s.slots, x, token, now, shown, now), traces := s.traces + {x}, tokens := s.tokens + {token})
  {
    longer := Then(ms, LoopCheck);
    longer := Then(longer, LoopNotify(x, token, now, shown));
    longer := Then(longer, LoopClear);
    longer := Then(longer, LoopStore(now));
  }

  /** Without that, they can: a second suggestion arrives during the first one's inference. */
  lemma OverlapCoexists() returns (ms: seq<Move>)
    ensures Exec(ms).slots.pending == Some(Pending("b", 1)) && Exec(ms).slots.current == Some(Task("a", "dispatching"))
  {
    ms := Suggest([], "a", "s", 0, true);
    ms := Then(ms, ConfirmTake);
    ms := Suggest(ms, "b", "t", 1, true);
    ms := Then(ms, ConfirmDispatch("a", true));
  }

  /** And so they can when the inference ends while the main loop is storing the second suggestion,
      after it emptied the task: no confirmation ever finds a suggestion pending. */
  lemma SlippedInCoexists() returns (before: seq<Move>, ms: seq<Move>)
    ensures ms == before + [LoopStore(1)] && StoreMeetsTask(Exec(before), LoopStore(1))
    ensures Exec(ms).slots.pending == Some(Pending("b", 1)) && Exec(ms).slots.current == Some(Task("a", "dispatching"))
    ensures forall i :: 0 <= i < |ms| ==> !DispatchMeetsPending(Exec(ms[..i]), ms[i])
  {
    before := Suggest([], "a", "s", 0, true);
    before := Then(before, ConfirmTake);
    before := Then(before, LoopCheck);
    before := Then(before, LoopNotify("b", "t", 1, true));
    before := Then(before, LoopClear);
    var cleared := before;
    before := Then(before, ConfirmDispatch("a", true));
    ms := Then(before, LoopStore(1));
    forall i | 0 <= i < |ms| ensures !DispatchMeetsPending(Exec(ms[..i]), ms[i]) {
      if i == |cleared| { assert ms[..i] == cleared; } else { assert !ms[i].ConfirmDispatch?; }
    }
  }

  /** Cancelling by token empties the pending slot before comparing traces: with an old token, left
      in place because the new toast failed, it drops a confirmation it does not name. */
  lemma CancelDropsAnother() returns (ms: seq<Move>)
    ensures OutcomesOf(Exec(ms).slots, "b") == [Dropped] && OutcomesOf(Exec(ms).slots, "a") == [Expired]
  {
    ms := Suggest([], "a", "s", 0, true);
    ms := Then(ms, LoopExpire(61));
    ms := Then(ms, LoopClear);
    ms := Suggest(ms, "b", "t", 61, false);
    ms := Then(ms, CancelToken("a", "s", 61));
  }
}
