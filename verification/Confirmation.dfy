/** The confirmation of a suggested task: the slots that commands.rs, notification_manager.rs and
    main_loop.rs (src-tauri/src) share, and the calls that overwrite them. */
module Confirmation {
  import opened Options

  type Trace = string
  type Token = string

  const CONFIRM_TOKEN_TTL_SECS := 600
  const STALE_AFTER_SECS := 60

  datatype Pending = Pending(trace: Trace, createdAt: int)

  datatype Task = Task(trace: Trace, state: string)

  datatype Notification = Notification(trace: Trace, token: Token, createdAt: int)

  datatype Outcome = Dispatched | Cancelled | Dismissed | Expired | Dropped

  /** The four slots, and what happened so far: how each trace ended and which tokens were used up. */
  datatype Slots = Slots(
    pending: Option<Pending>,
    current: Option<Task>,
    relayStatus: Option<string>,
    notification: Option<Notification>,
    outcomes: map<Trace, seq<Outcome>>,
    consumed: seq<Token>)

  const EMPTY := Slots(None, None, None, None, map[], [])

  function OutcomesOf(s: Slots, x: Trace): seq<Outcome> {
    if x in s.outcomes then s.outcomes[x] else []
  }

  function WithOutcome(s: Slots, x: Trace, o: Outcome): Slots {
    s.(outcomes := s.outcomes[x := OutcomesOf(s, x) + [o]])
  }

  predicate IsActiveState(state: string) {
    state == "connecting" || state == "dispatching" || state == "running" || state == "waiting" || state == "interrupting"
  }

  predicate HasActiveTask(s: Slots) { s.current.Some? && IsActiveState(s.current.value.state) }

  // ------------------------------------------------------------------ the calls as functions

  datatype Consumption = Consumption(slots: Slots, ok: bool)

  /** A token is good once, for its own trace, for ten minutes; an expired one is thrown away. */
  function Consume(s: Slots, x: Trace, token: Token, now: int): Consumption {
    match s.notification
    case None => Consumption(s, false)
    case Some(n) =>
      if n.createdAt + CONFIRM_TOKEN_TTL_SECS < now then Consumption(s.(notification := None), false)
      else if n.trace != x || n.token != token then Consumption(s, false)
      else Consumption(s.(notification := None, consumed := s.consumed + [token]), true)
  }

  /** A direct confirmation first empties both slots ... */
  function Taken(s: Slots): Slots {
    if s.pending.None? then s else s.(pending := None, notification := None)
  }

  /** ... and, after the inference, dispatches what it took out. */
  function DispatchedTask(s: Slots, x: Trace, ok: bool): Slots {
    WithOutcome(s, x, Dispatched).(
      current := Some(Task(x, if ok then "dispatching" else "dispatch_error")), relayStatus := None)
  }

  function CancelledPending(s: Slots, how: Outcome): Slots {
    var t := s.(pending := None, notification := None);
    if s.pending.Some? then WithOutcome(t, s.pending.value.trace, how) else t
  }

  /** A confirmation by token takes the pending suggestion when both its token and its trace fit. */
  predicate TokenTakes(s: Slots, x: Trace, token: Token, now: int) {
    Consume(s, x, token, now).ok && s.pending.Some? && s.pending.value.trace == x
  }

  /** It first uses the token up and empties the pending slot ... */
  function TakenByToken(s: Slots, x: Trace, token: Token, now: int): Slots {
    var c := Consume(s, x, token, now);
    if TokenTakes(s, x, token, now) then c.slots.(pending := None) else c.slots
  }

  /** ... and then dispatches the task. */
  function ConfirmedByToken(s: Slots, x: Trace, token: Token, now: int, ok: bool): Slots {
    var t := TakenByToken(s, x, token, now);
    if TokenTakes(s, x, token, now) then DispatchedTask(t, x, ok) else t
  }

  /** The pending slot is emptied before its trace is compared: a mismatch drops the confirmation. */
  function CancelledByToken(s: Slots, x: Trace, token: Token, now: int): Slots {
    var c := Consume(s, x, token, now);
    if !c.ok || c.slots.pending.None? then c.slots
    else
      var p := c.slots.pending.value;
      WithOutcome(c.slots.(pending := None), p.trace, if p.trace == x then Cancelled else Dropped)
  }

  predicate IsStale(s: Slots, now: int) { s.pending.Some? && now - s.pending.value.createdAt > STALE_AFTER_SECS }

  /** What the main loop does before it is done with an old or a new suggestion. */
  function TaskCleared(s: Slots): Slots { s.(current := None, relayStatus := None) }

  function PendingExpired(s: Slots): Slots
    requires s.pending.Some?
  {
    WithOutcome(s, s.pending.value.trace, Expired).(pending := None)
  }

  /** The main loop lets a pending confirmation expire; the notification slot keeps its token. */
  function ExpiredPending(s: Slots, now: int): Slots {
    if IsStale(s, now) then TaskCleared(PendingExpired(s)) else s
  }

  /** When the toast cannot be shown the old notification stays. */
  function Notified(s: Slots, x: Trace, token: Token, now: int, shown: bool): Slots {
    if shown then s.(notification := Some(Notification(x, token, now))) else s
  }

  function PendingStored(s: Slots, x: Trace, now: int): Slots { s.(pending := Some(Pending(x, now))) }

  /** A new suggestion: its toast, then the current task, then the pending slot. */
  function Created(s: Slots, x: Trace, token: Token, shownAt: int, shown: bool, now: int): Slots {
    PendingStored(TaskCleared(Notified(s, x, token, shownAt, shown)), x, now)
  }

  /** The relay thread publishes a status, or an interrupt marks the task. */
  function TaskStateStored(s: Slots, state: string): Slots {
    if s.current.Some? then s.(current := Some(s.current.value.(state := state))) else s
  }

  /** A token is accepted exactly when it is the stored one, for its own trace, and not more than
      ten minutes old; a token accepted once is not accepted again. */
  lemma TokenAccepted(s: Slots, x: Trace, token: Token, now: int, later: int)
    ensures Consume(s, x, token, now).ok <==>
            exists created :: s.notification == Some(Notification(x, token, created)) && now <= created + 600
    ensures Consume(s, x, token, now).ok ==> !Consume(Consume(s, x, token, now).slots, x, token, later).ok
  {
    if Consume(s, x, token, now).ok {
      assert s.notification == Some(Notification(x, token, s.notification.value.createdAt));
    }
  }

  /** A dispatched task makes the main loop wait; one the relay refused does not. */
  lemma DispatchMakesBusy(s: Slots, x: Trace, ok: bool)
    ensures HasActiveTask(DispatchedTask(s, x, ok)) <==> ok
  {
  }

  // ------------------------------------------------------------------ what the calls do to each slot

  /** A token that is turned down changes nothing, unless it is turned down because the stored one has
      expired: then that is thrown away.  One that is accepted is used up, and touches nothing else. */
  lemma ConsumeDoes(s: Slots, x: Trace, token: Token, now: int)
    ensures var t := Consume(s, x, token, now).slots;
            var expired := s.notification.Some? && now > s.notification.value.createdAt + 600;
            && t.pending == s.pending && t.current == s.current && t.relayStatus == s.relayStatus && t.outcomes == s.outcomes
            && (Consume(s, x, token, now).ok ==> t.notification.None? && t.consumed == s.consumed + [token])
            && (!Consume(s, x, token, now).ok ==>
                  t.consumed == s.consumed && t.notification == if expired then None else s.notification)
  {
  }

  /** The trace's list of outcomes gets longer by this one, and no other list changes. */
  ghost predicate Ends(s: Slots, t: Slots, x: Trace, o: Outcome) {
    OutcomesOf(t, x) == OutcomesOf(s, x) + [o] && forall y :: y != x ==> OutcomesOf(t, y) == OutcomesOf(s, y)
  }

  /** Confirming in the window voids the token with the pending suggestion, and nothing ends yet. */
  lemma TakingDoes(s: Slots)
    ensures var t := Taken(s);
            && t.pending.None? && t.current == s.current && t.outcomes == s.outcomes && t.consumed == s.consumed
            && t.notification == if s.pending.Some? then None else s.notification
  {
  }

  /** Dispatching makes the trace the current task, `dispatching` or in error, and ends it. */
  lemma DispatchingDoes(s: Slots, x: Trace, ok: bool)
    ensures var t := DispatchedTask(s, x, ok);
            && t.current == Some(Task(x, if ok then "dispatching" else "dispatch_error")) && t.relayStatus.None?
            && t.pending == s.pending && t.notification == s.notification && t.consumed == s.consumed
            && Ends(s, t, x, Dispatched)
  {
  }

  /** Cancelling or dismissing in the window voids any token, and ends what was pending. */
  lemma CancellingDoes(s: Slots, how: Outcome)
    ensures var t := CancelledPending(s, how);
            && t.pending.None? && t.notification.None? && t.current == s.current && t.consumed == s.consumed
            && (s.pending.None? ==> t.outcomes == s.outcomes)
            && (s.pending.Some? ==> Ends(s, t, s.pending.value.trace, how))
  {
  }

  /** After more than sixty seconds what is pending expires, with the current task, but not its token. */
  lemma ExpiringDoes(s: Slots, now: int)
    ensures var t := ExpiredPending(s, now);
            if s.pending.Some? && now > s.pending.value.createdAt + 60 then
              t.pending.None? && t.current.None? && t.relayStatus.None? && t.notification == s.notification
              && t.consumed == s.consumed && Ends(s, t, s.pending.value.trace, Expired)
            else t == s
  {
  }

  /** Storing a suggestion empties the current task and ends nothing; its token replaces the stored one
      if its toast could be shown. */
  lemma CreatingDoes(s: Slots, x: Trace, token: Token, shownAt: int, shown: bool, now: int)
    ensures var t := Created(s, x, token, shownAt, shown, now);
            && t.pending == Some(Pending(x, now)) && t.current.None? && t.relayStatus.None?
            && t.outcomes == s.outcomes && t.consumed == s.consumed
            && t.notification == if shown then Some(Notification(x, token, shownAt)) else s.notification
  {
  }

  /** A good token dispatches the pending trace if it is the token's own; otherwise nothing is confirmed
      and what is pending stays. */
  lemma ConfirmingByTokenDoes(s: Slots, x: Trace, token: Token, now: int, ok: bool)
    ensures var t := ConfirmedByToken(s, x, token, now, ok);
            var good := s.notification.Some? && s.notification.value.trace == x && s.notification.value.token == token
                        && now <= s.notification.value.createdAt + 600;
            if good && s.pending.Some? && s.pending.value.trace == x then
              t.current == Some(Task(x, if ok then "dispatching" else "dispatch_error")) && t.relayStatus.None?
              && t.pending.None? && t.notification.None? && t.consumed == s.consumed + [token] && Ends(s, t, x, Dispatched)
            else
              t.current == s.current && t.relayStatus == s.relayStatus && t.pending == s.pending && t.outcomes == s.outcomes
              && t.consumed == s.consumed + if good then [token] else []
  {
  }

  /** A good token empties the pending slot, whatever trace is in it, and ends that trace. */
  lemma CancellingByTokenDoes(s: Slots, x: Trace, token: Token, now: int)
    ensures var t := CancelledByToken(s, x, token, now);
            var good := s.notification.Some? && s.notification.value.trace == x && s.notification.value.token == token
                        && now <= s.notification.value.createdAt + 600;
            && t.current == s.current && t.relayStatus == s.relayStatus && t.consumed == s.consumed + (if good then [token] else [])
            && t.pending == (if good then None else s.pending)
            && (good && s.pending.Some? ==>
                  Ends(s, t, s.pending.value.trace, if s.pending.value.trace == x then Cancelled else Dropped))
            && (!good || s.pending.None? ==> t.outcomes == s.outcomes)
  {
  }

  /** The main loop waits for a task that is connecting, dispatching, running, waiting or interrupting. */
  lemma ActiveStates(s: Slots)
    ensures HasActiveTask(s) <==>
            s.current.Some? && s.current.value.state in {"connecting", "dispatching", "running", "waiting", "interrupting"}
  {
  }

  // ------------------------------------------------------------------ the class

  class Desktop {
    var pending: Option<Pending>
    var current: Option<Task>
    var relayStatus: Option<string>
    var notification: Option<Notification>
    ghost var outcomes: map<Trace, seq<Outcome>>
    ghost var consumed: seq<Token>

    ghost function View(): Slots
      reads this
    {
      Slots(pending, current, relayStatus, notification, outcomes, consumed)
    }

    constructor ()
      ensures View() == EMPTY
    {
      pending, current, relayStatus, notification := None, None, None, None;
      outcomes, consumed := map[], [];
    }

    method ConsumePendingNotification(x: Trace, token: Token, now: int) returns (ok: bool)
      modifies this
      ensures Consumption(View(), ok) == Consume(old(View()), x, token, now)
    {
      if notification.None? { return false; }
      var n := notification.value;
      if n.createdAt + CONFIRM_TOKEN_TTL_SECS < now {
        notification := None;
        return false;
      }
      if n.trace != x || n.token != token { return false; }
      notification := None;
      consumed := consumed + [token];
      ok := true;
    }

    /** `store_current_task` followed by the relay dispatch, which may fail. */
    method Dispatch(x: Trace, dispatchOk: bool)
      modifies this
      ensures View() == DispatchedTask(old(View()), x, dispatchOk)
    {
      outcomes := WithOutcome(View(), x, Dispatched).outcomes;
      current := Some(Task(x, "dispatching"));
      relayStatus := None;
      if !dispatchOk {
        current := Some(current.value.(state := "dispatch_error"));
      }
    }

    method ConfirmPendingTask(dispatchOk: bool) returns (ok: bool)
      modifies this
      ensures ok == (old(pending).Some? && dispatchOk)
      ensures View() == if old(pending).None? then old(View())
                        else DispatchedTask(Taken(old(View())), old(pending).value.trace, dispatchOk)
    {
      if pending.None? { return false; }
      var taken := pending.value;
      pending := None;
      notification := None;
      Dispatch(taken.trace, dispatchOk);
      ok := dispatchOk;
    }

    /** `cancel_pending_task` and `dismiss_pending_task`. */
    method CancelPendingTask(ghost how: Outcome)
      modifies this
      ensures View() == CancelledPending(old(View()), how)
    {
      var task := pending;
      pending := None;
      notification := None;
      if task.Some? {
        outcomes := WithOutcome(View(), task.value.trace, how).outcomes;
      }
    }

    method ConfirmPendingTaskByToken(x: Trace, token: Token, now: int, dispatchOk: bool) returns (ok: bool)
      modifies this
      ensures View() == ConfirmedByToken(old(View()), x, token, now, dispatchOk)
      ensures ok ==> View().current == Some(Task(x, "dispatching")) && old(pending).Some? && old(pending).value.trace == x
    {
      var consumedOk := ConsumePendingNotification(x, token, now);
      if !consumedOk || pending.None? { return false; }
      if pending.value.trace != x { return false; }
      pending := None;
      Dispatch(x, dispatchOk);
      ok := dispatchOk;
    }

    method CancelPendingTaskByToken(x: Trace, token: Token, now: int) returns (ok: bool)
      modifies this
      ensures View() == CancelledByToken(old(View()), x, token, now)
    {
      var consumedOk := ConsumePendingNotification(x, token, now);
      if !consumedOk { return false; }
      var task := pending;
      pending := None;
      if task.Some? {
        if task.value.trace != x {
          outcomes := WithOutcome(View(), task.value.trace, Dropped).outcomes;
          return false;
        }
        outcomes := WithOutcome(View(), task.value.trace, Cancelled).outcomes;
      }
      ok := true;
    }

    method ExpireIfStale(now: int) returns (expired: bool)
      modifies this
      ensures expired == IsStale(old(View()), now)
      ensures View() == ExpiredPending(old(View()), now)
    {
      if pending.None? || now - pending.value.createdAt <= STALE_AFTER_SECS { return false; }
      outcomes := WithOutcome(View(), pending.value.trace, Expired).outcomes;
      pending := None;
      current := None;
      relayStatus := None;
      expired := true;
    }

    method CreateConfirmation(x: Trace, token: Token, shownAt: int, shown: bool, now: int)
      modifies this
      ensures View() == Created(old(View()), x, token, shownAt, shown, now)
    {
      if shown { notification := Some(Notification(x, token, shownAt)); }
      current := None;
      relayStatus := None;
      pending := Some(Pending(x, now));
    }
  }
}
