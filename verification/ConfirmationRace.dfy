/** The confirmation commands with their accesses to the pending slot pulled apart: each command
    first copies the slot, later empties it, and later still ends the trace it copied.  The
    window's commands run one after the other on the main thread; expiry and new suggestions take
    turns on the main loop's thread; each command of a toast has a task of its own.  So the steps
    of two commands interleave unless both come from the window or both are expiries. */
module ConfirmationRace {
  import opened Options
  import opened Confirmation

  type CommandId = nat

  datatype Kind =
    | Direct(how: Outcome)                             // confirm, cancel or dismiss in the window
    | ByToken(x: Trace, token: Token, confirms: bool)  // confirm or cancel on the toast
    | Expiry                                           // the main loop's sixty seconds

  /** `found` is the trace the command copied. */
  datatype Stage = Started | Copied | Cleared | Ended

  datatype Command = Command(kind: Kind, stage: Stage, found: Option<Trace>)

  datatype Ending = Ending(command: CommandId, how: Outcome)

  datatype State = State(
    pending: Option<Pending>,
    notification: Option<Notification>,
    commands: map<CommandId, Command>,
    endings: map<Trace, seq<Ending>>,
    traces: set<Trace>)

  const INIT := State(None, None, map[], map[], {})

  function EndingsOf(s: State, x: Trace): seq<Ending> {
    if x in s.endings then s.endings[x] else []
  }

  datatype Move =
    | Suggest(x: Trace, token: Token, now: int, shown: bool)
    | Start(c: CommandId, kind: Kind, now: int)
    | Copy(c: CommandId, now: int)
    | Clear(c: CommandId)
    | Finish(c: CommandId)

  predicate InStage(s: State, c: CommandId, stage: Stage) { c in s.commands && s.commands[c].stage == stage }

  predicate OneThread(a: Kind, b: Kind) { (a.Direct? && b.Direct?) || (a.Expiry? && b.Expiry?) }

  /** No command that is under way occupies the thread that this kind runs on. */
  predicate ThreadFree(s: State, kind: Kind) {
    forall c :: c in s.commands && OneThread(s.commands[c].kind, kind) ==> s.commands[c].stage.Ended?
  }

  predicate CanMove(s: State, m: Move) {
    match m
    case Suggest(x, _, _, _) => s.pending.None? && x !in s.traces && ThreadFree(s, Expiry)
    case Start(c, kind, _) => c !in s.commands && ThreadFree(s, kind)
    case Copy(c, _) => InStage(s, c, Started)
    case Clear(c) => InStage(s, c, Copied)
    case Finish(c) => InStage(s, c, Cleared)
  }

  /** The token is good and is used up; this much is one locked access. */
  predicate TokenFits(n: Option<Notification>, kind: Kind, now: int) {
    kind.ByToken? ==>
      n.Some? && n.value.trace == kind.x && n.value.token == kind.token && now <= n.value.createdAt + CONFIRM_TOKEN_TTL_SECS
  }

  predicate TokenExpired(n: Option<Notification>, now: int) {
    n.Some? && n.value.createdAt + CONFIRM_TOKEN_TTL_SECS < now
  }

  /** What a command does with the copy: it returns early, or goes on with the trace it found. */
  function AfterCopy(k: Kind, pending: Option<Pending>, now: int): Command {
    match k
    case Direct(how) =>
      if pending.Some? then Command(k, Copied, Some(pending.value.trace))
      else Command(k, if how.Dispatched? then Ended else Copied, None)
    case ByToken(x, _, confirms) =>
      if pending.Some? && (pending.value.trace == x || !confirms) then Command(k, Copied, Some(pending.value.trace))
      else Command(k, if confirms then Ended else Copied, None)
    case Expiry =>
      if pending.Some? && now - pending.value.createdAt > STALE_AFTER_SECS then Command(k, Copied, Some(pending.value.trace))
      else Command(k, Ended, None)
  }

  function How(k: Kind, x: Trace): Outcome {
    match k
    case Direct(how) => how
    case ByToken(y, _, confirms) => if confirms then Dispatched else if x == y then Cancelled else Dropped
    case Expiry => Expired
  }

  function Step(s: State, m: Move): State
    requires CanMove(s, m)
  {
    match m
    case Suggest(x, token, now, shown) =>
      s.(pending := Some(Pending(x, now)), traces := s.traces + {x},
         notification := if shown then Some(Notification(x, token, now)) else s.notification)
    case Start(c, kind, now) =>
      var fits := TokenFits(s.notification, kind, now);
      s.(commands := s.commands[c := Command(kind, if fits then Started else Ended, None)],
         notification := if kind.ByToken? && (fits || TokenExpired(s.notification, now)) then None else s.notification)
    case Copy(c, now) => s.(commands := s.commands[c := AfterCopy(s.commands[c].kind, s.pending, now)])
    case Clear(c) =>
      s.(pending := None, commands := s.commands[c := s.commands[c].(stage := Cleared)],
         notification := if s.commands[c].kind.Direct? then None else s.notification)
    case Finish(c) =>
      var t := s.(commands := s.commands[c := s.commands[c].(stage := Ended)]);
      if s.commands[c].found.None? then t
      else
        var x := s.commands[c].found.value;
        t.(endings := s.endings[x := EndingsOf(s, x) + [Ending(c, How(s.commands[c].kind, x))]])
  }

  /** Moves that are not possible are skipped. */
  function Exec(ms: seq<Move>): State {
    if ms == [] then INIT
    else
      var s := Exec(ms[..|ms| - 1]);
      if CanMove(s, ms[|ms| - 1]) then Step(s, ms[|ms| - 1]) else s
  }

  // ------------------------------------------------------------------ what every step keeps

  predicate IsPending(s: State, x: Trace) { s.pending.Some? && s.pending.value.trace == x }

  /** Command `c` has copied trace `x`. */
  predicate Found(s: State, c: CommandId, x: Trace) { c in s.commands && s.commands[c].found == Some(x) }

  /** A command that has not looked yet holds no copy. */
  predicate StartedEmpty(s: State) {
    forall c :: c in s.commands && s.commands[c].stage.Started? ==> s.commands[c].found.None?
  }

  /** While a trace is pending nobody who copied it has emptied the slot. */
  ghost predicate PendingInv(s: State) {
    && (s.pending.Some? ==> s.pending.value.trace in s.traces)
    && StartedEmpty(s)
    && (forall c, x :: CopierFits(s, c, x))
  }

  /** A trace is ended once by each command that copied it and has ended, and by nobody else. */
  ghost predicate EndingsInv(s: State, x: Trace) {
    var es := EndingsOf(s, x);
    && (forall i, j :: 0 <= i < j < |es| ==> es[i].command != es[j].command)
    && (forall i :: 0 <= i < |es| ==> Found(s, es[i].command, x) && s.commands[es[i].command].stage.Ended?)
    && (forall c :: Found(s, c, x) && s.commands[c].stage.Ended? ==> exists i :: 0 <= i < |es| && es[i].command == c)
  }

  ghost predicate Inv(s: State) { PendingInv(s) && forall x :: EndingsInv(s, x) }

  /** This move copies trace `x`. */
  predicate CopiesTrace(s: State, m: Move, x: Trace) {
    CanMove(s, m) && m.Copy? && AfterCopy(s.commands[m.c].kind, s.pending, m.now).found == Some(x)
  }

  lemma FoundStep(s: State, m: Move, c: CommandId, x: Trace)
    requires CanMove(s, m) && StartedEmpty(s)
    ensures Found(Step(s, m), c, x) <==> Found(s, c, x) || (m.Copy? && m.c == c && CopiesTrace(s, m, x))
  {
  }

  lemma StartedKept(s: State, m: Move)
    requires CanMove(s, m) && StartedEmpty(s)
    ensures StartedEmpty(Step(s, m))
  {
  }

  /** Where a copier stands, in its stage and towards the pending slot. */
  predicate CopierFits(s: State, c: CommandId, x: Trace) {
    Found(s, c, x) ==> x in s.traces && (IsPending(s, x) ==> s.commands[c].stage.Copied?)
  }

  lemma CopierKept(s: State, m: Move, c: CommandId, x: Trace)
    requires CanMove(s, m) && StartedEmpty(s) && CopierFits(s, c, x)
    requires s.pending.Some? ==> s.pending.value.trace in s.traces
    ensures CopierFits(Step(s, m), c, x)
  {
    FoundStep(s, m, c, x);
  }

  lemma PendingKept(s: State, m: Move)
    requires CanMove(s, m) && PendingInv(s)
    ensures PendingInv(Step(s, m))
  {
    StartedKept(s, m);
    forall c, x ensures CopierFits(Step(s, m), c, x) {
      assert CopierFits(s, c, x);
      CopierKept(s, m, c, x);
    }
  }

  /** Moves other than an ending touch neither who copied what nor who has ended it. */
  lemma OtherEndingsKept(s: State, m: Move, x: Trace)
    requires CanMove(s, m) && PendingInv(s) && EndingsInv(s, x) && !(m.Finish? && Found(s, m.c, x))
    ensures EndingsInv(Step(s, m), x)
  {
    var t := Step(s, m);
    assert EndingsOf(t, x) == EndingsOf(s, x);
    forall c | Found(t, c, x) && t.commands[c].stage.Ended?
      ensures exists i :: 0 <= i < |EndingsOf(s, x)| && EndingsOf(s, x)[i].command == c
    {
      assert Found(s, c, x) && s.commands[c].stage.Ended?;
    }
  }

  lemma FinishKept(s: State, c: CommandId, x: Trace)
    requires CanMove(s, Finish(c)) && EndingsInv(s, x) && Found(s, c, x)
    ensures EndingsInv(Step(s, Finish(c)), x)
  {
    var t := Step(s, Finish(c));
    var es := EndingsOf(s, x);
    assert EndingsOf(t, x) == es + [Ending(c, How(s.commands[c].kind, x))];
    forall d | Found(t, d, x) && t.commands[d].stage.Ended?
      ensures exists i :: 0 <= i < |es| + 1 && EndingsOf(t, x)[i].command == d
    {
      if d == c {
        assert EndingsOf(t, x)[|es|].command == d;
      } else {
        assert Found(s, d, x);
        var i :| 0 <= i < |es| && es[i].command == d;
        assert EndingsOf(t, x)[i].command == d;
      }
    }
  }

  lemma {:induction false} ExecInv(ms: seq<Move>)
    ensures Inv(Exec(ms))
  {
    if ms != [] {
      var s, m := Exec(ms[..|ms| - 1]), ms[|ms| - 1];
      ExecInv(ms[..|ms| - 1]);
      if CanMove(s, m) {
        PendingKept(s, m);
        forall x ensures EndingsInv(Step(s, m), x) {
          if m.Finish? && Found(s, m.c, x) { FinishKept(s, m.c, x); } else { OtherEndingsKept(s, m, x); }
        }
      }
    }
  }

  // ------------------------------------------------------------------ one command by itself

  /** A command run from its start to its return with nothing in between. */
  function Alone(s: State, c: CommandId, kind: Kind, now: int): State
    requires c !in s.commands && ThreadFree(s, kind)
  {
    var t := Step(s, Start(c, kind, now));
    if t.commands[c].stage.Ended? then t
    else
      var u := Step(t, Copy(c, now));
      if u.commands[c].stage.Ended? then u else Step(Step(u, Clear(c)), Finish(c))
  }

  /** The same command as one call. */
  function Whole(s: Slots, kind: Kind, now: int): Slots {
    match kind
    case Direct(how) =>
      if !how.Dispatched? then CancelledPending(s, how)
      else if s.pending.Some? then DispatchedTask(Taken(s), s.pending.value.trace, true) else s
    case ByToken(x, token, confirms) =>
      if confirms then ConfirmedByToken(s, x, token, now, true) else CancelledByToken(s, x, token, now)
    case Expiry => ExpiredPending(s, now)
  }

  /** What the two views of one command have to agree on: both slots, and the trace's endings. */
  predicate SameEffect(s: State, t: State, slots: Slots, whole: Slots, c: CommandId, x: Trace) {
    && t.pending == whole.pending && t.notification == whole.notification && t.traces == s.traces
    && |OutcomesOf(slots, x)| <= |OutcomesOf(whole, x)| <= |OutcomesOf(slots, x)| + 1
    && EndingsOf(t, x) == EndingsOf(s, x) +
         if |OutcomesOf(whole, x)| == |OutcomesOf(slots, x)| then []
         else [Ending(c, OutcomesOf(whole, x)[|OutcomesOf(slots, x)|])]
  }

  /** With nothing in between, a command's steps do what the whole call does. */
  lemma AloneIsWhole(s: State, slots: Slots, c: CommandId, kind: Kind, now: int, x: Trace)
    requires c !in s.commands && ThreadFree(s, kind) && s.pending == slots.pending && s.notification == slots.notification
    ensures SameEffect(s, Alone(s, c, kind, now), slots, Whole(slots, kind, now), c, x)
  {
    match kind
    case Direct(_) => DirectAlone(s, slots, c, kind, now, x);
    case ByToken(_, _, confirms) =>
      if confirms { ConfirmingAlone(s, slots, c, kind, now, x); } else { CancellingAlone(s, slots, c, kind, now, x); }
    case Expiry => ExpiryAlone(s, slots, c, now, x);
  }

  lemma DirectAlone(s: State, slots: Slots, c: CommandId, kind: Kind, now: int, x: Trace)
    requires c !in s.commands && ThreadFree(s, kind) && s.pending == slots.pending && s.notification == slots.notification
    requires kind.Direct?
    ensures SameEffect(s, Alone(s, c, kind, now), slots, Whole(slots, kind, now), c, x)
  {
  }

  lemma ConfirmingAlone(s: State, slots: Slots, c: CommandId, kind: Kind, now: int, x: Trace)
    requires c !in s.commands && ThreadFree(s, kind) && s.pending == slots.pending && s.notification == slots.notification
    requires kind.ByToken? && kind.confirms
    ensures SameEffect(s, Alone(s, c, kind, now), slots, Whole(slots, kind, now), c, x)
  {
  }

  lemma CancellingAlone(s: State, slots: Slots, c: CommandId, kind: Kind, now: int, x: Trace)
    requires c !in s.commands && ThreadFree(s, kind) && s.pending == slots.pending && s.notification == slots.notification
    requires kind.ByToken? && !kind.confirms
    ensures SameEffect(s, Alone(s, c, kind, now), slots, Whole(slots, kind, now), c, x)
  {
  }

  lemma ExpiryAlone(s: State, slots: Slots, c: CommandId, now: int, x: Trace)
    requires c !in s.commands && ThreadFree(s, Expiry) && s.pending == slots.pending && s.notification == slots.notification
    ensures SameEffect(s, Alone(s, c, Expiry, now), slots, Whole(slots, Expiry, now), c, x)
  {
  }

  // ------------------------------------------------------------------ which commands overlap

  predicate UnderWay(s: State, c: CommandId) { c in s.commands && !s.commands[c].stage.Ended? }

  /** Two window commands, or two expiries, are not under way together. */
  predicate Apart(s: State, c: CommandId, d: CommandId) {
    UnderWay(s, c) && UnderWay(s, d) && c != d ==>
      && !(s.commands[c].kind.Direct? && s.commands[d].kind.Direct?)
      && !(s.commands[c].kind.Expiry? && s.commands[d].kind.Expiry?)
  }

  lemma ApartKept(s: State, m: Move, c: CommandId, d: CommandId)
    requires CanMove(s, m) && Apart(s, c, d)
    ensures Apart(Step(s, m), c, d)
  {
  }

  /** In no run do two window commands overlap, nor two expiries; and a new suggestion is stored only
      while no expiry is under way. */
  lemma {:induction false} ThreadsExclude(ms: seq<Move>, c: CommandId, d: CommandId)
    ensures Apart(Exec(ms), c, d)
    ensures forall x, token, now, shown :: CanMove(Exec(ms), Suggest(x, token, now, shown)) && UnderWay(Exec(ms), c) ==>
              !Exec(ms).commands[c].kind.Expiry?
  {
    if ms != [] {
      ThreadsExclude(ms[..|ms| - 1], c, d);
      if CanMove(Exec(ms[..|ms| - 1]), ms[|ms| - 1]) { ApartKept(Exec(ms[..|ms| - 1]), ms[|ms| - 1], c, d); }
    }
  }

  // ------------------------------------------------------------------ when a trace ends twice

  /** The move copies the trace although another command has copied it and not yet emptied the slot. */
  ghost predicate RacingCopy(s: State, m: Move, x: Trace) {
    CopiesTrace(s, m, x) && exists c :: Found(s, c, x) && s.commands[c].stage.Copied?
  }

  ghost predicate Raced(ms: seq<Move>, x: Trace) {
    exists i :: 0 <= i < |ms| && RacingCopy(Exec(ms[..i]), ms[i], x)
  }

  ghost predicate TwoCopiers(s: State, x: Trace) {
    exists c, d :: c != d && Found(s, c, x) && Found(s, d, x)
  }

  /** A second command comes to hold a trace exactly by a racing copy. */
  lemma TwoCopiersStep(s: State, m: Move, x: Trace)
    requires CanMove(s, m) && PendingInv(s)
    ensures TwoCopiers(Step(s, m), x) <==> TwoCopiers(s, x) || RacingCopy(s, m, x)
  {
    forall c ensures Found(Step(s, m), c, x) <==> Found(s, c, x) || (m.Copy? && m.c == c && CopiesTrace(s, m, x)) {
      FoundStep(s, m, c, x);
    }
    if TwoCopiers(s, x) {
      var c, d :| c != d && Found(s, c, x) && Found(s, d, x);
      assert Found(Step(s, m), c, x) && Found(Step(s, m), d, x);
    }
    if RacingCopy(s, m, x) {
      var c :| Found(s, c, x) && s.commands[c].stage.Copied?;
      assert Found(Step(s, m), c, x) && Found(Step(s, m), m.c, x);
    }
    if TwoCopiers(Step(s, m), x) && !TwoCopiers(s, x) {
      var c, d :| c != d && Found(Step(s, m), c, x) && Found(Step(s, m), d, x);
      assert CopiesTrace(s, m, x);
      var e := if Found(s, c, x) then c else d;
      assert Found(s, e, x) && CopierFits(s, e, x);
    }
  }

  lemma RacedFront(ms: seq<Move>, x: Trace)
    requires ms != []
    ensures Raced(ms, x) <==> Raced(ms[..|ms| - 1], x) || RacingCopy(Exec(ms[..|ms| - 1]), ms[|ms| - 1], x)
  {
    var front := ms[..|ms| - 1];
    forall i | 0 <= i < |front| ensures front[..i] == ms[..i] {}
    if Raced(front, x) {
      var i :| 0 <= i < |front| && RacingCopy(Exec(front[..i]), front[i], x);
      assert RacingCopy(Exec(ms[..i]), ms[i], x);
    }
    if Raced(ms, x) {
      var i :| 0 <= i < |ms| && RacingCopy(Exec(ms[..i]), ms[i], x);
      assert i < |front| ==> RacingCopy(Exec(front[..i]), front[i], x);
    }
  }

  lemma {:induction false} TwoCopiersIffRaced(ms: seq<Move>, x: Trace)
    ensures TwoCopiers(Exec(ms), x) <==> Raced(ms, x)
  {
    if ms != [] {
      var front, m := ms[..|ms| - 1], ms[|ms| - 1];
      TwoCopiersIffRaced(front, x);
      RacedFront(ms, x);
      ExecInv(front);
      if CanMove(Exec(front), m) { TwoCopiersStep(Exec(front), m, x); }
    }
  }

  ghost predicate AllEnded(s: State) {
    forall c :: c in s.commands ==> s.commands[c].stage.Ended?
  }

  /** In every interleaving a trace ends twice only if some command copied the slot while another one
      held a copy and had not emptied it; once all commands have returned, exactly then. */
  lemma EndsTwiceIffRaced(ms: seq<Move>, x: Trace)
    ensures |EndingsOf(Exec(ms), x)| >= 2 ==> Raced(ms, x)
    ensures AllEnded(Exec(ms)) ==> (|EndingsOf(Exec(ms), x)| >= 2 <==> Raced(ms, x))
  {
    var s := Exec(ms);
    var es := EndingsOf(s, x);
    ExecInv(ms);
    assert EndingsInv(s, x);
    TwoCopiersIffRaced(ms, x);
    if |es| >= 2 {
      assert es[0].command != es[1].command && Found(s, es[0].command, x) && Found(s, es[1].command, x);
    }
    if AllEnded(s) && TwoCopiers(s, x) {
      var c, d :| c != d && Found(s, c, x) && Found(s, d, x);
      var i :| 0 <= i < |es| && es[i].command == c;
      var j :| 0 <= j < |es| && es[j].command == d;
      assert i != j;
    }
  }

  // ------------------------------------------------------------------ when a trace is lost

  /** Nobody will ever end this suggestion: it is gone and no command has copied it. */
  ghost predicate Lost(s: State, x: Trace) {
    x in s.traces && !IsPending(s, x) && forall c :: !Found(s, c, x)
  }

  /** A command that copied something else, or nothing, empties the slot of a trace nobody copied. */
  ghost predicate LosingClear(s: State, m: Move, x: Trace) {
    CanMove(s, m) && m.Clear? && IsPending(s, x) && forall c :: !Found(s, c, x)
  }

  lemma LostStep(s: State, m: Move, x: Trace)
    requires CanMove(s, m) && PendingInv(s)
    ensures Lost(Step(s, m), x) <==> Lost(s, x) || LosingClear(s, m, x)
  {
    forall c ensures Found(Step(s, m), c, x) <==> Found(s, c, x) || (m.Copy? && m.c == c && CopiesTrace(s, m, x)) {
      FoundStep(s, m, c, x);
    }
    if m.Copy? && CopiesTrace(s, m, x) { assert Found(Step(s, m), m.c, x); }
  }

  ghost predicate EverLosing(ms: seq<Move>, x: Trace) {
    exists i :: 0 <= i < |ms| && LosingClear(Exec(ms[..i]), ms[i], x)
  }

  lemma LosingFront(ms: seq<Move>, x: Trace)
    requires ms != []
    ensures EverLosing(ms, x) <==> EverLosing(ms[..|ms| - 1], x) || LosingClear(Exec(ms[..|ms| - 1]), ms[|ms| - 1], x)
  {
    var front := ms[..|ms| - 1];
    forall i | 0 <= i < |front| ensures front[..i] == ms[..i] {}
    if EverLosing(front, x) {
      var i :| 0 <= i < |front| && LosingClear(Exec(front[..i]), front[i], x);
      assert LosingClear(Exec(ms[..i]), ms[i], x);
    }
    if EverLosing(ms, x) {
      var i :| 0 <= i < |ms| && LosingClear(Exec(ms[..i]), ms[i], x);
      assert i < |front| ==> LosingClear(Exec(front[..i]), front[i], x);
    }
  }

  /** A suggestion is lost exactly when some command that never copied it emptied the slot under it. */
  lemma {:induction false} LostIff(ms: seq<Move>, x: Trace)
    ensures Lost(Exec(ms), x) <==> EverLosing(ms, x)
  {
    if ms != [] {
      var front, m := ms[..|ms| - 1], ms[|ms| - 1];
      LostIff(front, x);
      LosingFront(ms, x);
      ExecInv(front);
      if CanMove(Exec(front), m) { LostStep(Exec(front), m, x); }
    }
  }

  /** Once all commands have returned, every suggestion is still pending, or was lost that way, or has
      ended: once without a race, more often with one. */
  lemma WhatBecomesOfATrace(ms: seq<Move>, x: Trace)
    requires x in Exec(ms).traces && AllEnded(Exec(ms)) && !Lost(Exec(ms), x) && !IsPending(Exec(ms), x)
    ensures if Raced(ms, x) then |EndingsOf(Exec(ms), x)| >= 2 else |EndingsOf(Exec(ms), x)| == 1
  {
    EndsTwiceIffRaced(ms, x);
    ExecInv(ms);
    assert EndingsInv(Exec(ms), x);
    var c :| Found(Exec(ms), c, x);
  }

  // ------------------------------------------------------------------ such runs

  lemma Then(ms: seq<Move>, m: Move) returns (longer: seq<Move>)
    requires CanMove(Exec(ms), m)
    ensures longer == ms + [m] && Exec(longer) == Step(Exec(ms), m)
  {
    longer := ms + [m];
    assert longer[..|ms|] == ms;
  }

  /** Commands 0 and 1 hold copies of suggestion "a", which is still in its slot. */
  predicate BothHold(s: State, first: Kind, second: Kind) {
    && s.commands == map[0 := Command(first, Copied, Some("a")), 1 := Command(second, Copied, Some("a"))]
    && s.traces == {"a"} && s.endings == map[]
  }

  const BY_TOAST := ByToken("a", "s", true)

  /** A window command, or the expiry branch, and a confirmation by toast both copy the slot. */
  lemma BothCopy(first: Kind) returns (ms: seq<Move>)
    requires !first.ByToken?
    ensures BothHold(Exec(ms), first, BY_TOAST)
  {
    ms := Then([], Suggest("a", "s", 0, true));
    ms := Then(ms, Start(0, first, 61));
    ms := Then(ms, Copy(0, 61));
    ms := Then(ms, Start(1, BY_TOAST, 61));
    ms := Then(ms, Copy(1, 61));
  }

  lemma BothFinish(before: seq<Move>, first: Kind) returns (ms: seq<Move>)
    requires BothHold(Exec(before), first, BY_TOAST)
    ensures EndingsOf(Exec(ms), "a") == [Ending(1, Dispatched), Ending(0, How(first, "a"))]
  {
    ms := Then(before, Clear(1));
    ms := Then(ms, Finish(1));
    ms := Then(ms, Clear(0));
    ms := Then(ms, Finish(0));
  }

  /** A confirmation in the window and one on the toast that both copy the slot before either
      empties it dispatch twice. */
  lemma TwoConfirmations() returns (ms: seq<Move>)
    ensures EndingsOf(Exec(ms), "a") == [Ending(1, Dispatched), Ending(0, Dispatched)]
  {
    ms := BothCopy(Direct(Dispatched));
    ms := BothFinish(ms, Direct(Dispatched));
  }

  /** A cancellation in the window between a toast confirmation's read and its clearing write: the
      trace is both dispatched and cancelled. */
  lemma ConfirmedAndCancelled() returns (ms: seq<Move>)
    ensures EndingsOf(Exec(ms), "a") == [Ending(1, Dispatched), Ending(0, Cancelled)]
  {
    ms := BothCopy(Direct(Cancelled));
    ms := BothFinish(ms, Direct(Cancelled));
  }

  /** A confirmation by token between the expiry branch's read and its clearing writes: the trace is
      both dispatched and expired. */
  lemma ConfirmedAndExpired() returns (ms: seq<Move>)
    ensures EndingsOf(Exec(ms), "a") == [Ending(1, Dispatched), Ending(0, Expired)]
  {
    ms := BothCopy(Expiry);
    ms := BothFinish(ms, Expiry);
  }

  /** A window command and a toast confirmation copy one suggestion; the slower of them empties the
      slot under the next suggestion. */
  lemma SuggestionLost() returns (ms: seq<Move>)
    ensures Lost(Exec(ms), "b")
  {
    ms := BothCopy(Direct(Cancelled));
    ms := Then(ms, Clear(0));
    ms := Then(ms, Suggest("b", "t", 62, true));
    ms := Then(ms, Clear(1));
  }
}
