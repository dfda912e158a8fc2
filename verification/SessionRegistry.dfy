/** The executor session registry of src-tauri/src/executor_session_registry.rs: one vector kept
    sorted by last activity, newest first. */
module SessionRegistry {
  import opened Options
  import opened Sorting
  import Text

  datatype Status = Dispatched | Running | Completed | Failed | Interrupted | Unknown

  datatype Summary = Summary(
    traceId: string, relaySessionId: string, executorTarget: string, dispatchedAt: int, lastActivityAt: int,
    taskBrief: string, status: Status, resultSummary: Option<string>)

  predicate RecentFirst(a: Summary, b: Summary) { a.lastActivityAt >= b.lastActivityAt }

  /** `retain`: every entry of another session. */
  function Others(sessions: seq<Summary>, id: string): seq<Summary> {
    if sessions == [] then []
    else
      Others(sessions[..|sessions| - 1], id)
      + if sessions[|sessions| - 1].relaySessionId == id then [] else [sessions[|sessions| - 1]]
  }

  function Recorded(sessions: seq<Summary>, summary: Summary): seq<Summary> {
    Sort(Others(sessions, summary.relaySessionId) + [summary], RecentFirst)
  }

  /** The first entry of the session, or the length. */
  function Find(sessions: seq<Summary>, id: string): (i: nat)
    ensures i <= |sessions|
    ensures i < |sessions| ==> sessions[i].relaySessionId == id
    ensures forall k :: 0 <= k < i ==> sessions[k].relaySessionId != id
  {
    if sessions == [] || sessions[0].relaySessionId == id then 0 else 1 + Find(sessions[1..], id)
  }

  function Changed(s: Summary, status: Status, result: Option<string>, now: int): Summary {
    var t := s.(status := status, lastActivityAt := now);
    if result.Some? && !Text.IsBlank(result.value) then t.(resultSummary := result) else t
  }

  function Updated(sessions: seq<Summary>, id: string, status: Status, result: Option<string>, now: int): seq<Summary> {
    var i := Find(sessions, id);
    if i == |sessions| then sessions
    else Sort(sessions[i := Changed(sessions[i], status, result, now)], RecentFirst)
  }

  // ------------------------------------------------------------------ what every call keeps

  predicate DistinctIds(sessions: seq<Summary>) {
    forall i, j :: 0 <= i < j < |sessions| ==> sessions[i].relaySessionId != sessions[j].relaySessionId
  }

  predicate NoneBlank(sessions: seq<Summary>) {
    forall i :: 0 <= i < |sessions| ==> !Text.IsBlank(sessions[i].relaySessionId)
  }

  predicate Valid(sessions: seq<Summary>) {
    Sorted(sessions, RecentFirst) && DistinctIds(sessions) && NoneBlank(sessions)
  }

  lemma {:induction false} OthersAre(sessions: seq<Summary>, id: string)
    ensures forall s :: s in Others(sessions, id) <==> s in sessions && s.relaySessionId != id
    ensures DistinctIds(sessions) ==> DistinctIds(Others(sessions, id))
  {
    if sessions != [] {
      var front, last := sessions[..|sessions| - 1], sessions[|sessions| - 1];
      assert sessions == front + [last];
      OthersAre(front, id);
      if DistinctIds(sessions) {
        assert DistinctIds(front);
        assert forall s :: s in front ==> s.relaySessionId != last.relaySessionId;
      }
    }
  }

  /** Sorting keeps ids distinct. */
  lemma {:induction false} InsertDistinct(x: Summary, s: seq<Summary>)
    requires DistinctIds(s) && forall y :: y in s ==> y.relaySessionId != x.relaySessionId
    ensures DistinctIds(Insert(x, s, RecentFirst))
  {
    if s != [] && !RecentFirst(x, s[0]) {
      InsertDistinct(x, s[1..]);
      InsertMultiset(x, s[1..], RecentFirst);
      forall y | y in Insert(x, s[1..], RecentFirst) ensures y.relaySessionId != s[0].relaySessionId {
        assert y in multiset(Insert(x, s[1..], RecentFirst));
        assert y == x || y in s[1..];
      }
    }
  }

  lemma {:induction false} SortDistinct(s: seq<Summary>)
    requires DistinctIds(s)
    ensures DistinctIds(Sort(s, RecentFirst))
  {
    if s != [] {
      SortDistinct(s[1..]);
      forall y | y in Sort(s[1..], RecentFirst) ensures y.relaySessionId != s[0].relaySessionId {
        SortMembers(s[1..], RecentFirst, y);
      }
      InsertDistinct(s[0], Sort(s[1..], RecentFirst));
    }
  }

  lemma RecentOrdering()
    ensures Ordering(RecentFirst)
  {
  }

  lemma SortValid(s: seq<Summary>)
    requires DistinctIds(s) && NoneBlank(s)
    ensures Valid(Sort(s, RecentFirst))
    ensures forall x :: x in Sort(s, RecentFirst) <==> x in s
  {
    RecentOrdering();
    SortSorted(s, RecentFirst);
    SortDistinct(s);
    forall x ensures x in Sort(s, RecentFirst) <==> x in s { SortMembers(s, RecentFirst, x); }
    forall i | 0 <= i < |Sort(s, RecentFirst)| ensures !Text.IsBlank(Sort(s, RecentFirst)[i].relaySessionId) {
      assert Sort(s, RecentFirst)[i] in Sort(s, RecentFirst);
    }
  }

  /** Recording keeps the registry sorted with one entry per session, replaces that session's entry
      and leaves every other one as it was. */
  lemma RecordKeeps(sessions: seq<Summary>, summary: Summary)
    requires Valid(sessions) && !Text.IsBlank(summary.relaySessionId)
    ensures Valid(Recorded(sessions, summary))
    ensures forall s :: s in Recorded(sessions, summary) <==>
                          s == summary || (s in sessions && s.relaySessionId != summary.relaySessionId)
  {
    var kept := Others(sessions, summary.relaySessionId);
    OthersAre(sessions, summary.relaySessionId);
    assert forall i :: 0 <= i < |kept| ==> kept[i] in kept;
    SortValid(kept + [summary]);
  }

  lemma ReplacedInPlace(sessions: seq<Summary>, i: nat, changed: Summary)
    requires DistinctIds(sessions) && NoneBlank(sessions) && i < |sessions|
    requires changed.relaySessionId == sessions[i].relaySessionId
    ensures DistinctIds(sessions[i := changed]) && NoneBlank(sessions[i := changed])
    ensures changed in sessions[i := changed]
    ensures forall s: Summary :: s.relaySessionId != changed.relaySessionId ==> (s in sessions[i := changed] <==> s in sessions)
  {
    var t := sessions[i := changed];
    assert t[i] == changed;
    forall s: Summary | s.relaySessionId != changed.relaySessionId && s in sessions ensures s in t {
      var k :| 0 <= k < |sessions| && sessions[k] == s;
      assert t[k] == s;
    }
  }

  lemma OnlyOne(sessions: seq<Summary>, i: nat, s: Summary)
    requires DistinctIds(sessions) && i < |sessions| && s in sessions && s.relaySessionId == sessions[i].relaySessionId
    ensures s == sessions[i]
  {
  }

  /** Updating changes exactly the named session's entry; the others stay, and so does the order. */
  lemma UpdateKeeps(sessions: seq<Summary>, id: string, status: Status, result: Option<string>, now: int)
    requires Valid(sessions)
    ensures Valid(Updated(sessions, id, status, result, now))
    ensures forall s: Summary :: s.relaySessionId != id ==> (s in Updated(sessions, id, status, result, now) <==> s in sessions)
    ensures forall s :: s in sessions && s.relaySessionId == id ==>
                          var given := result.Some? && !Text.IsBlank(result.value);
                          Summary(s.traceId, id, s.executorTarget, s.dispatchedAt, now, s.taskBrief, status,
                                  if given then result else s.resultSummary) in Updated(sessions, id, status, result, now)
  {
    var i := Find(sessions, id);
    if i < |sessions| {
      var changed := Changed(sessions[i], status, result, now);
      ReplacedInPlace(sessions, i, changed);
      SortValid(sessions[i := changed]);
      forall s | s in sessions && s.relaySessionId == id ensures s == sessions[i] { OnlyOne(sessions, i, s); }
    }
  }

  // ------------------------------------------------------------------ the registry

  class Registry {
    var sessions: seq<Summary>

    /** What the source keeps between calls: newest first, one entry a session. */
    predicate InOrder()
      reads this
    {
      Valid(sessions)
    }

    constructor ()
      ensures sessions == [] && InOrder()
    {
      sessions := [];
    }

    method Record(summary: Summary) returns (ok: bool)
      requires InOrder()
      modifies this
      ensures InOrder()
      ensures ok == !Text.IsBlank(summary.relaySessionId)
      ensures sessions == if ok then Recorded(old(sessions), summary) else old(sessions)
    {
      if Text.IsBlank(summary.relaySessionId) { return false; }
      RecordKeeps(sessions, summary);
      var kept: seq<Summary> := [];
      for i := 0 to |sessions|
        invariant kept == Others(sessions[..i], summary.relaySessionId)
        invariant sessions == old(sessions)
      {
        assert sessions[..i + 1][..i] == sessions[..i];
        if sessions[i].relaySessionId != summary.relaySessionId { kept := kept + [sessions[i]]; }
      }
      assert sessions[..|sessions|] == sessions;
      sessions := Sort(kept + [summary], RecentFirst);
      ok := true;
    }

    method UpdateStatus(id: string, status: Status, result: Option<string>, now: int) returns (found: bool)
      requires InOrder()
      modifies this
      ensures InOrder()
      ensures found == exists s :: s in old(sessions) && s.relaySessionId == id
      ensures sessions == Updated(old(sessions), id, status, result, now)
    {
      UpdateKeeps(sessions, id, status, result, now);
      var i := Find(sessions, id);
      if i == |sessions| { return false; }
      assert sessions[i] in sessions;
      var session := sessions[i].(status := status, lastActivityAt := now);
      if result.Some? && !Text.IsBlank(result.value) {
        session := session.(resultSummary := result);
      }
      sessions := Sort(sessions[i := session], RecentFirst);
      found := true;
    }

    /** The most recently active sessions, newest first, each once: nothing left out is newer. */
    method List(limit: nat) returns (r: seq<Summary>)
      requires InOrder()
      ensures |r| == if |sessions| <= limit then |sessions| else limit
      ensures forall s :: s in r ==> s in sessions
      ensures forall s, t :: s in r && t in sessions && t !in r ==> s.lastActivityAt >= t.lastActivityAt
      ensures Sorted(r, RecentFirst) && DistinctIds(r)
    {
      r := sessions;
      if |r| > limit {
        r := r[..limit];
        forall i | 0 <= i < limit ensures sessions[i] in r { assert r[i] == sessions[i]; }
        forall s, t | s in r && t in sessions && t !in r ensures s.lastActivityAt >= t.lastActivityAt {
          var i :| 0 <= i < limit && sessions[i] == s;
          var j :| 0 <= j < |sessions| && sessions[j] == t;
          assert RecentFirst(sessions[i], sessions[j]);
        }
      }
    }
  }

  // ------------------------------------------------------------------ whole runs

  datatype Call = RecordCall(summary: Summary) | UpdateCall(id: string, status: Status, result: Option<string>, now: int)

  function After(calls: seq<Call>): seq<Summary> {
    if calls == [] then []
    else
      var sessions := After(calls[..|calls| - 1]);
      match calls[|calls| - 1]
      case RecordCall(summary) => if Text.IsBlank(summary.relaySessionId) then sessions else Recorded(sessions, summary)
      case UpdateCall(id, status, result, now) => Updated(sessions, id, status, result, now)
  }

  lemma {:induction false} AfterValid(calls: seq<Call>)
    ensures Valid(After(calls))
  {
    if calls != [] {
      AfterValid(calls[..|calls| - 1]);
      var sessions := After(calls[..|calls| - 1]);
      match calls[|calls| - 1]
      case RecordCall(summary) => if !Text.IsBlank(summary.relaySessionId) { RecordKeeps(sessions, summary); }
      case UpdateCall(id, status, result, now) => UpdateKeeps(sessions, id, status, result, now);
    }
  }

  /** After any run, a listing holds the most recently active sessions: nothing left out is newer
      than anything listed. */
  lemma ListIsMostRecent(calls: seq<Call>, limit: nat, i: nat, j: nat)
    requires i < limit <= j < |After(calls)|
    ensures After(calls)[..limit][i].lastActivityAt >= After(calls)[j].lastActivityAt
    ensures After(calls)[i].relaySessionId != After(calls)[j].relaySessionId
  {
    AfterValid(calls);
    assert RecentFirst(After(calls)[i], After(calls)[j]);
  }

  // ------------------------------------------------------------------ what becomes of a session

  /** The entry of a session, told from the calls that name it: what was last recorded, with the status,
      the time and any result that was not blank of the updates since. */
  function EntryOf(calls: seq<Call>, id: string): Option<Summary> {
    if calls == [] then None
    else
      var before := EntryOf(calls[..|calls| - 1], id);
      match calls[|calls| - 1]
      case RecordCall(summary) => if summary.relaySessionId == id && !Text.IsBlank(id) then Some(summary) else before
      case UpdateCall(x, status, result, now) =>
        if x != id || before.None? then before
        else
          var s := before.value;
          var given := result.Some? && !Text.IsBlank(result.value);
          Some(Summary(s.traceId, id, s.executorTarget, s.dispatchedAt, now, s.taskBrief, status,
                       if given then result else s.resultSummary))
  }

  predicate HasEntry(sessions: seq<Summary>, id: string, entry: Option<Summary>) {
    && (entry.Some? ==> entry.value in sessions && entry.value.relaySessionId == id)
    && (forall s :: s in sessions && s.relaySessionId == id ==> entry == Some(s))
  }

  lemma OneEntry(sessions: seq<Summary>, id: string, s: Summary)
    requires DistinctIds(sessions) && s in sessions && s.relaySessionId == id
    ensures HasEntry(sessions, id, Some(s))
  {
    forall t | t in sessions && t.relaySessionId == id ensures t == s {
      var i :| 0 <= i < |sessions| && sessions[i] == t;
      OnlyOne(sessions, i, s);
    }
  }

  lemma UnknownUpdate(sessions: seq<Summary>, id: string, status: Status, result: Option<string>, now: int)
    requires forall i :: 0 <= i < |sessions| ==> sessions[i].relaySessionId != id
    ensures Updated(sessions, id, status, result, now) == sessions
  {
  }

  /** After any run each session has the one entry that its calls made, and no other session has any. */
  lemma {:induction false} EntriesAreTheirHistory(calls: seq<Call>, id: string)
    ensures HasEntry(After(calls), id, EntryOf(calls, id))
  {
    if calls != [] {
      var front := calls[..|calls| - 1];
      var sessions := After(front);
      EntriesAreTheirHistory(front, id);
      AfterValid(front);
      AfterValid(calls);
      match calls[|calls| - 1]
      case RecordCall(summary) =>
        if !Text.IsBlank(summary.relaySessionId) { RecordKeeps(sessions, summary); }
      case UpdateCall(x, status, result, now) =>
        UpdateKeeps(sessions, x, status, result, now);
        if x == id {
          if EntryOf(front, id).None? {
            forall i | 0 <= i < |sessions| ensures sessions[i].relaySessionId != id { assert sessions[i] in sessions; }
            UnknownUpdate(sessions, x, status, result, now);
          } else {
            OneEntry(After(calls), id, EntryOf(calls, id).value);
          }
        }
    }
  }

  lemma {:induction false} FilterAppend(a: seq<Summary>, s: Summary, p: Summary -> bool)
    ensures Filter(a + [s], p) == Filter(a, p) + if p(s) then [s] else []
  {
    if a == [] {
      assert a + [s] == [s];
      assert [s][1..] == [];
    } else {
      assert (a + [s])[1..] == a[1..] + [s];
      FilterAppend(a[1..], s, p);
      if !p(s) { assert Filter(a[1..], p) + [] == Filter(a[1..], p) && Filter(a, p) + [] == Filter(a, p); }
    }
  }

  /** Of sessions with one time of activity, the one just recorded comes last and the others stay as
      they were. */
  lemma RecordedComesLast(sessions: seq<Summary>, summary: Summary)
    ensures var at := (s: Summary) => s.lastActivityAt == summary.lastActivityAt;
            Filter(Recorded(sessions, summary), at) == Filter(Others(sessions, summary.relaySessionId), at) + [summary]
  {
    var at := (s: Summary) => s.lastActivityAt == summary.lastActivityAt;
    var others := Others(sessions, summary.relaySessionId);
    SortStable(others + [summary], RecentFirst, at);
    FilterAppend(others, summary, at);
  }
}
