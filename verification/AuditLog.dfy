/** What any run of memory writes leaves behind: the audit table replays to the memory table, up to
    the audit rows whose insert failed. */
module AuditLog {
  import opened Options
  import opened AgentMemory
  import Text

  datatype Write =
    | InsertCall(memory: Memory)
    | RememberCall(write: MemoryWrite)
    | RejectCall(id: int, reason: Option<string>, producer: string)
    | SupersedeCall(oldId: int, write: MemoryWrite)
    | UseCall(id: int, now: int)

  datatype Call = Call(write: Write, fault: Fault)

  predicate Accepted(s: Store, c: Write) {
    match c
    case InsertCall(_) => true
    case RememberCall(w) => Validated(w).None?
    case RejectCall(id, _, producer) => !Text.IsBlank(producer) && Exists(s, id)
    case SupersedeCall(oldId, w) => Validated(w).None? && Exists(s, oldId)
    case UseCall(id, _) => Exists(s, id)
  }

  function Written(s: Store, c: Write): Store
    requires Accepted(s, c)
  {
    match c
    case InsertCall(m) => Inserted(s, m)
    case RememberCall(w) => Remembered(s, w)
    case RejectCall(id, reason, producer) => Rejected(s, id, reason, producer)
    case SupersedeCall(oldId, w) => Superseded(s, oldId, w)
    case UseCall(id, now) => Used(s, id, now)
  }

  /** One call; `supersede_memory` is a transaction, the others are two statements. */
  function Called(s: Store, c: Call): Store {
    if !Accepted(s, c.write) then s
    else if c.write.SupersedeCall? then (if c.fault.NoFault? then Written(s, c.write) else s)
    else Performed(s, Written(s, c.write), c.fault)
  }

  /** The tables after a run. */
  function After(calls: seq<Call>): Store {
    if calls == [] then Store([], []) else Called(After(calls[..|calls| - 1]), calls[|calls| - 1])
  }

  /** The same run with its past: `full` has the audit rows that were lost as well, and `lost` says
      which those are; `created` holds every memory as it was inserted, and `linked` the ids that
      `supersede_memory` inserted. */
  datatype Run = Run(full: Store, lost: seq<bool>, created: seq<Memory>, linked: set<int>)

  predicate Creates(c: Write) { c.InsertCall? || c.RememberCall? || c.SupersedeCall? }

  /** The memory a call inserts, as it is inserted. */
  function Creation(c: Write): (r: seq<Memory>)
    ensures |r| == if Creates(c) then 1 else 0
  {
    match c
    case InsertCall(m) => [m.(producer := if Text.IsBlank(m.producer) then "legacy" else m.producer)]
    case RememberCall(w) => [RowOf(w, w.supersedesId)]
    case SupersedeCall(oldId, w) => [RowOf(w, Some(oldId))]
    case _ => []
  }

  /** Whether the call writes the memory table at all. */
  predicate Effective(s: Store, c: Call) {
    Accepted(s, c.write) && !c.fault.WriteFails? && (c.write.SupersedeCall? ==> c.fault.NoFault?)
  }

  function Apply(r: Run, c: Call): Run
    requires Effective(r.full, c)
  {
    var t := Written(r.full, c.write);
    var n := if |t.operations| >= |r.full.operations| then |t.operations| - |r.full.operations| else 0;
    Run(t, r.lost + seq(n, _ => c.fault.AuditFails?),
        r.created + Creation(c.write),
        if c.write.SupersedeCall? then r.linked + {|t.memories|} else r.linked)
  }

  function History(calls: seq<Call>): Run {
    if calls == [] then Run(Store([], []), [], [], {})
    else
      var r := History(calls[..|calls| - 1]);
      if Effective(r.full, calls[|calls| - 1]) then Apply(r, calls[|calls| - 1]) else r
  }

  /** The rows that were not lost. */
  function KeptRows(rows: seq<OperationRow>, lost: seq<bool>): seq<OperationRow>
    requires |lost| == |rows|
  {
    if rows == [] then []
    else
      KeptRows(rows[..|rows| - 1], lost[..|rows| - 1]) + if lost[|rows| - 1] then [] else [rows[|rows| - 1]]
  }

  // ------------------------------------------------------------------ replaying the audit table

  function CountUsed(rows: seq<OperationRow>, id: int): nat {
    if rows == [] then 0
    else
      var row := rows[|rows| - 1];
      CountUsed(rows[..|rows| - 1], id) + if row.memoryId == id && row.operation == "used" then 1 else 0
  }

  predicate Retires(row: OperationRow, id: int) {
    row.memoryId == id && (row.operation == "rejected" || row.operation == "superseded")
  }

  /** The lifecycle the last `rejected` or `superseded` row gave the memory, else `initial`. */
  function ReplayLifecycle(rows: seq<OperationRow>, id: int, initial: string): string {
    if rows == [] then initial
    else if Retires(rows[|rows| - 1], id) then rows[|rows| - 1].operation
    else ReplayLifecycle(rows[..|rows| - 1], id, initial)
  }

  function LastRow(rows: seq<OperationRow>, id: int): Option<OperationRow> {
    if rows == [] then None
    else if rows[|rows| - 1].memoryId == id then Some(rows[|rows| - 1])
    else LastRow(rows[..|rows| - 1], id)
  }

  predicate IsCreation(row: OperationRow) {
    row.operation == "inserted" || row.operation == "remembered"
  }

  /** The audit rows of one memory replay to its table row. */
  predicate Replays(m: Memory, created: Memory, rows: seq<OperationRow>, id: int) {
    && m.usedCount == created.usedCount + CountUsed(rows, id)
    && m.lifecycle == ReplayLifecycle(rows, id, created.lifecycle)
    && m.supersedesId == created.supersedesId && m.body == created.body
  }

  /** The last audit row of a memory shows its lifecycle, unless it is the creation row. */
  predicate Shown(m: Memory, created: Memory, rows: seq<OperationRow>, id: int) {
    match LastRow(rows, id)
    case None => false
    case Some(row) =>
      if IsCreation(row) then row.lifecycle == "active" && m.lifecycle == created.lifecycle
      else row.lifecycle == m.lifecycle
  }

  // ------------------------------------------------------------------ one row more

  lemma RowAdded(rows: seq<OperationRow>, row: OperationRow, id: int, initial: string)
    ensures CountUsed(rows + [row], id) == CountUsed(rows, id) + if row.memoryId == id && row.operation == "used" then 1 else 0
    ensures ReplayLifecycle(rows + [row], id, initial) ==
            if Retires(row, id) then row.operation else ReplayLifecycle(rows, id, initial)
    ensures LastRow(rows + [row], id) == if row.memoryId == id then Some(row) else LastRow(rows, id)
  {
    assert (rows + [row])[..|rows|] == rows;
  }

  lemma {:induction false} UnknownId(rows: seq<OperationRow>, id: int, initial: string)
    requires forall i :: 0 <= i < |rows| ==> rows[i].memoryId != id
    ensures CountUsed(rows, id) == 0 && ReplayLifecycle(rows, id, initial) == initial && LastRow(rows, id).None?
  {
    if rows != [] { UnknownId(rows[..|rows| - 1], id, initial); }
  }

  // ------------------------------------------------------------------ the invariant

  predicate RowInv(s: Store, created: seq<Memory>, id: int)
    requires Exists(s, id) && |created| == |s.memories|
  {
    Replays(Get(s, id), created[id - 1], s.operations, id) && Shown(Get(s, id), created[id - 1], s.operations, id)
  }

  predicate RowIdsInv(s: Store) {
    forall i :: 0 <= i < |s.operations| ==> Exists(s, s.operations[i].memoryId)
  }

  ghost predicate TableInv(s: Store, created: seq<Memory>) {
    && |created| == |s.memories|
    && RowIdsInv(s)
    && forall id :: Exists(s, id) ==> RowInv(s, created, id)
  }

  lemma WithRowKeeps(s: Store, created: seq<Memory>, m: Memory, operation: string, target: Option<int>)
    requires TableInv(s, created) && (operation == "inserted" || operation == "remembered")
    ensures TableInv(WithRow(s, m, operation, target), created + [m])
  {
    var t := WithRow(s, m, operation, target);
    var row := t.operations[|s.operations|];
    var newId := |s.memories| + 1;
    forall id | Exists(t, id) ensures RowInv(t, created + [m], id) {
      if id == newId {
        UnknownId(s.operations, id, m.lifecycle);
        RowAdded(s.operations, row, id, m.lifecycle);
      } else {
        assert RowInv(s, created, id);
        RowAdded(s.operations, row, id, created[id - 1].lifecycle);
      }
    }
  }

  predicate Recorded(m: Memory, was: Memory, operation: string) {
    && m.supersedesId == was.supersedesId && m.body == was.body
    && if operation == "used" then m.usedCount == was.usedCount + 1 && m.lifecycle == was.lifecycle
       else (operation == "rejected" || operation == "superseded") && m.usedCount == was.usedCount && m.lifecycle == operation
  }

  lemma WithChangeKeepsRow(s: Store, created: seq<Memory>, id: int, m: Memory, operation: string, producer: string, other: int)
    requires |created| == |s.memories| && Exists(s, id) && Recorded(m, Get(s, id), operation)
    requires Exists(s, other) && RowInv(s, created, other)
    ensures RowInv(WithChange(s, id, m, operation, producer), created, other)
  {
    var t := WithChange(s, id, m, operation, producer);
    RowAdded(s.operations, t.operations[|s.operations|], other, created[other - 1].lifecycle);
  }

  lemma WithChangeKeeps(s: Store, created: seq<Memory>, id: int, m: Memory, operation: string, producer: string)
    requires TableInv(s, created) && Exists(s, id) && Recorded(m, Get(s, id), operation)
    ensures TableInv(WithChange(s, id, m, operation, producer), created)
  {
    var t := WithChange(s, id, m, operation, producer);
    forall other | Exists(t, other) ensures RowInv(t, created, other) {
      WithChangeKeepsRow(s, created, id, m, operation, producer, other);
    }
  }

  lemma SupersededKeeps(s: Store, created: seq<Memory>, oldId: int, w: MemoryWrite)
    requires TableInv(s, created) && Exists(s, oldId)
    ensures TableInv(Superseded(s, oldId, w), created + [RowOf(w, Some(oldId))])
  {
    var t := WithRow(s, RowOf(w, Some(oldId)), "remembered", Some(oldId));
    WithRowKeeps(s, created, RowOf(w, Some(oldId)), "remembered", Some(oldId));
    WithChangeKeeps(t, created + [RowOf(w, Some(oldId))], oldId, Get(t, oldId).(lifecycle := "superseded"), "superseded", "system");
  }

  lemma RejectedKeeps(s: Store, created: seq<Memory>, id: int, reason: Option<string>, producer: string)
    requires TableInv(s, created) && Exists(s, id)
    ensures TableInv(Rejected(s, id, reason, producer), created)
  {
    WithChangeKeeps(s, created, id, Get(s, id).(lifecycle := "rejected", rejectedReason := reason), "rejected", producer);
  }

  lemma UsedKeeps(s: Store, created: seq<Memory>, id: int, now: int)
    requires TableInv(s, created) && Exists(s, id)
    ensures TableInv(Used(s, id, now), created)
  {
    var used := Get(s, id).(usedCount := Get(s, id).usedCount + 1, lastUsedAt := Some(now));
    WithChangeKeeps(s, created, id, used, "used", "system");
  }

  lemma WrittenKeeps(s: Store, created: seq<Memory>, c: Write)
    requires Accepted(s, c) && TableInv(s, created)
    ensures TableInv(Written(s, c), created + Creation(c))
  {
    match c
    case InsertCall(m) => WithRowKeeps(s, created, Creation(c)[0], "inserted", Some(|s.memories| + 1));
    case RememberCall(w) => WithRowKeeps(s, created, Creation(c)[0], "remembered", w.supersedesId);
    case SupersedeCall(oldId, w) => SupersededKeeps(s, created, oldId, w);
    case RejectCall(id, reason, producer) => assert created + Creation(c) == created; RejectedKeeps(s, created, id, reason, producer);
    case UseCall(id, now) => assert created + Creation(c) == created; UsedKeeps(s, created, id, now);
  }

  lemma {:induction false} HistoryInv(calls: seq<Call>)
    ensures TableInv(History(calls).full, History(calls).created)
  {
    if calls != [] {
      HistoryInv(calls[..|calls| - 1]);
      var r, c := History(calls[..|calls| - 1]), calls[|calls| - 1];
      if Effective(r.full, c) { WrittenKeeps(r.full, r.created, c.write); }
    }
  }

  // ------------------------------------------------------------------ the tables and their past

  /** The audit table is the full one without the lost rows; the memory table is the full one. */
  predicate Tells(r: Run, s: Store) {
    |r.lost| == |r.full.operations| && s == Store(r.full.memories, KeptRows(r.full.operations, r.lost))
  }

  lemma KeptMore(rows: seq<OperationRow>, lost: seq<bool>, row: OperationRow, gone: bool)
    requires |lost| == |rows|
    ensures KeptRows(rows + [row], lost + [gone]) == KeptRows(rows, lost) + if gone then [] else [row]
  {
    assert (rows + [row])[..|rows|] == rows && (lost + [gone])[..|rows|] == lost;
  }

  /** What a call adds depends on the memory table only. */
  lemma SameRows(s: Store, t: Store, c: Write)
    requires Accepted(s, c) && s.memories == t.memories
    ensures Accepted(t, c) && Written(t, c).memories == Written(s, c).memories
    ensures !c.SupersedeCall? ==>
              exists row :: Written(s, c).operations == s.operations + [row] && Written(t, c).operations == t.operations + [row]
    ensures c.SupersedeCall? ==>
              exists p, q :: Written(s, c).operations == s.operations + [p] + [q] && Written(t, c).operations == t.operations + [p] + [q]
  {
    var n := |s.operations|;
    var added := Written(s, c).operations[n..];
    if c.SupersedeCall? {
      assert Written(s, c).operations == s.operations + [added[0]] + [added[1]];
      assert Written(t, c).operations == t.operations + [added[0]] + [added[1]];
    } else {
      assert Written(s, c).operations == s.operations + [added[0]];
      assert Written(t, c).operations == t.operations + [added[0]];
    }
  }

  lemma ApplyTells(r: Run, s: Store, c: Call)
    requires Tells(r, s) && Effective(r.full, c)
    ensures Tells(Apply(r, c), Called(s, c))
  {
    var gone := c.fault.AuditFails?;
    SameRows(r.full, s, c.write);
    if c.write.SupersedeCall? {
      var p, q :| Written(r.full, c.write).operations == r.full.operations + [p] + [q]
                  && Written(s, c.write).operations == s.operations + [p] + [q];
      assert Apply(r, c).lost == r.lost + [false] + [false];
      KeptMore(r.full.operations, r.lost, p, false);
      KeptMore(r.full.operations + [p], r.lost + [false], q, false);
    } else {
      var row :| Written(r.full, c.write).operations == r.full.operations + [row]
                 && Written(s, c.write).operations == s.operations + [row];
      assert Apply(r, c).lost == r.lost + [gone];
      KeptMore(r.full.operations, r.lost, row, gone);
      assert s.operations + [] == s.operations;
    }
  }

  lemma {:induction false} HistoryTells(calls: seq<Call>)
    ensures Tells(History(calls), After(calls))
  {
    if calls != [] {
      HistoryTells(calls[..|calls| - 1]);
      var r, s, c := History(calls[..|calls| - 1]), After(calls[..|calls| - 1]), calls[|calls| - 1];
      assert Accepted(s, c.write) <==> Accepted(r.full, c.write);
      if Effective(r.full, c) { ApplyTells(r, s, c); }
    }
  }

  /** The `used` rows of a memory that were lost. */
  function LostUses(rows: seq<OperationRow>, lost: seq<bool>, id: int): nat
    requires |lost| == |rows|
  {
    if rows == [] then 0
    else
      var n := |rows| - 1;
      LostUses(rows[..n], lost[..n], id) + if lost[n] && rows[n].memoryId == id && rows[n].operation == "used" then 1 else 0
  }

  lemma {:induction false} UsesSplit(rows: seq<OperationRow>, lost: seq<bool>, id: int)
    requires |lost| == |rows|
    ensures CountUsed(rows, id) == CountUsed(KeptRows(rows, lost), id) + LostUses(rows, lost, id)
  {
    if rows != [] {
      var n := |rows| - 1;
      UsesSplit(rows[..n], lost[..n], id);
      var kept := KeptRows(rows[..n], lost[..n]);
      assert kept + [] == kept;
      RowAdded(kept, rows[n], id, "");
    }
  }

  /** The last row that retired the memory, and whether it was lost. */
  function LastRetirement(rows: seq<OperationRow>, lost: seq<bool>, id: int): Option<(OperationRow, bool)>
    requires |lost| == |rows|
  {
    if rows == [] then None
    else if Retires(rows[|rows| - 1], id) then Some((rows[|rows| - 1], lost[|rows| - 1]))
    else LastRetirement(rows[..|rows| - 1], lost[..|rows| - 1], id)
  }

  /** The last row that retired the memory and was not lost. */
  function LastKeptRetirement(rows: seq<OperationRow>, lost: seq<bool>, id: int): Option<OperationRow>
    requires |lost| == |rows|
  {
    if rows == [] then None
    else if Retires(rows[|rows| - 1], id) && !lost[|rows| - 1] then Some(rows[|rows| - 1])
    else LastKeptRetirement(rows[..|rows| - 1], lost[..|rows| - 1], id)
  }

  lemma {:induction false} RetirementReplays(rows: seq<OperationRow>, lost: seq<bool>, id: int, initial: string)
    requires |lost| == |rows|
    ensures ReplayLifecycle(rows, id, initial) ==
            match LastRetirement(rows, lost, id) case None => initial case Some((row, _)) => row.operation
    ensures ReplayLifecycle(KeptRows(rows, lost), id, initial) ==
            match LastKeptRetirement(rows, lost, id) case None => initial case Some(row) => row.operation
    ensures match LastRetirement(rows, lost, id)
            case None => LastKeptRetirement(rows, lost, id) == None
            case Some((row, gone)) => !gone ==> LastKeptRetirement(rows, lost, id) == Some(row)
  {
    if rows != [] {
      var n := |rows| - 1;
      RetirementReplays(rows[..n], lost[..n], id, initial);
      var kept := KeptRows(rows[..n], lost[..n]);
      assert kept + [] == kept;
      RowAdded(kept, rows[n], id, initial);
    }
  }

  /** The last call that wrote this memory, and whether its audit row was lost. */
  function LastEntry(rows: seq<OperationRow>, lost: seq<bool>, id: int): Option<(OperationRow, bool)>
    requires |lost| == |rows|
  {
    if rows == [] then None
    else if rows[|rows| - 1].memoryId == id then Some((rows[|rows| - 1], lost[|rows| - 1]))
    else LastEntry(rows[..|rows| - 1], lost[..|rows| - 1], id)
  }

  lemma {:induction false} LastEntryKept(rows: seq<OperationRow>, lost: seq<bool>, id: int)
    requires |lost| == |rows|
    ensures LastEntry(rows, lost, id).Some? <==> LastRow(rows, id).Some?
    ensures LastEntry(rows, lost, id).Some? ==>
              LastRow(rows, id) == Some(LastEntry(rows, lost, id).value.0)
              && (!LastEntry(rows, lost, id).value.1 ==> LastRow(KeptRows(rows, lost), id) == LastRow(rows, id))
  {
    if rows != [] {
      var n := |rows| - 1;
      LastEntryKept(rows[..n], lost[..n], id);
      var kept := KeptRows(rows[..n], lost[..n]);
      assert kept + [] == kept;
      RowAdded(kept, rows[n], id, "");
    }
  }

  // ------------------------------------------------------------------ main results

  /** After any run, each memory's use count is its initial one plus its `used` rows plus the uses
      whose audit insert failed: no less than what the audit table shows, and just that when none did. */
  lemma UsesReplay(calls: seq<Call>, r: Run, s: Store, id: int)
    requires r == History(calls) && s == After(calls) && Exists(s, id)
    ensures |r.created| == |s.memories| && |r.lost| == |r.full.operations|
    ensures Get(s, id).usedCount ==
            r.created[id - 1].usedCount + CountUsed(s.operations, id) + LostUses(r.full.operations, r.lost, id)
    ensures Get(s, id).usedCount >= r.created[id - 1].usedCount + CountUsed(s.operations, id)
  {
    HistoryInv(calls);
    HistoryTells(calls);
    assert RowInv(r.full, r.created, id);
    UsesSplit(r.full.operations, r.lost, id);
  }

  /** What the audit table replays to: the last retirement it still shows, else the initial lifecycle. */
  function StillShown(r: Run, id: int): string
    requires |r.lost| == |r.full.operations| && 1 <= id <= |r.created|
  {
    match LastKeptRetirement(r.full.operations, r.lost, id)
    case None => r.created[id - 1].lifecycle
    case Some(row) => row.operation
  }

  /** Each lifecycle is that of the memory's last retirement, else the initial one.  The audit table
      replays to something else exactly when the row of that retirement was lost and what the table
      still shows is different: `rejected` where it was `superseded`, the other way round, or the
      initial lifecycle. */
  lemma LifecycleReplays(calls: seq<Call>, r: Run, s: Store, id: int)
    requires r == History(calls) && s == After(calls) && Exists(s, id)
    ensures |r.created| == |s.memories| && |r.lost| == |r.full.operations|
    ensures var last := LastRetirement(r.full.operations, r.lost, id);
            var initial := r.created[id - 1].lifecycle;
            && Get(s, id).lifecycle == (if last.Some? then last.value.0.operation else initial)
            && (ReplayLifecycle(s.operations, id, initial) != Get(s, id).lifecycle <==>
                  last.Some? && last.value.1 && StillShown(r, id) != last.value.0.operation)
  {
    HistoryInv(calls);
    HistoryTells(calls);
    assert RowInv(r.full, r.created, id);
    RetirementReplays(r.full.operations, r.lost, id, r.created[id - 1].lifecycle);
  }

  predicate NoneLost(calls: seq<Call>) {
    forall i :: 0 <= i < |calls| ==> !calls[i].fault.AuditFails?
  }

  lemma {:induction false} NothingLost(calls: seq<Call>)
    requires NoneLost(calls)
    ensures forall i :: 0 <= i < |History(calls).lost| ==> !History(calls).lost[i]
  {
    if calls != [] { NothingLost(calls[..|calls| - 1]); }
  }

  lemma {:induction false} AllKept(rows: seq<OperationRow>, lost: seq<bool>)
    requires |lost| == |rows| && forall i :: 0 <= i < |lost| ==> !lost[i]
    ensures KeptRows(rows, lost) == rows
  {
    if rows != [] { AllKept(rows[..|rows| - 1], lost[..|rows| - 1]); }
  }

  /** While no audit insert fails, whatever else does, each use count is its initial value plus its
      `used` rows, and each lifecycle is that of the last `rejected` or `superseded` row, else the
      initial one. */
  lemma AuditReplays(calls: seq<Call>, r: Run, s: Store, id: int)
    requires r == History(calls) && s == After(calls) && Exists(s, id) && NoneLost(calls)
    ensures |r.created| == |s.memories|
    ensures Get(s, id).usedCount == r.created[id - 1].usedCount + CountUsed(s.operations, id)
    ensures Get(s, id).lifecycle == ReplayLifecycle(s.operations, id, r.created[id - 1].lifecycle)
    ensures Get(s, id).supersedesId == r.created[id - 1].supersedesId
  {
    HistoryInv(calls);
    HistoryTells(calls);
    NothingLost(calls);
    AllKept(r.full.operations, r.lost);
    assert RowInv(r.full, r.created, id);
  }

  /** The last audit row of a memory, unless it is lost, disagrees with the table in one case only: it
      is the row of the creation, which always says `active`, and the memory was created with
      another lifecycle. */
  lemma LastRowShowsLifecycle(calls: seq<Call>, r: Run, s: Store, id: int)
    requires r == History(calls) && s == After(calls) && Exists(s, id) && |r.created| == |s.memories|
    requires |r.lost| == |r.full.operations|
    ensures LastEntry(r.full.operations, r.lost, id).Some?
    ensures !LastEntry(r.full.operations, r.lost, id).value.1 ==> LastRow(s.operations, id).Some?
    ensures !LastEntry(r.full.operations, r.lost, id).value.1 ==>
              var row := LastRow(s.operations, id).value;
              (row.lifecycle == Get(s, id).lifecycle <==> !IsCreation(row) || r.created[id - 1].lifecycle == "active")
  {
    HistoryInv(calls);
    HistoryTells(calls);
    assert RowInv(r.full, r.created, id);
    LastEntryKept(r.full.operations, r.lost, id);
  }

  /** A call moves a lifecycle only to `rejected` or `superseded`, and only the named memory's. */
  lemma LifecycleMoves(s: Store, c: Write, id: int)
    requires Accepted(s, c) && Exists(s, id)
    ensures Exists(Written(s, c), id)
    ensures Get(Written(s, c), id).lifecycle ==
            if c.RejectCall? && c.id == id then "rejected"
            else if c.SupersedeCall? && c.oldId == id then "superseded" else Get(s, id).lifecycle
  {
  }

  predicate Retired(s: Store, id: int) {
    Exists(s, id) && Get(s, id).lifecycle != "active"
  }

  lemma RetiredStays(s: Store, c: Call, id: int)
    requires Retired(s, id)
    ensures Retired(Called(s, c), id)
  {
    if Accepted(s, c.write) { LifecycleMoves(s, c.write, id); }
  }

  lemma AfterMore(calls: seq<Call>, c: Call)
    ensures After(calls + [c]) == Called(After(calls), c)
  {
    assert (calls + [c])[..|calls|] == calls;
  }

  /** A memory that is not active at some point of a run is not active at any later point. */
  lemma {:induction false} ActiveNeverReturns(calls: seq<Call>, more: seq<Call>, id: int)
    requires Retired(After(calls), id)
    ensures Retired(After(calls + more), id)
    decreases |more|
  {
    if more == [] {
      assert calls + more == calls;
    } else {
      var front, c := more[..|more| - 1], more[|more| - 1];
      ActiveNeverReturns(calls, front, id);
      AfterMore(calls + front, c);
      assert calls + more == calls + front + [c];
      RetiredStays(After(calls + front), c, id);
    }
  }

  /** A supersede link points to an earlier memory that is out of use. */
  predicate LinkDown(s: Store, id: int)
    requires Exists(s, id)
  {
    && Get(s, id).supersedesId.Some?
    && var down := Get(s, id).supersedesId.value;
       1 <= down < id && Retired(s, down)
  }

  ghost predicate LinksInv(r: Run) {
    forall id :: id in r.linked ==> Exists(r.full, id) && LinkDown(r.full, id)
  }

  lemma ApplyKeepsLinks(r: Run, c: Call)
    requires Effective(r.full, c) && LinksInv(r)
    ensures LinksInv(Apply(r, c))
  {
    var t := Apply(r, c);
    forall id | id in t.linked ensures Exists(t.full, id) && LinkDown(t.full, id) {
      if id in r.linked {
        var down := Get(r.full, id).supersedesId.value;
        LifecycleMoves(r.full, c.write, down);
      }
    }
  }

  lemma {:induction false} HistoryLinks(calls: seq<Call>)
    ensures LinksInv(History(calls))
  {
    if calls != [] {
      HistoryLinks(calls[..|calls| - 1]);
      var r, c := History(calls[..|calls| - 1]), calls[|calls| - 1];
      if Effective(r.full, c) { ApplyKeepsLinks(r, c); }
    }
  }

  lemma LinkSeen(s: Store, t: Store, id: int)
    requires s.memories == t.memories && Exists(s, id) && LinkDown(s, id)
    ensures Exists(t, id) && LinkDown(t, id)
  {
  }

  /** Following the links `supersede_memory` made, ids strictly decrease, and every memory on the
      way is retired. */
  lemma LinksDecrease(calls: seq<Call>, id: int)
    requires id in History(calls).linked
    ensures Exists(After(calls), id) && LinkDown(After(calls), id)
  {
    HistoryLinks(calls);
    HistoryTells(calls);
    LinkSeen(History(calls).full, After(calls), id);
  }
}
