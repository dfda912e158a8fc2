/** What the two memory tables hold, told from the list of calls alone: each column of a memory
    from the call that created it and the calls that named it, and the audit rows one by one. */
module MemoryHistory {
  import opened Options
  import opened AgentMemory
  import opened AuditLog
  import Text

  /** A memory that `remember_memory` and `supersede_memory` accept. */
  predicate Complete(w: MemoryWrite) {
    && !Text.IsBlank(w.body) && !Text.IsBlank(w.layer) && !Text.IsBlank(w.lifecycle) && !Text.IsBlank(w.producer)
    && w.sourceRefs != [] && forall i :: 0 <= i < |w.sourceRefs| ==> !Text.IsBlank(w.sourceRefs[i])
  }

  /** With `born` memories in the table, the call writes it. */
  predicate Lands(born: nat, c: Call) {
    match c.write
    case InsertCall(_) => !c.fault.WriteFails?
    case RememberCall(w) => Complete(w) && !c.fault.WriteFails?
    case RejectCall(id, _, producer) => 1 <= id <= born && !Text.IsBlank(producer) && !c.fault.WriteFails?
    case SupersedeCall(oldId, w) => Complete(w) && 1 <= oldId <= born && c.fault.NoFault?
    case UseCall(id, _) => 1 <= id <= born && !c.fault.WriteFails?
  }

  /** How many memories there have been. */
  function Born(calls: seq<Call>): nat {
    if calls == [] then 0
    else
      var born, c := Born(calls[..|calls| - 1]), calls[|calls| - 1];
      if Lands(born, c) && Creates(c.write) then born + 1 else born
  }

  predicate LandsLast(calls: seq<Call>)
    requires calls != []
  {
    Lands(Born(calls[..|calls| - 1]), calls[|calls| - 1])
  }

  /** The call that created a memory. */
  function Birth(calls: seq<Call>, id: int): (c: Write)
    requires 1 <= id <= Born(calls)
    ensures Creates(c)
  {
    var front := calls[..|calls| - 1];
    if id <= Born(front) then Birth(front, id) else calls[|calls| - 1].write
  }

  /** The call lands and names this memory, which was there before. */
  predicate Names(c: Write, id: int) {
    match c
    case RejectCall(x, _, _) => x == id
    case SupersedeCall(x, _) => x == id
    case UseCall(x, _) => x == id
    case _ => false
  }

  // ------------------------------------------------------------------ the columns

  function InitialLifecycle(c: Write): string
    requires Creates(c)
  {
    match c case InsertCall(m) => m.lifecycle case RememberCall(w) => w.lifecycle case SupersedeCall(_, w) => w.lifecycle
  }

  function LifecycleOf(calls: seq<Call>, id: int): string
    requires 1 <= id <= Born(calls)
  {
    var front, c := calls[..|calls| - 1], calls[|calls| - 1].write;
    if id > Born(front) then InitialLifecycle(c)
    else if LandsLast(calls) && c.RejectCall? && c.id == id then "rejected"
    else if LandsLast(calls) && c.SupersedeCall? && c.oldId == id then "superseded"
    else LifecycleOf(front, id)
  }

  function UsesOf(calls: seq<Call>, id: int): int
    requires 1 <= id <= Born(calls)
  {
    var front, c := calls[..|calls| - 1], calls[|calls| - 1].write;
    if id > Born(front) then if c.InsertCall? then c.memory.usedCount else 0
    else UsesOf(front, id) + if LandsLast(calls) && c.UseCall? && c.id == id then 1 else 0
  }

  function LastUseOf(calls: seq<Call>, id: int): Option<int>
    requires 1 <= id <= Born(calls)
  {
    var front, c := calls[..|calls| - 1], calls[|calls| - 1].write;
    if id > Born(front) then if c.InsertCall? then c.memory.lastUsedAt else None
    else if LandsLast(calls) && c.UseCall? && c.id == id then Some(c.now)
    else LastUseOf(front, id)
  }

  function ReasonOf(calls: seq<Call>, id: int): Option<string>
    requires 1 <= id <= Born(calls)
  {
    var front, c := calls[..|calls| - 1], calls[|calls| - 1].write;
    if id > Born(front) then if c.InsertCall? then c.memory.rejectedReason else None
    else if LandsLast(calls) && c.RejectCall? && c.id == id then c.reason
    else ReasonOf(front, id)
  }

  /** The columns that are written at birth only. */
  predicate Keeps(m: Memory, birth: Write)
    requires Creates(birth)
  {
    match birth
    case InsertCall(given) =>
      && m.body == given.body && m.layer == given.layer && m.sourceRefs == given.sourceRefs
      && m.expiresAt == given.expiresAt && m.supersedesId == given.supersedesId
      && m.producer == if Text.IsBlank(given.producer) then "legacy" else given.producer
    case RememberCall(w) =>
      && m.body == w.body && m.layer == w.layer && m.sourceRefs == w.sourceRefs
      && m.expiresAt == w.expiresAt && m.supersedesId == w.supersedesId && m.producer == w.producer
    case SupersedeCall(oldId, w) =>
      && m.body == w.body && m.layer == w.layer && m.sourceRefs == w.sourceRefs
      && m.expiresAt == w.expiresAt && m.supersedesId == Some(oldId) && m.producer == w.producer
  }

  /** The row is what the calls made it. */
  predicate RowIs(calls: seq<Call>, id: int, m: Memory)
    requires 1 <= id <= Born(calls)
  {
    && Keeps(m, Birth(calls, id))
    && m.lifecycle == LifecycleOf(calls, id) && m.usedCount == UsesOf(calls, id)
    && m.lastUsedAt == LastUseOf(calls, id) && m.rejectedReason == ReasonOf(calls, id)
  }

  // ------------------------------------------------------------------ the audit rows

  /** A row about a memory as it is then. */
  function RowAbout(m: Memory, id: int, operation: string, producer: string): OperationRow {
    OperationRow(id, operation, m.lifecycle, m.body, m.layer, m.sourceRefs, Some(id), Some(id), producer)
  }

  /** The rows that a call lands when the table is `before` and becomes `after`. */
  function RowsFor(c: Write, after: seq<Memory>): seq<OperationRow>
    requires match c case RejectCall(id, _, _) => 1 <= id <= |after| case UseCall(id, _) => 1 <= id <= |after|
                     case SupersedeCall(oldId, _) => 1 <= oldId <= |after| case _ => true
  {
    var id := |after|;
    match c
    case InsertCall(m) =>
      [OperationRow(id, "inserted", "active", m.body, m.layer, m.sourceRefs, Some(id), Some(id),
                    if Text.IsBlank(m.producer) then "legacy" else m.producer)]
    case RememberCall(w) =>
      [OperationRow(id, "remembered", "active", w.body, w.layer, w.sourceRefs, w.supersedesId, Some(id), w.producer)]
    case SupersedeCall(oldId, w) =>
      [OperationRow(id, "remembered", "active", w.body, w.layer, w.sourceRefs, Some(oldId), Some(id), w.producer),
       RowAbout(after[oldId - 1], oldId, "superseded", "system")]
    case RejectCall(x, _, producer) => [RowAbout(after[x - 1], x, "rejected", producer)]
    case UseCall(x, _) => [RowAbout(after[x - 1], x, "used", "system")]
  }

  // ------------------------------------------------------------------ proof

  /** A write is complete exactly when nothing is found wrong with it; else the first blank field is
      named, and the source refs last. */
  lemma CompleteIsValid(w: MemoryWrite)
    ensures Validated(w).None? <==> Complete(w)
    ensures Text.IsBlank(w.body) ==> Validated(w) == Some(Empty("memory body"))
    ensures !Text.IsBlank(w.body) && Text.IsBlank(w.layer) ==> Validated(w) == Some(Empty("memory layer"))
    ensures !Text.IsBlank(w.body) && !Text.IsBlank(w.layer) && Text.IsBlank(w.lifecycle) ==>
              Validated(w) == Some(Empty("memory lifecycle"))
    ensures !Text.IsBlank(w.body) && !Text.IsBlank(w.layer) && !Text.IsBlank(w.lifecycle) && Text.IsBlank(w.producer) ==>
              Validated(w) == Some(Empty("memory producer"))
    ensures !Complete(w) && !Text.IsBlank(w.body) && !Text.IsBlank(w.layer) && !Text.IsBlank(w.lifecycle) && !Text.IsBlank(w.producer) ==>
              Validated(w) == Some(NoSourceRefs)
  {
  }

  /** The memory table is what the calls before made it. */
  predicate TableIs(calls: seq<Call>, memories: seq<Memory>) {
    |memories| == Born(calls) && forall id :: 1 <= id <= Born(calls) ==> RowAt(calls, id, memories)
  }

  predicate RowAt(calls: seq<Call>, id: int, memories: seq<Memory>)
    requires 1 <= id <= Born(calls) == |memories|
  {
    RowIs(calls, id, memories[id - 1])
  }

  predicate LandsOn(s: Store, c: Call) { Lands(|s.memories|, c) }

  lemma LandsIsAccepted(s: Store, c: Call)
    ensures LandsOn(s, c) <==> Effective(s, c)
    ensures !LandsOn(s, c) ==> Called(s, c) == s
  {
    if c.write.RememberCall? || c.write.SupersedeCall? { CompleteIsValid(c.write.write); }
  }

  /** The row a landing call creates. */
  lemma NewRow(s: Store, c: Call)
    requires LandsOn(s, c) && Creates(c.write)
    ensures var t := Called(s, c);
            && |t.memories| == |s.memories| + 1
            && var m := t.memories[|s.memories|];
               && Keeps(m, c.write) && m.lifecycle == InitialLifecycle(c.write)
               && m.usedCount == (if c.write.InsertCall? then c.write.memory.usedCount else 0)
               && m.lastUsedAt == (if c.write.InsertCall? then c.write.memory.lastUsedAt else None)
               && m.rejectedReason == (if c.write.InsertCall? then c.write.memory.rejectedReason else None)
  {
    LandsIsAccepted(s, c);
  }

  /** What a landing call makes of a row that is there already. */
  lemma OldRow(s: Store, c: Call, id: int)
    requires LandsOn(s, c) && 1 <= id <= |s.memories|
    ensures |Called(s, c).memories| >= |s.memories|
    ensures var m, n := s.memories[id - 1], Called(s, c).memories[id - 1];
            match c.write
            case RejectCall(x, reason, _) =>
              n == if x == id then m.(lifecycle := "rejected", rejectedReason := reason) else m
            case SupersedeCall(x, _) => n == if x == id then m.(lifecycle := "superseded") else m
            case UseCall(x, now) =>
              n == if x == id then m.(usedCount := m.usedCount + 1, lastUsedAt := Some(now)) else m
            case _ => n == m
  {
    LandsIsAccepted(s, c);
  }

  lemma SizeAfter(s: Store, c: Call)
    ensures |Called(s, c).memories| == |s.memories| + if LandsOn(s, c) && Creates(c.write) then 1 else 0
  {
    LandsIsAccepted(s, c);
  }

  lemma OldRowIs(calls: seq<Call>, c: Call, s: Store, id: int)
    requires TableIs(calls, s.memories) && LandsOn(s, c) && 1 <= id <= |s.memories|
    requires |Called(s, c).memories| == Born(calls + [c])
    ensures RowIs(calls + [c], id, Called(s, c).memories[id - 1])
  {
    assert (calls + [c])[..|calls|] == calls;
    OldRow(s, c, id);
    assert RowAt(calls, id, s.memories);
  }

  lemma NewRowIs(calls: seq<Call>, c: Call, s: Store)
    requires TableIs(calls, s.memories) && LandsOn(s, c) && Creates(c.write)
    requires |Called(s, c).memories| == Born(calls + [c])
    ensures RowIs(calls + [c], |s.memories| + 1, Called(s, c).memories[|s.memories|])
  {
    assert (calls + [c])[..|calls|] == calls;
    NewRow(s, c);
  }

  lemma UnlandedRowIs(calls: seq<Call>, c: Call, s: Store, id: int)
    requires TableIs(calls, s.memories) && !LandsOn(s, c) && 1 <= id <= |s.memories| && Born(calls + [c]) == Born(calls)
    ensures RowIs(calls + [c], id, s.memories[id - 1])
  {
    assert (calls + [c])[..|calls|] == calls;
    assert RowAt(calls, id, s.memories);
  }

  lemma TableKept(calls: seq<Call>, c: Call, s: Store)
    requires TableIs(calls, s.memories)
    ensures TableIs(calls + [c], Called(s, c).memories)
  {
    assert (calls + [c])[..|calls|] == calls;
    SizeAfter(s, c);
    LandsIsAccepted(s, c);
    var t := Called(s, c);
    forall id | 1 <= id <= Born(calls + [c]) ensures RowAt(calls + [c], id, t.memories) {
      if !LandsOn(s, c) {
        UnlandedRowIs(calls, c, s, id);
      } else if id <= |s.memories| {
        OldRowIs(calls, c, s, id);
      } else {
        NewRowIs(calls, c, s);
      }
    }
  }

  // ------------------------------------------------------------------ main results

  /** After any run, failures of either statement included, every column of every memory is what the
      calls say: body, layer, source refs, producer, expiry and link are those of the call that
      created it, whatever came later; its lifecycle, count, last use and reason are those of the
      calls that named it. */
  lemma {:induction false} MemoriesAreTheirHistory(calls: seq<Call>)
    ensures TableIs(calls, After(calls).memories)
  {
    if calls != [] {
      var front, c := calls[..|calls| - 1], calls[|calls| - 1];
      MemoriesAreTheirHistory(front);
      assert front + [c] == calls;
      TableKept(front, c, After(front));
    }
  }

  /** A memory's birth does not change. */
  lemma {:induction false} BirthStays(calls: seq<Call>, more: seq<Call>, id: int)
    requires 1 <= id <= Born(calls)
    ensures Born(calls) <= Born(calls + more) && Birth(calls + more, id) == Birth(calls, id)
    decreases |more|
  {
    if more == [] {
      assert calls + more == calls;
    } else {
      var front := more[..|more| - 1];
      BirthStays(calls, front, id);
      assert (calls + more)[..|calls + more| - 1] == calls + front;
    }
  }

  /** What was written at birth is still there after any later calls. */
  lemma ColumnsStay(calls: seq<Call>, more: seq<Call>, id: int)
    requires 1 <= id <= |After(calls).memories|
    ensures id <= |After(calls + more).memories|
    ensures var m, n := After(calls).memories[id - 1], After(calls + more).memories[id - 1];
            && n.body == m.body && n.layer == m.layer && n.sourceRefs == m.sourceRefs && n.producer == m.producer
            && n.expiresAt == m.expiresAt && n.supersedesId == m.supersedesId
  {
    MemoriesAreTheirHistory(calls);
    MemoriesAreTheirHistory(calls + more);
    BirthStays(calls, more, id);
    assert RowAt(calls, id, After(calls).memories);
    assert RowAt(calls + more, id, After(calls + more).memories);
  }

  /** Each landing call adds the audit rows that tell of it, unless their insert fails; a call that
      does not land adds none. */
  lemma RowsTell(s: Store, c: Call)
    ensures !LandsOn(s, c) || c.fault.AuditFails? ==> Called(s, c).operations == s.operations
    ensures LandsOn(s, c) && !c.fault.AuditFails? ==>
              Called(s, c).operations == s.operations + RowsFor(c.write, Called(s, c).memories)
  {
    LandsIsAccepted(s, c);
  }
}
