/** The agent memory store of cozmio_memory/src/agent_memory.rs: a table of memories whose ids
    count up from one, an audit table, and the calls that write both. */
module AgentMemory {
  import opened Options
  import opened Text

  /** Times are instants; source refs are kept parsed, a blank JSON text being the empty list. */
  datatype Memory = Memory(
    body: string, layer: string, lifecycle: string, sourceRefs: seq<string>, supersedesId: Option<int>,
    producer: string, usedCount: int, lastUsedAt: Option<int>, rejectedReason: Option<string>, expiresAt: Option<int>)

  datatype OperationRow = OperationRow(
    memoryId: int, operation: string, lifecycle: string, body: string, layer: string, sourceRefs: seq<string>,
    target: Option<int>, resulting: Option<int>, producer: string)

  datatype MemoryWrite = MemoryWrite(
    body: string, layer: string, lifecycle: string, sourceRefs: seq<string>, supersedesId: Option<int>,
    producer: string, expiresAt: Option<int>)

  datatype Error = Empty(field: string) | NoSourceRefs | NotFound(id: int) | Database

  datatype Outcome<T> = Done(value: T) | Refused(error: Error)

  /** Which of a call's two statements the database refuses; each is committed on its own. */
  datatype Fault = NoFault | WriteFails | AuditFails

  /** Row `i` of `memories` has id `i + 1`. */
  datatype Store = Store(memories: seq<Memory>, operations: seq<OperationRow>)

  predicate Exists(s: Store, id: int) { 1 <= id <= |s.memories| }

  function Get(s: Store, id: int): Memory
    requires Exists(s, id)
  {
    s.memories[id - 1]
  }

  // ------------------------------------------------------------------ validation

  function Validated(w: MemoryWrite): Option<Error> {
    if IsBlank(w.body) then Some(Empty("memory body"))
    else if IsBlank(w.layer) then Some(Empty("memory layer"))
    else if IsBlank(w.lifecycle) then Some(Empty("memory lifecycle"))
    else if IsBlank(w.producer) then Some(Empty("memory producer"))
    else if w.sourceRefs == [] || exists i :: 0 <= i < |w.sourceRefs| && IsBlank(w.sourceRefs[i]) then Some(NoSourceRefs)
    else None
  }

  // ------------------------------------------------------------------ the writes as functions

  /** A new row and its audit row, which always says `active`. */
  function WithRow(s: Store, m: Memory, operation: string, target: Option<int>): Store {
    var id := |s.memories| + 1;
    Store(s.memories + [m],
          s.operations + [OperationRow(id, operation, "active", m.body, m.layer, m.sourceRefs, target, Some(id), m.producer)])
  }

  /** A changed row and the audit row copied from it. */
  function WithChange(s: Store, id: int, m: Memory, operation: string, producer: string): Store
    requires Exists(s, id)
  {
    Store(s.memories[id - 1 := m],
          s.operations + [OperationRow(id, operation, m.lifecycle, m.body, m.layer, m.sourceRefs, Some(id), Some(id), producer)])
  }

  function Inserted(s: Store, m: Memory): Store {
    var producer := if IsBlank(m.producer) then "legacy" else m.producer;
    var id := |s.memories| + 1;
    WithRow(s, m.(producer := producer), "inserted", Some(id))
  }

  function RowOf(w: MemoryWrite, supersedesId: Option<int>): Memory {
    Memory(w.body, w.layer, w.lifecycle, w.sourceRefs, supersedesId, w.producer, 0, None, None, w.expiresAt)
  }

  function Remembered(s: Store, w: MemoryWrite): Store {
    WithRow(s, RowOf(w, w.supersedesId), "remembered", w.supersedesId)
  }

  function Rejected(s: Store, id: int, reason: Option<string>, producer: string): Store
    requires Exists(s, id)
  {
    WithChange(s, id, Get(s, id).(lifecycle := "rejected", rejectedReason := reason), "rejected", producer)
  }

  function Superseded(s: Store, oldId: int, w: MemoryWrite): Store
    requires Exists(s, oldId)
  {
    var t := WithRow(s, RowOf(w, Some(oldId)), "remembered", Some(oldId));
    WithChange(t, oldId, Get(t, oldId).(lifecycle := "superseded"), "superseded", "system")
  }

  function Used(s: Store, id: int, now: int): Store
    requires Exists(s, id)
  {
    WithChange(s, id, Get(s, id).(usedCount := Get(s, id).usedCount + 1, lastUsedAt := Some(now)), "used", "system")
  }

  /** What a call that would turn `s` into `t` leaves behind: when the audit insert fails, the memory
      row has been written and its audit row has not. */
  function Performed(s: Store, t: Store, fault: Fault): Store {
    match fault
    case NoFault => t
    case WriteFails => s
    case AuditFails => Store(t.memories, s.operations)
  }

  // ------------------------------------------------------------------ the class

  class AgentMemoryStore {
    var memories: seq<Memory>
    var operations: seq<OperationRow>

    function View(): Store
      reads this
    {
      Store(memories, operations)
    }

    constructor ()
      ensures View() == Store([], [])
    {
      memories, operations := [], [];
    }

    method InsertOperationRow(operation: string, target: Option<int>, resulting: Option<int>,
        body: string, layer: string, sourceRefs: seq<string>, producer: string)
      modifies this`operations
      ensures operations == old(operations) + [OperationRow(
                if resulting.Some? then resulting.value else if target.Some? then target.value else 0,
                operation, "active", body, layer, sourceRefs, target, resulting, producer)]
    {
      var legacyMemoryId := if resulting.Some? then resulting.value else if target.Some? then target.value else 0;
      operations := operations + [OperationRow(legacyMemoryId, operation, "active", body, layer, sourceRefs, target, resulting, producer)];
    }

    method LogCurrent(id: int, operation: string, producer: string)
      requires Exists(View(), id)
      modifies this`operations
      ensures var m := Get(View(), id);
              operations == old(operations)
                + [OperationRow(id, operation, m.lifecycle, m.body, m.layer, m.sourceRefs, Some(id), Some(id), producer)]
    {
      var m := memories[id - 1];
      operations := operations + [OperationRow(id, operation, m.lifecycle, m.body, m.layer, m.sourceRefs, Some(id), Some(id), producer)];
    }

    method Insert(m: Memory, fault: Fault) returns (r: Outcome<int>)
      modifies this
      ensures r == if fault.NoFault? then Done(|old(memories)| + 1) else Refused(Database)
      ensures View() == Performed(old(View()), Inserted(old(View()), m), fault)
    {
      if fault.WriteFails? { return Refused(Database); }
      var producer := if IsBlank(m.producer) then "legacy" else m.producer;
      memories := memories + [m.(producer := producer)];
      var id := |memories|;
      if fault.AuditFails? { return Refused(Database); }
      InsertOperationRow("inserted", Some(id), Some(id), m.body, m.layer, m.sourceRefs, producer);
      r := Done(id);
    }

    method RememberMemory(w: MemoryWrite, fault: Fault) returns (r: Outcome<int>)
      modifies this
      ensures r == match Validated(w)
                   case Some(e) => Refused(e)
                   case None => if fault.NoFault? then Done(|old(memories)| + 1) else Refused(Database)
      ensures View() == if Validated(w).Some? then old(View())
                        else Performed(old(View()), Remembered(old(View()), w), fault)
    {
      var invalid := Validated(w);
      if invalid.Some? { return Refused(invalid.value); }
      if fault.WriteFails? { return Refused(Database); }
      memories := memories + [RowOf(w, w.supersedesId)];
      var id := |memories|;
      if fault.AuditFails? { return Refused(Database); }
      InsertOperationRow("remembered", w.supersedesId, Some(id), w.body, w.layer, w.sourceRefs, w.producer);
      r := Done(id);
    }

    method RejectWithReason(id: int, reason: Option<string>, producer: string, fault: Fault) returns (r: Outcome<()>)
      modifies this
      ensures r == if IsBlank(producer) then Refused(Empty("producer"))
                   else if fault.WriteFails? then Refused(Database)
                   else if !Exists(old(View()), id) then Refused(NotFound(id))
                   else if fault.AuditFails? then Refused(Database) else Done(())
      ensures View() == if IsBlank(producer) || !Exists(old(View()), id) then old(View())
                        else Performed(old(View()), Rejected(old(View()), id, reason, producer), fault)
    {
      if IsBlank(producer) { return Refused(Empty("producer")); }
      if fault.WriteFails? { return Refused(Database); }
      if !Exists(View(), id) { return Refused(NotFound(id)); }
      memories := memories[id - 1 := memories[id - 1].(lifecycle := "rejected", rejectedReason := reason)];
      if fault.AuditFails? { return Refused(Database); }
      LogCurrent(id, "rejected", producer);
      r := Done(());
    }

    /** Runs in a transaction: `failing` names the statement at which the database fails, and
        whatever fails, nothing is kept. */
    method SupersedeMemory(oldId: int, w: MemoryWrite, failing: Option<nat>) returns (r: Outcome<int>)
      modifies this
      ensures r == match Validated(w)
                   case Some(e) => Refused(e)
                   case None =>
                     if !Exists(old(View()), oldId) then Refused(NotFound(oldId))
                     else if failing.Some? && failing.value < 5 then Refused(Database)
                     else Done(|old(memories)| + 1)
      ensures View() == if r.Done? then Superseded(old(View()), oldId, w) else old(View())
    {
      var invalid := Validated(w);
      if invalid.Some? { return Refused(invalid.value); }
      if !Exists(View(), oldId) { return Refused(NotFound(oldId)); }
      var tx, log := memories, operations;
      if failing == Some(0) { return Refused(Database); }
      tx := tx + [RowOf(w, Some(oldId))];
      var newId := |tx|;
      if failing == Some(1) { return Refused(Database); }
      log := log + [OperationRow(newId, "remembered", "active", w.body, w.layer, w.sourceRefs, Some(oldId), Some(newId), w.producer)];
      if failing == Some(2) { return Refused(Database); }
      tx := tx[oldId - 1 := tx[oldId - 1].(lifecycle := "superseded")];
      if failing == Some(3) { return Refused(Database); }
      var m := tx[oldId - 1];
      log := log + [OperationRow(oldId, "superseded", m.lifecycle, m.body, m.layer, m.sourceRefs, Some(oldId), Some(oldId), "system")];
      if failing == Some(4) { return Refused(Database); }
      memories, operations := tx, log;
      r := Done(newId);
    }

    method MarkUsed(id: int, now: int, fault: Fault) returns (r: Outcome<()>)
      modifies this
      ensures r == if fault.WriteFails? then Refused(Database)
                   else if !Exists(old(View()), id) then Refused(NotFound(id))
                   else if fault.AuditFails? then Refused(Database) else Done(())
      ensures View() == if Exists(old(View()), id) then Performed(old(View()), Used(old(View()), id, now), fault)
                        else old(View())
    {
      if fault.WriteFails? { return Refused(Database); }
      if !Exists(View(), id) { return Refused(NotFound(id)); }
      var m := memories[id - 1];
      memories := memories[id - 1 := m.(usedCount := m.usedCount + 1, lastUsedAt := Some(now))];
      if fault.AuditFails? { return Refused(Database); }
      LogCurrent(id, "used", "system");
      r := Done(());
    }
  }
}
