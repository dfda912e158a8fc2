/** Inference routing in relay-engine: the worker registry (src/worker_registry.rs) and the
    router's pending map (src/inference_router.rs), as classes over shared functions. */
module Routing {
  import opened Options

  type WorkerId = string
  type RequestId = string

  datatype WorkerState = Online | Idle | Busy | Offline

  datatype WorkerInfo = WorkerInfo(endpoint: string, registrationId: int, state: WorkerState)

  type Workers = map<WorkerId, WorkerInfo>

  datatype Response = Response(requestId: RequestId, success: bool, payloadText: string, error: string)

  datatype PendingRequest = PendingRequest(worker: WorkerId, createdAt: int)

  /** Who took an entry out of the pending map. */
  datatype Remover = ByResponse | ByCancel | ByCaller

  /** The pending map and the oneshot channels behind it.  `listening` holds the requests
      whose receiver still exists, `entered` the replies each channel ever accepted,
      `removed` who took each entry out. */
  datatype Desk = Desk(
    pending: map<RequestId, PendingRequest>,
    listening: set<RequestId>,
    entered: map<RequestId, seq<Response>>,
    removed: map<RequestId, seq<Remover>>)

  const EMPTY := Desk(map[], {}, map[], map[])

  function Entered(d: Desk, r: RequestId): seq<Response> {
    if r in d.entered then d.entered[r] else []
  }

  function Removed(d: Desk, r: RequestId): seq<Remover> {
    if r in d.removed then d.removed[r] else []
  }

  function Cancelled(r: RequestId): Response {
    Response(r, false, "", "Request cancelled")
  }

  function Inserted(d: Desk, r: RequestId, p: PendingRequest): Desk {
    d.(pending := d.pending[r := p], listening := d.listening + {r})
  }

  function TakenOut(d: Desk, r: RequestId, why: Remover): Desk {
    if r !in d.pending then d
    else d.(pending := d.pending - {r}, removed := d.removed[r := Removed(d, r) + [why]])
  }

  /** Remove the entry and send into its channel; a send without a receiver is lost. */
  function Settled(d: Desk, r: RequestId, reply: Response, why: Remover): Desk {
    if r !in d.pending then d
    else
      TakenOut(if r in d.listening then d.(entered := d.entered[r := Entered(d, r) + [reply]]) else d, r, why)
  }

  function WithState(workers: Workers, w: WorkerId, state: WorkerState): Workers {
    if w in workers then workers[w := workers[w].(state := state)] else workers
  }

  predicate IsIdle(workers: Workers, w: WorkerId) { w in workers && workers[w].state.Idle? }

  predicate IsOnline(workers: Workers, w: WorkerId) { w in workers && !workers[w].state.Offline? }

  predicate IsBusy(workers: Workers, w: WorkerId) { w in workers && workers[w].state.Busy? }

  class WorkerRegistry {
    var workers: Workers
    var nextRegistrationId: int

    /** Registration ids in use are distinct and below the counter. */
    ghost predicate Valid()
      reads this
    {
      && (forall w :: w in workers ==> workers[w].registrationId < nextRegistrationId)
      && (forall v, w :: v in workers && w in workers && v != w ==> workers[v].registrationId != workers[w].registrationId)
    }

    constructor ()
      ensures Valid() && workers == map[] && nextRegistrationId == 1
    {
      workers, nextRegistrationId := map[], 1;
    }

    /** A known worker that registers again is replaced: its Busy mark is forgotten. */
    method Register(w: WorkerId, endpoint: string) returns (registrationId: int)
      requires Valid()
      modifies this
      ensures Valid()
      ensures registrationId == old(nextRegistrationId) && nextRegistrationId == registrationId + 1
      ensures workers == old(workers)[w := WorkerInfo(endpoint, registrationId, Online)]
    {
      registrationId := nextRegistrationId;
      nextRegistrationId := nextRegistrationId + 1;
      workers := workers[w := WorkerInfo(endpoint, registrationId, Online)];
    }

    method Unregister(w: WorkerId) returns (gone: Option<WorkerInfo>)
      requires Valid()
      modifies this`workers
      ensures Valid() && workers == old(workers) - {w}
      ensures gone == if w in old(workers) then Some(old(workers)[w]) else None
    {
      gone := if w in workers then Some(workers[w]) else None;
      workers := workers - {w};
    }

    method MarkBusy(w: WorkerId) returns (known: bool)
      requires Valid()
      modifies this`workers
      ensures Valid() && known == (w in workers) && workers == WithState(old(workers), w, Busy)
      ensures known ==> workers[w] == WorkerInfo(old(workers)[w].endpoint, old(workers)[w].registrationId, Busy)
      ensures workers.Keys == old(workers).Keys && forall v :: v in workers && v != w ==> workers[v] == old(workers)[v]
    {
      known := w in workers;
      if known { workers := workers[w := workers[w].(state := Busy)]; }
    }

    method MarkIdle(w: WorkerId) returns (known: bool)
      requires Valid()
      modifies this`workers
      ensures Valid() && known == (w in workers) && workers == WithState(old(workers), w, Idle)
      ensures known ==> workers[w] == WorkerInfo(old(workers)[w].endpoint, old(workers)[w].registrationId, Idle)
      ensures workers.Keys == old(workers).Keys && forall v :: v in workers && v != w ==> workers[v] == old(workers)[v]
    {
      known := w in workers;
      if known { workers := workers[w := workers[w].(state := Idle)]; }
    }

    /** The ids for which `keep` holds; a hash map lists them in no particular order. */
    method Filter(keep: WorkerState -> bool) returns (found: seq<WorkerId>)
      ensures forall w :: w in found <==> w in workers && keep(workers[w].state)
    {
      found := [];
      var todo := workers.Keys;
      while todo != {}
        invariant todo <= workers.Keys
        invariant forall w :: w in found <==> w in workers && w !in todo && keep(workers[w].state)
        decreases todo
      {
        var w :| w in todo;
        if keep(workers[w].state) { found := found + [w]; }
        todo := todo - {w};
      }
    }

    /** An idle worker if there is one, else any worker that is not offline, else an error. */
    method SelectWorker() returns (chosen: Option<WorkerId>)
      ensures chosen.Some? ==> chosen.value in workers && workers[chosen.value].state != Offline
      ensures chosen.Some? && (exists v :: v in workers && workers[v].state == Idle) ==> workers[chosen.value].state == Idle
      ensures chosen.None? <==> forall v :: v in workers ==> workers[v].state == Offline
    {
      var idle := Filter((s: WorkerState) => s.Idle?);
      if idle != [] {
        assert idle[0] in idle && IsIdle(workers, idle[0]) && IsOnline(workers, idle[0]);
        return Some(idle[0]);
      }
      forall v ensures !IsIdle(workers, v) { assert v !in idle; }
      var online := Filter((s: WorkerState) => !s.Offline?);
      if online != [] {
        assert online[0] in online && IsOnline(workers, online[0]);
        return Some(online[0]);
      }
      forall v ensures !IsOnline(workers, v) { assert v !in online; }
      chosen := None;
    }
  }

  const NANOS := 1_000_000_000

  /** Whole seconds in a duration of `nanos`, rounded toward zero. */
  function NumSeconds(nanos: int): int {
    if nanos >= 0 then nanos / NANOS else -((-nanos) / NANOS)
  }

  predicate Stale(p: PendingRequest, now: int, maxAgeSecs: int) {
    NumSeconds(now - p.createdAt) > maxAgeSecs
  }

  /** For a limit of zero or more seconds, stale means a full second over the limit. */
  lemma StaleMeans(p: PendingRequest, now: int, maxAgeSecs: int)
    requires maxAgeSecs >= 0
    ensures Stale(p, now, maxAgeSecs) <==> now - p.createdAt >= (maxAgeSecs + 1) * 1_000_000_000
  {
  }

  /** Cancelling the listed requests one after the other. */
  function CancelEach(d: Desk, ids: seq<RequestId>): Desk {
    if ids == [] then d
    else
      var e := CancelEach(d, ids[..|ids| - 1]);
      Settled(e, ids[|ids| - 1], Cancelled(ids[|ids| - 1]), ByCancel)
  }

  /** A listed pending request leaves with one cancellation in its channel, if anyone still
      listens; every other request keeps its entry, its channel and its history. */
  lemma {:induction false} CancelEachSettles(d: Desk, ids: seq<RequestId>, r: RequestId)
    ensures CancelEach(d, ids).listening == d.listening
    ensures r in CancelEach(d, ids).pending <==> r in d.pending && r !in ids
    ensures r in d.pending && r !in ids ==> CancelEach(d, ids).pending[r] == d.pending[r]
    ensures Entered(CancelEach(d, ids), r) ==
            if r in d.pending && r in ids && r in d.listening then Entered(d, r) + [Cancelled(r)] else Entered(d, r)
    ensures Removed(CancelEach(d, ids), r) ==
            if r in d.pending && r in ids then Removed(d, r) + [ByCancel] else Removed(d, r)
  {
    if ids != [] {
      CancelEachSettles(d, ids[..|ids| - 1], r);
      assert ids == ids[..|ids| - 1] + [ids[|ids| - 1]];
    }
  }

  class InferenceRouter {
    var pending: map<RequestId, PendingRequest>
    var listening: set<RequestId>
    var entered: map<RequestId, seq<Response>>
    ghost var removed: map<RequestId, seq<Remover>>

    ghost function View(): Desk
      reads this
    {
      Desk(pending, listening, entered, removed)
    }

    constructor ()
      ensures View() == EMPTY
    {
      pending, listening, entered, removed := map[], {}, map[], map[];
    }

    method Insert(r: RequestId, p: PendingRequest)
      modifies this
      ensures View() == Inserted(old(View()), r, p)
      ensures pending == old(pending)[r := p] && listening == old(listening) + {r}
    {
      pending := pending[r := p];
      listening := listening + {r};
    }

    method Settle(r: RequestId, reply: Response, ghost why: Remover) returns (known: bool)
      modifies this
      ensures known == (r in old(pending))
      ensures View() == Settled(old(View()), r, reply, why)
    {
      known := r in pending;
      if known {
        if r in listening {
          entered := entered[r := (if r in entered then entered[r] else []) + [reply]];
        }
        pending := pending - {r};
        removed := removed[r := Removed(old(View()), r) + [why]];
      }
    }

    /** The reader passes the id the response itself carries. */
    method HandleResponse(reply: Response) returns (known: bool)
      modifies this
      ensures known == (reply.requestId in old(pending))
      ensures View() == Settled(old(View()), reply.requestId, reply, ByResponse)
      ensures pending == old(pending) - {reply.requestId}
      ensures Entered(View(), reply.requestId) == Entered(old(View()), reply.requestId) +
                if known && reply.requestId in old(listening) then [reply] else []
    {
      known := Settle(reply.requestId, reply, ByResponse);
    }

    method CancelRequest(r: RequestId) returns (known: bool)
      modifies this
      ensures known == (r in old(pending))
      ensures View() == Settled(old(View()), r, Cancelled(r), ByCancel)
      ensures pending == old(pending) - {r}
      ensures Entered(View(), r) == Entered(old(View()), r) +
                if known && r in old(listening) then [Response(r, false, "", "Request cancelled")] else []
    {
      known := Settle(r, Cancelled(r), ByCancel);
    }

    method StaleRequests(now: int, maxAgeSecs: int) returns (ids: seq<RequestId>)
      ensures forall r :: r in ids <==> r in pending && Stale(pending[r], now, maxAgeSecs)
    {
      ids := [];
      var todo := pending.Keys;
      while todo != {}
        invariant todo <= pending.Keys
        invariant forall r :: r in ids <==> r in pending && r !in todo && Stale(pending[r], now, maxAgeSecs)
        decreases todo
      {
        var r :| r in todo;
        if Stale(pending[r], now, maxAgeSecs) { ids := ids + [r]; }
        todo := todo - {r};
      }
    }

    /** Afterwards exactly the requests that were not stale are pending, and each stale one
        was cancelled once. */
    method CleanupStaleRequests(now: int, maxAgeSecs: int)
      modifies this
      ensures forall r :: r in pending <==> r in old(pending) && !Stale(old(pending)[r], now, maxAgeSecs)
      ensures forall r :: r in pending ==> pending[r] == old(pending)[r]
      ensures forall r :: Entered(View(), r) ==
                          if r in old(pending) && r !in pending && r in old(listening)
                          then Entered(old(View()), r) + [Response(r, false, "", "Request cancelled")] else Entered(old(View()), r)
      ensures forall r :: Removed(View(), r) ==
                          if r in old(pending) && r !in pending
                          then Removed(old(View()), r) + [ByCancel] else Removed(old(View()), r)
    {
      var ids := StaleRequests(now, maxAgeSecs);
      for i := 0 to |ids|
        invariant View() == CancelEach(old(View()), ids[..i])
      {
        assert ids[..i + 1][..i] == ids[..i];
        var _ := CancelRequest(ids[i]);
      }
      assert ids[..|ids|] == ids;
      forall r
        ensures r in pending <==> r in old(pending) && r !in ids
        ensures r in pending ==> pending[r] == old(pending)[r]
        ensures Entered(View(), r) ==
                if r in old(pending) && r in ids && r in old(listening)
                then Entered(old(View()), r) + [Cancelled(r)] else Entered(old(View()), r)
        ensures Removed(View(), r) ==
                if r in old(pending) && r in ids then Removed(old(View()), r) + [ByCancel] else Removed(old(View()), r)
      {
        CancelEachSettles(old(View()), ids, r);
      }
    }
  }
}
