/** The 15-minute context slices of cozmio_memory/src/slice_builder.rs. */
module Slices {
  import opened Options
  import opened Sequences
  import opened Sorting

  datatype MemoryEvent = MemoryEvent(id: int, timestamp: string, content: string, windowTitle: Option<string>)

  datatype Slice = Slice(startTime: int, endTime: int, description: string, rawRefs: seq<int>, generated: bool)

  /** The parts taken as given: what time a timestamp text means, if it is readable in any of the
      accepted forms, and the text made from a window's events. */
  datatype Reading = Reading(parse: string -> Option<int>, describe: seq<MemoryEvent> -> string)

  const WINDOW := 900

  /** Rust's `/`: the quotient is rounded toward zero. */
  function TruncDiv(a: int, b: int): int
    requires b > 0
  {
    if a >= 0 then a / b else -((-a) / b)
  }

  function FloorTo15Min(timestamp: int): int {
    TruncDiv(timestamp, WINDOW) * WINDOW
  }

  /** An event with what the clock says, should its timestamp be unreadable: first when the events
      are grouped, and again when the bounds of its window are computed. */
  datatype Dated = Dated(event: MemoryEvent, first: int, second: int)

  predicate Readable(f: Reading, e: Dated) { f.parse(e.event.timestamp).Some? }

  /** An unreadable timestamp counts as the current time. */
  function Key(f: Reading, e: Dated): int {
    FloorTo15Min(if Readable(f, e) then f.parse(e.event.timestamp).value else e.first)
  }

  /** The same when the timestamp is read once more. */
  function KeyAgain(f: Reading, e: Dated): int {
    FloorTo15Min(if Readable(f, e) then f.parse(e.event.timestamp).value else e.second)
  }

  /** Each event's clock readings are in order. */
  predicate Forward(events: seq<Dated>) {
    forall e :: e in events ==> e.first <= e.second
  }

  function Keys(f: Reading, events: seq<Dated>): set<int> {
    set e | e in events :: Key(f, e)
  }

  /** The events of one window, in order. */
  function Window(f: Reading, events: seq<Dated>, key: int): seq<Dated> {
    if events == [] then []
    else
      var e := events[|events| - 1];
      Window(f, events[..|events| - 1], key) + if Key(f, e) == key then [e] else []
  }

  function Ids(events: seq<Dated>): (ids: seq<int>)
    ensures |ids| == |events| && forall i :: 0 <= i < |events| ==> ids[i] == events[i].event.id
  {
    seq(|events|, i requires 0 <= i < |events| => events[i].event.id)
  }

  function Plain(events: seq<Dated>): (plain: seq<MemoryEvent>)
    ensures |plain| == |events|
  {
    seq(|events|, i requires 0 <= i < |events| => events[i].event)
  }

  /** The least key when the timestamps are read again, if there are any. */
  function MinKey(f: Reading, events: seq<Dated>): Option<int> {
    if events == [] then None
    else
      var last := KeyAgain(f, events[|events| - 1]);
      var least := MinKey(f, events[..|events| - 1]);
      if least.None? || last < least.value then Some(last) else least
  }

  /** The slice of a window; grouping makes no empty ones. */
  function SliceOf(f: Reading, window: seq<Dated>): Slice {
    var least := MinKey(f, window);
    var start := if least.Some? then least.value else 0;
    Slice(start, start + WINDOW - 1, f.describe(Plain(window)), Ids(window), true)
  }

  /** An order in which a hash map may yield the window keys. */
  predicate Listing(f: Reading, events: seq<Dated>, order: seq<int>) {
    NoDup(order) && (forall i :: 0 <= i < |order| ==> order[i] in Keys(f, events)) && (forall k :: k in Keys(f, events) ==> k in order)
  }

  lemma {:induction false} WindowNotEmpty(f: Reading, events: seq<Dated>, key: int)
    ensures Window(f, events, key) != [] <==> key in Keys(f, events)
  {
    if events != [] {
      var front, e := events[..|events| - 1], events[|events| - 1];
      WindowNotEmpty(f, front, key);
      assert events == front + [e];
    }
  }

  /** One slice per window, in the order given. */
  function Built(f: Reading, events: seq<Dated>, order: seq<int>): (slices: seq<Slice>)
    ensures |slices| == |order|
  {
    if order == [] then []
    else
      Built(f, events, order[..|order| - 1]) + [SliceOf(f, Window(f, events, order[|order| - 1]))]
  }

  lemma {:induction false} BuiltAt(f: Reading, events: seq<Dated>, order: seq<int>, i: nat)
    requires i < |order|
    ensures Built(f, events, order)[i] == SliceOf(f, Window(f, events, order[i]))
  {
    if i < |order| - 1 { BuiltAt(f, events, order[..|order| - 1], i); }
  }

  lemma BuiltMore(f: Reading, events: seq<Dated>, order: seq<int>, k: int)
    ensures Built(f, events, order + [k]) ==
            Built(f, events, order) + [SliceOf(f, Window(f, events, k))]
  {
    assert (order + [k])[..|order|] == order;
  }

  /** The windows whose slices could be inserted. */
  function Stored(order: seq<int>, failed: set<int>): seq<int> {
    if order == [] then []
    else
      Stored(order[..|order| - 1], failed) + if order[|order| - 1] in failed then [] else [order[|order| - 1]]
  }

  /** What `DELETE ... WHERE evidence_source = 'generated'` leaves. */
  function Kept(slices: seq<Slice>): seq<Slice> {
    if slices == [] then []
    else Kept(slices[..|slices| - 1]) + if slices[|slices| - 1].generated then [] else [slices[|slices| - 1]]
  }

  // ------------------------------------------------------------------ methods

  /** Without any timestamps the bounds start `now`. */
  method ComputeWindowBounds(f: Reading, window: seq<Dated>, now: int) returns (start: int, end: int)
    ensures start == (if window == [] then now else SliceOf(f, window).startTime) && end == start + WINDOW - 1
  {
    var least: Option<int> := None;
    for i := 0 to |window|
      invariant least == MinKey(f, window[..i])
    {
      assert window[..i + 1][..i] == window[..i];
      var key := KeyAgain(f, window[i]);
      if least.Some? {
        if key < least.value { least := Some(key); }
      } else {
        least := Some(key);
      }
    }
    assert window[..|window|] == window;
    start := if least.Some? then least.value else now;
    end := start + WINDOW - 1;
  }

  method GroupIntoWindows(f: Reading, events: seq<Dated>) returns (windows: map<int, seq<Dated>>)
    ensures windows.Keys == Keys(f, events)
    ensures forall k :: k in windows ==> windows[k] == Window(f, events, k)
  {
    windows := map[];
    for i := 0 to |events|
      invariant windows.Keys == Keys(f, events[..i])
      invariant forall k :: k in windows ==> windows[k] == Window(f, events[..i], k)
    {
      assert events[..i + 1] == events[..i] + [events[i]];
      var key := Key(f, events[i]);
      WindowNotEmpty(f, events[..i], key);
      windows := windows[key := (if key in windows then windows[key] else []) + [events[i]]];
    }
    assert events[..|events|] == events;
  }

  method BuildSliceFromWindow(f: Reading, window: seq<Dated>, now: int) returns (slice: Slice)
    ensures window != [] ==> slice == SliceOf(f, window)
    ensures window == [] ==> slice.startTime == now && slice.rawRefs == []
  {
    var start, end := ComputeWindowBounds(f, window, now);
    slice := Slice(start, end, f.describe(Plain(window)), Ids(window), true);
  }

  class SliceStore {
    var slices: seq<Slice>

    constructor ()
      ensures slices == []
    {
      slices := [];
    }

    /** With no imported events nothing is cleared.  `order` is what the hash map yields, `failed` the
        windows whose insert fails: these are skipped and not counted. */
    method BuildSlicesFromEvents(f: Reading, events: seq<Dated>, order: seq<int>, failed: set<int>)
      returns (count: nat)
      requires Listing(f, events, order)
      modifies this
      ensures events == [] ==> count == 0 && slices == old(slices)
      ensures events != [] ==>
                count == |Stored(order, failed)|
                && slices == Kept(old(slices)) + Built(f, events, Stored(order, failed))
    {
      if events == [] { return 0; }
      slices := Kept(slices);
      ghost var kept := slices;
      var windows := GroupIntoWindows(f, events);
      assert forall i :: 0 <= i < |order| ==> order[i] in windows;
      count := 0;
      for i := 0 to |order|
        invariant count == |Stored(order[..i], failed)|
        invariant slices == kept + Built(f, events, Stored(order[..i], failed))
      {
        OneMoreWindow(f, events, order, failed, i);
        WindowNotEmpty(f, events, order[i]);
        var window := windows[order[i]];
        var slice := BuildSliceFromWindow(f, window, window[0].second);
        if order[i] !in failed {
          slices := slices + [slice];
          count := count + 1;
        }
      }
      assert order[..|order|] == order;
    }
  }

  lemma OneMoreWindow(f: Reading, events: seq<Dated>, order: seq<int>, failed: set<int>, i: nat)
    requires i < |order|
    ensures var before, after := Stored(order[..i], failed), Stored(order[..i + 1], failed);
            if order[i] in failed then after == before
            else |after| == |before| + 1
                 && Built(f, events, after) ==
                    Built(f, events, before) + [SliceOf(f, Window(f, events, order[i]))]
  {
    assert order[..i + 1][..i] == order[..i];
    assert Stored(order[..i], failed) + [] == Stored(order[..i], failed);
    BuiltMore(f, events, Stored(order[..i], failed), order[i]);
  }

  // ------------------------------------------------------------------ the slices partition the events

  /** The raw refs of some slices taken together. */
  function AllRefs(slices: seq<Slice>): multiset<int> {
    if slices == [] then multiset{} else AllRefs(slices[..|slices| - 1]) + multiset(slices[|slices| - 1].rawRefs)
  }

  /** The ids of the events of some windows taken together. */
  function IdsOver(f: Reading, events: seq<Dated>, order: seq<int>): multiset<int> {
    if order == [] then multiset{}
    else IdsOver(f, events, order[..|order| - 1]) + multiset(Ids(Window(f, events, order[|order| - 1])))
  }

  lemma {:induction false} RefsOfBuilt(f: Reading, events: seq<Dated>, order: seq<int>)
    ensures AllRefs(Built(f, events, order)) == IdsOver(f, events, order)
  {
    if order != [] { RefsOfBuilt(f, events, order[..|order| - 1]); }
  }

  lemma WindowRefs(f: Reading, events: seq<Dated>, key: int)
    requires events != []
    ensures var e := events[|events| - 1];
            multiset(Ids(Window(f, events, key))) ==
            multiset(Ids(Window(f, events[..|events| - 1], key))) + if Key(f, e) == key then multiset{e.event.id} else multiset{}
  {
    IdsAppended(Window(f, events[..|events| - 1], key), events[|events| - 1]);
  }

  lemma IdsAppended(events: seq<Dated>, e: Dated)
    ensures multiset(Ids(events + [e])) == multiset(Ids(events)) + multiset{e.event.id}
    ensures multiset(Ids(events + [])) == multiset(Ids(events))
  {
    assert Ids(events + [e]) == Ids(events) + [e.event.id];
    assert events + [] == events;
  }

  lemma {:induction false} RefsWithLast(f: Reading, events: seq<Dated>, order: seq<int>)
    requires events != [] && NoDup(order)
    ensures var e := events[|events| - 1];
            IdsOver(f, events, order) ==
            IdsOver(f, events[..|events| - 1], order) + if Key(f, e) in order then multiset{e.event.id} else multiset{}
  {
    if order != [] {
      var front, k := order[..|order| - 1], order[|order| - 1];
      RefsWithLast(f, events, front);
      WindowRefs(f, events, k);
      LastOnce(order);
    }
  }

  lemma LastOnce(order: seq<int>)
    requires order != [] && NoDup(order)
    ensures order[|order| - 1] !in order[..|order| - 1] && NoDup(order[..|order| - 1])
    ensures forall k :: k in order <==> k in order[..|order| - 1] || k == order[|order| - 1]
  {
    assert order == order[..|order| - 1] + [order[|order| - 1]];
  }

  /** The events whose window is among those listed. */
  function EventsIn(f: Reading, events: seq<Dated>, order: seq<int>): seq<Dated> {
    if events == [] then []
    else
      var e := events[|events| - 1];
      EventsIn(f, events[..|events| - 1], order) + if Key(f, e) in order then [e] else []
  }

  lemma {:induction false} RefsAreIds(f: Reading, events: seq<Dated>, order: seq<int>)
    requires NoDup(order)
    ensures IdsOver(f, events, order) == multiset(Ids(EventsIn(f, events, order)))
  {
    if events == [] {
      NoRefs(f, order);
    } else {
      RefsAreIds(f, events[..|events| - 1], order);
      RefsWithLast(f, events, order);
      IdsAppended(EventsIn(f, events[..|events| - 1], order), events[|events| - 1]);
    }
  }

  lemma {:induction false} NoRefs(f: Reading, order: seq<int>)
    ensures IdsOver(f, [], order) == multiset{}
  {
    if order != [] { NoRefs(f, order[..|order| - 1]); }
  }

  lemma {:induction false} AllEventsIn(f: Reading, events: seq<Dated>, order: seq<int>)
    requires forall e :: e in events ==> Key(f, e) in order
    ensures EventsIn(f, events, order) == events
  {
    if events != [] {
      var front, e := events[..|events| - 1], events[|events| - 1];
      assert events == front + [e];
      AllEventsIn(f, front, order);
    }
  }

  lemma {:induction false} InWindow(f: Reading, events: seq<Dated>, key: int, e: Dated)
    ensures e in Window(f, events, key) <==> e in events && Key(f, e) == key
  {
    if events != [] {
      InWindow(f, events[..|events| - 1], key, e);
      assert events == events[..|events| - 1] + [events[|events| - 1]];
    }
  }

  lemma {:induction false} ListedCount(order: seq<int>, keys: set<int>)
    requires NoDup(order) && (forall k :: k in order <==> k in keys)
    ensures |order| == |keys|
  {
    if order != [] {
      var front, k := order[..|order| - 1], order[|order| - 1];
      assert order == front + [k];
      ListedCount(front, keys - {k});
    } else {
      assert forall k :: k in keys ==> k in order;
    }
  }

  /** Slices built for some windows hold the ids of exactly those windows' events, each as often as
      it occurs: what a failed insert loses is its own window. */
  lemma SlicesHoldTheirEvents(f: Reading, events: seq<Dated>, order: seq<int>)
    requires NoDup(order)
    ensures AllRefs(Built(f, events, order)) == multiset(Ids(EventsIn(f, events, order)))
  {
    RefsOfBuilt(f, events, order);
    RefsAreIds(f, events, order);
  }

  /** The slices share out the imported events: the raw refs of all slices together are the event
      ids, each as often as it occurs, and there is one slice per distinct window key. */
  lemma SlicesPartition(f: Reading, events: seq<Dated>, order: seq<int>)
    requires Listing(f, events, order)
    ensures AllRefs(Built(f, events, order)) == multiset(Ids(events))
    ensures |Built(f, events, order)| == |Keys(f, events)|
  {
    SlicesHoldTheirEvents(f, events, order);
    forall e | e in events ensures Key(f, e) in order { assert Key(f, e) in Keys(f, events); }
    AllEventsIn(f, events, order);
    ListedCount(order, Keys(f, events));
  }

  predicate DistinctIds(events: seq<Dated>) {
    forall i, j :: 0 <= i < j < |events| ==> events[i].event.id != events[j].event.id
  }

  /** Each event is in the slice of its own window and in no other. */
  lemma InExactlyOneSlice(f: Reading, events: seq<Dated>, order: seq<int>, e: Dated, i: nat)
    requires Listing(f, events, order) && DistinctIds(events) && e in events && i < |order|
    ensures e.event.id in Built(f, events, order)[i].rawRefs <==> order[i] == Key(f, e)
  {
    BuiltAt(f, events, order, i);
    IdInWindow(f, events, order[i], e);
  }

  lemma IdInWindow(f: Reading, events: seq<Dated>, key: int, e: Dated)
    requires DistinctIds(events) && e in events
    ensures e.event.id in Ids(Window(f, events, key)) <==> Key(f, e) == key
  {
    var w := Window(f, events, key);
    InWindow(f, events, key, e);
    if e in w {
      var p :| 0 <= p < |w| && w[p] == e;
      assert Ids(w)[p] == e.event.id;
    }
    if e.event.id in Ids(w) {
      var p :| 0 <= p < |w| && Ids(w)[p] == e.event.id;
      InWindow(f, events, key, w[p]);
      assert w[p] == e;
    }
  }

  // ------------------------------------------------------------------ intervals

  /** A time lies in its window's quarter of an hour exactly when it is not negative or is itself a
      boundary: before the epoch the division rounds up. */
  lemma InInterval(t: int)
    ensures FloorTo15Min(t) <= t <= FloorTo15Min(t) + 899 <==> t >= 0 || t % 900 == 0
    ensures FloorTo15Min(t) % 900 == 0
  {
    if t < 0 {
      var q := (-t) / WINDOW;
      assert FloorTo15Min(t) == -q * WINDOW;
      assert -t == q * WINDOW + (-t) % WINDOW;
      assert (-t) % WINDOW == 0 <==> t % WINDOW == 0;
    }
  }

  /** No event of this window has a readable timestamp. */
  predicate AllUnreadable(f: Reading, events: seq<Dated>, key: int) {
    forall e :: e in events && Key(f, e) == key ==> !Readable(f, e)
  }

  lemma FloorMonotone(a: int, b: int)
    requires a <= b
    ensures FloorTo15Min(a) <= FloorTo15Min(b)
  {
    if b < 0 {
      assert (-b) / WINDOW <= (-a) / WINDOW;
    }
  }

  /** The earliest of the second clock readings. */
  function Earliest(window: seq<Dated>): int
    requires window != []
  {
    var last := window[|window| - 1].second;
    if |window| == 1 || last < Earliest(window[..|window| - 1]) then last else Earliest(window[..|window| - 1])
  }

  lemma {:induction false} LeastOfUnreadable(f: Reading, window: seq<Dated>)
    requires window != [] && forall d :: d in window ==> !Readable(f, d)
    ensures MinKey(f, window) == Some(FloorTo15Min(Earliest(window)))
  {
    var front, last := window[..|window| - 1], window[|window| - 1];
    assert window == front + [last];
    if front != [] {
      LeastOfUnreadable(f, front);
      if last.second < Earliest(front) {
        FloorMonotone(last.second, Earliest(front));
      } else {
        FloorMonotone(Earliest(front), last.second);
      }
    }
  }

  lemma {:induction false} LeastKey(f: Reading, window: seq<Dated>, e: Dated)
    requires e in window && forall d :: d in window ==> KeyAgain(f, d) >= KeyAgain(f, e)
    ensures MinKey(f, window) == Some(KeyAgain(f, e))
  {
    var front, last := window[..|window| - 1], window[|window| - 1];
    assert window == front + [last];
    if e in front {
      LeastKey(f, front, e);
    } else if front != [] {
      LeastAbove(f, front, KeyAgain(f, e));
    }
  }

  lemma {:induction false} LeastAbove(f: Reading, window: seq<Dated>, bound: int)
    requires window != [] && forall d :: d in window ==> KeyAgain(f, d) >= bound
    ensures MinKey(f, window).Some? && MinKey(f, window).value >= bound
  {
    var front, last := window[..|window| - 1], window[|window| - 1];
    assert window == front + [last];
    if front != [] { LeastAbove(f, front, bound); }
  }

  /** Where the slice of a window starts: at its key if any of its events is readable, else in the
      quarter of an hour of the earliest second reading. */
  function Opens(f: Reading, events: seq<Dated>, key: int): int
    requires key in Keys(f, events)
  {
    WindowNotEmpty(f, events, key);
    if AllUnreadable(f, events, key) then FloorTo15Min(Earliest(Window(f, events, key))) else key
  }

  /** The clock moves on between grouping and computing the bounds: a slice starts where it opens. */
  lemma SliceStart(f: Reading, events: seq<Dated>, key: int)
    requires Forward(events) && key in Keys(f, events)
    ensures SliceOf(f, Window(f, events, key)).startTime == Opens(f, events, key)
  {
    var w := Window(f, events, key);
    WindowNotEmpty(f, events, key);
    forall d | d in w ensures d in events && Key(f, d) == key && KeyAgain(f, d) >= key {
      InWindow(f, events, key, d);
      FloorMonotone(d.first, d.second);
    }
    if AllUnreadable(f, events, key) {
      LeastOfUnreadable(f, w);
    } else {
      var e :| e in events && Key(f, e) == key && Readable(f, e);
      InWindow(f, events, key, e);
      LeastKey(f, w, e);
    }
  }

  /** An event with a readable timestamp lies in the interval of its slice exactly when its time is
      not negative or is a window boundary. */
  lemma EventInItsSlice(f: Reading, events: seq<Dated>, e: Dated)
    requires Forward(events) && e in events && Readable(f, e)
    ensures var s := SliceOf(f, Window(f, events, Key(f, e)));
            var t := f.parse(e.event.timestamp).value;
            s.startTime <= t <= s.endTime <==> t >= 0 || t % WINDOW == 0
  {
    SliceStart(f, events, Key(f, e));
    InInterval(f.parse(e.event.timestamp).value);
  }

  predicate Disjoint(s: Slice, t: Slice) {
    s.endTime < t.startTime || t.endTime < s.startTime
  }

  predicate AllDisjoint(slices: seq<Slice>) {
    forall i, j :: 0 <= i < |slices| && 0 <= j < |slices| && i != j ==> Disjoint(slices[i], slices[j])
  }

  /** A window of unreadable events only opens where another window does: the clock has moved on
      into one that has events of its own, or has caught up with two such windows. */
  predicate Stray(f: Reading, events: seq<Dated>) {
    exists k, l :: k in Keys(f, events) && l in Keys(f, events) && StrayPair(f, events, k, l)
  }

  predicate StrayPair(f: Reading, events: seq<Dated>, k: int, l: int)
    requires k in Keys(f, events) && l in Keys(f, events)
  {
    k != l && AllUnreadable(f, events, k) && Opens(f, events, k) == Opens(f, events, l)
  }

  lemma Apart(a: int, b: int)
    requires a % WINDOW == 0 && b % WINDOW == 0
    ensures a != b <==> a + WINDOW - 1 < b || b + WINDOW - 1 < a
  {
  }

  /** Where the slice of a listed window starts. */
  lemma ListedSlice(f: Reading, events: seq<Dated>, order: seq<int>, i: nat)
    requires Listing(f, events, order) && Forward(events) && i < |order|
    ensures var s := Built(f, events, order)[i];
            && s.startTime == Opens(f, events, order[i])
            && s.endTime == s.startTime + WINDOW - 1 && s.startTime % WINDOW == 0
  {
    BuiltAt(f, events, order, i);
    SliceStart(f, events, order[i]);
    KeyIsBoundary(f, events, order[i]);
    WindowNotEmpty(f, events, order[i]);
    InInterval(Earliest(Window(f, events, order[i])));
  }

  /** Without a stray window, different slices are disjoint. */
  lemma TwoDisjoint(f: Reading, events: seq<Dated>, order: seq<int>, i: nat, j: nat)
    requires Listing(f, events, order) && Forward(events) && !Stray(f, events)
    requires i < |order| && j < |order| && i != j
    ensures Disjoint(Built(f, events, order)[i], Built(f, events, order)[j])
  {
    ListedSlice(f, events, order, i);
    ListedSlice(f, events, order, j);
    assert order[i] != order[j];
    assert !StrayPair(f, events, order[i], order[j]) && !StrayPair(f, events, order[j], order[i]);
    Apart(Built(f, events, order)[i].startTime, Built(f, events, order)[j].startTime);
  }

  /** The slices are pairwise disjoint exactly when there is no stray window; the slice of a stray
      window has the very interval of another one. */
  lemma SlicesDisjoint(f: Reading, events: seq<Dated>, order: seq<int>)
    requires Listing(f, events, order) && Forward(events)
    ensures AllDisjoint(Built(f, events, order)) <==> !Stray(f, events)
  {
    var slices := Built(f, events, order);
    if Stray(f, events) {
      var k, l :| k in Keys(f, events) && l in Keys(f, events) && StrayPair(f, events, k, l);
      var i :| 0 <= i < |order| && order[i] == k;
      var j :| 0 <= j < |order| && order[j] == l;
      ListedSlice(f, events, order, i);
      ListedSlice(f, events, order, j);
      assert !Disjoint(slices[i], slices[j]);
    } else {
      forall i, j | 0 <= i < |slices| && 0 <= j < |slices| && i != j ensures Disjoint(slices[i], slices[j]) {
        TwoDisjoint(f, events, order, i, j);
      }
    }
  }

  /** When every timestamp is readable the slices are disjoint. */
  lemma ReadableDisjoint(f: Reading, events: seq<Dated>, order: seq<int>)
    requires Listing(f, events, order) && Forward(events) && forall e :: e in events ==> Readable(f, e)
    ensures AllDisjoint(Built(f, events, order))
  {
    SlicesDisjoint(f, events, order);
  }

  /** Two events whose windows are those of the epoch and of second 900, the first unreadable and its
      bounds computed at second 900. */
  predicate SecondLate(f: Reading, a: Dated, b: Dated) {
    !Readable(f, a) && Key(f, a) == 0 && a.second == 900 && Key(f, b) == 900 && KeyAgain(f, b) == 900 && b.first <= b.second
  }

  lemma TwoWindows(f: Reading, a: Dated, b: Dated)
    requires Key(f, a) == 0 && Key(f, b) == 900
    ensures Keys(f, [a, b]) == {0, 900} && Window(f, [a, b], 0) == [a] && Window(f, [a, b], 900) == [b]
  {
    assert [a, b][..1] == [a] && [a][..0] == [];
    assert a in [a, b] && b in [a, b];
    assert Window(f, [a], 0) == [a] && Window(f, [a], 900) == [];
  }

  lemma SecondLateStrays(f: Reading, a: Dated, b: Dated)
    requires SecondLate(f, a, b) && a.first <= 900
    ensures Listing(f, [a, b], [0, 900]) && Forward([a, b]) && Stray(f, [a, b])
    ensures Built(f, [a, b], [0, 900])[0].startTime == 900 == Built(f, [a, b], [0, 900])[1].startTime
  {
    var events := [a, b];
    TwoWindows(f, a, b);
    ListedSlice(f, events, [0, 900], 0);
    ListedSlice(f, events, [0, 900], 1);
    assert StrayPair(f, events, 0, 900);
  }

  /** Such a batch: an unreadable event grouped at the epoch, another at second 900, and bounds that
      are computed a quarter of an hour later give two slices of the same interval. */
  lemma StrayWindow(f: Reading, a: MemoryEvent, b: MemoryEvent)
    requires f.parse(a.timestamp).None? && f.parse(b.timestamp) == Some(900)
    ensures var events := [Dated(a, 0, 900), Dated(b, 0, 900)];
            && Listing(f, events, [0, 900]) && Forward(events) && Stray(f, events)
            && Built(f, events, [0, 900])[0].startTime == 900 == Built(f, events, [0, 900])[1].startTime
  {
    SecondLateStrays(f, Dated(a, 0, 900), Dated(b, 0, 900));
  }

  /** And two unreadable events grouped on either side of a quarter, one second apart. */
  lemma StrayTwins(f: Reading, a: MemoryEvent, b: MemoryEvent)
    requires f.parse(a.timestamp).None? && f.parse(b.timestamp).None?
    ensures var events := [Dated(a, 899, 900), Dated(b, 900, 900)];
            && Listing(f, events, [0, 900]) && Forward(events) && Stray(f, events)
            && Built(f, events, [0, 900])[0].startTime == 900 == Built(f, events, [0, 900])[1].startTime
  {
    SecondLateStrays(f, Dated(a, 899, 900), Dated(b, 900, 900));
  }

  lemma KeyIsBoundary(f: Reading, events: seq<Dated>, key: int)
    requires key in Keys(f, events)
    ensures key % WINDOW == 0
  {
    var e :| e in events && Key(f, e) == key;
    InInterval(if Readable(f, e) then f.parse(e.event.timestamp).value else e.first);
  }

  // ------------------------------------------------------------------ order of the hash map

  lemma {:induction false} BuiltIsEach(f: Reading, events: seq<Dated>, g: int -> Slice, order: seq<int>)
    requires forall k :: g(k) == SliceOf(f, Window(f, events, k))
    ensures Built(f, events, order) == Each(g, order)
  {
    if order != [] { BuiltIsEach(f, events, g, order[..|order| - 1]); }
  }

  /** Whatever order the hash map yields its windows in, the same slices come out. */
  lemma HashOrderIrrelevant(f: Reading, events: seq<Dated>, first: seq<int>, second: seq<int>)
    requires Listing(f, events, first) && Listing(f, events, second)
    ensures multiset(Built(f, events, first)) == multiset(Built(f, events, second))
  {
    var g := (k: int) => SliceOf(f, Window(f, events, k));
    BuiltIsEach(f, events, g, first);
    BuiltIsEach(f, events, g, second);
    forall k ensures k in first <==> k in second {
      assert k in first <==> k in Keys(f, events);
    }
    SameElements(first, second);
    EachPermuted(g, first, second);
  }

  lemma {:induction false} KeptThenBuilt(kept: seq<Slice>, f: Reading, events: seq<Dated>, order: seq<int>)
    ensures Kept(kept + Built(f, events, order)) == Kept(kept)
  {
    if order == [] {
      assert kept + [] == kept;
    } else {
      var front, k := order[..|order| - 1], order[|order| - 1];
      var s := SliceOf(f, Window(f, events, k));
      KeptThenBuilt(kept, f, events, front);
      assert kept + Built(f, events, order) == (kept + Built(f, events, front)) + [s];
    }
  }

  lemma {:induction false} KeptTwice(slices: seq<Slice>)
    ensures Kept(Kept(slices)) == Kept(slices)
  {
    if slices != [] {
      var last := slices[|slices| - 1];
      KeptTwice(slices[..|slices| - 1]);
      var k := Kept(slices[..|slices| - 1]);
      assert k + [] == k && (k + [last])[..|k|] == k;
    }
  }

  /** Building again replaces the generated slices by the same ones and touches no others,
      whatever orders the hash map yields. */
  lemma RebuildReplaces(before: seq<Slice>, f: Reading, events: seq<Dated>, first: seq<int>, second: seq<int>)
    requires Listing(f, events, first) && Listing(f, events, second)
    ensures var once := Kept(before) + Built(f, events, first);
            var twice := Kept(once) + Built(f, events, second);
            multiset(twice) == multiset(once) && Kept(twice) == Kept(before)
  {
    KeptTwice(before);
    KeptThenBuilt(Kept(before), f, events, first);
    KeptThenBuilt(Kept(before), f, events, second);
    HashOrderIrrelevant(f, events, first, second);
  }

  // ------------------------------------------------------------------ the most frequent items

  datatype Counted = Counted(item: string, count: nat)

  /** Count descending, then the item itself by the given order. */
  predicate MoreFrequent(le: (string, string) -> bool, a: Counted, b: Counted) {
    a.count > b.count || (a.count == b.count && le(a.item, b.item))
  }

  function TopN(le: (string, string) -> bool, listed: seq<Counted>, n: nat): seq<Counted> {
    var sorted := Sort(listed, (a, b) => MoreFrequent(le, a, b));
    if |sorted| <= n then sorted else sorted[..n]
  }

  /** The most frequent items do not depend on the order in which the hash map lists them. */
  lemma TopNIsOrderFree(le: (string, string) -> bool, first: seq<Counted>, second: seq<Counted>, n: nat)
    requires Ordering(le) && (forall a, b :: le(a, b) && le(b, a) ==> a == b)
    requires multiset(first) == multiset(second)
    ensures TopN(le, first, n) == TopN(le, second, n)
  {
    var before := (a, b) => MoreFrequent(le, a, b);
    assert Ordering(before);
    SortSorted(first, before);
    SortSorted(second, before);
    SortMultiset(first, before);
    SortMultiset(second, before);
    SortedUnique(Sort(first, before), Sort(second, before), before);
  }
}
