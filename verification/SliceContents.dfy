/** What is in a slice, which slices a build clears and stores, and which items are listed. */
module SliceContents {
  import opened Options
  import opened Sequences
  import opened Sorting
  import opened Slices

  /** A slice takes up 900 seconds, lists its events' ids in their order, is described by its own events
      and marked as generated. */
  lemma SliceIs(f: Reading, window: seq<Dated>, own: seq<MemoryEvent>)
    requires |own| == |window| && forall i :: 0 <= i < |window| ==> own[i] == window[i].event
    ensures var s := SliceOf(f, window);
            && s.endTime == s.startTime + 899 && s.generated && s.description == f.describe(own)
            && |s.rawRefs| == |own| && forall i :: 0 <= i < |own| ==> s.rawRefs[i] == own[i].id
  {
    assert Plain(window) == own;
  }

  lemma CountMore<T>(xs: seq<T>, y: T, x: T)
    ensures multiset(xs + [y])[x] == multiset(xs)[x] + if x == y then 1 else 0
  {
  }

  /** Clearing takes out every generated slice and leaves every other one, as often as it was there. */
  lemma {:induction false} KeptAre(slices: seq<Slice>, s: Slice)
    ensures multiset(Kept(slices))[s] == if s.generated then 0 else multiset(slices)[s]
  {
    if slices != [] {
      var front, last := slices[..|slices| - 1], slices[|slices| - 1];
      KeptAre(front, s);
      CountMore(front, last, s);
      CountMore(Kept(front), last, s);
      assert slices == front + [last] && Kept(front) + [] == Kept(front);
    }
  }

  /** Slices are stored of the listed windows whose insert does not fail, each once. */
  lemma {:induction false} StoredAre(order: seq<int>, failed: set<int>, key: int)
    requires NoDup(order)
    ensures multiset(Stored(order, failed))[key] == if key in order && key !in failed then 1 else 0
  {
    if order != [] {
      var front, last := order[..|order| - 1], order[|order| - 1];
      LastOnce(order);
      StoredAre(front, failed, key);
      assert Stored(front, failed) + [] == Stored(front, failed);
    }
  }

  /** The more frequent item of two, and of equally frequent ones the one that comes first. */
  predicate Outranks(le: (string, string) -> bool, a: Counted, b: Counted) {
    a.count >= b.count && (a.count == b.count ==> le(a.item, b.item))
  }

  /** The most frequent items, as many as there are or are asked for, in that order, and none left out
      outranks one that is in. */
  lemma TopNIs(le: (string, string) -> bool, listed: seq<Counted>, n: nat)
    requires Ordering(le)
    ensures var top := TopN(le, listed, n);
            && |top| == (if |listed| <= n then |listed| else n)
            && (forall i :: 0 <= i < |top| ==> top[i] in listed)
            && (forall i, j :: 0 <= i < j < |top| ==> Outranks(le, top[i], top[j]))
            && (forall i, x :: 0 <= i < |top| && x in listed && x !in top ==> Outranks(le, top[i], x))
  {
    var before := (a, b) => MoreFrequent(le, a, b);
    var sorted, top := Sort(listed, before), TopN(le, listed, n);
    assert Ordering(before);
    SortSorted(listed, before);
    SortMultiset(listed, before);
    forall i | 0 <= i < |top| ensures top[i] in listed { SortMembers(listed, before, top[i]); }
    forall i, j | 0 <= i < j < |top| ensures Outranks(le, top[i], top[j]) { assert before(sorted[i], sorted[j]); }
    forall i, x | 0 <= i < |top| && x in listed && x !in top ensures Outranks(le, top[i], x) {
      SortMembers(listed, before, x);
      var k :| 0 <= k < |sorted| && sorted[k] == x;
      assert forall j :: 0 <= j < |top| ==> top[j] == sorted[j] && top[j] != x;
      assert before(sorted[i], sorted[k]);
    }
  }
}
