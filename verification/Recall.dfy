/** Ranked recall (cozmio_memory/src/agent_memory.rs) and its admission into the prompt
    (src-tauri/src/prompt_context.rs), which marks what it recalled as used and so feeds back
    into the ranking. */
module Recall {
  import opened Options
  import opened Sequences
  import opened AgentMemory
  import opened Sorting

  /** What the ranking sees of a memory.  `score` counts the query terms in its body. */
  datatype Ranked = Ranked(id: int, score: nat, used: int)

  /** Score and use count descending, then id ascending. */
  predicate Before(a: Ranked, b: Ranked) {
    a.score > b.score || (a.score == b.score && (a.used > b.used || (a.used == b.used && a.id <= b.id)))
  }

  predicate Active(m: Memory, now: int) {
    m.lifecycle == "active" && (m.expiresAt.None? || m.expiresAt.value > now)
  }

  predicate Matches(m: Memory, score: string -> nat, now: int) {
    Active(m, now) && score(m.body) > 0
  }

  /** The active memories among the first `n` that match at all, by id. */
  function Candidates(s: Store, score: string -> nat, now: int, n: nat): seq<Ranked>
    requires n <= |s.memories|
  {
    if n == 0 then []
    else
      var m := s.memories[n - 1];
      Candidates(s, score, now, n - 1) + if Matches(m, score, now) then [Ranked(n, score(m.body), m.usedCount)] else []
  }

  function Ranking(s: Store, score: string -> nat, now: int): seq<Ranked> {
    Sort(Candidates(s, score, now, |s.memories|), Before)
  }

  function Ids(rs: seq<Ranked>): (ids: seq<int>)
    ensures |ids| == |rs| && forall i :: 0 <= i < |rs| ==> ids[i] == rs[i].id
  {
    seq(|rs|, i requires 0 <= i < |rs| => rs[i].id)
  }

  function Recalled(s: Store, score: string -> nat, now: int, limit: nat): seq<int> {
    Ids(Cut(Ranking(s, score, now), limit))
  }

  /** When one round of recalling and marking happens, and how each of its marks fares; marks beyond
      the listed ones succeed. */
  datatype Round = Round(now: int, faults: seq<Fault>)

  function FaultAt(round: Round, i: nat): Fault {
    if i < |round.faults| then round.faults[i] else NoFault
  }

  /** Marking memories used, one after the other; unknown ids and failures are reported and skipped. */
  function MarkAll(s: Store, ids: seq<int>, round: Round): Store {
    if ids == [] then s
    else
      var last := |ids| - 1;
      var t := MarkAll(s, ids[..last], round);
      if Exists(t, ids[last]) then Performed(t, Used(t, ids[last], round.now), FaultAt(round, last)) else t
  }

  /** The ids whose counts were written. */
  function Written(ids: seq<int>, round: Round): set<int> {
    set i | 0 <= i < |ids| && !FaultAt(round, i).WriteFails? :: ids[i]
  }

  predicate AllWritten(round: Round) {
    forall i :: 0 <= i < |round.faults| ==> !round.faults[i].WriteFails?
  }

  // ------------------------------------------------------------------ methods

  method RecallActiveByText(store: AgentMemoryStore, score: string -> nat, now: int, limit: nat) returns (ids: seq<int>)
    ensures ids == Recalled(store.View(), score, now, limit)
  {
    var s := store.View();
    var found: seq<Ranked> := [];
    for n := 0 to |s.memories|
      invariant found == Candidates(s, score, now, n)
    {
      var m := s.memories[n];
      if Active(m, now) && score(m.body) > 0 {
        found := found + [Ranked(n + 1, score(m.body), m.usedCount)];
      }
    }
    var sorted := Sort(found, Before);
    ids := Ids(if |sorted| <= limit then sorted else sorted[..limit]);
  }

  method AdmittedMemories(store: AgentMemoryStore, score: string -> nat, round: Round, limit: nat) returns (ids: seq<int>)
    modifies store
    ensures ids == Recalled(old(store.View()), score, round.now, limit)
    ensures store.View() == MarkAll(old(store.View()), ids, round)
  {
    ids := RecallActiveByText(store, score, round.now, limit);
    for i := 0 to |ids|
      invariant store.View() == MarkAll(old(store.View()), ids[..i], round)
    {
      assert ids[..i + 1][..i] == ids[..i];
      if ids[i] > 0 {
        var _ := store.MarkUsed(ids[i], round.now, FaultAt(round, i));
      }
    }
    assert ids[..|ids|] == ids;
  }

  // ------------------------------------------------------------------ what recall returns

  predicate IsCandidate(s: Store, score: string -> nat, now: int, r: Ranked) {
    Exists(s, r.id) && Matches(Get(s, r.id), score, now)
    && r.score == score(Get(s, r.id).body) && r.used == Get(s, r.id).usedCount
  }

  lemma {:induction false} CandidatesAre(s: Store, score: string -> nat, now: int, n: nat, r: Ranked)
    requires n <= |s.memories|
    ensures r in Candidates(s, score, now, n) <==> IsCandidate(s, score, now, r) && r.id <= n
  {
    if n > 0 { CandidatesAre(s, score, now, n - 1, r); }
  }

  lemma BeforeOrders()
    ensures Ordering(Before)
  {
  }

  lemma RankingAre(s: Store, score: string -> nat, now: int, r: Ranked)
    ensures r in Ranking(s, score, now) <==> IsCandidate(s, score, now, r)
  {
    SortMembers(Candidates(s, score, now, |s.memories|), Before, r);
    CandidatesAre(s, score, now, |s.memories|, r);
  }

  lemma {:induction false} CandidatesDistinct(s: Store, score: string -> nat, now: int, n: nat)
    requires n <= |s.memories|
    ensures forall i, j :: 0 <= i < j < |Candidates(s, score, now, n)| ==>
                             Candidates(s, score, now, n)[i].id < Candidates(s, score, now, n)[j].id
    ensures forall i :: 0 <= i < |Candidates(s, score, now, n)| ==> Candidates(s, score, now, n)[i].id <= n
  {
    if n > 0 { CandidatesDistinct(s, score, now, n - 1); }
  }

  lemma RankingSorted(s: Store, score: string -> nat, now: int)
    ensures Sorted(Ranking(s, score, now), Before)
    ensures |Ranking(s, score, now)| == |Candidates(s, score, now, |s.memories|)|
  {
    BeforeOrders();
    SortSorted(Candidates(s, score, now, |s.memories|), Before);
    SortMultiset(Candidates(s, score, now, |s.memories|), Before);
  }

  /** Ids in a ranking do not repeat. */
  lemma RankingDistinct(s: Store, score: string -> nat, now: int, i: nat, j: nat)
    requires i < j < |Ranking(s, score, now)|
    ensures Ranking(s, score, now)[i].id != Ranking(s, score, now)[j].id
  {
    var c := Candidates(s, score, now, |s.memories|);
    var r := Ranking(s, score, now);
    CandidatesDistinct(s, score, now, |s.memories|);
    SortMultiset(c, Before);
    RankingAre(s, score, now, r[i]);
    RankingAre(s, score, now, r[j]);
    if r[i].id == r[j].id {
      assert r[i] == r[j];
      TwiceInSeq(r, i, j);
      assert multiset(c)[r[i]] >= 2;
      OnceInDistinct(c, r[i]);
    }
  }

  lemma TwiceInSeq<T>(s: seq<T>, i: nat, j: nat)
    requires i < j < |s| && s[i] == s[j]
    ensures multiset(s)[s[i]] >= 2
  {
    assert s == s[..j] + [s[j]] + s[j + 1..];
    assert s[i] in multiset(s[..j]);
  }

  lemma {:induction false} OnceInDistinct(c: seq<Ranked>, r: Ranked)
    requires forall i, j :: 0 <= i < j < |c| ==> c[i].id < c[j].id
    ensures multiset(c)[r] <= 1
  {
    if c != [] {
      var last := |c| - 1;
      assert c == c[..last] + [c[last]];
      OnceInDistinct(c[..last], r);
      if r == c[last] { assert r !in c[..last]; }
    }
  }

  /** Recall returns active, matching memories, best first, and no matching memory it leaves out
      would come before one it returns. */
  lemma RecallIsTop(s: Store, score: string -> nat, now: int, limit: nat, r: Ranked, i: nat)
    requires IsCandidate(s, score, now, r) && i < |Recalled(s, score, now, limit)|
    ensures Recalled(s, score, now, limit)[i] == Ranking(s, score, now)[i].id
    ensures IsCandidate(s, score, now, Ranking(s, score, now)[i])
    ensures r.id in Recalled(s, score, now, limit)
            || (|Recalled(s, score, now, limit)| == limit && Before(Ranking(s, score, now)[i], r))
  {
    RankingSorted(s, score, now);
    RankingAre(s, score, now, r);
    RankingAre(s, score, now, Ranking(s, score, now)[i]);
    var k :| 0 <= k < |Ranking(s, score, now)| && Ranking(s, score, now)[k] == r;
    if k < |Recalled(s, score, now, limit)| { assert Recalled(s, score, now, limit)[k] == r.id; }
  }

  /** Recall would return this memory if there were room for it. */
  predicate Recallable(m: Memory, score: string -> nat, now: int) {
    m.lifecycle == "active" && score(m.body) > 0 && (m.expiresAt.Some? ==> m.expiresAt.value > now)
  }

  /** The better of two memories: the one with the higher score, then with more uses, then the older. */
  predicate Beats(s: Store, score: string -> nat, id: int, other: int)
    requires Exists(s, id) && Exists(s, other)
  {
    var m, n := Get(s, id), Get(s, other);
    if score(m.body) != score(n.body) then score(m.body) > score(n.body)
    else if m.usedCount != n.usedCount then m.usedCount > n.usedCount
    else id < other
  }

  lemma RecalledAt(s: Store, score: string -> nat, now: int, limit: nat, i: nat)
    requires i < |Recalled(s, score, now, limit)|
    ensures var id := Recalled(s, score, now, limit)[i];
            && Exists(s, id) && Recallable(Get(s, id), score, now)
            && Ranking(s, score, now)[i] == Ranked(id, score(Get(s, id).body), Get(s, id).usedCount)
  {
    RankingAre(s, score, now, Ranking(s, score, now)[i]);
  }

  /** What is recalled can be recalled, each memory comes before the ones it beats, and beats every
      recallable memory that is left out for want of room. */
  lemma RecallIsBest(s: Store, score: string -> nat, now: int, limit: nat, ids: seq<int>)
    requires ids == Recalled(s, score, now, limit)
    ensures |ids| <= limit
    ensures forall id :: id in ids ==> Exists(s, id) && Recallable(Get(s, id), score, now)
    ensures forall i, j :: 0 <= i < j < |ids| ==> Beats(s, score, ids[i], ids[j])
    ensures forall id, other :: id in ids && other !in ids && Exists(s, other) && Recallable(Get(s, other), score, now) ==>
                                  Beats(s, score, id, other)
    ensures |ids| < limit ==> forall id :: Exists(s, id) && Recallable(Get(s, id), score, now) ==> id in ids
  {
    forall i | 0 <= i < |ids| ensures Exists(s, ids[i]) && Recallable(Get(s, ids[i]), score, now) {
      RecalledAt(s, score, now, limit, i);
    }
    forall i, j | 0 <= i < j < |ids| ensures Beats(s, score, ids[i], ids[j]) {
      RecalledAt(s, score, now, limit, i);
      RecalledAt(s, score, now, limit, j);
      RankedBeats(s, score, now, i, j);
    }
    forall other | other !in ids && Exists(s, other) && Recallable(Get(s, other), score, now)
      ensures |ids| == limit && forall id :: id in ids ==> Beats(s, score, id, other)
    {
      LeftOut(s, score, now, limit, ids, other);
    }
  }

  lemma RankedBeats(s: Store, score: string -> nat, now: int, i: nat, j: nat)
    requires i < j < |Ranking(s, score, now)|
    ensures var a, b := Ranking(s, score, now)[i].id, Ranking(s, score, now)[j].id;
            Exists(s, a) && Exists(s, b) && Beats(s, score, a, b)
  {
    RankingSorted(s, score, now);
    RankingDistinct(s, score, now, i, j);
    RankingAre(s, score, now, Ranking(s, score, now)[i]);
    RankingAre(s, score, now, Ranking(s, score, now)[j]);
    assert Before(Ranking(s, score, now)[i], Ranking(s, score, now)[j]);
  }

  lemma LeftOut(s: Store, score: string -> nat, now: int, limit: nat, ids: seq<int>, other: int)
    requires ids == Recalled(s, score, now, limit)
    requires other !in ids && Exists(s, other) && Recallable(Get(s, other), score, now)
    ensures |ids| == limit
    ensures forall id :: id in ids ==> Exists(s, id) && Beats(s, score, id, other)
  {
    var rs := Ranking(s, score, now);
    var r := Ranked(other, score(Get(s, other).body), Get(s, other).usedCount);
    RankingAre(s, score, now, r);
    var k :| 0 <= k < |rs| && rs[k] == r;
    assert forall i :: 0 <= i < |ids| ==> ids[i] == rs[i].id && ids[i] != other;
    forall i | 0 <= i < |ids| ensures Exists(s, ids[i]) && Beats(s, score, ids[i], other) {
      RankedBeats(s, score, now, i, k);
    }
  }

  // ------------------------------------------------------------------ feedback

  function Bump(r: Ranked, top: set<int>): Ranked {
    if r.id in top then r.(used := r.used + 1) else r
  }

  function BumpAll(rs: seq<Ranked>, top: set<int>): (t: seq<Ranked>)
    ensures |t| == |rs| && forall i :: 0 <= i < |rs| ==> t[i] == Bump(rs[i], top)
  {
    seq(|rs|, i requires 0 <= i < |rs| => Bump(rs[i], top))
  }

  /** Raising the counts of `top` keeps the order of `a` and `b`. */
  predicate Harmless(a: Ranked, b: Ranked, top: set<int>) {
    Before(Bump(a, top), Bump(b, top)) <==> Before(a, b)
  }

  lemma BumpFirst(x: Ranked, rs: seq<Ranked>, top: set<int>)
    ensures BumpAll([x] + rs, top) == [Bump(x, top)] + BumpAll(rs, top)
  {
  }

  lemma {:induction false} InsertBumped(x: Ranked, rs: seq<Ranked>, top: set<int>)
    requires forall r :: r in rs ==> Harmless(x, r, top)
    ensures Insert(Bump(x, top), BumpAll(rs, top), Before) == BumpAll(Insert(x, rs, Before), top)
  {
    if rs == [] {
      BumpFirst(x, rs, top);
    } else {
      assert Harmless(x, rs[0], top);
      BumpFirst(rs[0], rs[1..], top);
      assert rs == [rs[0]] + rs[1..];
      if Before(x, rs[0]) {
        BumpFirst(x, rs, top);
      } else {
        InsertBumped(x, rs[1..], top);
        BumpFirst(rs[0], Insert(x, rs[1..], Before), top);
      }
    }
  }

  /** Raising counts and sorting commute when no pair changes its order. */
  lemma {:induction false} SortBumped(rs: seq<Ranked>, top: set<int>)
    requires forall a, b :: a in rs && b in rs ==> Harmless(a, b, top)
    ensures Sort(BumpAll(rs, top), Before) == BumpAll(Sort(rs, Before), top)
  {
    if rs != [] {
      SortBumped(rs[1..], top);
      assert BumpAll(rs, top)[1..] == BumpAll(rs[1..], top);
      forall r | r in Sort(rs[1..], Before) ensures Harmless(rs[0], r, top) {
        SortMembers(rs[1..], Before, r);
      }
      InsertBumped(rs[0], Sort(rs[1..], Before), top);
    } else {
      assert BumpAll(rs, top) == [];
    }
  }

  /** Raising the counts of the first `k` of a strict ranking keeps every pair in order. */
  lemma TopHarmless(rs: seq<Ranked>, k: nat, top: set<int>, i: nat, j: nat)
    requires Sorted(rs, Before) && k <= |rs| && i < |rs| && j < |rs|
    requires forall p, q :: 0 <= p < q < |rs| ==> rs[p].id != rs[q].id
    requires forall p :: 0 <= p < |rs| ==> (rs[p].id in top <==> p < k)
    ensures Harmless(rs[i], rs[j], top)
  {
    if i < j {
      assert Before(rs[i], rs[j]);
    } else if j < i {
      assert Before(rs[j], rs[i]);
    }
  }

  predicate SameButUses(m: Memory, n: Memory) {
    m.body == n.body && m.lifecycle == n.lifecycle && m.expiresAt == n.expiresAt
  }

  lemma {:induction false} MarkAllEffect(s: Store, ids: seq<int>, round: Round)
    requires NoDup(ids)
    ensures |MarkAll(s, ids, round).memories| == |s.memories|
    ensures forall id :: Exists(s, id) ==> SameButUses(Get(MarkAll(s, ids, round), id), Get(s, id))
    ensures forall id :: Exists(s, id) ==>
                           Get(MarkAll(s, ids, round), id).usedCount == Get(s, id).usedCount + if id in Written(ids, round) then 1 else 0
  {
    if ids != [] {
      var last := |ids| - 1;
      MarkAllEffect(s, ids[..last], round);
      assert ids[last] !in Written(ids[..last], round);
      assert Written(ids, round) ==
             Written(ids[..last], round) + if FaultAt(round, last).WriteFails? then {} else {ids[last]} by {
        assert forall i :: 0 <= i < last ==> ids[..last][i] == ids[i];
      }
    }
  }

  ghost predicate SameLife(s: Store, now: int, later: int) {
    forall id :: Exists(s, id) ==> (Active(Get(s, id), now) <==> Active(Get(s, id), later))
  }

  lemma {:induction false} CandidatesBumped(s: Store, t: Store, score: string -> nat, now: int, later: int, n: nat, top: set<int>)
    requires n <= |s.memories| == |t.memories| && SameLife(s, now, later)
    requires forall id :: Exists(s, id) ==> SameButUses(Get(t, id), Get(s, id))
    requires forall id :: Exists(s, id) ==> Get(t, id).usedCount == Get(s, id).usedCount + if id in top then 1 else 0
    ensures Candidates(t, score, later, n) == BumpAll(Candidates(s, score, now, n), top)
  {
    if n > 0 {
      CandidatesBumped(s, t, score, now, later, n - 1, top);
      assert Get(t, n) == t.memories[n - 1] && Get(s, n) == s.memories[n - 1];
    }
  }

  /** What one round leaves of the candidates. */
  lemma RoundBumps(s: Store, score: string -> nat, round: Round, later: int, limit: nat)
    requires SameLife(s, round.now, later)
    ensures var ids := Recalled(s, score, round.now, limit);
            var t := MarkAll(s, ids, round);
            |t.memories| == |s.memories|
            && Candidates(t, score, later, |t.memories|) == BumpAll(Candidates(s, score, round.now, |s.memories|), Written(ids, round))
  {
    var ids := Recalled(s, score, round.now, limit);
    RecalledDistinct(s, score, round.now, limit);
    MarkAllEffect(s, ids, round);
    CandidatesBumped(s, MarkAll(s, ids, round), score, round.now, later, |s.memories|, Written(ids, round));
  }

  lemma RecalledDistinct(s: Store, score: string -> nat, now: int, limit: nat)
    ensures NoDup(Recalled(s, score, now, limit))
  {
    forall i, j | 0 <= i < j < |Recalled(s, score, now, limit)|
      ensures Recalled(s, score, now, limit)[i] != Recalled(s, score, now, limit)[j]
    {
      RankingDistinct(s, score, now, i, j);
    }
  }

  /** One round of recall and marking leaves the ranking as it was, with the recalled counts up. */
  lemma RoundKeepsRanking(s: Store, score: string -> nat, round: Round, later: int, limit: nat)
    requires SameLife(s, round.now, later) && AllWritten(round)
    ensures var ids := Recalled(s, score, round.now, limit);
            Ranking(MarkAll(s, ids, round), score, later) == BumpAll(Ranking(s, score, round.now), Written(ids, round))
  {
    var c := Candidates(s, score, round.now, |s.memories|);
    var rs := Ranking(s, score, round.now);
    var ids := Recalled(s, score, round.now, limit);
    var top := Written(ids, round);
    RankingSorted(s, score, round.now);
    forall i, j | 0 <= i < j < |rs| ensures rs[i].id != rs[j].id { RankingDistinct(s, score, round.now, i, j); }
    RoundBumps(s, score, round, later, limit);
    assert top == set id | id in ids by {
      forall id | id in ids ensures id in top { var i :| 0 <= i < |ids| && ids[i] == id; }
    }
    CutIsTop(rs, limit, top);
    forall a, b | a in c && b in c ensures Harmless(a, b, top) {
      SortMembers(c, Before, a);
      SortMembers(c, Before, b);
      var i :| 0 <= i < |rs| && rs[i] == a;
      var j :| 0 <= j < |rs| && rs[j] == b;
      TopHarmless(rs, |ids|, top, i, j);
    }
    SortBumped(c, top);
  }

  lemma CutIsTop(rs: seq<Ranked>, limit: nat, top: set<int>)
    requires forall p, q :: 0 <= p < q < |rs| ==> rs[p].id != rs[q].id
    requires top == set id | id in Ids(Cut(rs, limit))
    ensures forall p :: 0 <= p < |rs| ==> (rs[p].id in top <==> p < |Cut(rs, limit)|)
  {
    forall p | 0 <= p < |rs| ensures rs[p].id in top <==> p < |Cut(rs, limit)| {
      if p < |Cut(rs, limit)| { assert Ids(Cut(rs, limit))[p] == rs[p].id; }
    }
  }

  lemma RoundKeepsRecall(s: Store, score: string -> nat, round: Round, later: int, limit: nat)
    requires SameLife(s, round.now, later) && AllWritten(round)
    ensures Recalled(MarkAll(s, Recalled(s, score, round.now, limit), round), score, later, limit) == Recalled(s, score, round.now, limit)
  {
    RoundKeepsRanking(s, score, round, later, limit);
  }

  // ------------------------------------------------------------------ marks that fail

  /** Nothing outside the first `k` of a ranking gets past one of them by raising some of these. */
  lemma RaisedStaysAhead(a: Ranked, b: Ranked, some: set<int>)
    requires Before(a, b) && a.id != b.id && b.id !in some
    ensures Before(Bump(a, some), Bump(b, some)) && !Before(Bump(b, some), Bump(a, some))
  {
  }

  predicate Distinct(rs: seq<Ranked>) { NoDup(Ids(rs)) }

  ghost predicate Bumped(rs: seq<Ranked>, ts: seq<Ranked>, some: set<int>) {
    && |ts| == |rs|
    && (forall r :: r in rs ==> Bump(r, some) in ts)
    && (forall r :: r in ts ==> exists i :: 0 <= i < |rs| && r == Bump(rs[i], some))
  }

  function Top(rs: seq<Ranked>, limit: nat): set<int> { set id | id in Ids(Cut(rs, limit)) }

  lemma TopSize(rs: seq<Ranked>, limit: nat)
    requires Distinct(rs)
    ensures |Top(rs, limit)| == |Cut(rs, limit)|
  {
    var ids := Ids(Cut(rs, limit));
    assert forall i :: 0 <= i < |ids| ==> ids[i] == Ids(rs)[i];
    AsManyAs(ids);
  }

  /** What stood ahead of one whose count was not raised still does. */
  lemma AheadStays(rs: seq<Ranked>, ts: seq<Ranked>, some: set<int>, p: nat, q: nat, i: nat) returns (j: nat)
    requires Sorted(rs, Before) && Sorted(ts, Before) && p < q < |rs| && rs[p].id != rs[q].id && rs[q].id !in some
    requires Bump(rs[p], some) in ts && i < |ts| && ts[i] == Bump(rs[q], some)
    ensures j < i && ts[j] == Bump(rs[p], some)
  {
    RaisedStaysAhead(rs[p], rs[q], some);
    j :| 0 <= j < |ts| && ts[j] == Bump(rs[p], some);
  }

  lemma InTop(rs: seq<Ranked>, limit: nat, i: nat)
    requires Distinct(rs) && i < |rs|
    ensures rs[i].id in Top(rs, limit) <==> i < |Cut(rs, limit)|
  {
    var ids := Ids(Cut(rs, limit));
    assert forall k :: 0 <= k < |ids| ==> ids[k] == Ids(rs)[k];
    if i < |ids| { assert ids[i] == rs[i].id; }
  }

  lemma TopAt(rs: seq<Ranked>, limit: nat, id: int) returns (i: nat)
    requires id in Top(rs, limit)
    ensures i < |Cut(rs, limit)| && rs[i].id == id
  {
    i :| 0 <= i < |Cut(rs, limit)| && Ids(Cut(rs, limit))[i] == id;
  }

  /** One that newly got in would stand before one that fell out, which it could not have passed. */
  lemma NoNewcomer(rs: seq<Ranked>, ts: seq<Ranked>, limit: nat, some: set<int>, x: int, y: int)
    requires Sorted(rs, Before) && Sorted(ts, Before) && Distinct(rs) && Distinct(ts) && Bumped(rs, ts, some)
    requires some <= Top(rs, limit)
    requires x in Top(ts, limit) && x !in Top(rs, limit)
    requires y in Top(rs, limit)
    ensures y in Top(ts, limit)
  {
    var i := TopAt(ts, limit, x);
    var p := TopAt(rs, limit, y);
    assert ts[i] in ts;
    var q :| 0 <= q < |rs| && ts[i] == Bump(rs[q], some);
    InTop(rs, limit, q);
    assert rs[p] in rs;
    var j := AheadStays(rs, ts, some, p, q, i);
    InTop(ts, limit, j);
  }

  lemma SameTop(rs: seq<Ranked>, ts: seq<Ranked>, limit: nat, some: set<int>)
    requires Sorted(rs, Before) && Sorted(ts, Before) && Distinct(rs) && Distinct(ts) && Bumped(rs, ts, some)
    requires some <= Top(rs, limit)
    ensures Top(ts, limit) == Top(rs, limit)
  {
    TopSize(rs, limit);
    TopSize(ts, limit);
    forall x, y | x in Top(ts, limit) - Top(rs, limit) && y in Top(rs, limit) ensures y in Top(ts, limit) {
      NoNewcomer(rs, ts, limit, some, x, y);
    }
    NoExchange(Top(rs, limit), Top(ts, limit));
  }

  lemma RankingIsStrict(s: Store, score: string -> nat, now: int)
    ensures Sorted(Ranking(s, score, now), Before) && Distinct(Ranking(s, score, now))
  {
    RankingSorted(s, score, now);
    var rs := Ranking(s, score, now);
    forall i, j | 0 <= i < j < |rs| ensures Ids(rs)[i] != Ids(rs)[j] { RankingDistinct(s, score, now, i, j); }
  }

  lemma RankingsBumped(c: seq<Ranked>, d: seq<Ranked>, some: set<int>)
    requires d == BumpAll(c, some)
    ensures Bumped(Sort(c, Before), Sort(d, Before), some)
  {
    var rs, ts := Sort(c, Before), Sort(d, Before);
    SortMultiset(c, Before);
    SortMultiset(d, Before);
    forall r | r in rs ensures Bump(r, some) in ts {
      SortMembers(c, Before, r);
      var i :| 0 <= i < |c| && c[i] == r;
      assert d[i] == Bump(r, some);
      SortMembers(d, Before, Bump(r, some));
    }
    forall r | r in ts ensures exists i :: 0 <= i < |rs| && r == Bump(rs[i], some) {
      SortMembers(d, Before, r);
      var i :| 0 <= i < |d| && d[i] == r;
      SortMembers(c, Before, c[i]);
      var k :| 0 <= k < |rs| && rs[k] == c[i];
    }
  }

  /** Whichever marks of a round fail, the same memories are recalled again. */
  lemma RoundKeepsTop(s: Store, score: string -> nat, round: Round, later: int, limit: nat)
    requires SameLife(s, round.now, later)
    ensures Top(Ranking(MarkAll(s, Recalled(s, score, round.now, limit), round), score, later), limit)
            == Top(Ranking(s, score, round.now), limit)
  {
    var ids := Recalled(s, score, round.now, limit);
    var t := MarkAll(s, ids, round);
    RoundBumps(s, score, round, later, limit);
    RankingIsStrict(s, score, round.now);
    RankingIsStrict(t, score, later);
    RankingsBumped(Candidates(s, score, round.now, |s.memories|), Candidates(t, score, later, |t.memories|), Written(ids, round));
    SameTop(Ranking(s, score, round.now), Ranking(t, score, later), limit, Written(ids, round));
  }

  // ------------------------------------------------------------------ any number of rounds

  /** Rounds of recalling the top `limit` and marking each of them used. */
  function Rounds(s: Store, score: string -> nat, rounds: seq<Round>, limit: nat): Store {
    if rounds == [] then s
    else
      var t, round := Rounds(s, score, rounds[..|rounds| - 1], limit), rounds[|rounds| - 1];
      MarkAll(t, Recalled(t, score, round.now, limit), round)
  }

  lemma {:induction false} RoundsKeepLife(s: Store, score: string -> nat, rounds: seq<Round>, limit: nat)
    ensures |Rounds(s, score, rounds, limit).memories| == |s.memories|
    ensures forall id :: Exists(s, id) ==> SameButUses(Get(Rounds(s, score, rounds, limit), id), Get(s, id))
  {
    if rounds != [] {
      var t, round := Rounds(s, score, rounds[..|rounds| - 1], limit), rounds[|rounds| - 1];
      RoundsKeepLife(s, score, rounds[..|rounds| - 1], limit);
      RecalledDistinct(t, score, round.now, limit);
      MarkAllEffect(t, Recalled(t, score, round.now, limit), round);
    }
  }

  lemma RoundsKeepSameLife(s: Store, score: string -> nat, rounds: seq<Round>, limit: nat, now: int, later: int)
    requires SameLife(s, now, later)
    ensures SameLife(Rounds(s, score, rounds, limit), now, later)
  {
    RoundsKeepLife(s, score, rounds, limit);
  }

  /** Recall is a fixpoint of its own feedback: after any number of rounds of recalling and
      marking, with no other write, no failed mark and nothing expiring, the same ids come back in
      the same order. */
  lemma {:induction false} RecallIsFixpoint(s: Store, score: string -> nat, now: int, rounds: seq<Round>, limit: nat)
    requires forall i :: 0 <= i < |rounds| ==> SameLife(s, now, rounds[i].now) && AllWritten(rounds[i])
    ensures Recalled(Rounds(s, score, rounds, limit), score, now, limit) == Recalled(s, score, now, limit)
  {
    if rounds != [] {
      var front, last := rounds[..|rounds| - 1], rounds[|rounds| - 1];
      var t := Rounds(s, score, front, limit);
      assert SameLife(s, now, last.now) && AllWritten(last);
      RecallIsFixpoint(s, score, now, front, limit);
      RoundsKeepSameLife(s, score, front, limit, now, last.now);
      SameRecall(t, score, now, last.now, limit);
      RoundKeepsRecall(t, score, last, now, limit);
    }
  }

  /** And whichever marks fail in them, the same set of ids comes back: a failed mark can at most
      reorder what is recalled. */
  lemma {:induction false} RecallSetIsFixpoint(s: Store, score: string -> nat, now: int, rounds: seq<Round>, limit: nat)
    requires forall i :: 0 <= i < |rounds| ==> SameLife(s, now, rounds[i].now)
    ensures (set id | id in Recalled(Rounds(s, score, rounds, limit), score, now, limit)) ==
            (set id | id in Recalled(s, score, now, limit))
  {
    if rounds != [] {
      var front, last := rounds[..|rounds| - 1], rounds[|rounds| - 1];
      var t := Rounds(s, score, front, limit);
      assert SameLife(s, now, last.now);
      RecallSetIsFixpoint(s, score, now, front, limit);
      RoundsKeepSameLife(s, score, front, limit, now, last.now);
      SameRecall(t, score, now, last.now, limit);
      RoundKeepsTop(t, score, last, now, limit);
    }
  }

  lemma {:induction false} SameCandidates(s: Store, score: string -> nat, now: int, later: int, n: nat)
    requires n <= |s.memories| && SameLife(s, now, later)
    ensures Candidates(s, score, later, n) == Candidates(s, score, now, n)
  {
    if n > 0 {
      SameCandidates(s, score, now, later, n - 1);
      assert Get(s, n) == s.memories[n - 1];
    }
  }

  lemma SameRecall(s: Store, score: string -> nat, now: int, later: int, limit: nat)
    requires SameLife(s, now, later)
    ensures Recalled(s, score, later, limit) == Recalled(s, score, now, limit)
  {
    SameCandidates(s, score, now, later, |s.memories|);
  }
}
