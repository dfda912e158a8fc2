/** Notions about sequences that several parts share. */
module Sequences {
  /** Nothing occurs twice. */
  predicate NoDup<T(==)>(s: seq<T>) {
    forall i, j :: 0 <= i < j < |s| ==> s[i] != s[j]
  }

  /** `truncate`: the first `limit` elements, or all of them. */
  function Cut<T>(s: seq<T>, limit: nat): seq<T> {
    if |s| <= limit then s else s[..limit]
  }

  function Each<K, V>(g: K -> V, s: seq<K>): (r: seq<V>)
    ensures |r| == |s|
  {
    if s == [] then [] else Each(g, s[..|s| - 1]) + [g(s[|s| - 1])]
  }

  lemma EachMore<K, V>(g: K -> V, s: seq<K>, k: K)
    ensures Each(g, s + [k]) == Each(g, s) + [g(k)]
  {
    assert (s + [k])[..|s|] == s;
  }

  lemma {:induction false} EachAppend<K, V>(g: K -> V, a: seq<K>, b: seq<K>)
    ensures Each(g, a + b) == Each(g, a) + Each(g, b)
  {
    if b == [] {
      assert a + b == a;
    } else {
      var front, k := b[..|b| - 1], b[|b| - 1];
      EachAppend(g, a, front);
      EachMore(g, a + front, k);
      assert a + b == a + front + [k];
    }
  }

  /** Taking one element out takes its image out. */
  lemma EachWithout<K, V>(g: K -> V, a: seq<K>, k: K, b: seq<K>)
    ensures multiset(Each(g, a + [k] + b)) == multiset(Each(g, a + b)) + multiset{g(k)}
  {
    EachAppend(g, a + [k], b);
    EachMore(g, a, k);
    EachAppend(g, a, b);
  }

  /** The images of a permutation are a permutation of the images. */
  lemma {:induction false} EachPermuted<K, V>(g: K -> V, s: seq<K>, t: seq<K>)
    requires multiset(s) == multiset(t)
    ensures multiset(Each(g, s)) == multiset(Each(g, t))
    decreases |s|
  {
    assert |multiset(s)| == |multiset(t)|;
    if s != [] {
      var front, k := s[..|s| - 1], s[|s| - 1];
      assert s == front + [k];
      assert k in multiset(t);
      var p :| 0 <= p < |t| && t[p] == k;
      TakenOut(s, |s| - 1);
      TakenOut(t, p);
      EachWithout(g, t[..p], k, t[p + 1..]);
      assert s[..|s| - 1] + s[|s|..] == front;
      EachPermuted(g, front, t[..p] + t[p + 1..]);
    }
  }

  lemma TakenOut<T>(s: seq<T>, p: nat)
    requires p < |s|
    ensures s == s[..p] + [s[p]] + s[p + 1..]
    ensures multiset(s[..p] + s[p + 1..]) == multiset(s) - multiset{s[p]}
  {
    assert s == s[..p] + [s[p]] + s[p + 1..];
    assert multiset(s) == multiset(s[..p] + s[p + 1..]) + multiset{s[p]};
  }

  lemma {:induction false} NoDupCount<T>(s: seq<T>, x: T)
    requires NoDup(s)
    ensures multiset(s)[x] == if x in s then 1 else 0
  {
    if s != [] {
      var front, last := s[..|s| - 1], s[|s| - 1];
      assert s == front + [last];
      NoDupCount(front, x);
      assert last !in front;
    }
  }

  /** Two lists of the same things, each once, are permutations of each other. */
  lemma SameElements<T(!new)>(s: seq<T>, t: seq<T>)
    requires NoDup(s) && NoDup(t) && forall x :: x in s <==> x in t
    ensures multiset(s) == multiset(t)
  {
    forall x ensures multiset(s)[x] == multiset(t)[x] {
      NoDupCount(s, x);
      NoDupCount(t, x);
    }
  }

  lemma {:induction false} AsManyAs<T>(s: seq<T>)
    requires NoDup(s)
    ensures |set x | x in s| == |s|
  {
    if s != [] {
      var front, last := s[..|s| - 1], s[|s| - 1];
      AsManyAs(front);
      assert (set x | x in s) == (set x | x in front) + {last};
    }
  }

  lemma {:induction false} SubsetSize<T>(a: set<T>, b: set<T>)
    requires a <= b
    ensures |a| <= |b| && (|a| == |b| ==> a == b)
  {
    if a != {} {
      var x :| x in a;
      SubsetSize(a - {x}, b - {x});
    }
  }

  /** Of two sets of one size, where whatever is new keeps all the old, neither has anything new. */
  lemma NoExchange<T>(a: set<T>, b: set<T>)
    requires |a| == |b| && forall x, y :: x in b - a && y in a ==> y in b
    ensures a == b
  {
    if b <= a {
      SubsetSize(b, a);
    } else {
      var x :| x in b && x !in a;
      assert x in b - a;
      SubsetSize(a, b);
    }
  }

  // ------------------------------------------------------------------ what a loop collects

  /** What is pushed when each element in turn yields some results. */
  function Gather<T, V>(g: T -> seq<V>, s: seq<T>): seq<V> {
    if s == [] then [] else Gather(g, s[..|s| - 1]) + g(s[|s| - 1])
  }

  lemma GatherMore<T, V>(g: T -> seq<V>, s: seq<T>, i: nat)
    requires i < |s|
    ensures Gather(g, s[..i + 1]) == Gather(g, s[..i]) + g(s[i])
  {
    assert s[..i + 1][..i] == s[..i];
  }

  /** The loop itself: it stops at the first element that cannot be read. */
  method Collect<T, V>(g: T -> seq<V>, readable: T -> bool, s: seq<T>) returns (all: bool, r: seq<V>)
    ensures all <==> forall k :: 0 <= k < |s| ==> readable(s[k])
    ensures all ==> r == Gather(g, s)
  {
    r := [];
    for i := 0 to |s|
      invariant r == Gather(g, s[..i])
      invariant forall k :: 0 <= k < i ==> readable(s[k])
    {
      if !readable(s[i]) { return false, r; }
      GatherMore(g, s, i);
      r := r + g(s[i]);
    }
    assert s[..|s|] == s;
    all := true;
  }

  lemma GatherOne<T, V>(g: T -> seq<V>, x: T)
    ensures Gather(g, [x]) == g(x)
  {
    assert |[x][..0]| == 0;
    assert Gather(g, [x][..0]) == [];
  }

  lemma {:induction false} GatherAppend<T, V>(g: T -> seq<V>, a: seq<T>, b: seq<T>)
    ensures Gather(g, a + b) == Gather(g, a) + Gather(g, b)
  {
    if b == [] {
      assert a + b == a;
    } else {
      assert (a + b)[..|a + b| - 1] == a + b[..|b| - 1];
      GatherAppend(g, a, b[..|b| - 1]);
    }
  }

  lemma {:induction false} GatherSame<T, V>(g: T -> seq<V>, h: T -> seq<V>, s: seq<T>)
    requires forall i :: 0 <= i < |s| ==> g(s[i]) == h(s[i])
    ensures Gather(g, s) == Gather(h, s)
  {
    if s != [] { GatherSame(g, h, s[..|s| - 1]); }
  }

  /** Where no element yields less, and some element yields more, more is collected. */
  lemma {:induction false} GatherLess<T, V>(g: T -> seq<V>, h: T -> seq<V>, s: seq<T>)
    requires forall i :: 0 <= i < |s| ==> |g(s[i])| <= |h(s[i])|
    ensures |Gather(g, s)| <= |Gather(h, s)|
    ensures (exists i :: 0 <= i < |s| && |g(s[i])| < |h(s[i])|) ==> |Gather(g, s)| < |Gather(h, s)|
  {
    if s != [] { GatherLess(g, h, s[..|s| - 1]); }
  }

  /** What holds of nothing and survives one more good element holds of any good elements. */
  lemma {:induction false} SnocInduction<T(!new)>(p: seq<T> -> bool, good: T -> bool, s: seq<T>)
    requires p([]) && forall q, x :: p(q) && good(x) ==> p(q + [x])
    requires forall i :: 0 <= i < |s| ==> good(s[i])
    ensures p(s)
  {
    if s != [] {
      var front, last := s[..|s| - 1], s[|s| - 1];
      SnocInduction(p, good, front);
      assert good(last) && front + [last] == s;
    }
  }
}
