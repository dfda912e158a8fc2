/** Stable sorting of sequences, the meaning of Rust's `sort_by`: insertion from the back,
    each element placed before the elements it ties with. */
module Sorting {
  ghost predicate Total<T(!new)>(le: (T, T) -> bool) {
    forall a, b :: le(a, b) || le(b, a)
  }

  ghost predicate Transitive<T(!new)>(le: (T, T) -> bool) {
    forall a, b, c :: le(a, b) && le(b, c) ==> le(a, c)
  }

  ghost predicate Ordering<T(!new)>(le: (T, T) -> bool) {
    Total(le) && Transitive(le)
  }

  predicate Sorted<T>(s: seq<T>, le: (T, T) -> bool) {
    forall i, j :: 0 <= i < j < |s| ==> le(s[i], s[j])
  }

  function Insert<T>(x: T, s: seq<T>, le: (T, T) -> bool): seq<T> {
    if s == [] || le(x, s[0]) then [x] + s else [s[0]] + Insert(x, s[1..], le)
  }

  function Sort<T>(s: seq<T>, le: (T, T) -> bool): seq<T> {
    if s == [] then [] else Insert(s[0], Sort(s[1..], le), le)
  }

  function Filter<T(!new)>(s: seq<T>, p: T -> bool): (r: seq<T>)
    ensures forall x :: x in r <==> x in s && p(x)
    ensures |r| <= |s|
  {
    if s == [] then [] else if p(s[0]) then [s[0]] + Filter(s[1..], p) else Filter(s[1..], p)
  }

  lemma {:induction false} InsertMultiset<T>(x: T, s: seq<T>, le: (T, T) -> bool)
    ensures multiset(Insert(x, s, le)) == multiset(s) + multiset{x}
    ensures |Insert(x, s, le)| == |s| + 1
  {
    if s != [] {
      assert s == [s[0]] + s[1..];
      InsertMultiset(x, s[1..], le);
    }
  }

  lemma {:induction false} SortMultiset<T>(s: seq<T>, le: (T, T) -> bool)
    ensures multiset(Sort(s, le)) == multiset(s)
    ensures |Sort(s, le)| == |s|
  {
    if s != [] {
      assert s == [s[0]] + s[1..];
      SortMultiset(s[1..], le);
      InsertMultiset(s[0], Sort(s[1..], le), le);
    }
  }

  lemma SortMembers<T>(s: seq<T>, le: (T, T) -> bool, x: T)
    ensures x in Sort(s, le) <==> x in s
  {
    SortMultiset(s, le);
    assert x in multiset(s) <==> x in s;
    assert x in multiset(Sort(s, le)) <==> x in Sort(s, le);
  }

  lemma {:induction false} InsertSorted<T(!new)>(x: T, s: seq<T>, le: (T, T) -> bool)
    requires Ordering(le) && Sorted(s, le)
    ensures Sorted(Insert(x, s, le), le)
  {
    if s != [] && !le(x, s[0]) {
      InsertSorted(x, s[1..], le);
      InsertMultiset(x, s[1..], le);
      var t := Insert(x, s[1..], le);
      forall y | y in t ensures le(s[0], y) {
        assert y in multiset(t);
        assert y in s[1..] || y == x;
      }
    }
  }

  lemma {:induction false} SortSorted<T(!new)>(s: seq<T>, le: (T, T) -> bool)
    requires Ordering(le)
    ensures Sorted(Sort(s, le), le)
  {
    if s != [] {
      SortSorted(s[1..], le);
      InsertSorted(s[0], Sort(s[1..], le), le);
    }
  }

  lemma HeadsAgree<T(!new)>(s: seq<T>, t: seq<T>, le: (T, T) -> bool)
    requires Sorted(s, le) && Sorted(t, le) && multiset(s) == multiset(t) && s != []
    requires forall a, b :: a in s && b in s && le(a, b) && le(b, a) ==> a == b
    ensures t != [] && s[0] == t[0]
  {
    assert s[0] in multiset(t);
    assert t[0] in multiset(s);
    FirstOfSorted(s, le, t[0]);
    FirstOfSorted(t, le, s[0]);
  }

  lemma TailsAgree<T>(s: seq<T>, t: seq<T>)
    requires multiset(s) == multiset(t) && s != [] && t != [] && s[0] == t[0]
    ensures multiset(s[1..]) == multiset(t[1..])
  {
    assert s == [s[0]] + s[1..] && t == [t[0]] + t[1..];
    assert multiset(s[1..]) == multiset(s) - multiset{s[0]};
    assert multiset(t[1..]) == multiset(t) - multiset{t[0]};
  }

  /** Two sorted arrangements of the same elements agree when no two of them tie. */
  lemma {:induction false} SortedUnique<T(!new)>(s: seq<T>, t: seq<T>, le: (T, T) -> bool)
    requires Sorted(s, le) && Sorted(t, le) && multiset(s) == multiset(t)
    requires forall a, b :: a in s && b in s && le(a, b) && le(b, a) ==> a == b
    ensures s == t
  {
    if s == [] {
      assert |multiset(t)| == 0;
    } else {
      HeadsAgree(s, t, le);
      TailsAgree(s, t);
      SortedUnique(s[1..], t[1..], le);
    }
  }

  lemma FirstOfSorted<T>(s: seq<T>, le: (T, T) -> bool, x: T)
    requires Sorted(s, le) && x in s
    ensures x == s[0] || le(s[0], x)
  {
  }

  /** An element that goes before none of the first `n` leaves them where they are. */
  lemma {:induction false} InsertAfter<T>(x: T, s: seq<T>, le: (T, T) -> bool, n: nat)
    requires n <= |s| && forall i :: 0 <= i < n ==> !le(x, s[i])
    ensures |Insert(x, s, le)| == |s| + 1 && Insert(x, s, le)[..n] == s[..n]
  {
    InsertMultiset(x, s, le);
    if n > 0 {
      InsertAfter(x, s[1..], le, n - 1);
      assert s[..n] == [s[0]] + s[1..][..n - 1];
    }
  }

  /** No element of `d` goes before any of the first `n` of `s`. */
  predicate Behind<T>(d: seq<T>, s: seq<T>, le: (T, T) -> bool, n: nat)
    requires n <= |s|
  {
    forall k, i :: 0 <= k < |d| && 0 <= i < n ==> !le(d[k], s[i])
  }

  /** Elements that go before none of the first `n` of the sorted rest may be dropped. */
  lemma {:induction false} SortDrop<T>(d: seq<T>, s: seq<T>, le: (T, T) -> bool, n: nat)
    requires n <= |Sort(s, le)| && Behind(d, Sort(s, le), le, n)
    ensures n <= |Sort(d + s, le)| && Sort(d + s, le)[..n] == Sort(s, le)[..n]
  {
    if d == [] {
      assert d + s == s;
    } else {
      assert (d + s)[1..] == d[1..] + s && (d + s)[0] == d[0];
      SortDrop(d[1..], s, le, n);
      var t := Sort(d[1..] + s, le);
      forall i | 0 <= i < n ensures !le(d[0], t[i]) {
        assert t[i] == t[..n][i] == Sort(s, le)[i];
      }
      InsertAfter(d[0], t, le, n);
    }
  }

  lemma {:induction false} InsertFilter<T(!new)>(x: T, s: seq<T>, le: (T, T) -> bool, p: T -> bool)
    requires p(x) ==> forall y :: y in s && p(y) ==> le(x, y)
    ensures Filter(Insert(x, s, le), p) == if p(x) then [x] + Filter(s, p) else Filter(s, p)
  {
    if s == [] || le(x, s[0]) {
      assert ([x] + s)[1..] == s;
    } else {
      InsertFilter(x, s[1..], le, p);
      assert ([s[0]] + Insert(x, s[1..], le))[1..] == Insert(x, s[1..], le);
    }
  }

  /** Stability: elements that tie keep the order they had. */
  lemma {:induction false} SortStable<T(!new)>(s: seq<T>, le: (T, T) -> bool, p: T -> bool)
    requires forall x, y :: x in s && y in s && p(x) && p(y) ==> le(x, y)
    ensures Filter(Sort(s, le), p) == Filter(s, p)
  {
    if s != [] {
      SortStable(s[1..], le, p);
      forall y | y in Sort(s[1..], le) ensures y in s { SortMembers(s[1..], le, y); }
      InsertFilter(s[0], Sort(s[1..], le), le, p);
    }
  }
}
