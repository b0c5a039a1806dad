/**
 * Sequence helpers the source takes from Python's library: `sorted` of a set,
 * the stable `list.sort(key=...)`, and the counting and summing comprehensions
 * (`sum(1 for t in ts if p(t))`, `sum(f(t) for t in ts)`).
 */
module Seqs {

  /** `s` is ordered by non-decreasing `key`. */
  ghost predicate SortedBy<T>(s: seq<T>, key: T -> int)
  {
    forall i, j :: 0 <= i < j < |s| ==> key(s[i]) <= key(s[j])
  }

  /** The elements of `s` whose key is `k`, in their order in `s`. */
  function WithKey<T>(s: seq<T>, key: T -> int, k: int): (r: seq<T>)
    ensures |r| <= |s|
  {
    if s == [] then []
    else WithKey(s[..|s| - 1], key, k) + (if key(s[|s| - 1]) == k then [s[|s| - 1]] else [])
  }

  /**
   * `r` keeps the relative order that `s` gives to elements with equal keys:
   * what a stable sort promises.
   */
  ghost predicate StableFor<T>(s: seq<T>, r: seq<T>, key: T -> int)
  {
    forall k :: WithKey(r, key, k) == WithKey(s, key, k)
  }

  lemma {:induction false} WithKeyConcat<T>(a: seq<T>, b: seq<T>, key: T -> int, k: int)
    ensures WithKey(a + b, key, k) == WithKey(a, key, k) + WithKey(b, key, k)
    decreases |b|
  {
    if b == [] {
      assert a + b == a;
    } else {
      var b' := b[..|b| - 1];
      assert (a + b)[..|a + b| - 1] == a + b';
      WithKeyConcat(a, b', key, k);
    }
  }

  lemma {:induction false} WithKeyNone<T>(s: seq<T>, key: T -> int, k: int)
    requires forall i :: 0 <= i < |s| ==> key(s[i]) != k
    ensures WithKey(s, key, k) == []
    decreases |s|
  {
    if s != [] {
      WithKeyNone(s[..|s| - 1], key, k);
    }
  }

  lemma InsertGroup<T>(r: seq<T>, x: T, j: int, key: T -> int, k: int)
    requires 0 <= j <= |r|
    requires forall m :: j <= m < |r| ==> key(r[m]) > key(x)
    ensures WithKey(r[..j] + [x] + r[j..], key, k)
            == WithKey(r, key, k) + (if key(x) == k then [x] else [])
  {
    WithKeyConcat(r[..j] + [x], r[j..], key, k);
    WithKeyConcat(r[..j], [x], key, k);
    WithKeyConcat(r[..j], r[j..], key, k);
    assert r[..j] + r[j..] == r;
    assert [x][..0] == [];
    if key(x) == k {
      WithKeyNone(r[j..], key, k);
    }
  }

  /**
   * Inserting `x` after every element whose key is not larger keeps `r` sorted
   * and appends `x` to the group of its key.
   */
  lemma InsertAt<T>(r: seq<T>, x: T, j: int, key: T -> int)
    requires SortedBy(r, key) && 0 <= j <= |r|
    requires forall m :: 0 <= m < j ==> key(r[m]) <= key(x)
    requires forall m :: j <= m < |r| ==> key(r[m]) > key(x)
    ensures SortedBy(r[..j] + [x] + r[j..], key)
    ensures forall k :: WithKey(r[..j] + [x] + r[j..], key, k)
                        == WithKey(r, key, k) + (if key(x) == k then [x] else [])
  {
    forall k
      ensures WithKey(r[..j] + [x] + r[j..], key, k)
              == WithKey(r, key, k) + (if key(x) == k then [x] else [])
    {
      InsertGroup(r, x, j, key, k);
    }
  }

  /**
   * Python's stable `list.sort(key=...)`, as an insertion sort: the result is
   * ordered by key, is a permutation of the input, and keeps the input order
   * among equal keys.
   */
  method StableSort<T>(s: seq<T>, key: T -> int) returns (r: seq<T>)
    ensures SortedBy(r, key)
    ensures multiset(r) == multiset(s)
    ensures StableFor(s, r, key)
  {
    r := [];
    var i := 0;
    while i < |s|
      invariant 0 <= i <= |s|
      invariant SortedBy(r, key)
      invariant multiset(r) == multiset(s[..i])
      invariant StableFor(s[..i], r, key)
    {
      var j := FindSlot(r, s[i], key);
      SortStep(s, i, r, j, key);
      r := r[..j] + [s[i]] + r[j..];
      i := i + 1;
    }
    assert s[..i] == s;
  }

  /** The inner loop of the insertion: the place after every element whose key is not larger than `x`'s. */
  method FindSlot<T>(r: seq<T>, x: T, key: T -> int) returns (j: int)
    requires SortedBy(r, key)
    ensures 0 <= j <= |r|
    ensures forall m :: 0 <= m < j ==> key(r[m]) <= key(x)
    ensures forall m :: j <= m < |r| ==> key(r[m]) > key(x)
  {
    j := |r|;
    while j > 0 && key(r[j - 1]) > key(x)
      invariant 0 <= j <= |r|
      invariant forall m :: j <= m < |r| ==> key(r[m]) > key(x)
    {
      j := j - 1;
    }
  }

  /** Inserting the next element of `s` at its slot keeps the sort's invariants. */
  lemma SortStep<T>(s: seq<T>, i: int, r: seq<T>, j: int, key: T -> int)
    requires 0 <= i < |s| && 0 <= j <= |r|
    requires SortedBy(r, key) && multiset(r) == multiset(s[..i]) && StableFor(s[..i], r, key)
    requires forall m :: 0 <= m < j ==> key(r[m]) <= key(s[i])
    requires forall m :: j <= m < |r| ==> key(r[m]) > key(s[i])
    ensures var r' := r[..j] + [s[i]] + r[j..];
            SortedBy(r', key) && multiset(r') == multiset(s[..i + 1]) && StableFor(s[..i + 1], r', key)
  {
    var x := s[i];
    InsertAt(r, x, j, key);
    assert r == r[..j] + r[j..];
    assert s[..i + 1] == s[..i] + [x];
    forall k
      ensures WithKey(s[..i + 1], key, k) == WithKey(s[..i], key, k) + (if key(x) == k then [x] else [])
    {
      assert s[..i + 1][..i] == s[..i];
    }
  }

  /** `m` is the least element of `s`. */
  predicate IsLeast(s: set<int>, m: int)
  {
    m in s && forall y :: y in s ==> m <= y
  }

  lemma Pick(s: set<int>) returns (x: int)
    requires s != {}
    ensures x in s
  {
    if forall y :: y !in s {
      assert false;
    }
    x :| x in s;
  }

  /** Every non-empty finite set of integers has a least element. */
  lemma {:induction false} LeastExists(s: set<int>)
    requires s != {}
    ensures exists m :: IsLeast(s, m)
    decreases |s|
  {
    var x := Pick(s);
    var rest := s - {x};
    if rest == {} {
      forall y | y in s ensures x <= y {
        assert y !in rest;
      }
      assert IsLeast(s, x);
    } else {
      LeastExists(rest);
      var m :| IsLeast(rest, m);
      var lo := if x < m then x else m;
      forall y | y in s ensures lo <= y {
        if y != x { assert y in rest; }
      }
      assert IsLeast(s, lo);
    }
  }

  /** Python's `sorted(some_set)` on integers: strictly ascending, same elements. */
  function SortedSet(s: set<int>): (r: seq<int>)
    ensures |r| == |s|
    ensures forall i :: 0 <= i < |r| ==> r[i] in s
    ensures forall x {:trigger x in r} :: x in s ==> x in r
    ensures forall i, j :: 0 <= i < j < |r| ==> r[i] < r[j]
    decreases |s|
  {
    if s == {} then []
    else
      LeastExists(s);
      var m :| IsLeast(s, m);
      var rest := SortedSet(s - {m});
      assert forall i :: 0 <= i < |rest| ==> m < rest[i] by {
        forall i | 0 <= i < |rest| ensures m < rest[i] {
          assert rest[i] in s - {m};
        }
      }
      [m] + rest
  }

  /** `sum(1 for x in s if p(x))`. */
  function Count<T>(s: seq<T>, p: T -> bool): nat
  {
    if s == [] then 0 else Count(s[..|s| - 1], p) + (if p(s[|s| - 1]) then 1 else 0)
  }

  /** `sum(f(x) for x in s)`. */
  function Sum<T>(s: seq<T>, f: T -> int): int
  {
    if s == [] then 0 else Sum(s[..|s| - 1], f) + f(s[|s| - 1])
  }

  lemma {:induction false} CountAtMost<T>(s: seq<T>, p: T -> bool)
    ensures Count(s, p) <= |s|
    decreases |s|
  {
    if s != [] {
      CountAtMost(s[..|s| - 1], p);
    }
  }

  /** Counting two disjoint properties never exceeds counting a property implied by both. */
  lemma {:induction false} CountDisjoint<T>(s: seq<T>, p: T -> bool, q: T -> bool, u: T -> bool)
    requires forall x :: x in s ==> !(p(x) && q(x)) && (p(x) ==> u(x)) && (q(x) ==> u(x))
    ensures Count(s, p) + Count(s, q) <= Count(s, u)
    decreases |s|
  {
    if s != [] {
      var s' := s[..|s| - 1];
      assert forall x :: x in s' ==> x in s;
      assert s[|s| - 1] in s;
      CountDisjoint(s', p, q, u);
    }
  }

  lemma {:induction false} SumConcat<T>(a: seq<T>, b: seq<T>, f: T -> int)
    ensures Sum(a + b, f) == Sum(a, f) + Sum(b, f)
    decreases |b|
  {
    if b == [] {
      assert a + b == a;
    } else {
      assert (a + b)[..|a + b| - 1] == a + b[..|b| - 1];
      SumConcat(a, b[..|b| - 1], f);
    }
  }

  lemma {:induction false} CountConcat<T>(a: seq<T>, b: seq<T>, p: T -> bool)
    ensures Count(a + b, p) == Count(a, p) + Count(b, p)
    decreases |b|
  {
    if b == [] {
      assert a + b == a;
    } else {
      assert (a + b)[..|a + b| - 1] == a + b[..|b| - 1];
      CountConcat(a, b[..|b| - 1], p);
    }
  }

  /** Two properties no element has together are counted at most `|s|` times between them. */
  lemma {:induction false} CountExclusive<T>(s: seq<T>, p: T -> bool, q: T -> bool)
    requires forall i :: 0 <= i < |s| ==> !(p(s[i]) && q(s[i]))
    ensures Count(s, p) + Count(s, q) <= |s|
    decreases |s|
  {
    if s != [] {
      CountExclusive(s[..|s| - 1], p, q);
    }
  }

  /** A property implied by another is counted at least as often. */
  lemma {:induction false} CountImplies<T>(s: seq<T>, p: T -> bool, q: T -> bool)
    requires forall i :: 0 <= i < |s| ==> p(s[i]) ==> q(s[i])
    ensures Count(s, p) <= Count(s, q)
    decreases |s|
  {
    if s != [] {
      CountImplies(s[..|s| - 1], p, q);
    }
  }

  /** The count is positive exactly when some element has the property, and full exactly when all have it. */
  lemma {:induction false} CountBounds<T>(s: seq<T>, p: T -> bool)
    ensures Count(s, p) <= |s|
    ensures Count(s, p) > 0 <==> exists i :: 0 <= i < |s| && p(s[i])
    ensures Count(s, p) == |s| <==> forall i :: 0 <= i < |s| ==> p(s[i])
    decreases |s|
  {
    if s != [] {
      var front := s[..|s| - 1];
      CountBounds(front, p);
      assert forall i :: 0 <= i < |front| ==> front[i] == s[i];
      if Count(s, p) > 0 && !p(s[|s| - 1]) {
        var i :| 0 <= i < |front| && p(front[i]);
        assert p(s[i]);
      }
    }
  }

  /** A sum of non-negative terms is non-negative, and positive exactly when some term is. */
  lemma {:induction false} SumNonNegative<T>(s: seq<T>, f: T -> int)
    requires forall i :: 0 <= i < |s| ==> f(s[i]) >= 0
    ensures Sum(s, f) >= 0
    ensures Sum(s, f) > 0 <==> exists i :: 0 <= i < |s| && f(s[i]) > 0
    decreases |s|
  {
    if s != [] {
      var front := s[..|s| - 1];
      assert forall i :: 0 <= i < |front| ==> front[i] == s[i];
      SumNonNegative(front, f);
      if Sum(s, f) > 0 && f(s[|s| - 1]) <= 0 {
        var i :| 0 <= i < |front| && f(front[i]) > 0;
        assert f(s[i]) > 0;
      }
    }
  }

  /** Two sorted sequences with the same elements end with elements of the same key. */
  lemma LastKeysEqual<T>(s: seq<T>, r: seq<T>, key: T -> int)
    requires SortedBy(s, key) && SortedBy(r, key)
    requires multiset(r) == multiset(s) && s != []
    ensures |r| == |s| && key(r[|r| - 1]) == key(s[|s| - 1])
  {
    assert |r| == |multiset(r)| == |multiset(s)| == |s|;
    var n := |s|;
    var x, y := s[n - 1], r[n - 1];
    assert x in multiset(r) && y in multiset(s);
    var i :| 0 <= i < n && r[i] == x;
    var j :| 0 <= j < n && s[j] == y;
  }

  lemma WithKeyLast<T>(s: seq<T>, key: T -> int, k: int)
    requires s != [] && key(s[|s| - 1]) == k
    ensures var w := WithKey(s, key, k); w != [] && w[|w| - 1] == s[|s| - 1]
  {
  }

  /** Equal groups for the last element's key make the last elements equal. */
  lemma DropLastSame<T>(s: seq<T>, r: seq<T>, key: T -> int)
    requires |s| == |r| && s != []
    requires key(r[|r| - 1]) == key(s[|s| - 1])
    requires WithKey(r, key, key(s[|s| - 1])) == WithKey(s, key, key(s[|s| - 1]))
    ensures r[|r| - 1] == s[|s| - 1]
  {
    var n := |s|;
    var k := key(s[n - 1]);
    WithKeyLast(r, key, k);
    WithKeyLast(s, key, k);
  }

  /** With equal last elements, equal groups of key `k` stay equal without them. */
  lemma DropLastGroup<T>(s: seq<T>, r: seq<T>, key: T -> int, k: int)
    requires |s| == |r| && s != [] && r[|r| - 1] == s[|s| - 1]
    requires WithKey(r, key, k) == WithKey(s, key, k)
    ensures WithKey(r[..|r| - 1], key, k) == WithKey(s[..|s| - 1], key, k)
  {
    var n := |s|;
    var x := s[n - 1];
    var tail := if key(x) == k then [x] else [];
    var a, b := WithKey(r[..n - 1], key, k), WithKey(s[..n - 1], key, k);
    assert WithKey(r, key, k) == a + tail;
    assert WithKey(s, key, k) == b + tail;
    assert (a + tail)[..|a|] == a && (b + tail)[..|b|] == b;
  }

  lemma DropLastStable<T>(s: seq<T>, r: seq<T>, key: T -> int)
    requires |s| == |r| && s != [] && r[|r| - 1] == s[|s| - 1]
    requires StableFor(s, r, key)
    ensures StableFor(s[..|s| - 1], r[..|r| - 1], key)
  {
    var s', r' := s[..|s| - 1], r[..|r| - 1];
    forall k
      ensures WithKey(r', key, k) == WithKey(s', key, k)
    {
      DropLastGroup(s, r, key, k);
    }
  }

  lemma DropLastMultiset<T>(s: seq<T>, r: seq<T>)
    requires s != [] && r != [] && r[|r| - 1] == s[|s| - 1]
    requires multiset(r) == multiset(s)
    ensures multiset(r[..|r| - 1]) == multiset(s[..|s| - 1])
  {
    var x := s[|s| - 1];
    var s', r' := s[..|s| - 1], r[..|r| - 1];
    SplitLast(s);
    SplitLast(r);
    assert multiset(r') == multiset(r) - multiset{x} == multiset(s) - multiset{x} == multiset(s');
  }

  /** `[f(x) for x in s]`. */
  function MapSeq<A, B>(s: seq<A>, f: A -> B): (r: seq<B>)
    ensures |r| == |s|
    ensures forall i :: 0 <= i < |s| ==> r[i] == f(s[i])
  {
    seq(|s|, i requires 0 <= i < |s| => f(s[i]))
  }

  lemma MapConcat<A, B>(a: seq<A>, b: seq<A>, f: A -> B)
    ensures MapSeq(a + b, f) == MapSeq(a, f) + MapSeq(b, f)
  {
  }

  /** Mapping two sequences with the same elements gives sequences with the same elements. */
  lemma {:induction false} MapMultiset<A, B>(a: seq<A>, b: seq<A>, f: A -> B)
    requires multiset(a) == multiset(b)
    ensures multiset(MapSeq(a, f)) == multiset(MapSeq(b, f))
    decreases |a|
  {
    if a == [] {
      assert |b| == |multiset(b)| == 0;
    } else {
      var front, x := a[..|a| - 1], a[|a| - 1];
      assert a == front + [x];
      assert x in multiset(b);
      var i :| 0 <= i < |b| && b[i] == x;
      var rest := b[..i] + b[i + 1..];
      DropAt(b, i, f);
      calc {
        multiset(MapSeq(a, f));
        { MapConcat(front, [x], f); }
        multiset(MapSeq(front, f)) + multiset{f(x)};
        { MapMultiset(front, rest, f); }
        multiset(MapSeq(rest, f)) + multiset{f(x)};
        multiset(MapSeq(b, f));
      }
    }
  }

  /** Removing the element at `i`, before or after mapping, removes one occurrence. */
  lemma DropAt<A, B>(b: seq<A>, i: nat, f: A -> B)
    requires i < |b|
    ensures multiset(b[..i] + b[i + 1..]) == multiset(b) - multiset{b[i]}
    ensures multiset(MapSeq(b, f)) == multiset(MapSeq(b[..i] + b[i + 1..], f)) + multiset{f(b[i])}
  {
    var lo, x, hi := b[..i], b[i], b[i + 1..];
    assert b == lo + [x] + hi;
    calc {
      multiset(MapSeq(b, f));
      { MapConcat(lo + [x], hi, f); MapConcat(lo, [x], f); assert MapSeq([x], f) == [f(x)]; }
      multiset(MapSeq(lo, f) + [f(x)] + MapSeq(hi, f));
      multiset(MapSeq(lo, f) + MapSeq(hi, f)) + multiset{f(x)};
      { MapConcat(lo, hi, f); }
      multiset(MapSeq(lo + hi, f)) + multiset{f(x)};
    }
  }

  lemma SplitLast<T>(s: seq<T>)
    requires s != []
    ensures s[..|s| - 1] + [s[|s| - 1]] == s
  {
  }

  lemma AppendAssoc<T>(a: seq<T>, b: seq<T>, c: seq<T>)
    ensures (a + b) + c == a + (b + c)
  {
  }

  lemma TakeSnoc<T>(s: seq<T>, k: nat)
    requires k < |s|
    ensures s[..k + 1] == s[..k] + [s[k]]
  {
  }

  lemma EqualByLast<T>(s: seq<T>, r: seq<T>)
    requires |s| == |r| && s != []
    requires r[..|r| - 1] == s[..|s| - 1] && r[|r| - 1] == s[|s| - 1]
    ensures r == s
  {
    assert s == s[..|s| - 1] + [s[|s| - 1]];
    assert r == r[..|r| - 1] + [r[|r| - 1]];
  }

  lemma SortedPrefix<T>(s: seq<T>, key: T -> int, j: nat)
    requires SortedBy(s, key) && j <= |s|
    ensures SortedBy(s[..j], key)
  {
  }

  /**
   * A stable sort of an already sorted sequence returns it unchanged: two
   * sequences ordered by the same key, with the same elements and the same
   * order within each key, are equal.
   */
  lemma {:induction false} SortedStableUnique<T>(s: seq<T>, r: seq<T>, key: T -> int)
    requires SortedBy(s, key) && SortedBy(r, key)
    requires multiset(r) == multiset(s)
    requires StableFor(s, r, key)
    ensures r == s
    decreases |s|
  {
    if s == [] {
      assert |r| == |multiset(r)| == 0;
    } else {
      var n := |s|;
      LastKeysEqual(s, r, key);
      DropLastSame(s, r, key);
      DropLastStable(s, r, key);
      DropLastMultiset(s, r);
      SortedPrefix(s, key, n - 1);
      SortedPrefix(r, key, n - 1);
      SortedStableUnique(s[..n - 1], r[..n - 1], key);
      EqualByLast(s, r);
    }
  }
}
