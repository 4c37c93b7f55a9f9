/** A stable sort, standing for the library sorts the scoring engine relies on
    (Kotlin's `sortedWith` and `sortedBy` are stable). */
module StableSort {

  /** A comparator that never refuses to compare: total and transitive. */
  ghost predicate TotalPreorder<T(!new)>(le: (T, T) -> bool) {
    && (forall x, y :: le(x, y) || le(y, x))
    && (forall x, y, z :: le(x, y) && le(y, z) ==> le(x, z))
  }

  ghost predicate Antisymmetric<T(!new)>(le: (T, T) -> bool) {
    forall x, y :: le(x, y) && le(y, x) ==> x == y
  }

  /** `p` holds of everything below an element of which it holds. */
  ghost predicate DownwardClosed<T(!new)>(le: (T, T) -> bool, p: T -> bool) {
    forall x, y :: le(x, y) && p(y) ==> p(x)
  }

  ghost predicate Sorted<T>(le: (T, T) -> bool, s: seq<T>) {
    forall i, j :: 0 <= i < j < |s| ==> le(s[i], s[j])
  }

  /** Inserts `x` in front of the first element it does not exceed. */
  function Insert<T>(le: (T, T) -> bool, x: T, s: seq<T>): seq<T> {
    if s == [] || le(x, s[0]) then [x] + s else [s[0]] + Insert(le, x, s[1..])
  }

  function Sort<T>(le: (T, T) -> bool, s: seq<T>): seq<T> {
    if s == [] then [] else Insert(le, s[0], Sort(le, s[1..]))
  }

  function Filter<T>(p: T -> bool, s: seq<T>): (r: seq<T>)
    ensures |r| <= |s|
  {
    if s == [] then [] else (if p(s[0]) then [s[0]] else []) + Filter(p, s[1..])
  }

  lemma {:induction false} FilterMember<T>(p: T -> bool, s: seq<T>, x: T)
    ensures x in Filter(p, s) <==> x in s && p(x)
  {
    if s != [] {
      FilterMember(p, s[1..], x);
    }
  }

  lemma {:induction false} InsertPermutes<T>(le: (T, T) -> bool, x: T, s: seq<T>)
    ensures multiset(Insert(le, x, s)) == multiset{x} + multiset(s)
  {
    if s != [] && !le(x, s[0]) {
      assert s == [s[0]] + s[1..];
      InsertPermutes(le, x, s[1..]);
    }
  }

  /** Inserting keeps a lower bound of the list and of the new element. */
  lemma {:induction false} InsertBound<T>(le: (T, T) -> bool, x: T, s: seq<T>, b: T)
    requires le(b, x) && forall i :: 0 <= i < |s| ==> le(b, s[i])
    ensures forall i :: 0 <= i < |Insert(le, x, s)| ==> le(b, Insert(le, x, s)[i])
  {
    if s != [] && !le(x, s[0]) {
      InsertBound(le, x, s[1..], b);
    }
  }

  lemma {:induction false} InsertSorted<T(!new)>(le: (T, T) -> bool, x: T, s: seq<T>)
    requires TotalPreorder(le) && Sorted(le, s)
    ensures Sorted(le, Insert(le, x, s))
  {
    if s != [] && !le(x, s[0]) {
      assert le(s[0], x);
      InsertSorted(le, x, s[1..]);
      InsertBound(le, x, s[1..], s[0]);
    }
  }

  /** The result is ordered and is a permutation of the input. */
  lemma {:induction false} SortCorrect<T(!new)>(le: (T, T) -> bool, s: seq<T>)
    requires TotalPreorder(le)
    ensures Sorted(le, Sort(le, s))
    ensures multiset(Sort(le, s)) == multiset(s)
    ensures |Sort(le, s)| == |s|
  {
    if s != [] {
      assert s == [s[0]] + s[1..];
      SortCorrect(le, s[1..]);
      InsertSorted(le, s[0], Sort(le, s[1..]));
      InsertPermutes(le, s[0], Sort(le, s[1..]));
    }
    assert |multiset(Sort(le, s))| == |Sort(le, s)|;
  }

  /** Sorting a sorted list leaves it as it is. */
  lemma {:induction false} SortIdempotent<T(!new)>(le: (T, T) -> bool, s: seq<T>)
    requires Sorted(le, s)
    ensures Sort(le, s) == s
  {
    if |s| > 0 {
      SortIdempotent(le, s[1..]);
    }
  }

  /** The order ranks no two different elements of the list alike. */
  ghost predicate Distinguishes<T>(le: (T, T) -> bool, s: seq<T>) {
    forall x, y :: x in s && y in s && le(x, y) && le(y, x) ==> x == y
  }

  lemma {:induction false} InsertStable<T>(le: (T, T) -> bool, p: T -> bool, x: T, s: seq<T>)
    requires forall y, z :: p(y) && p(z) ==> le(y, z)
    ensures Filter(p, Insert(le, x, s)) == Filter(p, [x] + s)
  {
    if s != [] && !le(x, s[0]) {
      InsertStable(le, p, x, s[1..]);
      assert ([s[0]] + Insert(le, x, s[1..]))[1..] == Insert(le, x, s[1..]);
      assert ([x] + s)[1..] == s && ([x] + s[1..])[1..] == s[1..];
    }
  }

  /** The sort is stable: elements the order ranks alike keep their order. */
  lemma {:induction false} SortStable<T>(le: (T, T) -> bool, p: T -> bool, s: seq<T>)
    requires forall y, z :: p(y) && p(z) ==> le(y, z)
    ensures Filter(p, Sort(le, s)) == Filter(p, s)
  {
    if s != [] {
      SortStable(le, p, s[1..]);
      InsertStable(le, p, s[0], Sort(le, s[1..]));
      assert ([s[0]] + Sort(le, s[1..]))[1..] == Sort(le, s[1..]);
    }
  }

  /** An order that tells its elements apart leaves only one way to arrange a bag of them. */
  lemma {:induction false} SortedUnique<T(!new)>(le: (T, T) -> bool, a: seq<T>, b: seq<T>)
    requires Distinguishes(le, a)
    requires Sorted(le, a) && Sorted(le, b) && multiset(a) == multiset(b)
    ensures a == b
  {
    hide Distinguishes, Sorted;
    assert |multiset(a)| == |a| && |multiset(b)| == |b|;
    if a != [] {
      SameFirst(le, a, b);
      SortedTail(le, a);
      SortedTail(le, b);
      TailDistinguished(le, a);
      SortedUnique(le, a[1..], b[1..]);
      assert a == [a[0]] + a[1..] && b == [b[0]] + b[1..];
    }
  }

  lemma TailDistinguished<T>(le: (T, T) -> bool, s: seq<T>)
    requires Distinguishes(le, s) && s != []
    ensures Distinguishes(le, s[1..])
  {}

  lemma SortedTail<T>(le: (T, T) -> bool, s: seq<T>)
    requires Sorted(le, s) && s != []
    ensures Sorted(le, s[1..]) && multiset(s[1..]) == multiset(s) - multiset{s[0]}
  {
    assert s == [s[0]] + s[1..];
  }

  lemma SameFirst<T(!new)>(le: (T, T) -> bool, a: seq<T>, b: seq<T>)
    requires Distinguishes(le, a) && Sorted(le, a) && Sorted(le, b)
    requires multiset(a) == multiset(b) && |a| > 0 && |b| > 0
    ensures a[0] == b[0]
  {
    assert b[0] in multiset(a) && a[0] in multiset(b);
    var k :| 0 <= k < |a| && a[k] == b[0];
    var l :| 0 <= l < |b| && b[l] == a[0];
  }

  lemma {:induction false} InsertFilter<T(!new)>(le: (T, T) -> bool, p: T -> bool, x: T, s: seq<T>)
    requires TotalPreorder(le) && DownwardClosed(le, p) && Sorted(le, s)
    ensures Filter(p, Insert(le, x, s)) == if p(x) then Insert(le, x, Filter(p, s)) else Filter(p, s)
  {
    if s == [] {
      assert ([x] + s)[1..] == s;
    } else if le(x, s[0]) {
      assert ([x] + s)[1..] == s;
      if p(x) && Filter(p, s) != [] {
        var f := Filter(p, s);
        FilterMember(p, s, f[0]);
        assert le(s[0], f[0]);
        assert le(x, f[0]);
      }
    } else {
      InsertFilter(le, p, x, s[1..]);
      var r := Insert(le, x, s[1..]);
      assert ([s[0]] + r)[1..] == r;
      if p(x) {
        assert p(s[0]);
        assert ([s[0]] + Filter(p, s[1..]))[1..] == Filter(p, s[1..]);
      }
    }
  }

  /** Sorting commutes with keeping a downward-closed part. */
  lemma {:induction false} SortFilter<T(!new)>(le: (T, T) -> bool, p: T -> bool, s: seq<T>)
    requires TotalPreorder(le) && DownwardClosed(le, p)
    ensures Filter(p, Sort(le, s)) == Sort(le, Filter(p, s))
  {
    hide TotalPreorder, DownwardClosed, Sorted;
    if s != [] {
      SortFilter(le, p, s[1..]);
      SortCorrect(le, s[1..]);
      InsertFilter(le, p, s[0], Sort(le, s[1..]));
      var rest := Filter(p, s[1..]);
      if p(s[0]) {
        assert Filter(p, s) == [s[0]] + rest && ([s[0]] + rest)[1..] == rest;
      } else {
        assert Filter(p, s) == rest;
      }
    }
  }

  /** In a sorted list the downward-closed part comes first. */
  lemma {:induction false} FilterIsPrefix<T(!new)>(le: (T, T) -> bool, p: T -> bool, s: seq<T>)
    requires DownwardClosed(le, p) && Sorted(le, s)
    ensures Filter(p, s) == s[..|Filter(p, s)|]
    ensures forall i :: |Filter(p, s)| <= i < |s| ==> !p(s[i])
  {
    if s == [] {
    } else if p(s[0]) {
      FilterIsPrefix(le, p, s[1..]);
      assert s == [s[0]] + s[1..];
    } else {
      assert forall i :: 0 <= i < |s| ==> i == 0 || le(s[0], s[i]);
      FilterNone(p, s);
    }
  }

  lemma {:induction false} FilterNone<T>(p: T -> bool, s: seq<T>)
    requires forall i :: 0 <= i < |s| ==> !p(s[i])
    ensures Filter(p, s) == []
  {
    if s != [] {
      FilterNone(p, s[1..]);
    }
  }

  lemma {:induction false} FilterAppend<T>(p: T -> bool, a: seq<T>, b: seq<T>)
    ensures Filter(p, a + b) == Filter(p, a) + Filter(p, b)
  {
    if a == [] {
      assert a + b == b;
    } else {
      assert (a + b)[1..] == a[1..] + b;
      FilterAppend(p, a[1..], b);
      var first := if p(a[0]) then [a[0]] else [];
      assert first + (Filter(p, a[1..]) + Filter(p, b)) == (first + Filter(p, a[1..])) + Filter(p, b);
    }
  }

  function Map<A, B>(f: A -> B, s: seq<A>): (r: seq<B>)
    ensures |r| == |s| && forall i :: 0 <= i < |s| ==> r[i] == f(s[i])
  {
    seq(|s|, i requires 0 <= i < |s| => f(s[i]))
  }

  /** The bag of images does not depend on the order of the list. */
  lemma {:induction false} MapPermutation<A, B>(f: A -> B, a: seq<A>, b: seq<A>)
    requires multiset(a) == multiset(b)
    ensures multiset(Map(f, a)) == multiset(Map(f, b))
    decreases |a|
  {
    hide Map;
    SameSize(a, b);
    if a == [] {
      assert a == b;
    } else {
      var j := PlaceOf(a, b);
      var rest := b[..j] + b[j + 1..];
      TailMatches(a, b, j);
      MapPermutation(f, a[1..], rest);
      MapTail(f, a);
      MapWithout(f, b, j);
    }
  }

  lemma PlaceOf<T>(a: seq<T>, b: seq<T>) returns (j: nat)
    requires multiset(a) == multiset(b) && a != []
    ensures j < |b| && b[j] == a[0]
  {
    assert a[0] in multiset(b);
    j :| 0 <= j < |b| && b[j] == a[0];
  }

  lemma MapTail<A, B>(f: A -> B, s: seq<A>)
    requires s != []
    ensures multiset(Map(f, s)) == multiset(Map(f, s[1..])) + multiset{f(s[0])}
  {
    hide Map;
    MapWithout(f, s, 0);
    assert s[..0] + s[1..] == s[1..];
  }

  lemma SameSize<T>(a: seq<T>, b: seq<T>)
    requires multiset(a) == multiset(b)
    ensures |a| == |b|
  {
    assert |multiset(a)| == |a| && |multiset(b)| == |b|;
  }

  lemma TailMatches<T>(a: seq<T>, b: seq<T>, j: nat)
    requires multiset(a) == multiset(b) && a != [] && j < |b| && b[j] == a[0]
    ensures multiset(a[1..]) == multiset(b[..j] + b[j + 1..])
  {
    var rest := a[..0] + a[1..];
    assert rest == a[1..];
    BagWithout(a, 0);
    BagWithout(b, j);
  }

  lemma MapWithout<A, B>(f: A -> B, s: seq<A>, j: nat)
    requires j < |s|
    ensures multiset(Map(f, s)) == multiset(Map(f, s[..j] + s[j + 1..])) + multiset{f(s[j])}
  {
    var fs := Map(f, s);
    assert fs[..j] + fs[j + 1..] == Map(f, s[..j] + s[j + 1..]);
    BagWithout(fs, j);
  }

  lemma BagWithout<T>(s: seq<T>, j: nat)
    requires j < |s|
    ensures multiset(s[..j] + s[j + 1..]) == multiset(s) - multiset{s[j]}
    ensures multiset(s) == multiset(s[..j] + s[j + 1..]) + multiset{s[j]}
  {
    assert s == s[..j] + [s[j]] + s[j + 1..];
  }

  /** No value is listed twice. */
  ghost predicate Distinct<T>(s: seq<T>) { forall i, j :: 0 <= i < j < |s| ==> s[i] != s[j] }

  lemma {:induction false} DistinctPermutes<T>(a: seq<T>, b: seq<T>)
    requires multiset(a) == multiset(b) && Distinct(a)
    ensures Distinct(b)
    decreases |a|
  {
    SameSize(a, b);
    if a != [] {
      var j := PlaceOf(a, b);
      var rest := b[..j] + b[j + 1..];
      TailMatches(a, b, j);
      DistinctPermutes(a[1..], rest);
      assert a[0] !in rest by {
        assert a[0] !in a[1..];
        assert a[0] !in multiset(a[1..]);
      }
      DistinctBack(b, j, rest);
    }
  }

  lemma DistinctBack<T>(b: seq<T>, j: nat, rest: seq<T>)
    requires j < |b| && rest == b[..j] + b[j + 1..] && Distinct(rest) && b[j] !in rest
    ensures Distinct(b)
  {
    assert forall i :: 0 <= i < |b| && i != j ==> b[i] == rest[if i < j then i else i - 1];
  }

  /** Sorted by distinct keys is sorted strictly, whatever the order the list came in. */
  lemma {:induction false} DistinctKeys<T(!new)>(le: (T, T) -> bool, key: T -> real, s: seq<T>)
    requires TotalPreorder(le) && forall x, y :: le(x, y) <==> key(x) <= key(y)
    ensures (forall i, j :: 0 <= i < j < |s| ==> key(s[i]) != key(s[j])) <==>
              forall i, j :: 0 <= i < j < |Sort(le, s)| ==> key(Sort(le, s)[i]) < key(Sort(le, s)[j])
  {
    SortCorrect(le, s);
    var t := Sort(le, s);
    hide Sort;
    MapPermutation(key, s, t);
    assert Distinct(Map(key, t)) <==> Distinct(Map(key, s)) by {
      if Distinct(Map(key, s)) { DistinctPermutes(Map(key, s), Map(key, t)); }
      if Distinct(Map(key, t)) { DistinctPermutes(Map(key, t), Map(key, s)); }
    }
    SameDistinct(key, s);
    SameDistinct(key, t);
    hide Distinct;
    assert forall i, j :: 0 <= i < j < |t| ==> le(t[i], t[j]);
  }

  lemma SameDistinct<T(!new)>(key: T -> real, s: seq<T>)
    ensures Distinct(Map(key, s)) <==> forall i, j :: 0 <= i < j < |s| ==> key(s[i]) != key(s[j])
  {
    var keys := Map(key, s);
    assert forall i :: 0 <= i < |s| ==> keys[i] == key(s[i]);
  }

  /** The least key comes first. */
  lemma {:induction false} LeastFirst<T(!new)>(le: (T, T) -> bool, key: T -> real, s: seq<T>)
    requires TotalPreorder(le) && (forall x, y :: le(x, y) <==> key(x) <= key(y)) && s != []
    ensures Sort(le, s) != [] && Sort(le, s)[0] in s
    ensures forall x :: x in s ==> key(Sort(le, s)[0]) <= key(x)
  {
    SortCorrect(le, s);
    var t := Sort(le, s);
    hide Sort;
    assert t[0] in multiset(s);
    forall x | x in s ensures key(t[0]) <= key(x) {
      assert x in multiset(t);
      var i :| 0 <= i < |t| && t[i] == x;
      if i > 0 { assert le(t[0], t[i]); }
    }
  }

  /** Two arrangements of one bag sort to the same sequence of keys, when the comparator
      compares nothing but the key. */
  lemma {:induction false} SameKeys<T(!new), K(!new)>(
    le: (T, T) -> bool, key: T -> K, leK: (K, K) -> bool, a: seq<T>, b: seq<T>)
    requires TotalPreorder(le) && Antisymmetric(leK)
    requires forall x, y :: le(x, y) <==> leK(key(x), key(y))
    requires multiset(a) == multiset(b)
    ensures Map(key, Sort(le, a)) == Map(key, Sort(le, b))
  {
    hide TotalPreorder;
    SortCorrect(le, a);
    SortCorrect(le, b);
    MapPermutation(key, Sort(le, a), Sort(le, b));
    SortedUnique(leK, Map(key, Sort(le, a)), Map(key, Sort(le, b)));
  }
}
