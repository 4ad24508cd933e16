/** Filtering and ordering of sequences: the `WHERE` and `ORDER BY` of the
    task queries and the `filter` calls of the client pages. */
module Seqs {
  import opened Wrappers


  /** `s.filter(f)`: the elements satisfying f, in their original order. */
  function Filter<T(!new)>(s: seq<T>, f: T -> bool): (r: seq<T>)
    ensures |r| <= |s|
    ensures forall x :: x in r <==> x in s && f(x)
    decreases |s|
  {
    if s == [] then []
    else if f(s[0]) then [s[0]] + Filter(s[1..], f)
    else Filter(s[1..], f)
  }

  lemma {:induction false} FilterAppend<T(!new)>(a: seq<T>, b: seq<T>, f: T -> bool)
    ensures Filter(a + b, f) == Filter(a, f) + Filter(b, f)
    decreases |a|
  {
    if a == [] {
      assert a + b == b;
    } else {
      assert (a + b)[0] == a[0];
      assert (a + b)[1..] == a[1..] + b;
      FilterAppend(a[1..], b, f);
    }
  }

  /** Filtering by a condition every element meets keeps the sequence. */
  lemma {:induction false} FilterAll<T(!new)>(s: seq<T>, f: T -> bool)
    requires forall x :: x in s ==> f(x)
    ensures Filter(s, f) == s
    decreases |s|
  {
    if s != [] {
      FilterAll(s[1..], f);
      assert s == [s[0]] + s[1..];
    }
  }

  /** Filtering by a weaker condition first changes nothing. */
  lemma {:induction false} FilterFilter<T(!new)>(s: seq<T>, f: T -> bool, g: T -> bool)
    requires forall x :: f(x) ==> g(x)
    ensures Filter(Filter(s, g), f) == Filter(s, f)
    decreases |s|
  {
    if s != [] {
      FilterFilter(s[1..], f, g);
      if g(s[0]) {
        assert Filter(s, g)[1..] == Filter(s[1..], g);
      }
    }
  }

  /** Filtering by a stronger condition keeps no more elements. */
  lemma {:induction false} FilterMonotone<T(!new)>(s: seq<T>, f: T -> bool, g: T -> bool)
    requires forall x :: f(x) ==> g(x)
    ensures |Filter(s, f)| <= |Filter(s, g)|
    decreases |s|
  {
    if s != [] {
      FilterMonotone(s[1..], f, g);
    }
  }

  /** Two conditions that exclude each other and both imply a third keep
      together no more than the third does. */
  lemma {:induction false} FilterDisjoint<T(!new)>(s: seq<T>, f: T -> bool, g: T -> bool, h: T -> bool)
    requires forall x :: !(f(x) && g(x))
    requires forall x :: f(x) ==> h(x)
    requires forall x :: g(x) ==> h(x)
    ensures |Filter(s, f)| + |Filter(s, g)| <= |Filter(s, h)|
    decreases |s|
  {
    if s != [] {
      FilterDisjoint(s[1..], f, g, h);
    }
  }

  /** Splitting by a condition and its negation loses nothing. */
  lemma {:induction false} FilterPartition<T(!new)>(s: seq<T>, f: T -> bool, g: T -> bool)
    requires forall x :: g(x) == !f(x)
    ensures |Filter(s, f)| + |Filter(s, g)| == |s|
    decreases |s|
  {
    if s != [] {
      FilterPartition(s[1..], f, g);
    }
  }

  /** Elements are in ascending order of key. */
  predicate SortedBy<T>(s: seq<T>, key: T -> int) {
    forall i, j :: 0 <= i < j < |s| ==> key(s[i]) <= key(s[j])
  }

  /** Elements are in strictly ascending order of key. */
  predicate IncreasingBy<T>(s: seq<T>, key: T -> int) {
    forall i, j :: 0 <= i < j < |s| ==> key(s[i]) < key(s[j])
  }

  lemma {:induction false} FilterIncreasing<T(!new)>(s: seq<T>, f: T -> bool, key: T -> int)
    requires IncreasingBy(s, key)
    ensures IncreasingBy(Filter(s, f), key)
    decreases |s|
  {
    if s != [] {
      FilterIncreasing(s[1..], f, key);
      var r := Filter(s[1..], f);
      forall x | x in r ensures key(s[0]) < key(x) {
        var k :| 0 <= k < |s[1..]| && s[1..][k] == x;
        assert s[k + 1] == x;
      }
    }
  }

  /** Inserts x before the first element with a larger key. */
  function Insert<T>(x: T, s: seq<T>, key: T -> int): (r: seq<T>)
    requires SortedBy(s, key)
    ensures multiset(r) == multiset(s) + multiset{x}
    ensures SortedBy(r, key)
    ensures |r| == |s| + 1
    ensures r[0] == x || (|s| > 0 && r[0] == s[0])
    decreases |s|
  {
    if s == [] then [x]
    else if key(x) <= key(s[0]) then [x] + s
    else
      var rest := Insert(x, s[1..], key);
      assert s == [s[0]] + s[1..];
      assert key(s[0]) <= key(rest[0]);
      [s[0]] + rest
  }

  /** Insertion sort by key; ties keep no particular order, as with SQL
      `ORDER BY`. */
  function SortBy<T>(s: seq<T>, key: T -> int): (r: seq<T>)
    ensures multiset(r) == multiset(s)
    ensures SortedBy(r, key)
    decreases |s|
  {
    if s == [] then []
    else
      assert s == [s[0]] + s[1..];
      Insert(s[0], SortBy(s[1..], key), key)
  }

  /** The first index at or after `from` whose element satisfies f. */
  function IndexFrom<T>(s: seq<T>, f: T -> bool, from: nat): (r: Option<nat>)
    requires from <= |s|
    ensures r.Some? ==> from <= r.value < |s| && f(s[r.value])
    ensures r.Some? ==> forall k :: from <= k < r.value ==> !f(s[k])
    ensures r.None? <==> forall k :: from <= k < |s| ==> !f(s[k])
    decreases |s| - from
  {
    if from == |s| then None
    else if f(s[from]) then Some(from)
    else IndexFrom(s, f, from + 1)
  }
}
