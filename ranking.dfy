/** The two Python built-ins the digest ranks with: `sorted(xs, key=k,
    reverse=d)`, a stable sort (with `reverse=True` rows with equal keys
    still keep their input order), and the prefix slice `xs[:n]`, where a
    negative `n` counts from the end. */
module Ranking {

  function Min(a: int, b: int): int {
    if a <= b then a else b
  }

  function Max(a: int, b: int): int {
    if a >= b then a else b
  }

  /** `xs[:n]`. */
  function Prefix<T>(xs: seq<T>, n: int): (r: seq<T>)
    ensures n >= 0 ==> |r| == Min(n, |xs|)
    ensures n < 0 ==> |r| == Max(0, |xs| + n)
    ensures r == xs[..|r|]
  {
    if n >= 0 then xs[..Min(n, |xs|)] else xs[..Max(0, |xs| + n)]
  }

  /** x has to come strictly before y: a larger key when descending, a
      smaller one when ascending. Equal keys never precede each other. */
  predicate Precedes<T>(x: T, y: T, key: T -> real, descending: bool) {
    if descending then key(x) > key(y) else key(x) < key(y)
  }

  /** No element is preceded by one that comes after it. */
  predicate Ordered<T>(s: seq<T>, key: T -> real, descending: bool) {
    forall i, j :: 0 <= i < j < |s| ==> !Precedes(s[j], s[i], key, descending)
  }

  /** Inserts x in front of the first element it strictly precedes, so after
      every element with an equal key. */
  function Insert<T>(x: T, s: seq<T>, key: T -> real, descending: bool): seq<T> {
    if |s| == 0 then [x]
    else if Precedes(x, s[0], key, descending) then [x] + s
    else [s[0]] + Insert(x, s[1..], key, descending)
  }

  /** `sorted(xs, key=key, reverse=descending)`: insertion of each element,
      in input order, into the sorted prefix before it. */
  function SortBy<T>(xs: seq<T>, key: T -> real, descending: bool): seq<T> {
    if |xs| == 0 then []
    else Insert(xs[|xs| - 1], SortBy(xs[..|xs| - 1], key, descending), key, descending)
  }

  /** The elements of s whose key is v, in order. */
  function WithKey<T>(s: seq<T>, key: T -> real, v: real): seq<T> {
    if |s| == 0 then []
    else (if key(s[0]) == v then [s[0]] else []) + WithKey(s[1..], key, v)
  }

  lemma {:induction false} WithKeyAppend<T>(a: seq<T>, b: seq<T>, key: T -> real, v: real)
    ensures WithKey(a + b, key, v) == WithKey(a, key, v) + WithKey(b, key, v)
  {
    if |a| == 0 {
      assert a + b == b;
    } else {
      var head := if key(a[0]) == v then [a[0]] else [];
      assert (a + b)[0] == a[0] && (a + b)[1..] == a[1..] + b;
      assert WithKey(a + b, key, v) == head + WithKey(a[1..] + b, key, v);
      WithKeyAppend(a[1..], b, key, v);
      assert head + (WithKey(a[1..], key, v) + WithKey(b, key, v))
          == (head + WithKey(a[1..], key, v)) + WithKey(b, key, v);
    }
  }

  lemma {:induction false} InsertPermutation<T>(x: T, s: seq<T>, key: T -> real, descending: bool)
    ensures multiset(Insert(x, s, key, descending)) == multiset(s) + multiset{x}
  {
    if |s| > 0 && !Precedes(x, s[0], key, descending) {
      var tail := s[1..];
      InsertPermutation(x, tail, key, descending);
      var rest := Insert(x, tail, key, descending);
      assert multiset([s[0]] + rest) == multiset{s[0]} + multiset(rest);
      assert s == [s[0]] + tail;
      assert multiset(s) == multiset{s[0]} + multiset(tail);
    }
  }

  lemma {:induction false} InsertOrdered<T>(x: T, s: seq<T>, key: T -> real, descending: bool)
    requires Ordered(s, key, descending)
    ensures Ordered(Insert(x, s, key, descending), key, descending)
  {
    if |s| > 0 && !Precedes(x, s[0], key, descending) {
      var tail := s[1..];
      assert Ordered(tail, key, descending) by {
        forall i, j | 0 <= i < j < |tail|
          ensures !Precedes(tail[j], tail[i], key, descending)
        {
          assert tail[j] == s[j + 1] && tail[i] == s[i + 1];
        }
      }
      forall i | 0 <= i < |tail|
        ensures !Precedes(tail[i], s[0], key, descending)
      {
        assert tail[i] == s[i + 1];
      }
      var rest := Insert(x, tail, key, descending);
      InsertOrdered(x, tail, key, descending);
      InsertNotPreceding(x, tail, s[0], key, descending);
      var r := [s[0]] + rest;
      forall i, j | 0 <= i < j < |r|
        ensures !Precedes(r[j], r[i], key, descending)
      {
        if i == 0 {
          assert r[j] == rest[j - 1];
        } else {
          assert r[i] == rest[i - 1] && r[j] == rest[j - 1];
        }
      }
    }
  }

  /** If neither x nor any element of s strictly precedes y, no element of
      the insertion does. */
  lemma {:induction false} InsertNotPreceding<T>(x: T, s: seq<T>, y: T, key: T -> real, descending: bool)
    requires !Precedes(x, y, key, descending)
    requires forall i :: 0 <= i < |s| ==> !Precedes(s[i], y, key, descending)
    ensures forall i :: 0 <= i < |Insert(x, s, key, descending)| ==> !Precedes(Insert(x, s, key, descending)[i], y, key, descending)
  {
    if |s| > 0 && !Precedes(x, s[0], key, descending) {
      var tail := s[1..];
      forall i | 0 <= i < |tail|
        ensures !Precedes(tail[i], y, key, descending)
      {
        assert tail[i] == s[i + 1];
      }
      InsertNotPreceding(x, tail, y, key, descending);
      var rest := Insert(x, tail, key, descending);
      forall i | 0 <= i < |rest| + 1
        ensures !Precedes(([s[0]] + rest)[i], y, key, descending)
      {
        if i > 0 {
          assert ([s[0]] + rest)[i] == rest[i - 1];
        }
      }
    } else if |s| > 0 {
      forall i | 0 <= i < |s| + 1
        ensures !Precedes(([x] + s)[i], y, key, descending)
      {
        if i > 0 {
          assert ([x] + s)[i] == s[i - 1];
        }
      }
    }
  }

  /** Inserting x adds it after the elements with x's key and leaves the
      others in their order. */
  lemma {:induction false} InsertWithKey<T>(x: T, s: seq<T>, key: T -> real, descending: bool, v: real)
    requires Ordered(s, key, descending)
    ensures WithKey(Insert(x, s, key, descending), key, v)
            == WithKey(s, key, v) + (if key(x) == v then [x] else [])
  {
    if |s| == 0 {
    } else if Precedes(x, s[0], key, descending) {
      PrependWithKey(x, s, key, descending, v);
    } else {
      OrderedTail(s, key, descending);
      InsertWithKey(x, s[1..], key, descending, v);
      InsertBehindWithKey(x, s, key, descending, v);
    }
  }

  /** When x does not precede the head it is inserted into the tail, so the
      step from the tail's WithKey to the whole sequence's is the head's. */
  lemma InsertBehindWithKey<T>(x: T, s: seq<T>, key: T -> real, descending: bool, v: real)
    requires |s| > 0 && !Precedes(x, s[0], key, descending)
    requires WithKey(Insert(x, s[1..], key, descending), key, v)
             == WithKey(s[1..], key, v) + (if key(x) == v then [x] else [])
    ensures WithKey(Insert(x, s, key, descending), key, v)
            == WithKey(s, key, v) + (if key(x) == v then [x] else [])
  {
    var head := if key(s[0]) == v then [s[0]] else [];
    var added := if key(x) == v then [x] else [];
    assert Insert(x, s, key, descending) == [s[0]] + Insert(x, s[1..], key, descending);
    WithKeyCons(s[0], Insert(x, s[1..], key, descending), key, v);
    WithKeyCons(s[0], s[1..], key, v);
    assert s == [s[0]] + s[1..];
    assert head + (WithKey(s[1..], key, v) + added) == (head + WithKey(s[1..], key, v)) + added;
  }

  /** WithKey of a sequence with head y: y if it has the key, then the rest. */
  lemma WithKeyCons<T>(y: T, t: seq<T>, key: T -> real, v: real)
    ensures WithKey([y] + t, key, v) == (if key(y) == v then [y] else []) + WithKey(t, key, v)
  {
    assert ([y] + t)[1..] == t;
  }

  /** Putting x in front of an ordered s whose head it strictly precedes
      adds it after the elements with x's key, of which there are none. */
  lemma PrependWithKey<T>(x: T, s: seq<T>, key: T -> real, descending: bool, v: real)
    requires |s| > 0 && Ordered(s, key, descending) && Precedes(x, s[0], key, descending)
    ensures WithKey([x] + s, key, v) == WithKey(s, key, v) + (if key(x) == v then [x] else [])
  {
    if key(x) == v {
      NoneWithKey(s, key, descending, v);
    }
    assert ([x] + s)[1..] == s;
  }

  /** The tail of an ordered sequence is ordered. */
  lemma OrderedTail<T>(s: seq<T>, key: T -> real, descending: bool)
    requires |s| > 0 && Ordered(s, key, descending)
    ensures Ordered(s[1..], key, descending)
  {
    forall i, j | 0 <= i < j < |s[1..]|
      ensures !Precedes(s[1..][j], s[1..][i], key, descending)
    {
      assert s[1..][j] == s[j + 1] && s[1..][i] == s[i + 1];
    }
  }

  /** An ordered s that x strictly precedes at its head has no element with x's key. */
  lemma {:induction false} NoneWithKey<T>(s: seq<T>, key: T -> real, descending: bool, v: real)
    requires |s| > 0 && Ordered(s, key, descending)
    requires (if descending then v > key(s[0]) else v < key(s[0]))
    ensures WithKey(s, key, v) == []
  {
    if |s| > 1 {
      assert !Precedes(s[1], s[0], key, descending);
      OrderedTail(s, key, descending);
      NoneWithKey(s[1..], key, descending, v);
    }
  }

  /** The sort is a permutation of its input. */
  lemma {:induction false} SortByPermutation<T>(xs: seq<T>, key: T -> real, descending: bool)
    ensures multiset(SortBy(xs, key, descending)) == multiset(xs)
  {
    if |xs| > 0 {
      var init := xs[..|xs| - 1];
      SortByPermutation(init, key, descending);
      InsertPermutation(xs[|xs| - 1], SortBy(init, key, descending), key, descending);
      assert xs == init + [xs[|xs| - 1]];
    }
  }

  /** The sort is ordered by the key in the requested direction. */
  lemma {:induction false} SortByOrdered<T>(xs: seq<T>, key: T -> real, descending: bool)
    ensures Ordered(SortBy(xs, key, descending), key, descending)
  {
    if |xs| > 0 {
      var init := xs[..|xs| - 1];
      SortByOrdered(init, key, descending);
      InsertOrdered(xs[|xs| - 1], SortBy(init, key, descending), key, descending);
    }
  }

  /** The sort is stable: the elements sharing any one key value come out in
      their input order. */
  lemma {:induction false} SortByStable<T>(xs: seq<T>, key: T -> real, descending: bool, v: real)
    ensures WithKey(SortBy(xs, key, descending), key, v) == WithKey(xs, key, v)
  {
    if |xs| > 0 {
      var init := xs[..|xs| - 1];
      var last := xs[|xs| - 1];
      SortByStable(init, key, descending, v);
      SortByOrdered(init, key, descending);
      InsertWithKey(last, SortBy(init, key, descending), key, descending, v);
      assert xs == init + [last];
      WithKeyAppend(init, [last], key, v);
      assert WithKey([last], key, v) == (if key(last) == v then [last] else []) by {
        assert [last][1..] == [];
      }
    }
  }

  /** The first n of a sort: at most n elements of xs (all of them when n
      is larger; all but the last -n when n is negative), ordered, and none of the left-over elements precedes any
      element taken. */
  lemma TopNProperties<T>(xs: seq<T>, key: T -> real, descending: bool, n: int)
    ensures var sorted := SortBy(xs, key, descending);
            var top := Prefix(sorted, n);
            var rest := sorted[|top|..];
            && |top| == (if n >= 0 then Min(n, |xs|) else Max(0, |xs| + n))
            && Ordered(top, key, descending)
            && multiset(top) + multiset(rest) == multiset(xs)
            && (forall i, j :: 0 <= i < |top| && 0 <= j < |rest| ==> !Precedes(rest[j], top[i], key, descending))
  {
    var sorted := SortBy(xs, key, descending);
    SortByPermutation(xs, key, descending);
    SortByOrdered(xs, key, descending);
    assert |sorted| == |xs| by {
      assert |multiset(sorted)| == |multiset(xs)|;
    }
    var top := Prefix(sorted, n);
    var rest := sorted[|top|..];
    assert sorted == top + rest;
    forall i, j | 0 <= i < |top| && 0 <= j < |rest|
      ensures !Precedes(rest[j], top[i], key, descending)
    {
      assert top[i] == sorted[i] && rest[j] == sorted[|top| + j];
    }
  }
}
