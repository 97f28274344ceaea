/**
 Stable sorting by an integer key, as a function: the reference that the merge, the bucket
 routing and the deferred list are compared with.
 */
module StableSort {
  function Insert<T>(x: T, s: seq<T>, key: T -> int): seq<T> {
    if s == [] || key(x) <= key(s[0]) then [x] + s else [s[0]] + Insert(x, s[1..], key)
  }

  function Sort<T>(s: seq<T>, key: T -> int): seq<T> {
    if s == [] then [] else Insert(s[0], Sort(s[1..], key), key)
  }

  predicate Sorted<T>(s: seq<T>, key: T -> int) {
    forall i, j :: 0 <= i < j < |s| ==> key(s[i]) <= key(s[j])
  }

  /** The elements with key `v`, in order. */
  function WithKey<T>(s: seq<T>, key: T -> int, v: int): seq<T> {
    if s == [] then []
    else (if key(s[0]) == v then [s[0]] else []) + WithKey(s[1..], key, v)
  }

  function Concat<T>(parts: seq<seq<T>>): seq<T> {
    if parts == [] then [] else parts[0] + Concat(parts[1..])
  }

  // ---- what sorting does ----

  lemma {:induction false} InsertKeeps<T>(x: T, s: seq<T>, key: T -> int)
    ensures multiset(Insert(x, s, key)) == multiset([x]) + multiset(s)
  {
    if s != [] && key(x) > key(s[0]) {
      InsertKeeps(x, s[1..], key);
      assert s == [s[0]] + s[1..];
    }
  }

  lemma {:induction false} InsertSorts<T>(x: T, s: seq<T>, key: T -> int)
    requires Sorted(s, key)
    ensures Sorted(Insert(x, s, key), key)
    ensures Insert(x, s, key)[0] == x || (s != [] && Insert(x, s, key)[0] == s[0])
  {
    if s != [] && key(x) > key(s[0]) {
      InsertSorts(x, s[1..], key);
      var rest := Insert(x, s[1..], key);
      assert key(s[0]) <= key(rest[0]);
    }
  }

  lemma {:induction false} SortSorts<T>(s: seq<T>, key: T -> int)
    ensures Sorted(Sort(s, key), key)
    ensures multiset(Sort(s, key)) == multiset(s)
  {
    if s != [] {
      SortSorts(s[1..], key);
      InsertKeeps(s[0], Sort(s[1..], key), key);
      InsertSorts(s[0], Sort(s[1..], key), key);
      assert s == [s[0]] + s[1..];
    }
  }

  function IfKey<T>(x: T, key: T -> int, v: int): seq<T> {
    if key(x) == v then [x] else []
  }

  lemma WithKeyFirst<T>(x: T, s: seq<T>, key: T -> int, v: int)
    ensures WithKey([x] + s, key, v) == IfKey(x, key, v) + WithKey(s, key, v)
  {
    assert ([x] + s)[1..] == s;
  }

  lemma {:induction false} InsertKeepsTies<T>(x: T, s: seq<T>, key: T -> int, v: int)
    ensures WithKey(Insert(x, s, key), key, v) == IfKey(x, key, v) + WithKey(s, key, v)
  {
    hide WithKey;
    if s == [] || key(x) <= key(s[0]) {
      WithKeyFirst(x, s, key, v);
    } else {
      var rest := Insert(x, s[1..], key);
      InsertKeepsTies(x, s[1..], key, v);
      assert Insert(x, s, key) == [s[0]] + rest;
      WithKeyFirst(s[0], rest, key, v);
      assert s == [s[0]] + s[1..];
      WithKeyFirst(s[0], s[1..], key, v);
      Swap(IfKey(s[0], key, v), IfKey(x, key, v), WithKey(s[1..], key, v));
    }
  }

  lemma Swap<T>(a: seq<T>, b: seq<T>, c: seq<T>)
    requires a == [] || b == []
    ensures a + (b + c) == b + (a + c)
  {
  }

  /** Sorting keeps the order of elements with equal keys. */
  lemma {:induction false} SortKeepsTies<T>(s: seq<T>, key: T -> int, v: int)
    ensures WithKey(Sort(s, key), key, v) == WithKey(s, key, v)
  {
    if s != [] {
      SortKeepsTies(s[1..], key, v);
      InsertKeepsTies(s[0], Sort(s[1..], key), key, v);
    }
  }

  // ---- and nothing else does ----

  lemma {:induction false} WithKeyMember<T>(s: seq<T>, key: T -> int, v: int)
    ensures forall x :: x in WithKey(s, key, v) <==> x in s && key(x) == v
  {
    if s != [] {
      WithKeyMember(s[1..], key, v);
    }
  }

  lemma FrontIsNoLarger<T>(s: seq<T>, t: seq<T>, key: T -> int)
    requires Sorted(t, key) && s != [] && WithKey(s, key, key(s[0])) == WithKey(t, key, key(s[0]))
    ensures t != [] && key(t[0]) <= key(s[0])
  {
    FrontHasItsKey(s, key);
    WithKeyMember(t, key, key(s[0]));
    assert s[0] in WithKey(s, key, key(s[0]));
    assert s[0] in t;
  }

  /** The first element of a sorted sequence is the first of those with the least key. */
  lemma LeastFirst<T>(s: seq<T>, t: seq<T>, key: T -> int)
    requires Sorted(s, key) && Sorted(t, key) && forall v :: WithKey(s, key, v) == WithKey(t, key, v)
    ensures (s == []) == (t == [])
    ensures s != [] ==> s[0] == t[0]
  {
    if s != [] {
      FrontIsNoLarger(s, t, key);
    }
    if t != [] {
      FrontIsNoLarger(t, s, key);
      FrontHasItsKey(s, key);
      FrontHasItsKey(t, key);
    }
  }

  lemma FrontHasItsKey<T>(s: seq<T>, key: T -> int)
    ensures s != [] ==> WithKey(s, key, key(s[0])) != [] && WithKey(s, key, key(s[0]))[0] == s[0]
    ensures s == [] ==> forall v :: WithKey(s, key, v) == []
  {
  }

  /** Sorted order, and the order among equal keys, determine a sequence. */
  lemma {:induction false} SortedIsUnique<T>(s: seq<T>, t: seq<T>, key: T -> int)
    requires Sorted(s, key) && Sorted(t, key) && forall v :: WithKey(s, key, v) == WithKey(t, key, v)
    ensures s == t
  {
    LeastFirst(s, t, key);
    if s != [] {
      forall v ensures WithKey(s[1..], key, v) == WithKey(t[1..], key, v) {
        var first := if key(s[0]) == v then [s[0]] else [];
        assert WithKey(s, key, v) == first + WithKey(s[1..], key, v);
        assert WithKey(t, key, v) == first + WithKey(t[1..], key, v);
        assert (first + WithKey(s[1..], key, v))[|first|..] == WithKey(s[1..], key, v);
        assert (first + WithKey(t[1..], key, v))[|first|..] == WithKey(t[1..], key, v);
      }
      SortedIsUnique(s[1..], t[1..], key);
      assert s == [s[0]] + s[1..] && t == [t[0]] + t[1..];
    }
  }

  /** So a sorted sequence with the input's ties in the input's order is the stable sort. */
  lemma StableMeansSort<T>(s: seq<T>, t: seq<T>, key: T -> int)
    requires Sorted(t, key) && forall v :: WithKey(t, key, v) == WithKey(s, key, v)
    ensures t == Sort(s, key)
  {
    SortSorts(s, key);
    forall v ensures WithKey(t, key, v) == WithKey(Sort(s, key), key, v) {
      SortKeepsTies(s, key, v);
    }
    SortedIsUnique(t, Sort(s, key), key);
  }

  lemma SortedIsFixed<T>(s: seq<T>, key: T -> int)
    requires Sorted(s, key)
    ensures Sort(s, key) == s
  {
    StableMeansSort(s, s, key);
  }

  // ---- taking the least element out ----

  lemma InsertInFront<T>(x: T, s: seq<T>, key: T -> int)
    requires forall y | y in s :: key(x) <= key(y)
    ensures Insert(x, Sort(s, key), key) == [x] + Sort(s, key)
  {
    SortSorts(s, key);
    var t := Sort(s, key);
    if t != [] {
      assert t[0] in multiset(s);
    }
  }

  /** An element before which all keys are larger, and after which none is smaller, is sorted to the front. */
  lemma {:induction false} LeastComesFirst<T>(before: seq<T>, x: T, after: seq<T>, key: T -> int)
    requires forall y | y in before :: key(x) < key(y)
    requires forall y | y in after :: key(x) <= key(y)
    ensures Sort(before + [x] + after, key) == [x] + Sort(before + after, key)
  {
    var s := before + [x] + after;
    if before == [] {
      assert s[1..] == after && before + after == after;
      InsertInFront(x, after, key);
    } else {
      LeastComesFirst(before[1..], x, after, key);
      assert s[1..] == before[1..] + [x] + after;
      assert (before + after)[1..] == before[1..] + after;
      var t := Sort(before[1..] + after, key);
      assert ([x] + t)[1..] == t;
      assert Sort(s, key) == Insert(before[0], [x] + t, key);
      assert Sort(before + after, key) == Insert(before[0], t, key);
    }
  }

  lemma {:induction false} WithKeyConcat<T>(s: seq<T>, t: seq<T>, key: T -> int, v: int)
    ensures WithKey(s + t, key, v) == WithKey(s, key, v) + WithKey(t, key, v)
  {
    if s == [] {
      assert s + t == t;
    } else {
      var tail := s[1..];
      assert s == [s[0]] + tail && s + t == [s[0]] + (tail + t);
      WithKeyConcat(tail, t, key, v);
      WithKeyFirst(s[0], tail + t, key, v);
      WithKeyFirst(s[0], tail, key, v);
      hide WithKey;
      assert IfKey(s[0], key, v) + (WithKey(tail, key, v) + WithKey(t, key, v)) ==
             IfKey(s[0], key, v) + WithKey(tail, key, v) + WithKey(t, key, v);
    }
  }
}
