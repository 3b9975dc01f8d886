/** The ascending sort by an integer key that both the lyric parser and the audio
    cache rely on. It is an insertion sort that puts each element after every element
    whose key is not larger, so it is stable: elements with equal keys keep their
    input order. */
module Sorting {

  predicate SortedBy<T>(s: seq<T>, key: T -> int) {
    forall i, j :: 0 <= i < j < |s| ==> key(s[i]) <= key(s[j])
  }

  /** Insert `x` after every element whose key is at most its own. */
  function InsertBy<T>(s: seq<T>, x: T, key: T -> int): (r: seq<T>)
    ensures |r| == |s| + 1
  {
    if |s| == 0 then [x]
    else if key(s[|s| - 1]) <= key(x) then s + [x]
    else InsertBy(s[..|s| - 1], x, key) + [s[|s| - 1]]
  }

  /** Elements are inserted in input order, each after all elements not larger. */
  function SortBy<T>(s: seq<T>, key: T -> int): (r: seq<T>)
    ensures |r| == |s|
  {
    if |s| == 0 then []
    else InsertBy(SortBy(s[..|s| - 1], key), s[|s| - 1], key)
  }

  /** A non-empty sequence holds its front and its last element. */
  lemma LastPerm<T>(s: seq<T>)
    requires |s| > 0
    ensures multiset(s) == multiset(s[..|s| - 1]) + multiset{s[|s| - 1]}
  {
    assert s == s[..|s| - 1] + [s[|s| - 1]];
  }

  /** Insertion adds exactly `x`. */
  lemma {:induction false} InsertByPerm<T>(s: seq<T>, x: T, key: T -> int)
    ensures multiset(InsertBy(s, x, key)) == multiset(s) + multiset{x}
    decreases |s|
  {
    if |s| > 0 && key(s[|s| - 1]) > key(x) {
      InsertByPerm(s[..|s| - 1], x, key);
      LastPerm(s);
    }
  }

  /** Insertion keeps a sorted sequence sorted. */
  lemma {:induction false} InsertBySorted<T>(s: seq<T>, x: T, key: T -> int)
    requires SortedBy(s, key)
    ensures SortedBy(InsertBy(s, x, key), key)
    decreases |s|
  {
    if |s| > 0 && key(s[|s| - 1]) > key(x) {
      var front := InsertBy(s[..|s| - 1], x, key);
      InsertBySorted(s[..|s| - 1], x, key);
      InsertByPerm(s[..|s| - 1], x, key);
      InsertSortedStep(s, x, front, key);
    }
  }

  lemma InsertSortedStep<T>(s: seq<T>, x: T, front: seq<T>, key: T -> int)
    requires |s| > 0 && key(s[|s| - 1]) > key(x)
    requires multiset(front) == multiset(s[..|s| - 1]) + multiset{x}
    requires SortedBy(s, key) && SortedBy(front, key)
    ensures SortedBy(front + [s[|s| - 1]], key)
  {
    forall i | 0 <= i < |front| ensures key(front[i]) <= key(s[|s| - 1]) {
      assert front[i] in multiset(front);
      if front[i] != x {
        assert front[i] in multiset(s[..|s| - 1]);
        var k :| 0 <= k < |s| - 1 && s[..|s| - 1][k] == front[i];
      }
    }
  }

  /** The sort returns a sorted permutation of its input. */
  lemma SortByProps<T>(s: seq<T>, key: T -> int)
    ensures SortedBy(SortBy(s, key), key)
    ensures multiset(SortBy(s, key)) == multiset(s)
  {
    SortBySorted(s, key);
    SortByPerm(s, key);
  }

  lemma {:induction false} SortBySorted<T>(s: seq<T>, key: T -> int)
    ensures SortedBy(SortBy(s, key), key)
    decreases |s|
  {
    if |s| > 0 {
      SortBySorted(s[..|s| - 1], key);
      InsertBySorted(SortBy(s[..|s| - 1], key), s[|s| - 1], key);
    }
  }

  lemma {:induction false} SortByPerm<T>(s: seq<T>, key: T -> int)
    ensures multiset(SortBy(s, key)) == multiset(s)
    decreases |s|
  {
    if |s| > 0 {
      SortByPerm(s[..|s| - 1], key);
      InsertByPerm(SortBy(s[..|s| - 1], key), s[|s| - 1], key);
      LastPerm(s);
    }
  }

  /** Already sorted input comes back unchanged. */
  lemma {:induction false} SortByOfSorted<T>(s: seq<T>, key: T -> int)
    requires SortedBy(s, key)
    ensures SortBy(s, key) == s
    decreases |s|
  {
    if |s| > 0 {
      var init := s[..|s| - 1];
      assert SortedBy(init, key);
      SortByOfSorted(init, key);
      if |init| > 0 {
        assert key(init[|init| - 1]) <= key(s[|s| - 1]);
      }
      assert init + [s[|s| - 1]] == s;
    }
  }

  /** The elements with key `k`, in order. */
  function WithKey<T>(s: seq<T>, key: T -> int, k: int): seq<T> {
    if |s| == 0 then []
    else if key(s[|s| - 1]) == k then WithKey(s[..|s| - 1], key, k) + [s[|s| - 1]]
    else WithKey(s[..|s| - 1], key, k)
  }

  lemma {:induction false} WithKeyConcat<T>(a: seq<T>, b: seq<T>, key: T -> int, k: int)
    ensures WithKey(a + b, key, k) == WithKey(a, key, k) + WithKey(b, key, k)
    decreases |b|
  {
    if |b| > 0 {
      assert (a + b)[..|a + b| - 1] == a + b[..|b| - 1];
      assert (a + b)[|a + b| - 1] == b[|b| - 1];
      WithKeyConcat(a, b[..|b| - 1], key, k);
    } else {
      assert a + b == a;
    }
  }

  lemma {:induction false} WithKeyNone<T>(s: seq<T>, key: T -> int, k: int)
    requires forall i :: 0 <= i < |s| ==> key(s[i]) != k
    ensures WithKey(s, key, k) == []
    decreases |s|
  {
    if |s| > 0 {
      WithKeyNone(s[..|s| - 1], key, k);
    }
  }

  lemma WithKeySingle<T>(x: T, key: T -> int, k: int)
    ensures WithKey([x], key, k) == if key(x) == k then [x] else []
  {
    assert [x][..0] == [];
  }

  /** Insertion puts `x` after every element of equal key already present. */
  lemma {:induction false} InsertByStable<T>(s: seq<T>, x: T, key: T -> int, k: int)
    ensures WithKey(InsertBy(s, x, key), key, k) == WithKey(s, key, k) + (if key(x) == k then [x] else [])
    decreases |s|
  {
    WithKeySingle(x, key, k);
    if |s| == 0 {
      assert InsertBy(s, x, key) == [x];
    } else if key(s[|s| - 1]) <= key(x) {
      WithKeyConcat(s, [x], key, k);
    } else {
      var init := s[..|s| - 1];
      InsertByStable(init, x, key, k);
      StableBehind(InsertBy(init, x, key), init, s[|s| - 1], x, key, k);
    }
  }

  /** Appending a larger element behind the insertion point keeps the order of each key. */
  lemma StableBehind<T>(front: seq<T>, init: seq<T>, last: T, x: T, key: T -> int, k: int)
    requires key(last) > key(x)
    requires WithKey(front, key, k) == WithKey(init, key, k) + (if key(x) == k then [x] else [])
    ensures WithKey(front + [last], key, k) ==
      (WithKey(init, key, k) + (if key(last) == k then [last] else [])) + (if key(x) == k then [x] else [])
  {
    WithKeyConcat(front, [last], key, k);
    WithKeySingle(last, key, k);
    SwapWithEmpty(WithKey(init, key, k), if key(x) == k then [x] else [], if key(last) == k then [last] else []);
  }

  /** Two runs of which one is empty can be appended in either order. */
  lemma SwapWithEmpty<T>(a: seq<T>, xs: seq<T>, ls: seq<T>)
    requires xs == [] || ls == []
    ensures (a + xs) + ls == (a + ls) + xs
  {
    if xs == [] {
      assert a + [] == a && (a + ls) + [] == a + ls;
    } else {
      assert a + [] == a && (a + xs) + [] == a + xs;
    }
  }

  /** The sort is stable: elements with equal keys keep their input order. */
  lemma {:induction false} SortByStable<T>(s: seq<T>, key: T -> int, k: int)
    ensures WithKey(SortBy(s, key), key, k) == WithKey(s, key, k)
    decreases |s|
  {
    if |s| > 0 {
      var init := s[..|s| - 1];
      SortByStable(init, key, k);
      InsertByStable(SortBy(init, key), s[|s| - 1], key, k);
    }
  }
}
