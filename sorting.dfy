/** Python's `list.sort(key=...)`: a stable sort by an integer key.
    `SortBy` is a functional insertion sort; the lemmas below show it is
    ordered, a permutation, stable, idempotent, and the only sequence
    with those properties. */
module StableSort {

  /** Non-decreasing by `key`. */
  ghost predicate SortedBy<T>(s: seq<T>, key: T -> int)
  {
    forall i, j :: 0 <= i < j < |s| ==> key(s[i]) <= key(s[j])
  }

  /** In a sequence sorted by key, a smaller key means an earlier position. */
  lemma SortedByOrder<T>(s: seq<T>, key: T -> int)
    requires SortedBy(s, key)
    ensures forall i, j :: 0 <= i < |s| && 0 <= j < |s| && key(s[i]) < key(s[j]) ==> i < j
  {
  }

  /** The elements of `s` whose key is `k`, in their order in `s`. */
  function WithKey<T>(s: seq<T>, key: T -> int, k: int): seq<T>
  {
    if s == [] then []
    else (if key(s[0]) == k then [s[0]] else []) + WithKey(s[1..], key, k)
  }

  /** Puts `x` before the first element whose key is not smaller. */
  function InsertBefore<T>(x: T, s: seq<T>, key: T -> int): (r: seq<T>)
    ensures |r| == |s| + 1
    ensures multiset(r) == multiset(s) + multiset{x}
  {
    if s == [] || key(x) <= key(s[0]) then [x] + s
    else
      assert s == [s[0]] + s[1..];
      [s[0]] + InsertBefore(x, s[1..], key)
  }

  /** The tail of a sorted sequence is sorted. */
  lemma SortedTail<T>(s: seq<T>, key: T -> int)
    requires s != [] && SortedBy(s, key)
    ensures SortedBy(s[1..], key)
  {
    forall i, j | 0 <= i < j < |s[1..]| ensures key(s[1..][i]) <= key(s[1..][j]) {
      assert s[1..][i] == s[i + 1] && s[1..][j] == s[j + 1];
    }
  }

  /** Inserting into a sorted sequence keeps it sorted. */
  lemma {:induction false} InsertBeforeSorted<T>(x: T, s: seq<T>, key: T -> int)
    requires SortedBy(s, key)
    ensures SortedBy(InsertBefore(x, s, key), key)
    decreases |s|
  {
    if s == [] || key(x) <= key(s[0]) {
      var r := [x] + s;
      forall i, j | 0 <= i < j < |r| ensures key(r[i]) <= key(r[j]) {
        if i > 0 {
          assert r[i] == s[i - 1] && r[j] == s[j - 1];
        } else {
          assert r[j] == s[j - 1];
          assert key(s[0]) <= key(s[j - 1]) || j - 1 == 0;
        }
      }
    } else {
      SortedTail(s, key);
      InsertBeforeSorted(x, s[1..], key);
      var rest := InsertBefore(x, s[1..], key);
      var r := [s[0]] + rest;
      assert r == InsertBefore(x, s, key);
      forall q | 0 <= q < |rest| ensures key(s[0]) <= key(rest[q]) {
        assert rest[q] in multiset(rest);
        assert rest[q] == x || rest[q] in multiset(s[1..]);
        if rest[q] != x {
          var p :| 0 <= p < |s[1..]| && s[1..][p] == rest[q];
          assert s[1..][p] == s[p + 1];
        }
      }
      forall i, j | 0 <= i < j < |r| ensures key(r[i]) <= key(r[j]) {
        assert r[j] == rest[j - 1];
        if i > 0 {
          assert r[i] == rest[i - 1];
        }
      }
    }
  }

  /** The stable sort: each element goes before the later ones of equal key. */
  function SortBy<T>(s: seq<T>, key: T -> int): (r: seq<T>)
    ensures |r| == |s|
    ensures multiset(r) == multiset(s)
    ensures SortedBy(r, key)
  {
    if s == [] then []
    else
      assert s == [s[0]] + s[1..];
      var t := SortBy(s[1..], key);
      InsertBeforeSorted(s[0], t, key);
      InsertBefore(s[0], t, key)
  }

  /** Selecting one key commutes with concatenation. */
  lemma {:induction false} WithKeyAppend<T>(a: seq<T>, b: seq<T>, key: T -> int, k: int)
    ensures WithKey(a + b, key, k) == WithKey(a, key, k) + WithKey(b, key, k)
    decreases |a|
  {
    if a != [] {
      var head := if key(a[0]) == k then [a[0]] else [];
      assert a + b != [] && (a + b)[0] == a[0];
      assert (a + b)[1..] == a[1..] + b;
      WithKeyAppend(a[1..], b, key, k);
      assert WithKey(a + b, key, k) == head + WithKey(a[1..] + b, key, k);
      assert WithKey(a, key, k) == head + WithKey(a[1..], key, k);
    } else {
      assert a + b == b;
    }
  }

  /** Inserting `x` adds it in front of its key's elements and leaves the
      other keys' sequences alone. */
  lemma {:induction false} WithKeyInsert<T>(x: T, s: seq<T>, key: T -> int, k: int)
    ensures WithKey(InsertBefore(x, s, key), key, k)
         == (if key(x) == k then [x] else []) + WithKey(s, key, k)
    decreases |s|
  {
    var head := if key(x) == k then [x] else [];
    if s == [] || key(x) <= key(s[0]) {
      var r := [x] + s;
      assert InsertBefore(x, s, key) == r;
      assert r[0] == x && r[1..] == s;
      assert WithKey(r, key, k) == head + WithKey(s, key, k);
    } else {
      var rest := InsertBefore(x, s[1..], key);
      var r := [s[0]] + rest;
      assert InsertBefore(x, s, key) == r;
      WithKeyInsert(x, s[1..], key, k);
      assert r[0] == s[0] && r[1..] == rest;
      var first := if key(s[0]) == k then [s[0]] else [];
      assert WithKey(r, key, k) == first + WithKey(rest, key, k);
      assert WithKey(rest, key, k) == head + WithKey(s[1..], key, k);
      assert WithKey(s, key, k) == first + WithKey(s[1..], key, k);
      assert first == [] || head == [];
    }
  }

  /** Stability: for every key the elements of that key keep their order. */
  lemma {:induction false} SortByStable<T>(s: seq<T>, key: T -> int, k: int)
    ensures WithKey(SortBy(s, key), key, k) == WithKey(s, key, k)
    decreases |s|
  {
    if s != [] {
      SortByStable(s[1..], key, k);
      WithKeyInsert(s[0], SortBy(s[1..], key), key, k);
    }
  }

  /** Sorting an already sorted sequence changes nothing. */
  lemma {:induction false} SortByIdempotent<T>(s: seq<T>, key: T -> int)
    requires SortedBy(s, key)
    ensures SortBy(s, key) == s
    decreases |s|
  {
    if s != [] {
      SortedTail(s, key);
      SortByIdempotent(s[1..], key);
      assert s == [s[0]] + s[1..];
    }
  }

  /** Every element of `s` shows up among the elements of its own key. */
  lemma {:induction false} WithKeyHas<T>(s: seq<T>, key: T -> int, i: int)
    requires 0 <= i < |s|
    ensures s[i] in WithKey(s, key, key(s[i]))
    decreases |s|
  {
    if i > 0 {
      WithKeyHas(s[1..], key, i - 1);
    }
  }

  /** Whatever is selected for key `k` is an element of `s` with that key. */
  lemma {:induction false} WithKeyFrom<T>(s: seq<T>, key: T -> int, k: int, y: T)
    requires y in WithKey(s, key, k)
    ensures y in s && key(y) == k
    decreases |s|
  {
    if s != [] && !(key(s[0]) == k && y == s[0]) {
      WithKeyFrom(s[1..], key, k, y);
    }
  }

  /** A sequence's first element heads the list of its own key. */
  lemma WithKeyFirst<T>(s: seq<T>, key: T -> int)
    requires s != []
    ensures WithKey(s, key, key(s[0])) == [s[0]] + WithKey(s[1..], key, key(s[0]))
  {
  }

  /** Uniqueness: a sorted sequence that keeps every key's elements of `s`
      in order is exactly `SortBy(s, key)`; so `SortBy` is the one stable
      sort of `s`. */
  lemma {:induction false} StableSortUnique<T>(r: seq<T>, s: seq<T>, key: T -> int)
    requires SortedBy(r, key) && SortedBy(s, key)
    requires forall k :: WithKey(r, key, k) == WithKey(s, key, k)
    ensures r == s
    decreases |r| + |s|
  {
    if r == [] && s == [] {
    } else if r == [] {
      WithKeyHas(s, key, 0);
      assert false;
    } else if s == [] {
      WithKeyHas(r, key, 0);
      assert false;
    } else {
      var m, n := key(r[0]), key(s[0]);
      WithKeyHas(r, key, 0);
      WithKeyHas(s, key, 0);
      assert WithKey(r, key, n) == WithKey(s, key, n);
      assert WithKey(r, key, m) == WithKey(s, key, m);
      WithKeyFrom(r, key, n, s[0]);
      WithKeyFrom(s, key, m, r[0]);
      var i :| 0 <= i < |r| && r[i] == s[0];
      var j :| 0 <= j < |s| && s[j] == r[0];
      assert m <= key(r[i]) == n;
      assert n <= key(s[j]) == m;
      WithKeyFirst(r, key);
      WithKeyFirst(s, key);
      assert r[0] == WithKey(r, key, m)[0] == WithKey(s, key, m)[0] == s[0];
      SortedTail(r, key);
      SortedTail(s, key);
      forall k ensures WithKey(r[1..], key, k) == WithKey(s[1..], key, k) {
        var head := if m == k then [r[0]] else [];
        assert WithKey(r, key, k) == head + WithKey(r[1..], key, k);
        assert WithKey(s, key, k) == head + WithKey(s[1..], key, k);
        assert WithKey(r, key, k) == WithKey(s, key, k);
        assert WithKey(r[1..], key, k) == WithKey(r, key, k)[|head|..];
        assert WithKey(s[1..], key, k) == WithKey(s, key, k)[|head|..];
      }
      StableSortUnique(r[1..], s[1..], key);
      assert r == [r[0]] + r[1..] && s == [s[0]] + s[1..];
    }
  }

  /** The two together: a sorted sequence that keeps every key's elements of
      `s` in order is `SortBy(s, key)`. */
  lemma IsTheStableSort<T>(r: seq<T>, s: seq<T>, key: T -> int)
    requires SortedBy(r, key)
    requires forall k :: WithKey(r, key, k) == WithKey(s, key, k)
    ensures r == SortBy(s, key)
  {
    forall k ensures WithKey(r, key, k) == WithKey(SortBy(s, key), key, k) {
      SortByStable(s, key, k);
    }
    StableSortUnique(r, SortBy(s, key), key);
  }
}
