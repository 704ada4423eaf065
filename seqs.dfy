/**
 * Sequence helpers: removing repeats while keeping first occurrences
 * (`Array.from(new Set(xs))`), the stable sort by a descending key that
 * `Array.prototype.sort` performs with a `(a, b) => key(b) - key(a)`
 * comparator, and `slice(0, n)`.
 */
module Seqs {

  predicate NoDuplicates<T(==,!new)>(s: seq<T>) {
    forall i, j :: 0 <= i < j < |s| ==> s[i] != s[j]
  }

  /** `Array.from(new Set(s))`: each value once, at the place it first occurs. */
  function Dedupe<T(==,!new)>(s: seq<T>): (r: seq<T>)
    ensures forall x :: x in r <==> x in s
    ensures NoDuplicates(r)
    ensures |r| <= |s|
  {
    if s == [] then []
    else
      var d := Dedupe(s[..|s| - 1]);
      var x := s[|s| - 1];
      if x in d then d else d + [x]
  }

  /** The last element is kept by `Dedupe` exactly when it was not seen before. */
  lemma DedupeSnoc<T(!new)>(s: seq<T>, x: T)
    ensures Dedupe(s + [x]) == if x in s then Dedupe(s) else Dedupe(s) + [x]
  {
    assert (s + [x])[..|s|] == s;
  }

  /** A sequence without repeats is left as it is. */
  lemma {:induction false} DedupeOfDistinct<T(!new)>(s: seq<T>)
    requires NoDuplicates(s)
    ensures Dedupe(s) == s
  {
    if s != [] {
      var p := s[..|s| - 1];
      DedupeOfDistinct(p);
      assert s[|s| - 1] !in p;
      assert s == p + [s[|s| - 1]];
    }
  }

  /** `Dedupe` is idempotent. */
  lemma DedupeIdempotent<T(!new)>(s: seq<T>)
    ensures Dedupe(Dedupe(s)) == Dedupe(s)
  {
    DedupeOfDistinct(Dedupe(s));
  }

  /** Deduplicating a prefix first changes nothing: `Dedupe(Dedupe(a) + b) == Dedupe(a + b)`. */
  lemma {:induction false} DedupeOfDedupedPrefix<T(!new)>(a: seq<T>, b: seq<T>)
    ensures Dedupe(Dedupe(a) + b) == Dedupe(a + b)
    decreases |b|
  {
    if b == [] {
      assert Dedupe(a) + b == Dedupe(a) && a + b == a;
      DedupeIdempotent(a);
    } else {
      var b' := b[..|b| - 1];
      var x := b[|b| - 1];
      DedupeOfDedupedPrefix(a, b');
      assert b == b' + [x];
      assert Dedupe(a) + b == (Dedupe(a) + b') + [x];
      assert a + b == (a + b') + [x];
      assert x in Dedupe(a) + b' <==> x in a + b' by {
        assert x in Dedupe(a) <==> x in a;
      }
      DedupeSnoc(Dedupe(a) + b', x);
      DedupeSnoc(a + b', x);
    }
  }

  /** Appending more values keeps the deduplicated front as it was. */
  lemma {:induction false} DedupeKeepsPrefix<T(!new)>(a: seq<T>, b: seq<T>)
    ensures |Dedupe(a)| <= |Dedupe(a + b)| && Dedupe(a + b)[..|Dedupe(a)|] == Dedupe(a)
    decreases |b|
  {
    if b == [] {
      assert a + b == a;
    } else {
      var b' := b[..|b| - 1];
      var x := b[|b| - 1];
      DedupeKeepsPrefix(a, b');
      assert a + b == (a + b') + [x];
      DedupeSnoc(a + b', x);
    }
  }

  /** `s.slice(0, n)`. */
  function Take<T>(s: seq<T>, n: nat): (r: seq<T>)
    ensures |r| == if n < |s| then n else |s|
    ensures r == s[..|r|]
  {
    if n < |s| then s[..n] else s
  }

  /** The elements whose key is `v`, in their order. */
  function WithKey<T>(s: seq<T>, key: T -> int, v: int): (r: seq<T>)
    ensures forall i :: 0 <= i < |r| ==> r[i] in s && key(r[i]) == v
  {
    if s == [] then []
    else
      var f := WithKey(s[..|s| - 1], key, v);
      if key(s[|s| - 1]) == v then f + [s[|s| - 1]] else f
  }

  /** A non-empty sequence is its first element followed by the rest. */
  lemma HeadTail<T>(s: seq<T>)
    requires s != []
    ensures s == [s[0]] + s[1..]
  {
  }

  /** A non-empty sequence is its prefix without the last element, then that element. */
  lemma InitLast<T>(s: seq<T>)
    requires s != []
    ensures s == s[..|s| - 1] + [s[|s| - 1]]
  {
  }

  /** The last element of `a + b`, for a non-empty `b`, is that of `b`, and what precedes it is `a` then the rest of `b`. */
  lemma ConcatInit<T>(a: seq<T>, b: seq<T>)
    requires b != []
    ensures (a + b)[..|a + b| - 1] == a + b[..|b| - 1] && (a + b)[|a + b| - 1] == b[|b| - 1]
  {
  }

  /** Appending one element after a concatenation, either way round. */
  lemma SnocAssoc<T>(a: seq<T>, b: seq<T>, x: T)
    ensures a + (b + [x]) == (a + b) + [x]
  {
  }

  lemma Assoc<T>(a: seq<T>, b: seq<T>, c: seq<T>)
    ensures (a + b) + c == a + (b + c)
  {
  }

  lemma WithKeySnoc<T>(s: seq<T>, x: T, key: T -> int, v: int)
    ensures WithKey(s + [x], key, v) == if key(x) == v then WithKey(s, key, v) + [x] else WithKey(s, key, v)
  {
    assert (s + [x])[..|s|] == s;
  }

  predicate SortedDesc<T>(s: seq<T>, key: T -> int) {
    forall i, j :: 0 <= i < j < |s| ==> key(s[i]) >= key(s[j])
  }

  /** Puts `x` after every element of `t` whose key is at least `key(x)`. */
  function InsertDesc<T>(t: seq<T>, x: T, key: T -> int): (r: seq<T>)
    ensures multiset(r) == multiset(t) + multiset{x}
  {
    if t == [] || key(t[|t| - 1]) >= key(x) then t + [x]
    else
      assert t == t[..|t| - 1] + [t[|t| - 1]];
      InsertDesc(t[..|t| - 1], x, key) + [t[|t| - 1]]
  }

  /** An element with a larger key than the last one is inserted before it. */
  lemma InsertDescPast<T>(t: seq<T>, x: T, key: T -> int)
    requires t != [] && key(t[|t| - 1]) < key(x)
    ensures InsertDesc(t, x, key) == InsertDesc(t[..|t| - 1], x, key) + [t[|t| - 1]]
  {
  }

  /** Every element of the insertion comes from `t` or is `x`. */
  lemma InsertDescElements<T>(t: seq<T>, x: T, key: T -> int, i: nat)
    requires i < |InsertDesc(t, x, key)|
    ensures InsertDesc(t, x, key)[i] == x || InsertDesc(t, x, key)[i] in t
  {
    var q := InsertDesc(t, x, key);
    assert q[i] in multiset(q);
  }

  lemma SortedSnoc<T>(q: seq<T>, y: T, key: T -> int)
    requires SortedDesc(q, key)
    requires forall i :: 0 <= i < |q| ==> key(q[i]) >= key(y)
    ensures SortedDesc(q + [y], key)
  {
  }

  lemma {:induction false} InsertDescSorted<T>(t: seq<T>, x: T, key: T -> int)
    requires SortedDesc(t, key)
    ensures SortedDesc(InsertDesc(t, x, key), key)
  {
    if t != [] && key(t[|t| - 1]) < key(x) {
      var p := t[..|t| - 1];
      var y := t[|t| - 1];
      assert SortedDesc(p, key);
      InsertDescSorted(p, x, key);
      var q := InsertDesc(p, x, key);
      forall i | 0 <= i < |q| ensures key(q[i]) >= key(y) {
        InsertDescElements(p, x, key, i);
        if q[i] != x {
          var k :| 0 <= k < |p| && p[k] == q[i];
          assert t[k] == p[k];
        }
      }
      SortedSnoc(q, y, key);
    }
  }

  lemma {:induction false} InsertDescWithKey<T>(t: seq<T>, x: T, key: T -> int, v: int)
    ensures WithKey(InsertDesc(t, x, key), key, v)
         == if key(x) == v then WithKey(t, key, v) + [x] else WithKey(t, key, v)
  {
    if t == [] || key(t[|t| - 1]) >= key(x) {
      WithKeySnoc(t, x, key, v);
    } else {
      var p := t[..|t| - 1];
      var y := t[|t| - 1];
      assert t == p + [y];
      InsertDescWithKey(p, x, key, v);
      WithKeySnoc(InsertDesc(p, x, key), y, key, v);
      WithKeySnoc(p, y, key, v);
    }
  }

  /**
   * The stable sort by descending key: insertion of each element, left to
   * right, after the elements already placed whose key is not smaller.
   */
  function SortDesc<T>(s: seq<T>, key: T -> int): seq<T>
  {
    if s == [] then [] else InsertDesc(SortDesc(s[..|s| - 1], key), s[|s| - 1], key)
  }

  /**
   * `SortDesc` returns a permutation of its input, ordered by descending key,
   * and keeps the relative order of elements with equal keys.
   */
  lemma {:induction false} SortDescCorrect<T>(s: seq<T>, key: T -> int)
    ensures multiset(SortDesc(s, key)) == multiset(s)
    ensures SortedDesc(SortDesc(s, key), key)
    ensures forall v :: WithKey(SortDesc(s, key), key, v) == WithKey(s, key, v)
  {
    if s != [] {
      var p := s[..|s| - 1];
      var x := s[|s| - 1];
      assert s == p + [x];
      SortDescCorrect(p, key);
      InsertDescSorted(SortDesc(p, key), x, key);
      forall v ensures WithKey(SortDesc(s, key), key, v) == WithKey(s, key, v) {
        InsertDescWithKey(SortDesc(p, key), x, key, v);
        WithKeySnoc(p, x, key, v);
      }
    }
  }
}
