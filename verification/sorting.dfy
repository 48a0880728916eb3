/**
 * `Array.prototype.sort` with a `localeCompare` comparator on a string key, as the
 * pages use it to order menu items, subcategories and subcategory keys by name.
 * The sort is stable (ECMAScript 2019): elements with equal keys keep their order.
 */
module Sorting {
  import opened Text
  import opened Seqs

  /** Every element's key sorts no later than the keys of the elements after it. */
  predicate SortedBy<T>(s: seq<T>, key: T -> string) {
    forall i, j :: 0 <= i < j < |s| ==> LexLe(key(s[i]), key(s[j]))
  }

  /** Insert `x` into `s` in front of the first element whose key sorts after `x`'s. */
  function InsertBy<T>(x: T, s: seq<T>, key: T -> string): seq<T> {
    if s == [] then [x]
    else if !LexLe(key(s[0]), key(x)) then [x] + s
    else [s[0]] + InsertBy(x, s[1..], key)
  }

  /** Inserting into a sorted sequence keeps it sorted and adds exactly `x`. */
  lemma {:induction false} InsertBySpec<T>(x: T, s: seq<T>, key: T -> string)
    requires SortedBy(s, key)
    ensures SortedBy(InsertBy(x, s, key), key)
    ensures multiset(InsertBy(x, s, key)) == multiset(s) + multiset{x}
    ensures |InsertBy(x, s, key)| == |s| + 1
  {
    if s != [] {
      if !LexLe(key(s[0]), key(x)) {
        LexLeTotal(key(s[0]), key(x));
        InsertFirstSorted(x, s, key);
      } else {
        var rest := InsertBy(x, s[1..], key);
        assert SortedBy(s[1..], key) by {
          forall i, j | 0 <= i < j < |s[1..]| ensures LexLe(key(s[1..][i]), key(s[1..][j])) {
            assert s[1..][i] == s[i + 1] && s[1..][j] == s[j + 1];
          }
        }
        InsertBySpec(x, s[1..], key);
        assert s == [s[0]] + s[1..];
        HeadBeforeRest(x, s, rest, key);
      }
    }
  }

  /** `x` may go in front of sorted `s` when its key is not after the key of `s[0]`. */
  lemma InsertFirstSorted<T>(x: T, s: seq<T>, key: T -> string)
    requires s != [] && SortedBy(s, key) && LexLe(key(x), key(s[0]))
    ensures SortedBy([x] + s, key)
  {
    var r := [x] + s;
    forall i, j | 0 <= i < j < |r| ensures LexLe(key(r[i]), key(r[j])) {
      if i == 0 && j > 1 {
        LexLeTransitive(key(x), key(s[0]), key(s[j - 1]));
      }
    }
  }

  /** After inserting `x` into the tail, the head still sorts no later than anything in it. */
  lemma HeadBeforeRest<T>(x: T, s: seq<T>, rest: seq<T>, key: T -> string)
    requires s != [] && SortedBy(s, key) && SortedBy(rest, key)
    requires LexLe(key(s[0]), key(x))
    requires multiset(rest) == multiset(s[1..]) + multiset{x}
    ensures SortedBy([s[0]] + rest, key)
  {
    forall y | y in rest ensures LexLe(key(s[0]), key(y)) {
      assert y in multiset(rest);
      if y != x {
        assert y in multiset(s[1..]);
        var k :| 0 <= k < |s[1..]| && s[1..][k] == y;
        assert s[k + 1] == y;
      }
    }
    var r := [s[0]] + rest;
    forall i, j | 0 <= i < j < |r| ensures LexLe(key(r[i]), key(r[j])) {
      if i == 0 {
        assert r[j] == rest[j - 1];
        assert rest[j - 1] in rest;
      } else {
        assert r[i] == rest[i - 1] && r[j] == rest[j - 1];
      }
    }
  }

  /** The elements of `s` sorted by `key`, stably (insertion sort). */
  function SortBy<T>(s: seq<T>, key: T -> string): seq<T> {
    if s == [] then []
    else InsertBy(s[|s| - 1], SortBy(s[..|s| - 1], key), key)
  }

  /** The result of `SortBy` is sorted by `key` and a permutation of `s`. */
  lemma {:induction false} SortBySpec<T>(s: seq<T>, key: T -> string)
    ensures SortedBy(SortBy(s, key), key)
    ensures multiset(SortBy(s, key)) == multiset(s)
    ensures |SortBy(s, key)| == |s|
  {
    if s != [] {
      var p := s[..|s| - 1];
      SortBySpec(p, key);
      InsertBySpec(s[|s| - 1], SortBy(p, key), key);
      assert s == p + [s[|s| - 1]];
    }
  }

  /** The elements whose key is `k`. */
  function HasKey<T>(key: T -> string, k: string): T -> bool {
    (x: T) => key(x) == k
  }

  /** Inserting into a sorted sequence puts `x` after every element with the same key. */
  lemma {:induction false} InsertByAfterEqualKeys<T>(x: T, s: seq<T>, key: T -> string, k: string)
    requires SortedBy(s, key)
    ensures Filter(InsertBy(x, s, key), HasKey(key, k)) == Filter(s, HasKey(key, k)) + Filter([x], HasKey(key, k))
  {
    var p := HasKey(key, k);
    if s == [] {
      assert Filter(s, p) == [];
    } else if !LexLe(key(s[0]), key(x)) {
      FilterConcat([x], s, p);
      if key(x) == k {
        forall e | e in s ensures key(e) != key(x) {
          var q :| 0 <= q < |s| && s[q] == e;
          if q > 0 {
            assert LexLe(key(s[0]), key(s[q]));
          } else {
            LexLeReflexive(key(s[0]));
          }
        }
        FilterNone(s, p);
      } else {
        assert Filter([x], p) == [];
      }
    } else {
      var t := s[1..];
      assert SortedBy(t, key) by {
        forall i, j | 0 <= i < j < |t| ensures LexLe(key(t[i]), key(t[j])) {
          assert t[i] == s[i + 1] && t[j] == s[j + 1];
        }
      }
      InsertByAfterEqualKeys(x, t, key, k);
      assert s == [s[0]] + t;
      FilterConcat([s[0]], InsertBy(x, t, key), p);
      FilterConcat([s[0]], t, p);
    }
  }

  /**
   * The sort is stable: the elements with any one key come out in the order they
   * had in the input.
   */
  lemma {:induction false} SortByStable<T>(s: seq<T>, key: T -> string, k: string)
    ensures Filter(SortBy(s, key), HasKey(key, k)) == Filter(s, HasKey(key, k))
  {
    if s != [] {
      var p := s[..|s| - 1];
      SortByStable(p, key, k);
      SortBySpec(p, key);
      InsertByAfterEqualKeys(s[|s| - 1], SortBy(p, key), key, k);
      assert s == p + [s[|s| - 1]];
      FilterConcat(p, [s[|s| - 1]], HasKey(key, k));
    }
  }

  /**
   * Where `x` lands: in front of the first element of sorted `s` whose key sorts
   * after `x`'s, that is after every element whose key does not.
   */
  lemma {:induction false} InsertByAt<T>(x: T, s: seq<T>, key: T -> string, p: nat)
    requires SortedBy(s, key) && p <= |s|
    requires forall q :: p <= q < |s| ==> !LexLe(key(s[q]), key(x))
    requires p > 0 ==> LexLe(key(s[p - 1]), key(x))
    ensures InsertBy(x, s, key) == s[..p] + [x] + s[p..]
  {
    if p > 0 {
      if p > 1 {
        LexLeTransitive(key(s[0]), key(s[p - 1]), key(x));
      }
      assert SortedBy(s[1..], key) by {
        forall i, j | 0 <= i < j < |s[1..]| ensures LexLe(key(s[1..][i]), key(s[1..][j])) {
          assert s[1..][i] == s[i + 1] && s[1..][j] == s[j + 1];
        }
      }
      InsertByAt(x, s[1..], key, p - 1);
      assert s[..p] == [s[0]] + s[1..][..p - 1];
      assert s[p..] == s[1..][p - 1..];
    }
  }

  /**
   * Move `a[i]` into the sorted prefix `a[..i]`, shifting the elements whose keys sort
   * after it one place to the right.
   */
  method InsertInPlace<T>(a: array<T>, i: nat, key: T -> string)
    requires i < a.Length && SortedBy(a[..i], key)
    modifies a
    ensures a[..i + 1] == InsertBy(old(a[i]), old(a[..i]), key)
    ensures forall k :: i < k < a.Length ==> a[k] == old(a[k])
  {
    ghost var s := a[..i];
    var x := a[i];
    var j := i;
    while j > 0 && !LexLe(key(a[j - 1]), key(x))
      invariant 0 <= j <= i
      invariant a[..j] == s[..j]
      invariant a[j + 1..i + 1] == s[j..]
      invariant forall k :: i < k < a.Length ==> a[k] == old(a[k])
      invariant forall q :: j <= q < i ==> !LexLe(key(s[q]), key(x))
    {
      a[j] := a[j - 1];
      j := j - 1;
    }
    a[j] := x;
    InsertByAt(x, s, key, j);
    assert a[..i + 1] == a[..j] + [x] + a[j + 1..i + 1];
  }

  /** Sorting one more element of `s` inserts it into the sorted shorter prefix. */
  lemma SortByStep<T>(s: seq<T>, i: nat, key: T -> string)
    requires i < |s|
    ensures SortBy(s[..i + 1], key) == InsertBy(s[i], SortBy(s[..i], key), key)
  {
    assert s[..i + 1][..i] == s[..i];
  }

  /**
   * `array.sort((a, b) => key(a).localeCompare(key(b)))`: the array is sorted in place,
   * and since the sort is stable its new contents are exactly `SortBy` of the old.
   */
  method SortInPlace<T>(a: array<T>, key: T -> string)
    modifies a
    ensures a[..] == SortBy(old(a[..]), key)
  {
    ghost var original := a[..];
    for i := 0 to a.Length
      invariant a[..i] == SortBy(original[..i], key)
      invariant forall k :: i <= k < a.Length ==> a[k] == original[k]
    {
      SortBySpec(original[..i], key);
      InsertInPlace(a, i, key);
      SortByStep(original, i, key);
    }
    assert original[..a.Length] == original;
  }
}
