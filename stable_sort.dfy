/**
 * Stable sorting by a real-valued key, largest key first.
 *
 * Both sorts of the system are of this kind: the per-frame back-to-front sort
 * (key: squared distance to the camera) and the point-cloud opacity sort (key:
 * alpha). Rust's `sort_by` is a stable sort, and a stable sort is determined by
 * its input and its comparison, so the model uses insertion sort as the
 * reference: `SortDesc` is the functional definition and `SortDescInPlace` the
 * in-place array algorithm proved equal to it.
 */
module StableSort {

  /** Keys never increase from left to right. */
  ghost predicate SortedDesc<T>(s: seq<T>, key: T -> real) {
    forall i, j :: 0 <= i < j < |s| ==> key(s[i]) >= key(s[j])
  }

  /** The elements of `s` whose key is `k`, in the order they occur in `s`. */
  function KeyFilter<T>(s: seq<T>, key: T -> real, k: real): (r: seq<T>)
    ensures |r| <= |s|
    ensures forall i :: 0 <= i < |r| ==> key(r[i]) == k
  {
    if |s| == 0 then []
    else KeyFilter(s[..|s| - 1], key, k) + (if key(s[|s| - 1]) == k then [s[|s| - 1]] else [])
  }

  /** Filtering a concatenation filters each part in turn, so `KeyFilter` keeps the order of `s`. */
  lemma {:induction false} KeyFilterAppend<T>(s: seq<T>, t: seq<T>, key: T -> real, k: real)
    ensures KeyFilter(s + t, key, k) == KeyFilter(s, key, k) + KeyFilter(t, key, k)
    decreases |t|
  {
    if |t| == 0 {
      assert s + t == s;
    } else {
      var t' := t[..|t| - 1];
      assert (s + t)[..|s + t| - 1] == s + t';
      KeyFilterAppend(s, t', key, k);
    }
  }

  /** `KeyFilter` keeps every element whose key is `k`, as often as it occurs in `s`, and nothing else. */
  lemma {:induction false} KeyFilterContents<T>(s: seq<T>, key: T -> real, k: real)
    ensures forall x :: multiset(KeyFilter(s, key, k))[x] == (if key(x) == k then multiset(s)[x] else 0)
  {
    if |s| > 0 {
      var s' := s[..|s| - 1];
      KeyFilterContents(s', key, k);
      assert s == s' + [s[|s| - 1]];
    }
  }

  /**
   * Inserts `x` into `t` just after the last element whose key is at least
   * `key(x)`, scanning from the right as insertion sort does.
   */
  function Insert<T>(t: seq<T>, x: T, key: T -> real): (r: seq<T>)
    ensures |r| == |t| + 1
    ensures multiset(r) == multiset(t) + multiset{x}
    decreases |t|
  {
    if |t| == 0 || key(t[|t| - 1]) >= key(x) then t + [x]
    else
      assert t == t[..|t| - 1] + [t[|t| - 1]];
      Insert(t[..|t| - 1], x, key) + [t[|t| - 1]]
  }

  /** Inserting into a sequence that is in order gives a sequence in order. */
  lemma {:induction false} InsertKeepsSorted<T>(t: seq<T>, x: T, key: T -> real)
    requires SortedDesc(t, key)
    ensures SortedDesc(Insert(t, x, key), key)
    decreases |t|
  {
    if |t| > 0 && key(t[|t| - 1]) < key(x) {
      var t', last := t[..|t| - 1], t[|t| - 1];
      var front := Insert(t', x, key);
      assert SortedDesc(t', key);
      InsertKeepsSorted(t', x, key);
      var r := front + [last];
      forall i, j | 0 <= i < j < |r| ensures key(r[i]) >= key(r[j]) {
        if j == |r| - 1 {
          var e := r[i];
          assert e in multiset(front);
          if e != x {
            assert e in multiset(t');
            var m :| 0 <= m < |t'| && t'[m] == e;
            assert t[m] == e;
          }
        }
      }
    }
  }

  /** The stable sort of `s`, largest key first, by insertion. */
  function SortDesc<T>(s: seq<T>, key: T -> real): (r: seq<T>)
    ensures multiset(r) == multiset(s)
    ensures |r| == |s|
  {
    if |s| == 0 then []
    else
      assert s == s[..|s| - 1] + [s[|s| - 1]];
      Insert(SortDesc(s[..|s| - 1], key), s[|s| - 1], key)
  }

  /** The sort puts larger keys first. */
  lemma {:induction false} SortDescIsSorted<T>(s: seq<T>, key: T -> real)
    ensures SortedDesc(SortDesc(s, key), key)
  {
    if |s| > 0 {
      SortDescIsSorted(s[..|s| - 1], key);
      InsertKeepsSorted(SortDesc(s[..|s| - 1], key), s[|s| - 1], key);
    }
  }

  /** Inserting keeps, for every key value, the order of the elements with that key; `x` goes after the equal ones. */
  lemma {:induction false} InsertKeepsTies<T>(t: seq<T>, x: T, key: T -> real, k: real)
    ensures KeyFilter(Insert(t, x, key), key, k)
         == KeyFilter(t, key, k) + (if key(x) == k then [x] else [])
    decreases |t|
  {
    var r := Insert(t, x, key);
    var fx := if key(x) == k then [x] else [];
    if |t| == 0 || key(t[|t| - 1]) >= key(x) {
      assert r == t + [x];
      assert r[..|r| - 1] == t && r[|r| - 1] == x;
      assert KeyFilter(r, key, k) == KeyFilter(t, key, k) + fx;
    } else {
      var t', last := t[..|t| - 1], t[|t| - 1];
      var front := Insert(t', x, key);
      var fl := if key(last) == k then [last] else [];
      var kt' := KeyFilter(t', key, k);
      InsertKeepsTies(t', x, key, k);
      assert KeyFilter(r, key, k) == KeyFilter(front, key, k) + fl by {
        assert r == front + [last];
        assert r[..|r| - 1] == front;
      }
      assert KeyFilter(t, key, k) == kt' + fl;
      if fx == [] {
        assert KeyFilter(r, key, k) == kt' + fl;
        assert KeyFilter(t, key, k) + fx == kt' + fl;
      } else {
        assert fl == [];
        assert KeyFilter(r, key, k) == kt' + fx;
        assert KeyFilter(t, key, k) == kt';
      }
    }
  }

  /**
   * Stability: for every key value, the elements with that key appear in the
   * sorted sequence in the same order as in the input.
   */
  lemma {:induction false} SortDescIsStable<T>(s: seq<T>, key: T -> real, k: real)
    ensures KeyFilter(SortDesc(s, key), key, k) == KeyFilter(s, key, k)
  {
    if |s| > 0 {
      var s' := s[..|s| - 1];
      SortDescIsStable(s', key, k);
      InsertKeepsTies(SortDesc(s', key), s[|s| - 1], key, k);
    }
  }

  /** A prefix of a sequence in order is in order. */
  lemma PrefixOfSortedIsSorted<T>(s: seq<T>, n: nat, key: T -> real)
    requires SortedDesc(s, key) && n <= |s|
    ensures SortedDesc(s[..n], key)
  {
  }

  /** Appending an element no greater than the last one to a sequence the sort leaves alone gives another such sequence. */
  lemma SortDescAppendLast<T>(s: seq<T>, t: seq<T>, x: T, key: T -> real)
    requires s == t + [x]
    requires SortDesc(t, key) == t
    requires |t| == 0 || key(t[|t| - 1]) >= key(x)
    ensures SortDesc(s, key) == s
  {
    assert s[..|s| - 1] == t && s[|s| - 1] == x;
  }

  /** A sequence that is already in order is left as it is. */
  lemma {:induction false} SortDescOfSorted<T>(s: seq<T>, key: T -> real)
    requires SortedDesc(s, key)
    ensures SortDesc(s, key) == s
  {
    if |s| > 0 {
      var t, x := s[..|s| - 1], s[|s| - 1];
      assert SortDesc(t, key) == t by {
        PrefixOfSortedIsSorted(s, |s| - 1, key);
        SortDescOfSorted(t, key);
      }
      assert |t| == 0 || key(t[|t| - 1]) >= key(x) by {
        if |t| > 0 {
          assert t[|t| - 1] == s[|s| - 2];
        }
      }
      SortDescAppendLast(s, t, x, key);
    }
  }

  /** When every element has the same key the sort changes nothing. */
  lemma SortDescOfConstantKey<T>(s: seq<T>, key: T -> real, c: real)
    requires forall i :: 0 <= i < |s| ==> key(s[i]) == c
    ensures SortDesc(s, key) == s
  {
    SortDescOfSorted(s, key);
  }

  /** The longest prefix of `s` that has at most `n` elements (Rust's `Vec::truncate`). */
  function Truncate<T>(s: seq<T>, n: nat): (r: seq<T>)
    ensures |r| <= n && |r| <= |s|
    ensures |s| <= n ==> r == s
    ensures |s| > n ==> |r| == n
    ensures r == s[..|r|]
  {
    if |s| > n then s[..n] else s
  }

  /**
   * Sorts `a` in place by insertion. Each round moves `a[i]` left past the
   * elements with a strictly smaller key, so equal keys never cross and the
   * result is exactly `SortDesc` of the original contents.
   */
  method SortDescInPlace<T>(a: array<T>, key: T -> real)
    modifies a
    ensures a[..] == SortDesc(old(a[..]), key)
  {
    ghost var original := a[..];
    var i := 0;
    while i < a.Length
      invariant 0 <= i <= a.Length
      invariant a[..i] == SortDesc(original[..i], key)
      invariant a[i..] == original[i..]
    {
      ghost var before := a[..];
      InsertInPlace(a, i, key);
      SortStep(original, i, before, a[..], key);
      i := i + 1;
    }
    assert a[..] == a[..a.Length];
    assert original == original[..a.Length];
  }

  /** One outer round of `SortDescInPlace` extends the sorted prefix by one element. */
  lemma SortStep<T>(original: seq<T>, i: nat, before: seq<T>, after: seq<T>, key: T -> real)
    requires i < |original| == |before| == |after|
    requires before[..i] == SortDesc(original[..i], key) && before[i..] == original[i..]
    requires after[..i + 1] == Insert(before[..i], before[i], key) && after[i + 1..] == before[i + 1..]
    ensures after[..i + 1] == SortDesc(original[..i + 1], key)
    ensures after[i + 1..] == original[i + 1..]
  {
    assert original[..i + 1][..i] == original[..i];
    assert before[i] == original[i];
    assert before[i + 1..] == before[i..][1..];
  }

  /** One round of insertion sort: moves `a[i]` into the prefix `a[..i]` by adjacent swaps. */
  method InsertInPlace<T>(a: array<T>, i: nat, key: T -> real)
    requires i < a.Length
    modifies a
    ensures a[..i + 1] == Insert(old(a[..i]), old(a[i]), key)
    ensures a[i + 1..] == old(a[i + 1..])
  {
    ghost var t := a[..i];
    ghost var x := a[i];
    var j := i;
    while j > 0 && key(a[j - 1]) < key(a[j])
      invariant 0 <= j <= i
      invariant a[j] == x
      invariant forall m :: 0 <= m < j ==> a[m] == t[m]
      invariant forall m :: j < m <= i ==> a[m] == t[m - 1]
      invariant forall m :: i < m < a.Length ==> a[m] == old(a[m])
      invariant forall m :: j <= m < i ==> key(t[m]) < key(x)
    {
      a[j - 1], a[j] := a[j], a[j - 1];
      j := j - 1;
    }
    InsertAt(t, x, j, key);
    SplicedAt(a[..i + 1], t, x, j);
  }

  /** A sequence that agrees with `t` before `j`, holds `x` at `j` and agrees with `t` shifted by one after `j`. */
  lemma SplicedAt<T>(b: seq<T>, t: seq<T>, x: T, j: nat)
    requires j < |b| && |b| == |t| + 1 && b[j] == x
    requires forall m :: 0 <= m < j ==> b[m] == t[m]
    requires forall m :: j < m < |b| ==> b[m] == t[m - 1]
    ensures b == t[..j] + [x] + t[j..]
  {
  }

  /**
   * `Insert` places `x` at position `j` when every element from `j` on has a
   * smaller key and the element before `j` (if any) does not.
   */
  lemma {:induction false} InsertAt<T>(t: seq<T>, x: T, j: nat, key: T -> real)
    requires j <= |t|
    requires j == 0 || key(t[j - 1]) >= key(x)
    requires forall m :: j <= m < |t| ==> key(t[m]) < key(x)
    ensures Insert(t, x, key) == t[..j] + [x] + t[j..]
    decreases |t|
  {
    if j == |t| {
      assert t[..j] == t;
    } else {
      var t', last := t[..|t| - 1], t[|t| - 1];
      assert t'[..j] == t[..j];
      InsertAt(t', x, j, key);
      assert Insert(t, x, key) == Insert(t', x, key) + [last];
      var front, back := t[..j] + [x], t'[j..];
      assert t[j..] == back + [last] by {
        assert t == t' + [last];
        DropAppend(t', [last], j);
      }
      AppendAssoc(front, back, [last]);
    }
  }

  lemma DropAppend<T>(a: seq<T>, b: seq<T>, j: nat)
    requires j <= |a|
    ensures (a + b)[j..] == a[j..] + b
  {
  }

  lemma AppendAssoc<T>(a: seq<T>, b: seq<T>, c: seq<T>)
    ensures (a + b) + c == a + (b + c)
  {
  }
}
