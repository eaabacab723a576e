/**
 * List operations the backend uses: Python's `list.sort(key=...)` as a value
 * (a stable sort by a real-valued key, ascending; a descending sort with
 * `reverse=True`, which Python also keeps stable, is the ascending sort by the
 * negated key), `list.remove`, and order-preserving sublists.
 */
module Sequences {

  /** Places `x`, which came before every element of `s`, ahead of the first element whose key is not smaller. */
  function Insert<T>(x: T, s: seq<T>, key: T -> real): (r: seq<T>)
    ensures |r| == |s| + 1
  {
    if s == [] || key(x) <= key(s[0]) then [x] + s else [s[0]] + Insert(x, s[1..], key)
  }

  function SortBy<T>(s: seq<T>, key: T -> real): (r: seq<T>)
    ensures |r| == |s|
  {
    if s == [] then [] else Insert(s[0], SortBy(s[1..], key), key)
  }

  ghost predicate SortedBy<T>(s: seq<T>, key: T -> real) {
    forall i, j :: 0 <= i < j < |s| ==> key(s[i]) <= key(s[j])
  }

  /** The elements of `s` whose key is `v`, in their order in `s`. */
  function WithKey<T>(s: seq<T>, key: T -> real, v: real): seq<T> {
    if s == [] then [] else (if key(s[0]) == v then [s[0]] else []) + WithKey(s[1..], key, v)
  }

  lemma {:induction false} InsertPermutation<T>(x: T, s: seq<T>, key: T -> real)
    ensures multiset(Insert(x, s, key)) == multiset([x] + s)
  {
    if !(s == [] || key(x) <= key(s[0])) {
      InsertPermutation(x, s[1..], key);
      assert s == [s[0]] + s[1..];
    }
  }

  lemma {:induction false} InsertSorted<T>(x: T, s: seq<T>, key: T -> real)
    requires SortedBy(s, key)
    ensures SortedBy(Insert(x, s, key), key)
  {
    if !(s == [] || key(x) <= key(s[0])) {
      var tail := Insert(x, s[1..], key);
      InsertSorted(x, s[1..], key);
      InsertAbove(x, s[1..], key, key(s[0]));
      var r := [s[0]] + tail;
      forall i, j | 0 <= i < j < |r| ensures key(r[i]) <= key(r[j]) {
        if i > 0 {
          assert r[i] == tail[i - 1] && r[j] == tail[j - 1];
        } else {
          assert r[j] == tail[j - 1];
        }
      }
    }
  }

  /** When `x` and every element of `s` have keys at least `b`, so does every element of the insertion. */
  lemma {:induction false} InsertAbove<T>(x: T, s: seq<T>, key: T -> real, b: real)
    requires b <= key(x) && forall k :: 0 <= k < |s| ==> b <= key(s[k])
    ensures forall k :: 0 <= k < |s| + 1 ==> b <= key(Insert(x, s, key)[k])
  {
    if !(s == [] || key(x) <= key(s[0])) {
      InsertAbove(x, s[1..], key, b);
      var r := Insert(x, s, key);
      assert forall k :: 1 <= k < |s| + 1 ==> r[k] == Insert(x, s[1..], key)[k - 1];
    }
  }

  lemma {:induction false} InsertWithKey<T>(x: T, s: seq<T>, key: T -> real, v: real)
    requires SortedBy(s, key)
    ensures WithKey(Insert(x, s, key), key, v) == WithKey([x] + s, key, v)
  {
    assert ([x] + s)[1..] == s;
    if !(s == [] || key(x) <= key(s[0])) {
      var tail := Insert(x, s[1..], key);
      InsertWithKey(x, s[1..], key, v);
      var r := [s[0]] + tail;
      assert r[1..] == tail;
      assert ([x] + s[1..])[1..] == s[1..];
      var a := if key(s[0]) == v then [s[0]] else [];
      var b := if key(x) == v then [x] else [];
      var w := WithKey(s[1..], key, v);
      assert WithKey(r, key, v) == a + WithKey(tail, key, v);
      assert WithKey(tail, key, v) == b + w;
      assert WithKey(s, key, v) == a + w;
      assert WithKey([x] + s, key, v) == b + (a + w);
      assert a == [] || b == [];
    }
  }

  /** The sort orders by key. */
  lemma {:induction false} SortBySorted<T>(s: seq<T>, key: T -> real)
    ensures SortedBy(SortBy(s, key), key)
  {
    if s != [] {
      SortBySorted(s[1..], key);
      InsertSorted(s[0], SortBy(s[1..], key), key);
    }
  }

  /** The sort keeps every element, each as often as in the input. */
  lemma {:induction false} SortByPermutation<T>(s: seq<T>, key: T -> real)
    ensures multiset(SortBy(s, key)) == multiset(s)
  {
    if s != [] {
      SortByPermutation(s[1..], key);
      InsertPermutation(s[0], SortBy(s[1..], key), key);
      assert s == [s[0]] + s[1..];
    }
  }

  /** The sort is stable: the elements sharing any one key keep their relative order. */
  lemma {:induction false} SortByStable<T>(s: seq<T>, key: T -> real, v: real)
    ensures WithKey(SortBy(s, key), key, v) == WithKey(s, key, v)
  {
    if s != [] {
      SortBySorted(s[1..], key);
      SortByStable(s[1..], key, v);
      InsertWithKey(s[0], SortBy(s[1..], key), key, v);
      assert s == [s[0]] + s[1..];
    }
  }

  predicate IsPrefix<T(==)>(a: seq<T>, b: seq<T>) {
    |a| <= |b| && b[..|a|] == a
  }

  /**
   * The first `n` elements of the sorted list are taken from the list, each no
   * more often than it occurs there, and every element left out has a key no
   * smaller than any that was kept.
   */
  lemma SortedPrefixKeepsLeast<T>(s: seq<T>, key: T -> real, n: nat)
    requires n <= |s|
    ensures multiset(SortBy(s, key)[..n]) <= multiset(s)
    ensures forall p, q :: p in multiset(s) - multiset(SortBy(s, key)[..n]) && q in SortBy(s, key)[..n] ==> key(q) <= key(p)
  {
    SortBySorted(s, key);
    SortByPermutation(s, key);
    PermutationPrefixKeepsLeast(s, SortBy(s, key), key, n);
  }

  /** The same for any sorted rearrangement `t` of `s`. */
  lemma PermutationPrefixKeepsLeast<T>(s: seq<T>, t: seq<T>, key: T -> real, n: nat)
    requires n <= |t| && multiset(t) == multiset(s) && SortedBy(t, key)
    ensures multiset(t[..n]) <= multiset(s)
    ensures forall p, q :: p in multiset(s) - multiset(t[..n]) && q in t[..n] ==> key(q) <= key(p)
  {
    assert t == t[..n] + t[n..];
    assert multiset(s) - multiset(t[..n]) == multiset(t[n..]);
    SortedSplit(t, key, n);
    forall p, q | p in multiset(s) - multiset(t[..n]) && q in t[..n] ensures key(q) <= key(p) {
      assert p in t[n..];
    }
  }

  /** In a sorted list, nothing after position `n` has a smaller key than anything before it. */
  lemma SortedSplit<T>(t: seq<T>, key: T -> real, n: nat)
    requires n <= |t| && SortedBy(t, key)
    ensures forall p, q :: p in t[n..] && q in t[..n] ==> key(q) <= key(p)
  {
    forall p, q | p in t[n..] && q in t[..n] ensures key(q) <= key(p) {
      var k :| 0 <= k < |t| - n && t[n..][k] == p;
      var j :| 0 <= j < n && t[..n][j] == q;
      assert key(t[j]) <= key(t[n + k]);
    }
  }

  /** Cutting a list short cuts each of its key classes short. */
  lemma {:induction false} WithKeyPrefix<T>(s: seq<T>, n: nat, key: T -> real, v: real)
    requires n <= |s|
    ensures IsPrefix(WithKey(s[..n], key, v), WithKey(s, key, v))
    decreases n
  {
    if n > 0 {
      WithKeyPrefix(s[1..], n - 1, key, v);
      assert s[..n][1..] == s[1..][..n - 1];
      assert s[..n][0] == s[0];
    }
  }

  /** `r` is `s` with some elements left out and the rest in their order. */
  ghost predicate IsSubsequence<T>(r: seq<T>, s: seq<T>)
    decreases |s|
  {
    r == [] || (s != [] && ((r[0] == s[0] && IsSubsequence(r[1..], s[1..])) || IsSubsequence(r, s[1..])))
  }

  lemma {:induction false} SubsequenceRefl<T>(s: seq<T>)
    ensures IsSubsequence(s, s)
    decreases |s|
  {
    if s != [] {
      SubsequenceRefl(s[1..]);
    }
  }

  lemma {:induction false} SubsequenceTrans<T>(a: seq<T>, b: seq<T>, c: seq<T>)
    requires IsSubsequence(a, b) && IsSubsequence(b, c)
    ensures IsSubsequence(a, c)
    decreases |c|
  {
    if a != [] {
      if b[0] == c[0] && IsSubsequence(b[1..], c[1..]) {
        if a[0] == b[0] && IsSubsequence(a[1..], b[1..]) {
          SubsequenceTrans(a[1..], b[1..], c[1..]);
        } else {
          SubsequenceTrans(a, b[1..], c[1..]);
        }
      } else {
        SubsequenceTrans(a, b, c[1..]);
      }
    }
  }

  lemma {:induction false} SubsequenceMembers<T>(r: seq<T>, s: seq<T>)
    requires IsSubsequence(r, s)
    ensures forall x :: x in r ==> x in s
    decreases |s|
  {
    if r != [] {
      if r[0] == s[0] && IsSubsequence(r[1..], s[1..]) {
        SubsequenceMembers(r[1..], s[1..]);
        assert r == [r[0]] + r[1..];
      } else {
        SubsequenceMembers(r, s[1..]);
      }
    }
  }

  /** Leaving out one element keeps the rest in order. */
  lemma {:induction false} SubsequenceRemoveAt<T>(s: seq<T>, k: nat)
    requires k < |s|
    ensures IsSubsequence(s[..k] + s[k + 1..], s)
    decreases k
  {
    if k == 0 {
      assert s[..0] + s[1..] == s[1..];
      SubsequenceRefl(s[1..]);
    } else {
      SubsequenceRemoveAt(s[1..], k - 1);
      var r := s[..k] + s[k + 1..];
      assert r[0] == s[0];
      assert r[1..] == s[1..][..k - 1] + s[1..][k..];
    }
  }

  /** Dropping position `k` keeps every other element and adds none. */
  lemma RemoveAtMembers<T>(s: seq<T>, k: nat)
    requires k < |s|
    ensures forall x :: x in s[..k] + s[k + 1..] ==> x in s
    ensures forall x :: x in s && x != s[k] ==> x in s[..k] + s[k + 1..]
  {
    var r := s[..k] + s[k + 1..];
    forall x | x in s && x != s[k] ensures x in r {
      var j :| 0 <= j < |s| && s[j] == x;
      if j < k { assert r[j] == x; } else { assert r[j - 1] == x; }
    }
    forall x | x in r ensures x in s {
      var j :| 0 <= j < |r| && r[j] == x;
      if j < k { assert s[j] == x; } else { assert s[j + 1] == x; }
    }
  }

  /** `s.remove(x)`: drops the first element equal to `x`. */
  function RemoveFirst<T(==)>(s: seq<T>, x: T): (r: seq<T>)
    ensures x in s ==> |r| == |s| - 1
  {
    if s == [] then [] else if s[0] == x then s[1..] else [s[0]] + RemoveFirst(s[1..], x)
  }

  /** When nothing before index `k` equals `s[k]`, removing `s[k]` by value removes exactly that position. */
  lemma {:induction false} RemoveFirstAt<T>(s: seq<T>, k: nat)
    requires k < |s|
    requires forall j :: 0 <= j < k ==> s[j] != s[k]
    ensures RemoveFirst(s, s[k]) == s[..k] + s[k + 1..]
    decreases k
  {
    if k > 0 {
      assert s[1..][k - 1] == s[k];
      RemoveFirstAt(s[1..], k - 1);
      assert s[..k] + s[k + 1..] == [s[0]] + (s[1..][..k - 1] + s[1..][k..]);
    }
  }
}
