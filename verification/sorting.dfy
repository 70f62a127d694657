/**
 * The stable index sort the frameworks use to order dimensions: a list of dimension
 * indices is sorted by a key per dimension, smallest key first, by insertion from the
 * right, so that indices with equal keys keep their relative order.
 */
module Sorting {

  /** `s` holds no index twice. */
  predicate Distinct(s: seq<nat>) {
    forall i, j :: 0 <= i < j < |s| ==> s[i] != s[j]
  }

  /** Every index in `s` has a key. */
  predicate HasKeys(s: seq<nat>, key: seq<real>) {
    forall i :: 0 <= i < |s| ==> s[i] < |key|
  }

  /** `a` comes before `b` in `s`. */
  predicate Before(s: seq<nat>, a: nat, b: nat) {
    exists i, j :: 0 <= i < j < |s| && s[i] == a && s[j] == b
  }

  /** `r` lists the indices of `s` by increasing key, indices with equal keys in the order of `s`. */
  predicate StablySorted(r: seq<nat>, s: seq<nat>, key: seq<real>)
    requires HasKeys(r, key)
  {
    multiset(r) == multiset(s)
    && forall i, j :: 0 <= i < j < |r| ==>
         key[r[i]] < key[r[j]] || (key[r[i]] == key[r[j]] && Before(s, r[i], r[j]))
  }

  /**
   * Where index `x` goes when it is inserted into `r` from the right: past every index
   * whose key is not larger than its own.
   */
  function InsertionPoint(r: seq<nat>, x: nat, key: seq<real>): (p: nat)
    requires HasKeys(r, key) && x < |key|
    ensures p <= |r|
    ensures forall i :: p <= i < |r| ==> key[x] < key[r[i]]
    ensures p > 0 ==> key[r[p - 1]] <= key[x]
  {
    if r == [] || key[r[|r| - 1]] <= key[x] then |r|
    else InsertionPoint(r[..|r| - 1], x, key)
  }

  /** `r` with `x` inserted at position `p`. */
  function Insert(r: seq<nat>, p: nat, x: nat): (q: seq<nat>)
    requires p <= |r|
    ensures |q| == |r| + 1 && q[p] == x
    ensures forall i :: 0 <= i < p ==> q[i] == r[i]
    ensures forall i :: p < i < |q| ==> q[i] == r[i - 1]
    ensures multiset(q) == multiset(r) + multiset{x}
  {
    assert r == r[..p] + r[p..];
    r[..p] + [x] + r[p..]
  }

  /** Insertion sort of the indices `s` by `key`. */
  function SortIndices(s: seq<nat>, key: seq<real>): (r: seq<nat>)
    requires HasKeys(s, key)
    ensures |r| == |s| && multiset(r) == multiset(s) && HasKeys(r, key)
  {
    if s == [] then []
    else
      var n := |s| - 1;
      assert s == s[..n] + [s[n]];
      var r := SortIndices(s[..n], key);
      Insert(r, InsertionPoint(r, s[n], key), s[n])
  }

  lemma InMultiset(s: seq<nat>, r: seq<nat>, i: nat)
    requires multiset(r) == multiset(s) && i < |r|
    ensures exists q :: 0 <= q < |s| && s[q] == r[i]
  {
    assert r[i] in multiset(r);
    assert r[i] in s;
  }

  /** `a` before `b` in all but the last element of `s` is `a` before `b` in `s`. */
  lemma BeforeInPrefix(s: seq<nat>, a: nat, b: nat)
    requires |s| > 0 && Before(s[..|s| - 1], a, b)
    ensures Before(s, a, b)
  {
    var i, j :| 0 <= i < j < |s| - 1 && s[..|s| - 1][i] == a && s[..|s| - 1][j] == b;
    assert s[i] == a && s[j] == b;
  }

  /** Every element of all but the last element of `s` comes before the last one. */
  lemma BeforeLast(s: seq<nat>, r: seq<nat>, i: nat)
    requires |s| > 0 && multiset(r) == multiset(s[..|s| - 1]) && i < |r|
    ensures Before(s, r[i], s[|s| - 1])
  {
    var n := |s| - 1;
    InMultiset(s[..n], r, i);
    var q :| 0 <= q < n && s[..n][q] == r[i];
    assert s[q] == r[i];
  }

  /**
   * Inserting the last index `x` of `s` into the stable sort `r` of the rest of `s`,
   * past every index whose key is not larger, keeps the pair at positions `i`, `j` in order.
   */
  lemma InsertedPairInOrder(s: seq<nat>, r: seq<nat>, p: nat, key: seq<real>, i: nat, j: nat)
    requires |s| > 0 && HasKeys(r, key) && s[|s| - 1] < |key|
    requires StablySorted(r, s[..|s| - 1], key)
    requires p <= |r| && (forall k :: p <= k < |r| ==> key[s[|s| - 1]] < key[r[k]])
    requires p > 0 ==> key[r[p - 1]] <= key[s[|s| - 1]]
    requires i < j < |r| + 1
    ensures var q := Insert(r, p, s[|s| - 1]);
      key[q[i]] < key[q[j]] || (key[q[i]] == key[q[j]] && Before(s, q[i], q[j]))
  {
    var x := s[|s| - 1];
    var q := Insert(r, p, x);
    if i == p {
      assert q[j] == r[j - 1] && p <= j - 1;
    } else if j == p {
      assert q[i] == r[i] && i < p;
      if i < p - 1 {
        assert key[r[i]] <= key[r[p - 1]];
      }
      if key[q[i]] == key[q[j]] {
        BeforeLast(s, r, i);
      }
    } else {
      var i' := if i < p then i else i - 1;
      var j' := if j < p then j else j - 1;
      assert q[i] == r[i'] && q[j] == r[j'] && i' < j';
      if key[q[i]] == key[q[j]] {
        BeforeInPrefix(s, q[i], q[j]);
      }
    }
  }

  /** Inserting the last index of `s` where `InsertionPoint` puts it extends a stable sort of the rest to `s`. */
  lemma InsertKeepsStable(s: seq<nat>, r: seq<nat>, key: seq<real>)
    requires |s| > 0 && HasKeys(r, key) && s[|s| - 1] < |key|
    requires StablySorted(r, s[..|s| - 1], key)
    ensures var q := Insert(r, InsertionPoint(r, s[|s| - 1], key), s[|s| - 1]);
      HasKeys(q, key) && StablySorted(q, s, key)
  {
    var p := InsertionPoint(r, s[|s| - 1], key);
    var q := Insert(r, p, s[|s| - 1]);
    assert s == s[..|s| - 1] + [s[|s| - 1]];
    forall i, j | 0 <= i < j < |q|
      ensures key[q[i]] < key[q[j]] || (key[q[i]] == key[q[j]] && Before(s, q[i], q[j]))
    {
      InsertedPairInOrder(s, r, p, key, i, j);
    }
  }

  /** The sort of `s` inserts its last index into the sort of the rest. */
  lemma SortIndicesStep(s: seq<nat>, key: seq<real>)
    requires HasKeys(s, key) && s != []
    ensures var r := SortIndices(s[..|s| - 1], key);
      SortIndices(s, key) == Insert(r, InsertionPoint(r, s[|s| - 1], key), s[|s| - 1])
  {
  }

  /** The insertion sort is stable: it lists the indices by key, and equal keys in their input order. */
  lemma {:induction false} SortIndicesIsStable(s: seq<nat>, key: seq<real>)
    requires HasKeys(s, key)
    ensures StablySorted(SortIndices(s, key), s, key)
  {
    if s != [] {
      var n := |s| - 1;
      SortIndicesIsStable(s[..n], key);
      InsertKeepsStable(s, SortIndices(s[..n], key), key);
      SortIndicesStep(s, key);
    }
  }

  /** A stable sort of distinct indices lists each index once. */
  lemma SortedIsDistinct(r: seq<nat>, s: seq<nat>, key: seq<real>)
    requires HasKeys(r, key) && Distinct(s) && StablySorted(r, s, key)
    ensures Distinct(r)
  {
    forall i, j | 0 <= i < j < |r| ensures r[i] != r[j] {
      if key[r[i]] == key[r[j]] {
        var a, b :| 0 <= a < b < |s| && s[a] == r[i] && s[b] == r[j];
      }
    }
  }
}
