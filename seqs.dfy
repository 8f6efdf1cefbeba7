/**
 * Sequence helpers shared by the model: concatenation of a list of lists (itertools.chain), and
 * dictionaries as association lists in insertion order.
 */
module Seqs {
  import opened Wrappers

  function Flatten<T(!new)>(xss: seq<seq<T>>): (r: seq<T>)
    ensures forall x :: x in r <==> exists i :: 0 <= i < |xss| && x in xss[i]
  {
    if xss == [] then []
    else
      var r := Flatten(xss[..|xss| - 1]) + xss[|xss| - 1];
      assert forall i :: 0 <= i < |xss| - 1 ==> xss[..|xss| - 1][i] == xss[i];
      r
  }

  lemma {:induction false} FlattenAppend<T(!new)>(xss: seq<seq<T>>, ys: seq<T>)
    ensures Flatten(xss + [ys]) == Flatten(xss) + ys
  {
    assert (xss + [ys])[..|xss|] == xss;
  }

  lemma {:induction false} FlattenLength<T(!new)>(xss: seq<seq<T>>)
    ensures (forall i :: 0 <= i < |xss| ==> |xss[i]| > 0) && |xss| > 0 ==> |Flatten(xss)| > 0
  {
    if xss != [] {
      assert |xss[|xss| - 1]| > 0 || !(forall i :: 0 <= i < |xss| ==> |xss[i]| > 0);
    }
  }

  /** An element of a non-empty sequence is in its front or is its last element. */
  lemma InFrontOrLast<T>(s: seq<T>, x: T)
    requires |s| > 0
    ensures x in s <==> x in s[..|s| - 1] || x == s[|s| - 1]
  {
    assert s == s[..|s| - 1] + [s[|s| - 1]];
  }

  /** Growing a prefix by one keeps the shorter prefix in front. */
  lemma TakeStep<T>(s: seq<T>, j: nat)
    requires j < |s|
    ensures s[..j + 1][..j] == s[..j] && s[..j + 1][j] == s[j]
  {
  }

  lemma ConcatAssoc<T>(a: seq<T>, b: seq<T>, c: seq<T>)
    ensures a + b + c == a + (b + c)
  {
  }

  /** A prefix of a prefix is a prefix. */
  lemma TakeTake<T>(s: seq<T>, i: nat, j: nat)
    requires i <= j <= |s|
    ensures s[..j][..i] == s[..i]
  {
  }

  /** The prefix of full length is the whole sequence. */
  lemma TakeAll<T>(s: seq<T>)
    ensures s[..|s|] == s
  {
  }

  /** dict.keys(), in insertion order. */
  function Keys<K, V>(m: seq<(K, V)>): (ks: seq<K>)
    ensures |ks| == |m| && forall i :: 0 <= i < |m| ==> ks[i] == m[i].0
  {
    seq(|m|, i requires 0 <= i < |m| => m[i].0)
  }

  /** A dictionary never holds a key twice. */
  predicate KeysUnique<K(==), V>(m: seq<(K, V)>) {
    forall i, j :: 0 <= i < j < |m| ==> m[i].0 != m[j].0
  }

  /** No element occurs twice. */
  predicate NoRepeats<T(==)>(s: seq<T>) {
    forall i, j :: 0 <= i < j < |s| ==> s[i] != s[j]
  }

  /** A dictionary holds each key once exactly when its key list has no repeats. */
  lemma KeysUniqueIsNoRepeats<K, V>(m: seq<(K, V)>)
    ensures KeysUnique(m) <==> NoRepeats(Keys(m))
  {
    var ks := Keys(m);
    assert forall i :: 0 <= i < |m| ==> ks[i] == m[i].0;
  }

  lemma NoRepeatsSnoc<T>(s: seq<T>, x: T)
    ensures NoRepeats(s + [x]) <==> NoRepeats(s) && x !in s
  {
    var t := s + [x];
    assert forall i :: 0 <= i < |s| ==> t[i] == s[i];
    assert t[|s|] == x;
  }

  lemma NoRepeatsPrefix<T>(s: seq<T>, n: nat)
    requires n <= |s|
    ensures NoRepeats(s) ==> NoRepeats(s[..n])
  {
  }

  /** dict.get: the value stored under `k`, if any. */
  function Lookup<K(==), V>(m: seq<(K, V)>, k: K): (r: Option<V>)
    ensures r.Some? <==> exists i :: 0 <= i < |m| && m[i].0 == k
    ensures r.Some? ==> exists i :: 0 <= i < |m| && m[i] == (k, r.value)
    ensures KeysUnique(m) ==> forall i :: 0 <= i < |m| && m[i].0 == k ==> r == Some(m[i].1)
  {
    if |m| == 0 then None
    else if m[|m| - 1].0 == k && Lookup(m[..|m| - 1], k).None? then Some(m[|m| - 1].1)
    else
      var r := Lookup(m[..|m| - 1], k);
      assert forall i :: 0 <= i < |m| - 1 ==> m[..|m| - 1][i] == m[i];
      r
  }

  /** The place of the first entry stored under `k`. */
  function IndexOf<K(==), V>(m: seq<(K, V)>, k: K): (i: nat)
    requires exists j :: 0 <= j < |m| && m[j].0 == k
    ensures i < |m| && m[i].0 == k && forall j :: 0 <= j < i ==> m[j].0 != k
  {
    if m[0].0 == k then 0
    else
      assert exists j :: 1 <= j < |m| && m[j].0 == k;
      var i := IndexOf(m[1..], k) + 1;
      assert forall j :: 1 <= j < |m| ==> m[1..][j - 1] == m[j];
      i
  }

  /** d[k] = v: a stored key keeps its place and takes the new value; a new key goes last. */
  function Assign<K(==), V>(m: seq<(K, V)>, k: K, v: V): (r: seq<(K, V)>)
    ensures Keys(r) == if Lookup(m, k).Some? then Keys(m) else Keys(m) + [k]
    ensures forall e :: e in r ==> e in m || e == (k, v)
  {
    if Lookup(m, k).None? then
      var r := m + [(k, v)];
      assert Keys(r) == Keys(m) + [k];
      r
    else
      var r := m[IndexOf(m, k) := (k, v)];
      assert Keys(r) == Keys(m);
      r
  }

  /** Lookup depends only on the entries stored under the key asked for. */
  lemma {:induction false} LookupAgrees<K, V>(m: seq<(K, V)>, n: seq<(K, V)>, k: K)
    requires |m| == |n|
    requires forall i :: 0 <= i < |m| ==> (m[i].0 == k <==> n[i].0 == k)
    requires forall i :: 0 <= i < |m| && m[i].0 == k ==> m[i] == n[i]
    ensures Lookup(m, k) == Lookup(n, k)
  {
    if |m| > 0 {
      var m', n' := m[..|m| - 1], n[..|n| - 1];
      LookupAgrees(m', n', k);
    }
  }

  /** dict.get finds the first entry stored under the key. */
  lemma {:induction false} LookupFindsFirst<K, V>(m: seq<(K, V)>, k: K, i: nat)
    requires i < |m| && m[i].0 == k
    requires forall j :: 0 <= j < i ==> m[j].0 != k
    ensures Lookup(m, k) == Some(m[i].1)
  {
    var front := m[..|m| - 1];
    if i < |m| - 1 {
      LookupFindsFirst(front, k, i);
    } else {
      assert Lookup(front, k).None?;
    }
  }

  /** After d[k] = v, d.get(k) is v. */
  lemma AssignLookupSame<K, V>(m: seq<(K, V)>, k: K, v: V)
    ensures Lookup(Assign(m, k, v), k) == Some(v)
  {
    var r := Assign(m, k, v);
    if Lookup(m, k).None? {
      LookupFindsFirst(r, k, |m|);
    } else {
      var i := IndexOf(m, k);
      LookupFindsFirst(r, k, i);
    }
  }

  /** After d[k] = v, every other key reads as before. */
  lemma AssignLookupOther<K, V>(m: seq<(K, V)>, k: K, v: V, other: K)
    requires other != k
    ensures Lookup(Assign(m, k, v), other) == Lookup(m, other)
  {
    var r := Assign(m, k, v);
    if Lookup(m, k).None? {
      assert r[..|r| - 1] == m;
    } else {
      LookupAgrees(r, m, other);
    }
  }

  /** Assigning keeps the keys distinct. */
  lemma AssignKeepsKeysUnique<K, V>(m: seq<(K, V)>, k: K, v: V)
    requires KeysUnique(m)
    ensures KeysUnique(Assign(m, k, v))
  {
    var r := Assign(m, k, v);
    assert forall i :: 0 <= i < |r| ==> r[i].0 == Keys(r)[i];
    assert forall i :: 0 <= i < |m| ==> m[i].0 == Keys(m)[i];
  }
}
