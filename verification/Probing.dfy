/**
  Open addressing with linear probing, as a property of an index table: every stored key is reached
  from its home slot over slots that are in use and hold earlier keys.
 */
module Probing {
  import opened Basics

  type Hash<!T> = T -> int

  /** `hash & mask` for a table of n slots, n a power of two. */
  function Home<T>(hash: Hash<T>, key: T, n: nat): (i: nat)
    requires n > 0
    ensures i < n
  {
    hash(key) % n
  }

  /** The slot reached after `d` steps of `i = (i + 1) & mask`, for d up to n. */
  function Probe(home: nat, d: nat, n: nat): (i: nat)
    requires n > 0
    ensures i < n
  {
    if home + d < n then home + d else if home + d < 2 * n then home + d - n else 0
  }

  function Next(i: nat, n: nat): (j: nat)
    requires i < n
    ensures j < n
  {
    (i + 1) % n
  }

  lemma ProbeNext(home: nat, d: nat, n: nat)
    requires home < n && d < n
    ensures Probe(home, d + 1, n) == Next(Probe(home, d, n), n)
  {}

  /** Key `k` is stored `d` steps from its home, behind earlier keys only. */
  ghost predicate Placed<T>(indices: seq<nat>, keys: seq<T>, hash: Hash<T>, k: nat, d: nat)
    requires |indices| > 0 && k < |keys|
  {
    var n, home := |indices|, Home(hash, keys[k], |indices|);
    && d < n && indices[Probe(home, d, n)] == k + 1
    && forall e: nat :: e < d ==> 0 < indices[Probe(home, e, n)] <= k
  }

  /** `dist[k]`: how far key k is from its home.  A slot holds 0, or one more than the index of its key. */
  ghost predicate Indexed<T>(indices: seq<nat>, keys: seq<T>, hash: Hash<T>, dist: seq<nat>) {
    && |indices| > 0 && 2 * |keys| <= |indices| && |dist| == |keys|
    && (forall k {:trigger Placed(indices, keys, hash, k, dist[k])} ::
          0 <= k < |keys| ==> Placed(indices, keys, hash, k, dist[k]))
    && (forall s :: 0 <= s < |indices| && indices[s] > 0 ==>
          indices[s] <= |keys| &&
            s == Probe(Home(hash, keys[indices[s] - 1], |indices|), dist[indices[s] - 1], |indices|))
  }

  /** The lowest index that holds the key. */
  ghost predicate IsLowest<T>(keys: seq<T>, key: T, k: nat) {
    k < |keys| && keys[k] == key && key !in keys[..k]
  }

  lemma {:induction false} LowestExists<T>(keys: seq<T>, key: T) returns (k: nat)
    requires key in keys
    ensures IsLowest(keys, key, k)
  {
    if keys[0] == key {
      k := 0;
    } else {
      var j := LowestExists(keys[1..], key);
      k := j + 1;
      assert keys[..k] == [keys[0]] + keys[1..][..j];
    }
  }

  // ---------- pigeonhole ----------

  lemma {:induction false} SmallSet(s: set<nat>, n: nat)
    requires forall x :: x in s ==> x < n
    ensures |s| <= n
  {
    if n > 0 {
      SmallSet(s - {n - 1}, n - 1);
    } else {
      assert s == {};
    }
  }

  lemma {:induction false} DistinctSetSize<T>(s: seq<T>)
    requires forall i, j :: 0 <= i < j < |s| ==> s[i] != s[j]
    ensures |Elements(s)| == |s|
  {
    if s != [] {
      var t, last := s[..|s| - 1], s[|s| - 1];
      DistinctSetSize(t);
      assert s == t + [last];
      assert Elements(s) == Elements(t) + {last};
      assert last !in Elements(t);
    }
  }

  lemma SlotsDiffer<T>(indices: seq<nat>, keys: seq<T>, hash: Hash<T>, dist: seq<nat>, i: nat, j: nat)
    requires Indexed(indices, keys, hash, dist) && i < j < |indices| && indices[i] > 0 && indices[j] > 0
    ensures indices[i] != indices[j]
  {}

  /** At least half of the slots are empty. */
  lemma SomeSlotIsEmpty<T>(indices: seq<nat>, keys: seq<T>, hash: Hash<T>, dist: seq<nat>) returns (s: nat)
    requires Indexed(indices, keys, hash, dist)
    ensures s < |indices| && indices[s] == 0
  {
    if exists t :: 0 <= t < |indices| && indices[t] == 0 {
      s :| 0 <= s < |indices| && indices[s] == 0;
    } else {
      forall i, j | 0 <= i < j < |indices| ensures indices[i] != indices[j] {
        SlotsDiffer(indices, keys, hash, dist, i, j);
      }
      DistinctSetSize(indices);
      var used := Elements(indices);
      forall x | x in used ensures 0 < x <= |keys| {
        var t :| 0 <= t < |indices| && indices[t] == x;
      }
      SmallSet(used + {0}, |keys| + 1);
      assert false;
    }
  }

  /** Probing from anywhere meets an empty slot in fewer than n steps. */
  lemma ProbeMeetsEmpty<T>(indices: seq<nat>, keys: seq<T>, hash: Hash<T>, dist: seq<nat>, home: nat)
    requires Indexed(indices, keys, hash, dist) && home < |indices|
    ensures exists d: nat :: d < |indices| && indices[Probe(home, d, |indices|)] == 0
  {
    var n := |indices|;
    var s := SomeSlotIsEmpty(indices, keys, hash, dist);
    var d: nat := if s >= home then s - home else s + n - home;
    assert Probe(home, d, n) == s;
  }

  // ---------- searching ----------

  /** The first `d` probes found only other keys. */
  ghost predicate Searched<T>(indices: seq<nat>, keys: seq<T>, hash: Hash<T>, key: T, d: nat)
    requires |indices| > 0
  {
    forall e: nat :: e < d ==>
      var i := indices[Probe(Home(hash, key, |indices|), e, |indices|)];
      0 < i <= |keys| && keys[i - 1] != key
  }

  lemma SearchIsShort<T>(indices: seq<nat>, keys: seq<T>, hash: Hash<T>, dist: seq<nat>, key: T, d: nat)
    requires Indexed(indices, keys, hash, dist) && Searched(indices, keys, hash, key, d)
    ensures d < |indices|
  {
    var n, home := |indices|, Home(hash, key, |indices|);
    ProbeMeetsEmpty(indices, keys, hash, dist, home);
    var z: nat :| z < n && indices[Probe(home, z, n)] == 0;
    assert d <= z;
  }

  lemma SearchOn<T>(indices: seq<nat>, keys: seq<T>, hash: Hash<T>, key: T, d: nat)
    requires |indices| > 0 && Searched(indices, keys, hash, key, d)
    requires var i := indices[Probe(Home(hash, key, |indices|), d, |indices|)]; 0 < i <= |keys| && keys[i - 1] != key
    ensures Searched(indices, keys, hash, key, d + 1)
  {}

  /** A search does not run past the lowest index that holds the key. */
  lemma SearchStopsAt<T>(indices: seq<nat>, keys: seq<T>, hash: Hash<T>, dist: seq<nat>, key: T, d: nat, k: nat)
    requires Indexed(indices, keys, hash, dist) && Searched(indices, keys, hash, key, d) && IsLowest(keys, key, k)
    ensures d <= dist[k]
    ensures 0 < indices[Probe(Home(hash, key, |indices|), d, |indices|)] <= k + 1
  {
    assert Placed(indices, keys, hash, k, dist[k]);
  }

  /** What the probe after `d` unsuccessful ones tells. */
  lemma ProbeTells<T>(indices: seq<nat>, keys: seq<T>, hash: Hash<T>, dist: seq<nat>, key: T, d: nat)
    requires Indexed(indices, keys, hash, dist) && Searched(indices, keys, hash, key, d)
    ensures d < |indices|
    ensures var i := indices[Probe(Home(hash, key, |indices|), d, |indices|)];
      i <= |keys| && (i == 0 ==> key !in keys) && (i > 0 && keys[i - 1] == key ==> IsLowest(keys, key, i - 1))
  {
    SearchIsShort(indices, keys, hash, dist, key, d);
    if key in keys {
      var k := LowestExists(keys, key);
      SearchStopsAt(indices, keys, hash, dist, key, d, k);
      var i := indices[Probe(Home(hash, key, |indices|), d, |indices|)];
      assert i - 1 < k ==> keys[i - 1] == keys[..k][i - 1];
    }
  }

  /** Storing a new last key in the empty slot that its search ended at. */
  lemma StoreKeepsIndexed<T>(indices: seq<nat>, keys: seq<T>, hash: Hash<T>, dist: seq<nat>, key: T, d: nat)
    requires Indexed(indices, keys, hash, dist) && d < |indices| && 2 * (|keys| + 1) <= |indices|
    requires var home := Home(hash, key, |indices|);
      indices[Probe(home, d, |indices|)] == 0 && forall e: nat :: e < d ==> indices[Probe(home, e, |indices|)] > 0
    ensures Indexed(indices[Probe(Home(hash, key, |indices|), d, |indices|) := |keys| + 1], keys + [key], hash,
      dist + [d])
  {
    var n := |indices|;
    var s := Probe(Home(hash, key, n), d, n);
    var indices', keys', dist' := indices[s := |keys| + 1], keys + [key], dist + [d];
    forall k | 0 <= k < |keys'| ensures Placed(indices', keys', hash, k, dist'[k]) {
      if k < |keys| { assert Placed(indices, keys, hash, k, dist[k]); }
    }
    forall t | 0 <= t < n && indices'[t] > 0
      ensures indices'[t] <= |keys'| && t == Probe(Home(hash, keys'[indices'[t] - 1], n), dist'[indices'[t] - 1], n)
    {
      if t != s { assert indices[t] == indices'[t]; }
    }
  }
}
