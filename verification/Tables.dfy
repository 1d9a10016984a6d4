/**
  Sets and key maps over open addressing tables.  Keys are compared with ==, and equal keys have
  equal hashes.
 */
module Tables {
  import opened Basics
  import opened Probing

  function NextPowerOfTwo(n: nat): (p: nat)
    ensures p > 0 && p >= n
  {
    if n <= 1 then 1 else 2 * NextPowerOfTwo((n + 1) / 2)
  }

  // ---------- what a set holds ----------

  /** SetPair: a value and the list index it was put with. */
  type Entry<T> = (T, nat)

  function Values<T>(c: seq<Entry<T>>): (vs: seq<T>)
    ensures |vs| == |c|
  {
    seq(|c|, i requires 0 <= i < |c| => c[i].0)
  }

  function AddTo<T(==)>(c: seq<Entry<T>>, v: T, i: nat): seq<Entry<T>> {
    if v in Values(c) then c else c + [(v, i)]
  }

  /** The values of a list put in order. */
  function AddAll<T(==)>(c: seq<Entry<T>>, list: seq<T>): seq<Entry<T>> {
    if list == [] then c else AddTo(AddAll(c, list[..|list| - 1]), list[|list| - 1], |list| - 1)
  }

  /** The list without repetitions, each value with the index of its first occurrence. */
  ghost predicate IsNub<T>(c: seq<Entry<T>>, list: seq<T>) {
    && (forall k :: 0 <= k < |c| ==> c[k].1 < |list| && list[c[k].1] == c[k].0 && c[k].0 !in list[..c[k].1])
    && (forall j, k :: 0 <= j < k < |c| ==> c[j].1 < c[k].1)
    && (forall v :: v in list ==> v in Values(c))
  }

  lemma {:induction false} AddAllIsNub<T>(list: seq<T>)
    ensures IsNub(AddAll([], list), list)
  {
    if list != [] {
      var n := |list| - 1;
      var init, c, c' := list[..n], AddAll([], list[..n]), AddAll([], list);
      AddAllIsNub(init);
      assert list == init + [list[n]];
      if c' != c { assert Values(c') == Values(c) + [list[n]]; }
      forall k | 0 <= k < |c'| ensures c'[k].1 < |list| && list[c'[k].1] == c'[k].0 && c'[k].0 !in list[..c'[k].1] {
        if k < |c| {
          assert init[..c[k].1] == list[..c[k].1];
        } else {
          assert list[..n] == init;
          assert Covered(init, c, list[n]);
        }
      }
    }
  }

  ghost predicate Covered<T>(list: seq<T>, c: seq<Entry<T>>, v: T) {
    v in list ==> v in Values(c)
  }

  /** Putting the entries of a set again, in order, adds each of them. */
  lemma NotBefore<T>(c: seq<Entry<T>>, i: nat)
    requires i < |c| && Distinct(Values(c))
    ensures AddTo(c[..i], c[i].0, c[i].1) == c[..i + 1]
  {
    forall j | 0 <= j < i ensures Values(c[..i])[j] != c[i].0 { assert Values(c)[j] != Values(c)[i]; }
  }

  class Set<T(==, 0, !new)> {
    const hash: Hash<T>
    var size: nat
    var cap: nat
    var indices: array<nat>
    var pairs: array<Entry<T>>
    ghost var dist: seq<nat>

    function Contents(): seq<Entry<T>>
      reads this, pairs
      requires size <= pairs.Length
    {
      pairs[..size]
    }

    function Keys(): seq<T>
      reads this, pairs
      requires size <= pairs.Length
    {
      Values(Contents())
    }

    ghost predicate Valid()
      reads this, indices, pairs
    {
      && cap > 0 && indices.Length == 2 * cap && pairs.Length == cap && size <= cap
      && Indexed(indices[..], Keys(), hash, dist)
      && Distinct(Keys())
    }

    constructor (hash: Hash<T>, capacity: nat)
      ensures Valid() && fresh(indices) && fresh(pairs) && Contents() == [] && this.hash == hash
    {
      this.hash := hash;
      var c := NextPowerOfTwo(capacity);
      indices := new nat[2 * c](_ => 0);
      pairs := new Entry<T>[c];
      cap, size, dist := c, 0, [];
    }

    /** The probing loop of `has`, `indexOf` and `put`: stops at the value, or at an empty slot. */
    method Locate(value: T) returns (slot: nat, ghost d: nat)
      requires Valid()
      ensures slot < indices.Length && indices[slot] <= size
      ensures indices[slot] == 0 <==> value !in Keys()
      ensures indices[slot] > 0 ==> pairs[indices[slot] - 1].0 == value && IsLowest(Keys(), value, indices[slot] - 1)
      ensures Searched(indices[..], Keys(), hash, value, d) && d < indices.Length &&
        slot == Probe(Home(hash, value, indices.Length), d, indices.Length)
    {
      var n := indices.Length;
      ghost var table, ks, home := indices[..], Keys(), Home(hash, value, n);
      slot := Home(hash, value, n);
      d := 0;
      while true
        invariant Searched(table, ks, hash, value, d) && slot == Probe(home, d, n)
        decreases n - d
      {
        ProbeTells(table, ks, hash, dist, value, d);
        var at := indices[slot];
        assert table[slot] == at;
        if at == 0 { return; }
        assert at <= |ks| && ks[at - 1] == pairs[at - 1].0;
        if pairs[at - 1].0 == value {
          assert IsLowest(ks, value, at - 1) && value in ks;
          return;
        }
        SearchOn(table, ks, hash, value, d);
        ProbeNext(home, d, n);
        slot := Next(slot, n);
        d := d + 1;
      }
    }

    method Has(value: T) returns (r: bool)
      requires Valid()
      ensures r <==> value in Keys()
    {
      var slot, _ := Locate(value);
      return indices[slot] != 0;
    }

    /** The index the value was first put with, or -1. */
    method IndexOf(value: T) returns (r: int)
      requires Valid()
      ensures if value in Keys() then exists k :: 0 <= k < size && Contents()[k] == (value, r) else r == -1
    {
      var slot, _ := Locate(value);
      if indices[slot] == 0 { return -1; }
      assert Contents()[indices[slot] - 1] == pairs[indices[slot] - 1];
      return pairs[indices[slot] - 1].1;
    }

    /** The rest of `put`, when there is room. */
    method Insert(value: T, index: nat)
      requires Valid() && size < cap
      modifies this, indices, pairs
      ensures Valid() && indices == old(indices) && pairs == old(pairs) && cap == old(cap)
      ensures Contents() == AddTo(old(Contents()), value, index)
    {
      var slot, d := Locate(value);
      if indices[slot] != 0 { return; }
      ghost var keys := Keys();
      forall e: nat | e < d ensures indices[..][Probe(Home(hash, value, indices.Length), e, indices.Length)] > 0 {}
      StoreKeepsIndexed(indices[..], keys, hash, dist, value, d);
      ghost var indices' := indices[..][slot := size + 1];
      pairs[size] := (value, index);
      indices[slot] := size + 1;
      size := size + 1;
      dist := dist + [d];
      assert indices[..] == indices';
      assert Contents() == old(Contents()) + [(value, index)];
      assert Keys() == keys + [value];
    }

    /** `grow`: twice the room, all entries put again in order. */
    method Grow()
      requires Valid()
      modifies this, indices, pairs
      ensures Valid() && fresh(indices) && fresh(pairs) && cap == 2 * old(cap) && Contents() == old(Contents())
    {
      var oldPairs, oldSize := pairs, size;
      ghost var contents := Contents();
      indices := new nat[4 * cap](_ => 0);
      pairs := new Entry<T>[2 * cap];
      cap, size, dist := 2 * cap, 0, [];
      var i := 0;
      assert contents[..0] == [];
      while i < oldSize
        invariant i <= oldSize && Valid() && fresh(indices) && fresh(pairs) && cap == 2 * old(cap)
        invariant oldPairs[..oldSize] == contents && size == i && Contents() == contents[..i]
      {
        NotBefore(contents, i);
        assert oldPairs[i] == contents[i];
        Insert(oldPairs[i].0, oldPairs[i].1);
        i := i + 1;
      }
      assert contents[..oldSize] == contents;
    }

    method Put(value: T, index: nat)
      requires Valid()
      modifies this, indices, pairs
      ensures Valid() && (indices == old(indices) || fresh(indices)) && (pairs == old(pairs) || fresh(pairs))
      ensures Contents() == AddTo(old(Contents()), value, index)
    {
      if size == cap { Grow(); }
      Insert(value, index);
    }

    method PutAll(list: seq<T>)
      requires Valid()
      modifies this, indices, pairs
      ensures Valid() && (indices == old(indices) || fresh(indices)) && (pairs == old(pairs) || fresh(pairs))
      ensures Contents() == AddAll(old(Contents()), list)
    {
      var i := 0;
      while i < |list|
        invariant i <= |list| && Valid()
        invariant (indices == old(indices) || fresh(indices)) && (pairs == old(pairs) || fresh(pairs))
        invariant Contents() == AddAll(old(Contents()), list[..i])
      {
        Put(list[i], i);
        assert list[..i + 1][..i] == list[..i];
        i := i + 1;
      }
      assert list[..|list|] == list;
    }

    /** Same size, and every value of this set is in the other one. */
    method Equals(that: Set<T>) returns (r: bool)
      requires Valid() && that.Valid()
      ensures r <==> forall v :: v in Keys() <==> v in that.Keys()
    {
      if size != that.size {
        SameElementsSameSize(Keys(), that.Keys());
        return false;
      }
      for i := 0 to size
        invariant forall k :: 0 <= k < i ==> Keys()[k] in that.Keys()
      {
        var has := that.Has(pairs[i].0);
        assert Keys()[i] == pairs[i].0;
        if !has { return false; }
      }
      InclusionAndSize(Keys(), that.Keys());
      return true;
    }
  }

  lemma SameElementsSameSize<T(!new)>(s: seq<T>, t: seq<T>)
    requires Distinct(s) && Distinct(t)
    ensures (forall v :: v in s <==> v in t) ==> |s| == |t|
  {
    DistinctSetSize(s);
    DistinctSetSize(t);
    if forall v :: v in s <==> v in t { assert Elements(s) == Elements(t); }
  }

  lemma InclusionAndSize<T(!new)>(s: seq<T>, t: seq<T>)
    requires Distinct(s) && Distinct(t) && |s| == |t| && forall k :: 0 <= k < |s| ==> s[k] in t
    ensures forall v :: v in s <==> v in t
  {
    DistinctSetSize(s);
    DistinctSetSize(t);
    SubsetOfSameSize(Elements(s), Elements(t));
    forall v ensures v in s <==> v in t { assert v in Elements(s) <==> v in Elements(t); }
  }

  lemma SubsetOfSameSize<T>(a: set<T>, b: set<T>)
    requires a <= b && |a| == |b|
    ensures a == b
  {
    assert b == a + (b - a);
    assert |b - a| == 0;
  }

  // ---------- operations on lists as sets ----------

  function Nub<T(==)>(list: seq<T>): seq<T> { Values(AddAll([], list)) }

  /** The elements of `s` that are in `t`, or those that are not. */
  function Keep<T(==)>(s: seq<T>, t: seq<T>, inside: bool): seq<T> {
    if s == [] then []
    else Keep(s[..|s| - 1], t, inside) + if (s[|s| - 1] in t) == inside then [s[|s| - 1]] else []
  }

  lemma NubElements<T>(list: seq<T>)
    ensures Distinct(Nub(list)) && forall v :: v in Nub(list) <==> v in list
  {
    var c := AddAll([], list);
    AddAllIsNub(list);
    forall v | v in Values(c) ensures v in list {
      var k :| 0 <= k < |c| && Values(c)[k] == v;
      assert list[c[k].1] == v;
    }
    forall j, k | 0 <= j < k < |c| ensures Values(c)[j] != Values(c)[k] {
      assert list[..c[k].1][c[j].1] == c[j].0;
    }
  }

  lemma {:induction false} KeepElements<T>(s: seq<T>, t: seq<T>, inside: bool)
    ensures forall v :: v in Keep(s, t, inside) <==> v in s && ((v in t) == inside)
    ensures Distinct(s) ==> Distinct(Keep(s, t, inside))
  {
    if s != [] {
      var init := s[..|s| - 1];
      KeepElements(init, t, inside);
      assert s == init + [s[|s| - 1]];
      if Distinct(s) { assert s[|s| - 1] !in init; }
    }
  }

  // ---------- in which order the operations answer ----------

  /** The list holds u, and holds no v up to there. */
  ghost predicate Sooner<T>(list: seq<T>, u: T, v: T) {
    exists k :: 0 <= k < |list| && list[k] == u && v !in list[..k + 1]
  }

  /** The elements stand in the order of their first occurrences in the list. */
  ghost predicate InOrderOf<T>(out: seq<T>, list: seq<T>) {
    forall i, j :: 0 <= i < j < |out| ==> Sooner(list, out[i], out[j])
  }

  lemma SoonerLater<T>(list: seq<T>, more: seq<T>, u: T, v: T)
    requires Sooner(list, u, v)
    ensures Sooner(list + more, u, v)
  {
    var k :| 0 <= k < |list| && list[k] == u && v !in list[..k + 1];
    assert (list + more)[..k + 1] == list[..k + 1];
  }

  lemma SoonerThanNew<T>(list: seq<T>, u: T, v: T)
    requires u in list && v !in list
    ensures Sooner(list + [v], u, v)
  {
    var k :| 0 <= k < |list| && list[k] == u;
    assert (list + [v])[..k + 1] == list[..k + 1];
  }

  /** Of two values one at most comes sooner. */
  lemma SoonerOneWay<T>(list: seq<T>, u: T, v: T)
    ensures Sooner(list, u, v) ==> u != v && !Sooner(list, v, u)
  {
    if Sooner(list, u, v) { SoonerNotLater(list, u, v); }
  }
  lemma SoonerNotLater<T>(list: seq<T>, u: T, v: T)
    requires Sooner(list, u, v)
    ensures u != v && !Sooner(list, v, u)
  {
    var k :| 0 <= k < |list| && list[k] == u && v !in list[..k + 1];
    assert list[..k + 1][k] == u;
  }

  /** The members and their order leave one list. */
  lemma {:induction false} OrderDecides<T(!new)>(s: seq<T>, t: seq<T>, list: seq<T>)
    requires InOrderOf(s, list) && InOrderOf(t, list) && forall v :: v in s <==> v in t
    ensures s == t
  {
    NoMembers(s);
    NoMembers(t);
    if s != [] && t != [] {
      assert s[0] in t && t[0] in s;
      var i :| 0 <= i < |t| && t[i] == s[0];
      var j :| 0 <= j < |s| && s[j] == t[0];
      SoonerOneWay(list, s[0], t[0]);
      forall v ensures v in s[1..] <==> v in t[1..] {
        if v in s[1..] {
          var k :| 0 < k < |s| && s[k] == v;
          SoonerOneWay(list, s[0], s[k]);
          assert v in t;
        }
        if v in t[1..] {
          var k :| 0 < k < |t| && t[k] == v;
          SoonerOneWay(list, t[0], t[k]);
          assert v in s;
        }
      }
      OrderDecides(s[1..], t[1..], list);
    }
  }
  lemma NoMembers<T(!new)>(s: seq<T>)
    ensures s == [] <==> forall v :: v !in s
  {
    if s != [] { assert s[0] in s; }
  }

  /** What is added to a collection stands in the order of the list it is added from. */
  lemma {:induction false} AddAllOrder<T(!new)>(c: seq<Entry<T>>, list: seq<T>)
    requires Distinct(Values(c))
    ensures |c| <= |AddAll(c, list)| && InOrderOf(Values(AddAll(c, list))[|c|..], list)
  {
    AddAllElements(c, list);
    if list != [] {
      var init, last := list[..|list| - 1], list[|list| - 1];
      assert list == init + [last];
      AddAllOrder(c, init);
      AddAllElements(c, init);
      var vs, vs' := Values(AddAll(c, init)), Values(AddAll(c, list));
      forall i, j | |c| <= i < j < |vs'| ensures Sooner(list, vs'[i], vs'[j]) {
        assert Values(c) == vs[..|c|];
        assert vs'[i] == vs[i];
        assert i < |vs| && vs[i] in init by { NewAreFromList(c, init, i); }
        if j < |vs| {
          assert vs[|c|..][i - |c|] == vs[i] && vs[|c|..][j - |c|] == vs[j];
          SoonerLater(init, [last], vs[i], vs[j]);
        } else {
          SoonerThanNew(init, vs[i], last);
        }
      }
    }
  }

  lemma NewAreFromList<T(!new)>(c: seq<Entry<T>>, list: seq<T>, i: nat)
    requires Distinct(Values(c)) && |c| <= i < |AddAll(c, list)|
    ensures Values(AddAll(c, list))[i] in list
  {
    AddAllElements(c, list);
    var vs := Values(AddAll(c, list));
    assert vs[i] in vs && Values(c) == vs[..|c|];
  }

  lemma NubOrder<T(!new)>(list: seq<T>)
    ensures InOrderOf(Nub(list), list)
  {
    AddAllOrder([], list);
    assert Nub(list)[0..] == Nub(list);
  }

  lemma {:induction false} KeepOrder<T(!new)>(s: seq<T>, t: seq<T>, inside: bool, list: seq<T>)
    requires InOrderOf(s, list)
    ensures InOrderOf(Keep(s, t, inside), list)
  {
    if s != [] {
      var init := s[..|s| - 1];
      KeepOrder(init, t, inside, list);
      KeepElements(init, t, inside);
      var kept := Keep(init, t, inside);
      forall i | 0 <= i < |kept| ensures Sooner(list, kept[i], s[|s| - 1]) {
        assert kept[i] in init;
        var k :| 0 <= k < |init| && init[k] == kept[i];
        assert s[k] == kept[i];
      }
    }
  }

  lemma KeptInOrder<T(!new)>(a: seq<T>, b: seq<T>, inside: bool)
    ensures InOrderOf(Keep(Nub(a), b, inside), a)
  {
    NubOrder(a);
    KeepOrder(Nub(a), b, inside, a);
  }

  /** The values of `a` kept or dropped by membership in `b`: the loops of `set_and` and `set_minus`. */
  method FilterBy<T(==, 0, !new)>(a: Set<T>, b: Set<T>, inside: bool) returns (out: seq<T>)
    requires a.Valid() && b.Valid()
    ensures out == Keep(a.Keys(), b.Keys(), inside)
  {
    out := [];
    var i := 0;
    while i < a.size
      invariant i <= a.size && out == Keep(a.Keys()[..i], b.Keys(), inside)
    {
      var v := a.pairs[i].0;
      var has := b.Has(v);
      assert a.Keys()[i] == v && a.Keys()[..i + 1][..i] == a.Keys()[..i];
      if has == inside { out := out + [v]; }
      i := i + 1;
    }
    assert a.Keys()[..a.size] == a.Keys();
  }

  lemma KeepSameMembers<T(!new)>(s: seq<T>, t: seq<T>, u: seq<T>, inside: bool)
    requires forall v :: v in t <==> v in u
    ensures Keep(s, t, inside) == Keep(s, u, inside)
  {
    if s != [] { KeepSameMembers(s[..|s| - 1], t, u, inside); }
  }

  method FromList<T(==, 0, !new)>(hash: Hash<T>, list: seq<T>) returns (s: Set<T>)
    ensures fresh(s) && fresh(s.indices) && fresh(s.pairs) && s.Valid() && s.Keys() == Nub(list) &&
      s.Contents() == AddAll([], list)
  {
    s := new Set<T>(hash, 32);
    s.PutAll(list);
  }

  method SetAnd<T(==, 0, !new)>(hash: Hash<T>, a: seq<T>, b: seq<T>) returns (out: seq<T>)
    ensures out == Keep(Nub(a), b, true)
    ensures Distinct(out) && forall v :: v in out <==> v in a && v in b
    ensures InOrderOf(out, a)
  {
    var setA := FromList(hash, a);
    var setB := FromList(hash, b);
    out := FilterBy(setA, setB, true);
    NubElements(a); NubElements(b);
    KeepSameMembers(Nub(a), Nub(b), b, true);
    KeepElements(Nub(a), b, true);
    KeptInOrder(a, b, true);
  }

  method SetMinus<T(==, 0, !new)>(hash: Hash<T>, a: seq<T>, b: seq<T>) returns (out: seq<T>)
    ensures out == Keep(Nub(a), b, false)
    ensures Distinct(out) && forall v :: v in out <==> v in a && v !in b
    ensures InOrderOf(out, a)
  {
    var setA := FromList(hash, a);
    var setB := FromList(hash, b);
    out := FilterBy(setA, setB, false);
    NubElements(a); NubElements(b);
    KeepSameMembers(Nub(a), Nub(b), b, false);
    KeepElements(Nub(a), b, false);
    KeptInOrder(a, b, false);
  }

  method SetXor<T(==, 0, !new)>(hash: Hash<T>, a: seq<T>, b: seq<T>) returns (out: seq<T>)
    ensures out == Keep(Nub(a), b, false) + Keep(Nub(b), a, false)
    ensures Distinct(out) && forall v :: v in out <==> ((v in a) != (v in b))
    ensures FirstThen(out, a, b)
  {
    var setA := FromList(hash, a);
    var setB := FromList(hash, b);
    var out1 := FilterBy(setA, setB, false);
    var out2 := FilterBy(setB, setA, false);
    NubElements(a); NubElements(b);
    KeepSameMembers(Nub(a), Nub(b), b, false);
    KeepSameMembers(Nub(b), Nub(a), a, false);
    out := out1 + out2;
    XorElements(a, b);
    XorOrder(a, b);
  }

  /** Those of `a` in its order, then those of `b` in its order. */
  ghost predicate FirstThen<T>(out: seq<T>, a: seq<T>, b: seq<T>) {
    exists n: nat :: n <= |out| && SplitsAt(out, a, b, n)
  }
  ghost predicate SplitsAt<T>(out: seq<T>, a: seq<T>, b: seq<T>, n: nat)
    requires n <= |out|
  {
    && InOrderOf(out[..n], a) && InOrderOf(out[n..], b)
    && (forall i :: 0 <= i < n ==> out[i] in a) && (forall i :: n <= i < |out| ==> out[i] !in a)
  }

  lemma XorOrder<T(!new)>(a: seq<T>, b: seq<T>)
    ensures FirstThen(Keep(Nub(a), b, false) + Keep(Nub(b), a, false), a, b)
  {
    KeptInOrder(a, b, false);
    KeptInOrder(b, a, false);
    NubElements(a);
    NubElements(b);
    KeepElements(Nub(a), b, false);
    KeepElements(Nub(b), a, false);
    var out1, out2 := Keep(Nub(a), b, false), Keep(Nub(b), a, false);
    var out := out1 + out2;
    assert out[..|out1|] == out1 && out[|out1|..] == out2;
    forall i | 0 <= i < |out1| ensures out[i] in a { assert out1[i] in out1; }
    forall i | |out1| <= i < |out| ensures out[i] !in a { assert out2[i - |out1|] in out2; }
    assert SplitsAt(out, a, b, |out1|);
  }

  lemma XorElements<T(!new)>(a: seq<T>, b: seq<T>)
    ensures var out := Keep(Nub(a), b, false) + Keep(Nub(b), a, false);
      Distinct(out) && forall v :: v in out <==> ((v in a) != (v in b))
  {
    NubElements(a);
    NubElements(b);
    KeepElements(Nub(a), b, false);
    KeepElements(Nub(b), a, false);
    var out1, out2 := Keep(Nub(a), b, false), Keep(Nub(b), a, false);
    forall i, j | 0 <= i < |out1| && 0 <= j < |out2| ensures out1[i] != out2[j] {
      assert out1[i] in out1 && out2[j] in out2;
    }
  }

  lemma {:induction false} AddAllElements<T(!new)>(c: seq<Entry<T>>, list: seq<T>)
    requires Distinct(Values(c))
    ensures Distinct(Values(AddAll(c, list)))
    ensures forall v :: v in Values(AddAll(c, list)) <==> v in Values(c) || v in list
    ensures |c| <= |AddAll(c, list)| && AddAll(c, list)[..|c|] == c
  {
    if list != [] {
      var init, last := list[..|list| - 1], list[|list| - 1];
      var d, d' := AddAll(c, init), AddAll(c, list);
      AddAllElements(c, init);
      assert list == init + [last];
      if d' != d { assert Values(d') == Values(d) + [last]; }
    }
  }

  method SetOr<T(==, 0, !new)>(hash: Hash<T>, a: seq<T>, b: seq<T>) returns (out: seq<T>)
    ensures out == Values(AddAll(AddAll([], a), b))
    ensures Distinct(out) && forall v :: v in out <==> v in a || v in b
    ensures |Nub(a)| <= |out| && out[..|Nub(a)|] == Nub(a)
    ensures FirstThen(out, a, b)
  {
    var s := FromList(hash, a);
    s.PutAll(b);
    out := s.Keys();
    NubElements(a);
    AddAllElements(AddAll([], a), b);
    OrOrder(a, b);
  }

  lemma OrOrder<T(!new)>(a: seq<T>, b: seq<T>)
    ensures FirstThen(Values(AddAll(AddAll([], a), b)), a, b)
  {
    var c := AddAll([], a);
    var out := Values(AddAll(c, b));
    NubElements(a);
    NubOrder(a);
    AddAllElements(c, b);
    AddAllOrder(c, b);
    assert out[..|c|] == Nub(a);
    forall i | 0 <= i < |c| ensures out[i] in a { assert Nub(a)[i] in Nub(a); }
    forall i | |c| <= i < |out| ensures out[i] !in a { assert out[i] !in out[..|c|]; }
    assert SplitsAt(out, a, b, |c|);
  }

  /** The loop of `subset`. */
  method AllIn<T(==, 0, !new)>(a: Set<T>, b: Set<T>) returns (r: bool)
    requires a.Valid() && b.Valid()
    ensures r <==> forall v :: v in a.Keys() ==> v in b.Keys()
  {
    for i := 0 to a.size
      invariant forall k :: 0 <= k < i ==> a.Keys()[k] in b.Keys()
    {
      var has := b.Has(a.pairs[i].0);
      assert a.Keys()[i] == a.pairs[i].0;
      if !has { return false; }
    }
    return true;
  }

  method Subset<T(==, 0, !new)>(hash: Hash<T>, a: seq<T>, b: seq<T>) returns (r: bool)
    ensures r <==> forall v :: v in a ==> v in b
  {
    var setA := FromList(hash, a);
    var setB := FromList(hash, b);
    r := AllIn(setA, setB);
    NubElements(a); NubElements(b);
    SameMembers(setA.Keys(), setB.Keys(), a, b);
  }

  method SetEquals<T(==, 0, !new)>(hash: Hash<T>, a: seq<T>, b: seq<T>) returns (r: bool)
    ensures r <==> forall v :: v in a <==> v in b
  {
    var setA := FromList(hash, a);
    var setB := FromList(hash, b);
    r := setA.Equals(setB);
    NubElements(a); NubElements(b);
    SameMembers(setA.Keys(), setB.Keys(), a, b);
  }

  lemma SameMembers<T(!new)>(s: seq<T>, t: seq<T>, a: seq<T>, b: seq<T>)
    requires (forall v :: v in s <==> v in a) && (forall v :: v in t <==> v in b)
    ensures (forall v :: v in s <==> v in t) <==> (forall v :: v in a <==> v in b)
    ensures (forall v :: v in s ==> v in t) <==> (forall v :: v in a ==> v in b)
  {}

  /** The index of a value in a list: its first occurrence, or -1. */
  method IndexInList<T(==, 0, !new)>(hash: Hash<T>, list: seq<T>, value: T) returns (r: int)
    ensures if value in list then 0 <= r < |list| && list[r] == value && value !in list[..r] else r == -1
  {
    var s := FromList(hash, list);
    NubElements(list);
    AddAllIsNub(list);
    r := s.IndexOf(value);
  }

  // ---------- key maps of forms ----------

  ghost predicate InOrder(order: seq<nat>, size: nat) {
    Distinct(order) && forall r :: 0 <= r < |order| ==> order[r] < size
  }

  /** The keys in the order in which they were put. */
  ghost function PutKeys<T>(keys: seq<T>, order: seq<nat>): (ks: seq<T>)
    requires InOrder(order, |keys|)
    ensures |ks| == |order|
  {
    seq(|order|, r requires 0 <= r < |order| => keys[order[r]])
  }

  /** The index table, and what it would be if keys were numbered in the order in which they were put. */
  ghost predicate Renumbered(indices: seq<nat>, order: seq<nat>, ranks: seq<nat>) {
    |ranks| == |indices| && forall i :: 0 <= i < |ranks| ==>
      ranks[i] <= |order| && indices[i] == if ranks[i] == 0 then 0 else order[ranks[i] - 1] + 1
  }

  lemma RoomForOne(order: seq<nat>, index: nat, size: nat)
    requires InOrder(order, size) && index !in order && index < size
    ensures |order| < size
  {
    var more := order + [index];
    DistinctSetSize(more);
    SmallSet(Elements(more), size);
  }

  lemma OneMore<T>(keys: seq<T>, order: seq<nat>, index: nat, key: T)
    requires InOrder(order, |keys|) && index !in order && index < |keys|
    ensures InOrder(order + [index], |keys|) &&
      PutKeys(keys[index := key], order + [index]) == PutKeys(keys, order) + [key]
  {
    forall r | 0 <= r < |order| ensures keys[index := key][order[r]] == keys[order[r]] { assert order[r] != index; }
  }

  lemma OneMoreSlot(indices: seq<nat>, order: seq<nat>, ranks: seq<nat>, i: nat, index: nat)
    requires Renumbered(indices, order, ranks) && i < |indices|
    ensures Renumbered(indices[i := index + 1], order + [index], ranks[i := |order| + 1])
  {}

  ghost predicate MapOk<T>(indices: seq<nat>, keys: seq<T>, hash: Hash<T>, order: seq<nat>, ranks: seq<nat>,
          dist: seq<nat>) {
    && InOrder(order, |keys|) && 2 * |keys| <= |indices|
    && Renumbered(indices, order, ranks) && Indexed(ranks, PutKeys(keys, order), hash, dist)
  }

  /** The index at which the key was put first. */
  ghost predicate FirstPut<T>(keys: seq<T>, order: seq<nat>, key: T, index: nat)
    requires InOrder(order, |keys|)
  {
    exists r: nat :: IsLowest(PutKeys(keys, order), key, r) && index == order[r]
  }

  /** What the slot of the probe after d unsuccessful ones tells. */
  lemma SlotTells<T>(indices: seq<nat>, keys: seq<T>, hash: Hash<T>, order: seq<nat>, ranks: seq<nat>, dist: seq<nat>,
          key: T, d: nat)
    requires MapOk(indices, keys, hash, order, ranks, dist) && Searched(ranks, PutKeys(keys, order), hash, key, d)
    ensures d < |indices| && var at := indices[Probe(Home(hash, key, |indices|), d, |indices|)];
      if at == 0 then key !in PutKeys(keys, order)
      else at <= |keys| &&
           if keys[at - 1] == key then key in PutKeys(keys, order) && FirstPut(keys, order, key, at - 1)
           else Searched(ranks, PutKeys(keys, order), hash, key, d + 1)
  {
    var ks, i := PutKeys(keys, order), Probe(Home(hash, key, |indices|), d, |indices|);
    ProbeTells(ranks, ks, hash, dist, key, d);
    if ranks[i] > 0 {
      assert indices[i] - 1 == order[ranks[i] - 1] && ks[ranks[i] - 1] == keys[indices[i] - 1];
      if ks[ranks[i] - 1] != key { SearchOn(ranks, ks, hash, key, d); }
    }
  }

  lemma PutOk<T>(indices: seq<nat>, keys: seq<T>, hash: Hash<T>, order: seq<nat>, ranks: seq<nat>, dist: seq<nat>,
                 index: nat, key: T, i: nat, d: nat)
    requires MapOk(indices, keys, hash, order, ranks, dist) && index !in order && index < |keys|
    requires i < |indices| && d < |indices| && ranks[i] == 0 && i == Probe(Home(hash, key, |indices|), d, |indices|)
    requires forall e: nat :: e < d ==> ranks[Probe(Home(hash, key, |indices|), e, |indices|)] > 0
    ensures MapOk(indices[i := index + 1], keys[index := key], hash, order + [index], ranks[i := |order| + 1],
      dist + [d])
    ensures PutKeys(keys[index := key], order + [index]) == PutKeys(keys, order) + [key]
  {
    RoomForOne(order, index, |keys|);
    OneMore(keys, order, index, key);
    OneMoreSlot(indices, order, ranks, i, index);
    StoreKeepsIndexed(ranks, PutKeys(keys, order), hash, dist, key, d);
  }

  class TableMap<T(==, 0, !new)> {
    const hash: Hash<T>
    var indices: array<nat>
    var keys: array<T>
    ghost var order: seq<nat>     // the indices that were put, one after the other
    ghost var ranks: seq<nat>
    ghost var dist: seq<nat>

    ghost predicate Valid()
      reads this, indices, keys
    {
      MapOk(indices[..], keys[..], hash, order, ranks, dist)
    }

    constructor (hash: Hash<T>, size: nat)
      requires size > 0
      ensures Valid() && fresh(indices) && fresh(keys) && order == [] && keys.Length == size && this.hash == hash
    {
      this.hash := hash;
      indices := new nat[2 * NextPowerOfTwo(size)](_ => 0);
      keys := new T[size];
      order, dist := [], [];
      ranks := seq(2 * NextPowerOfTwo(size), _ => 0);
    }

    /** The probing loop of `put`. */
    method FindEmpty(key: T) returns (i: nat, ghost d: nat)
      requires indices.Length > 0 && Renumbered(indices[..], order, ranks) &&
        exists s :: 0 <= s < |ranks| && ranks[s] == 0
      ensures i < indices.Length && d < indices.Length && ranks[i] == 0
      ensures var home := Home(hash, key, indices.Length);
        i == Probe(home, d, indices.Length) && forall e: nat :: e < d ==> ranks[Probe(home, e, indices.Length)] > 0
    {
      var n := indices.Length;
      i := Home(hash, key, n);
      ghost var home := Home(hash, key, n);
      ghost var s :| 0 <= s < n && ranks[s] == 0;
      ghost var z: nat := if s >= home then s - home else s + n - home;
      assert Probe(home, z, n) == s && indices[..][s] == 0;
      d := 0;
      while indices[i] != 0
        invariant d <= z && i == Probe(home, d, n)
        invariant forall e: nat :: e < d ==> ranks[Probe(home, e, n)] > 0
        decreases z - d
      {
        assert indices[..][i] == indices[i];
        ProbeNext(home, d, n);
        i := Next(i, n);
        d := d + 1;
      }
      assert indices[..][i] == 0;
    }

    /** `put`, for an index that was not put before. */
    method Put(index: nat, key: T)
      requires Valid() && index < keys.Length && index !in order
      modifies this, indices, keys
      ensures Valid() && indices == old(indices) && keys == old(keys)
      ensures order == old(order) + [index] && PutKeys(keys[..], order) == old(PutKeys(keys[..], order)) + [key]
    {
      ghost var table, all := indices[..], keys[..];
      RoomForOne(order, index, keys.Length);
      ghost var s := SomeSlotIsEmpty(ranks, PutKeys(all, order), hash, dist);
      keys[index] := key;
      assert keys[..] == all[index := key] && indices[..] == table;
      var i, d := FindEmpty(key);
      PutOk(table, all, hash, order, ranks, dist, index, key, i, d);
      var stored: nat := index + 1;
      indices[i] := stored;
      assert indices[..] == table[i := stored];
      ghost var rank: nat := |order| + 1;
      order, ranks, dist := order + [index], ranks[i := rank], dist + [d];
    }

    /** `getIndex`: the index at which the key was put first. */
    method GetIndex(key: T) returns (found: bool, index: nat)
      requires Valid()
      ensures found <==> key in PutKeys(keys[..], order)
      ensures found ==> FirstPut(keys[..], order, key, index)
    {
      var n := indices.Length;
      var i := Home(hash, key, n);
      ghost var d, table, all, home := 0, indices[..], keys[..], Home(hash, key, n);
      index := 0;
      while true
        invariant Searched(ranks, PutKeys(all, order), hash, key, d) && i == Probe(home, d, n)
        decreases n - d
      {
        SlotTells(table, all, hash, order, ranks, dist, key, d);
        var at := indices[i];
        assert table[i] == at;
        if at == 0 { return false, 0; }
        index := at - 1;
        if key == keys[index] { return true, index; }
        ProbeNext(home, d, n);
        i := Next(i, n);
        d := d + 1;
      }
    }
  }
}
