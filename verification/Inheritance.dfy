/**
  Inheritance of forms from several parents.  A form's chain of tables is a sequence; two chains
  are merged so that the order of both survives, or the merge fails.
 */
module Inheritance {
  import opened Basics

  // ---------- orders ----------

  /** `x` comes before `y` in `s`: in a chain of tables, `x` shadows `y`. */
  ghost predicate Before<T>(s: seq<T>, x: T, y: T) {
    exists i, j :: 0 <= i < j < |s| && s[i] == x && s[j] == y
  }

  /** Some two tables occur in opposite orders. */
  ghost predicate Conflict<T(!new)>(a: seq<T>, b: seq<T>) {
    exists x, y :: Before(a, x, y) && Before(b, y, x)
  }

  ghost predicate KeepsOrder<T(!new)>(a: seq<T>, c: seq<T>) {
    forall x, y :: Before(a, x, y) ==> Before(c, x, y)
  }

  /** What a merge of two chains must be. */
  ghost predicate IsMerge<T(!new)>(a: seq<T>, b: seq<T>, c: seq<T>) {
    && Distinct(c) && (forall x :: x in c <==> x in a || x in b)
    && KeepsOrder(a, c) && KeepsOrder(b, c)
  }

  // ---------- the merge as a function ----------

  /**
    `Envir_merge2`: takes the head of `a` unless it comes later in `b`, else the head of `b` unless it
    comes later in `a`.
   */
  function Merge<T(==)>(a: seq<T>, b: seq<T>): Option<seq<T>>
    decreases |a| + |b|
  {
    if a == [] then Some(b)
    else if b == [] then Some(a)
    else if a[0] == b[0] then Cons(a[0], Merge(a[1..], b[1..]))
    else if a[0] !in b[1..] then Cons(a[0], Merge(a[1..], b))
    else if b[0] !in a[1..] then Cons(b[0], Merge(a, b[1..]))
    else None
  }

  function Cons<T>(x: T, r: Option<seq<T>>): Option<seq<T>> {
    if r.Some? then Some([x] + r.value) else None
  }

  lemma BeforeInTail<T>(s: seq<T>, x: T, y: T)
    requires s != []
    ensures Before(s, x, y) <==> (s[0] == x && y in s[1..]) || Before(s[1..], x, y)
  {
    if Before(s, x, y) {
      var i, j :| 0 <= i < j < |s| && s[i] == x && s[j] == y;
      if i == 0 { assert s[1..][j-1] == y; } else { assert s[1..][i-1] == x && s[1..][j-1] == y; }
    }
    if s[0] == x && y in s[1..] {
      var j :| 0 <= j < |s[1..]| && s[1..][j] == y;
      assert s[0] == x && s[j+1] == y;
    }
    if Before(s[1..], x, y) {
      var i, j :| 0 <= i < j < |s[1..]| && s[1..][i] == x && s[1..][j] == y;
      assert s[i+1] == x && s[j+1] == y;
    }
  }

  lemma NotBothWays<T>(s: seq<T>, x: T, y: T)
    requires Distinct(s)
    ensures !(Before(s, x, y) && Before(s, y, x))
  {}

  lemma DistinctTail<T>(s: seq<T>)
    requires Distinct(s) && s != []
    ensures Distinct(s[1..]) && s[0] !in s[1..]
  {}

  /** Putting `x` in front of a merge of the rests. */
  lemma ConsIsMerge<T(!new)>(x: T, a: seq<T>, b: seq<T>, a': seq<T>, b': seq<T>, c: seq<T>)
    requires Distinct(a) && Distinct(b) && IsMerge(a', b', c)
    requires (a == [x] + a') || (a == a' && x !in a)
    requires (b == [x] + b') || (b == b' && x !in b)
    requires a == [x] + a' || b == [x] + b'
    ensures IsMerge(a, b, [x] + c)
  {
    var c' := [x] + c;
    assert x !in c by {
      if a != a' { assert a[0] == x && a[1..] == a'; DistinctTail(a); }
      if b != b' { assert b[0] == x && b[1..] == b'; DistinctTail(b); }
    }
    assert c'[1..] == c;
    ConsKeepsOrder(x, a, a', c);
    ConsKeepsOrder(x, b, b', c);
  }

  lemma ConsKeepsOrder<T(!new)>(x: T, a: seq<T>, a': seq<T>, c: seq<T>)
    requires KeepsOrder(a', c) && (forall y :: y in a' ==> y in c)
    requires a == [x] + a' || a == a'
    ensures KeepsOrder(a, [x] + c)
  {
    var c' := [x] + c;
    assert c'[0] == x && c'[1..] == c;
    forall y, z | Before(a, y, z) ensures Before(c', y, z) {
      BeforeInTail(c', y, z);
      if a != a' {
        assert a[0] == x && a[1..] == a';
        BeforeInTail(a, y, z);
      }
    }
  }

  lemma ConflictInTails<T(!new)>(a: seq<T>, b: seq<T>, a': seq<T>, b': seq<T>)
    requires Conflict(a', b') && (a == a' || (a != [] && a[1..] == a')) && (b == b' || (b != [] && b[1..] == b'))
    ensures Conflict(a, b)
  {
    var x, y :| Before(a', x, y) && Before(b', y, x);
    if a != a' { BeforeInTail(a, x, y); }
    if b != b' { BeforeInTail(b, y, x); }
  }

  /** The merge fails exactly when the chains conflict; otherwise it is a merge. */
  lemma {:induction false} MergeIsExact<T(!new)>(a: seq<T>, b: seq<T>)
    requires Distinct(a) && Distinct(b)
    ensures Merge(a, b).None? <==> Conflict(a, b)
    ensures Merge(a, b).Some? ==> IsMerge(a, b, Merge(a, b).value)
    decreases |a| + |b|
  {
    if a == [] || b == [] {
    } else {
      DistinctTail(a);
      DistinctTail(b);
      if a[0] == b[0] {
        MergeStep(a, b, a[1..], b[1..], a[0]);
      } else if a[0] !in b[1..] {
        assert a[0] !in b by { assert b == [b[0]] + b[1..]; }
        MergeStep(a, b, a[1..], b, a[0]);
      } else if b[0] !in a[1..] {
        assert b[0] !in a by { assert a == [a[0]] + a[1..]; }
        MergeStep(a, b, a, b[1..], b[0]);
      } else {
        BeforeInTail(a, a[0], b[0]);
        BeforeInTail(b, b[0], a[0]);
      }
    }
    if Merge(a, b).Some? { MergedMeansNoConflict(a, b, Merge(a, b).value); }
  }

  lemma MergedMeansNoConflict<T(!new)>(a: seq<T>, b: seq<T>, c: seq<T>)
    requires IsMerge(a, b, c)
    ensures !Conflict(a, b)
  {
    forall x, y | Before(a, x, y) ensures !Before(b, y, x) { NotBothWays(c, x, y); }
  }

  lemma {:induction false} MergeStep<T(!new)>(a: seq<T>, b: seq<T>, a': seq<T>, b': seq<T>, x: T)
    requires Distinct(a) && Distinct(b) && Distinct(a') && Distinct(b') && |a'| + |b'| < |a| + |b|
    requires (a == [x] + a') || (a == a' && x !in a)
    requires (b == [x] + b') || (b == b' && x !in b)
    ensures Cons(x, Merge(a', b')).Some? ==> IsMerge(a, b, Cons(x, Merge(a', b')).value)
    ensures Cons(x, Merge(a', b')).None? ==> Conflict(a, b)
    decreases |a| + |b|, 0
  {
    MergeIsExact(a', b');
    if Merge(a', b').Some? {
      ConsIsMerge(x, a, b, a', b', Merge(a', b').value);
    } else {
      ConflictInTails(a, b, a', b');
    }
  }

  // ---------- which of the merges it is ----------

  /** `b` has y before something that `a` has at x or before it. */
  ghost predicate Forced<T(!new)>(a: seq<T>, b: seq<T>, y: T, x: T) {
    exists z :: Before(b, y, z) && z in a && (z == x || Before(a, z, x))
  }

  /** What only `b` has comes before an element of `a` only where it must. */
  ghost predicate PrefersLeft<T(!new)>(a: seq<T>, b: seq<T>, c: seq<T>) {
    forall x, y :: x in a && y in b && y !in a ==> (Before(c, y, x) <==> Forced(a, b, y, x))
  }

  lemma BeforeInOrder<T(!new)>(c: seq<T>, x: T, y: T, z: T)
    requires Distinct(c) && Before(c, x, y) && Before(c, y, z)
    ensures Before(c, x, z)
  {
    var i, j :| 0 <= i < j < |c| && c[i] == x && c[j] == y;
    var k, l :| 0 <= k < l < |c| && c[k] == y && c[l] == z;
    assert j == k;
  }

  lemma ForcedInTails<T(!new)>(a: seq<T>, b: seq<T>, a': seq<T>, b': seq<T>, y: T, x: T)
    requires Forced(a', b', y, x)
    requires (a == a' || (a != [] && a[1..] == a')) && (b == b' || (b != [] && b[1..] == b'))
    ensures Forced(a, b, y, x)
  {
    var z :| Before(b', y, z) && z in a' && (z == x || Before(a', z, x));
    if a != a' { BeforeInTail(a, z, x); }
    if b != b' { BeforeInTail(b, y, z); }
  }

  lemma {:induction false} OnlyForced<T(!new)>(a: seq<T>, b: seq<T>, x: T, y: T)
    requires Distinct(a) && Distinct(b) && Merge(a, b).Some? && x in a && y in b && y !in a
    requires Before(Merge(a, b).value, y, x)
    ensures Forced(a, b, y, x)
    decreases |a| + |b|
  {
    var c := Merge(a, b).value;
    MergeIsExact(a, b);
    DistinctTail(a);
    DistinctTail(b);
    if a[0] == b[0] {
      AfterHead(c, a[0], Merge(a[1..], b[1..]).value, y, x);
      OnlyForced(a[1..], b[1..], x, y);
      ForcedInTails(a, b, a[1..], b[1..], y, x);
    } else if a[0] !in b[1..] {
      AfterHead(c, a[0], Merge(a[1..], b).value, y, x);
      OnlyForced(a[1..], b, x, y);
      ForcedInTails(a, b, a[1..], b, y, x);
    } else if y == b[0] {
      BeforeInTail(b, y, a[0]);
      HeadFirst(a, x);
    } else {
      AfterHead(c, b[0], Merge(a, b[1..]).value, y, x);
      OnlyForced(a, b[1..], x, y);
      ForcedInTails(a, b, a, b[1..], y, x);
    }
  }

  lemma AfterHead<T(!new)>(c: seq<T>, head: T, rest: seq<T>, y: T, x: T)
    requires Distinct(c) && c == [head] + rest && Before(c, y, x) && y != head
    ensures Before(rest, y, x) && x != head
  {
    assert c[1..] == rest;
    BeforeInTail(c, y, x);
  }

  lemma HeadFirst<T(!new)>(s: seq<T>, x: T)
    requires s != []
    ensures x in s && x != s[0] ==> Before(s, s[0], x)
  {
    BeforeInTail(s, s[0], x);
  }

  lemma NoMembers<T(!new)>(s: seq<T>)
    ensures s == [] <==> forall x :: x !in s
  {
    if s != [] { assert s[0] in s; }
  }

  /** Of all merges it is the one that prefers the first chain. */
  lemma MergePrefersLeft<T(!new)>(a: seq<T>, b: seq<T>)
    requires Distinct(a) && Distinct(b) && Merge(a, b).Some?
    ensures PrefersLeft(a, b, Merge(a, b).value)
  {
    MergeIsExact(a, b);
    var c := Merge(a, b).value;
    forall x, y | x in a && y in b && y !in a ensures Before(c, y, x) <==> Forced(a, b, y, x) {
      if Before(c, y, x) { OnlyForced(a, b, x, y); }
      if Forced(a, b, y, x) {
        var z :| Before(b, y, z) && z in a && (z == x || Before(a, z, x));
        if z != x { BeforeInOrder(c, y, z, x); }
      }
    }
  }

  lemma BeforeEither<T(!new)>(s: seq<T>, x: T, y: T)
    requires Distinct(s) && x in s && y in s && x != y
    ensures Before(s, x, y) || Before(s, y, x)
  {
    var i :| 0 <= i < |s| && s[i] == x;
    var j :| 0 <= j < |s| && s[j] == y;
  }

  /** Two merges that prefer the first chain have the same order. */
  lemma SameOrder<T(!new)>(a: seq<T>, b: seq<T>, c: seq<T>, d: seq<T>, x: T, y: T)
    requires Distinct(a) && Distinct(b) && IsMerge(a, b, c) && IsMerge(a, b, d)
    requires PrefersLeft(a, b, c) && PrefersLeft(a, b, d) && Before(c, x, y)
    ensures Before(d, x, y)
  {
    NotBothWays(c, x, y);
    assert x in c && y in c && x != y;
    BeforeEither(d, x, y);
    if x in a && y in a {
      BeforeEither(a, x, y);
    } else if x in b && y in b {
      BeforeEither(b, x, y);
    }
  }

  /** So there is no other such merge. */
  lemma {:induction false} OrderIsAll<T(!new)>(c: seq<T>, d: seq<T>)
    requires Distinct(c) && Distinct(d) && (forall x :: x in c <==> x in d)
    requires forall x, y :: Before(c, x, y) ==> Before(d, x, y)
    ensures c == d
  {
    NoMembers(c);
    NoMembers(d);
    if c != [] {
      assert c[0] in c && d[0] in d;
      HeadFirst(c, d[0]);
      HeadFirst(d, c[0]);
      NotBothWays(d, c[0], d[0]);
      DistinctTail(c);
      DistinctTail(d);
      forall x ensures x in c[1..] <==> x in d[1..] {
        assert x in c[1..] <==> x in c && x != c[0];
        assert x in d[1..] <==> x in d && x != d[0];
      }
      forall x, y | Before(c[1..], x, y) ensures Before(d[1..], x, y) {
        BeforeInTail(c, x, y);
        BeforeInTail(d, x, y);
      }
      OrderIsAll(c[1..], d[1..]);
    }
  }

  lemma MergeIsUnique<T(!new)>(a: seq<T>, b: seq<T>, c: seq<T>)
    requires Distinct(a) && Distinct(b) && IsMerge(a, b, c) && PrefersLeft(a, b, c)
    ensures Merge(a, b) == Some(c)
  {
    MergeIsExact(a, b);
    MergedMeansNoConflict(a, b, c);
    MergePrefersLeft(a, b);
    var m := Merge(a, b).value;
    forall x, y | Before(c, x, y) ensures Before(m, x, y) { SameOrder(a, b, c, m, x, y); }
    OrderIsAll(c, m);
  }

  // ---------- sizes ----------

  lemma {:induction false} DistinctSize<T>(s: seq<T>, all: set<T>)
    requires Distinct(s) && Elements(s) <= all
    ensures |s| <= |all| && (Elements(s) == all ==> |s| == |all|)
  {
    if s != [] {
      assert s[0] in Elements(s) && s[0] !in s[1..];
      DistinctSize(s[1..], all - {s[0]});
      assert Elements(s) == Elements(s[1..]) + {s[0]};
    }
  }

  // ---------- on the buffers ----------

  /** `hasItem`: a search in part of a buffer. */
  method HasItem<T(==)>(a: array<T>, from: nat, size: nat, item: T) returns (found: bool)
    requires from <= size <= a.Length
    ensures found <==> item in a[from..size]
  {
    for i := from to size
      invariant item !in a[from..i]
    {
      if a[i] == item { assert a[from..size][i - from] == item; return true; }
    }
    return false;
  }

  ghost predicate Remaining<T>(whole: Option<seq<T>>, done: seq<T>, rest: Option<seq<T>>) {
    whole == if rest.Some? then Some(done + rest.value) else None
  }

  lemma MoveOne<T>(whole: Option<seq<T>>, done: seq<T>, x: T, rest: Option<seq<T>>)
    requires Remaining(whole, done, Cons(x, rest))
    ensures Remaining(whole, done + [x], rest)
  {
    if rest.Some? { assert done + ([x] + rest.value) == done + [x] + rest.value; }
  }

  /** What has been written is what has been passed in either chain, and nothing of it is still to come. */
  ghost predicate Passed<T(!new)>(a: seq<T>, i: nat, b: seq<T>, j: nat, done: seq<T>)
    requires i <= |a| && j <= |b|
  {
    Distinct(done) && (forall x :: x in done ==> x in a[..i] || x in b[..j]) &&
    (forall x :: x in a[i..] ==> x !in done) && (forall x :: x in b[j..] ==> x !in done)
  }

  /** Where the loop stands: what is written, and what a merge of the rests would add to it. */
  ghost predicate Merging<T(!new)>(a: seq<T>, i: nat, b: seq<T>, j: nat, done: seq<T>, whole: Option<seq<T>>) {
    i <= |a| && j <= |b| && Distinct(a) && Distinct(b) && Passed(a, i, b, j, done) &&
      Remaining(whole, done, Merge(a[i..], b[j..]))
  }

  /** Which head comes next. */
  datatype Turn = Both | Left | Right | Stuck

  function TurnOf<T(==)>(a: seq<T>, i: nat, b: seq<T>, j: nat): Turn
    requires i < |a| && j < |b|
  {
    if a[i] == b[j] then Both else if a[i] !in b[j + 1..] then Left else if b[j] !in a[i + 1..] then Right else Stuck
  }

  /** One turn of the loop; there is room for one more table. */
  lemma MergeTurn<T(!new)>(a: seq<T>, i: nat, b: seq<T>, j: nat, done: seq<T>, whole: Option<seq<T>>)
    requires Merging(a, i, b, j, done, whole) && i < |a| && j < |b|
    ensures |done| < |Elements(a) + Elements(b)|
    ensures match TurnOf(a, i, b, j)
      case Both => Merging(a, i + 1, b, j + 1, done + [a[i]], whole)
      case Left => Merging(a, i + 1, b, j, done + [a[i]], whole)
      case Right => Merging(a, i, b, j + 1, done + [b[j]], whole)
      case Stuck => whole.None?
  {
    SplitAt(a, i);
    SplitAt(b, j);
    assert a[i] in a[i..];
    DistinctSize(done + [a[i]], Elements(a) + Elements(b));
    match TurnOf(a, i, b, j)
    case Both =>
      PassBoth(a, i, b, j, done);
      MoveOne(whole, done, a[i], Merge(a[i + 1..], b[j + 1..]));
    case Left =>
      PassLeft(a, i, b, j, done);
      MoveOne(whole, done, a[i], Merge(a[i + 1..], b[j..]));
    case Right =>
      PassRight(a, i, b, j, done);
      MoveOne(whole, done, b[j], Merge(a[i..], b[j + 1..]));
    case Stuck =>
  }

  /** The tests of the loop. */
  method NextTurn<T(==)>(a: array<T>, i: nat, asize: nat, b: array<T>, j: nat, bsize: nat) returns (t: Turn)
    requires i < asize <= a.Length && j < bsize <= b.Length
    ensures t == TurnOf(a[..asize], i, b[..bsize], j)
  {
    if a[i] == b[j] { return Both; }
    assert a[..asize][i + 1..] == a[i + 1..asize] && b[..bsize][j + 1..] == b[j + 1..bsize];
    var inB := HasItem(b, j + 1, bsize, a[i]);
    if !inB { return Left; }
    var inA := HasItem(a, i + 1, asize, b[j]);
    return if inA then Stuck else Right;
  }

  method Put<T>(c: array<T>, size: nat, x: T)
    requires size < c.Length
    modifies c
    ensures c[..size + 1] == old(c[..size]) + [x]
  {
    c[size] := x;
  }

  /** The loop of `Envir_merge2` that runs while neither chain is used up. */
  method MergeHeads<T(!new, ==)>(a: array<T>, asize: nat, b: array<T>, bsize: nat, c: array<T>,
          ghost whole: Option<seq<T>>)
      returns (ok: bool, i: nat, j: nat, csize: nat)
    requires asize <= a.Length && bsize <= b.Length && c != a && c != b
    requires |Elements(a[..asize]) + Elements(b[..bsize])| <= c.Length
    requires Merging(a[..asize], 0, b[..bsize], 0, [], whole)
    modifies c
    ensures !ok ==> whole.None?
    ensures ok ==> i <= asize && j <= bsize && csize <= c.Length && (i == asize || j == bsize)
    ensures ok ==> Merging(a[..asize], i, b[..bsize], j, c[..csize], whole)
  {
    i, j, csize, ok := 0, 0, 0, true;
    ghost var us, them := a[..asize], b[..bsize];
    assert c[..0] == [];
    while i < asize && j < bsize
      invariant csize <= c.Length && a[..asize] == us && b[..bsize] == them
      invariant Merging(us, i, them, j, c[..csize], whole)
      decreases asize + bsize - i - j
    {
      ghost var done := c[..csize];
      MergeTurn(us, i, them, j, done, whole);
      var turn := NextTurn(a, i, asize, b, j, bsize);
      if turn == Stuck { return false, i, j, csize; }
      var x := if turn == Right then b[j] else a[i];
      assert x == if turn == Right then them[j] else us[i];
      Put(c, csize, x);
      i, j := if turn == Right then i else i + 1, if turn == Left then j else j + 1;
      csize := csize + 1;
      assert c[..csize] == done + [x];
    }
  }

  /** When a chain is used up, the rest of the other one completes the merge. */
  lemma MergeRests<T(!new)>(a: seq<T>, i: nat, b: seq<T>, j: nat, done: seq<T>, whole: Option<seq<T>>)
    requires Merging(a, i, b, j, done, whole) && (i == |a| || j == |b|)
    ensures whole == Some(done + a[i..] + b[j..])
  {
    var left, right := a[i..], b[j..];
    assert Merge(left, right) == Some(left + right) by {
      if left == [] { assert left + right == right; } else { assert left + right == left; }
    }
    assert done + (left + right) == done + left + right;
  }

  lemma MergedSize<T(!new)>(a: seq<T>, b: seq<T>)
    requires Distinct(a) && Distinct(b) && Merge(a, b).Some?
    ensures |Merge(a, b).value| == |Elements(a) + Elements(b)|
  {
    MergeIsExact(a, b);
    var c := Merge(a, b).value;
    assert Elements(c) == Elements(a) + Elements(b) by {
      forall x ensures x in Elements(c) <==> x in Elements(a) + Elements(b) { assert x in c <==> x in a || x in b; }
    }
    DistinctSize(c, Elements(c));
  }

  lemma MergingStarts<T(!new)>(a: seq<T>, b: seq<T>, whole: Option<seq<T>>)
    requires Distinct(a) && Distinct(b) && whole == Merge(a, b)
    ensures Merging(a, 0, b, 0, [], whole)
  {
    assert a[0..] == a && b[0..] == b && (whole.Some? ==> [] + whole.value == whole.value);
  }

  lemma SplitAt<T>(a: seq<T>, i: nat)
    requires Distinct(a) && i < |a|
    ensures a[i..] == [a[i]] + a[i + 1..] && a[..i + 1] == a[..i] + [a[i]] && a[i] !in a[i + 1..]
  {}

  lemma PassBoth<T(!new)>(a: seq<T>, i: nat, b: seq<T>, j: nat, done: seq<T>)
    requires Distinct(a) && Distinct(b) && i < |a| && j < |b| && a[i] == b[j] && Passed(a, i, b, j, done)
    ensures Passed(a, i + 1, b, j + 1, done + [a[i]])
  {
    SplitAt(a, i);
    SplitAt(b, j);
    var left, right, after := a[i + 1..], b[j + 1..], done + [a[i]];
    assert a[i] in a[i..];
    forall x | x in left ensures x !in after { assert x in a[i..]; }
    forall x | x in right ensures x !in after { assert x in b[j..]; }
    forall x | x in after ensures x in a[..i + 1] || x in b[..j + 1] { assert x in done || x == a[i]; }
  }

  lemma PassLeft<T(!new)>(a: seq<T>, i: nat, b: seq<T>, j: nat, done: seq<T>)
    requires Distinct(a) && i < |a| && j <= |b| && a[i] !in b[j..] && Passed(a, i, b, j, done)
    ensures Passed(a, i + 1, b, j, done + [a[i]])
  {
    SplitAt(a, i);
    var left, after := a[i + 1..], done + [a[i]];
    assert a[i] in a[i..];
    forall x | x in left ensures x !in after { assert x in a[i..]; }
    forall x | x in after ensures x in a[..i + 1] || x in b[..j] { assert x in done || x == a[i]; }
  }

  lemma PassRight<T(!new)>(a: seq<T>, i: nat, b: seq<T>, j: nat, done: seq<T>)
    requires Distinct(b) && i <= |a| && j < |b| && b[j] !in a[i..] && Passed(a, i, b, j, done)
    ensures Passed(a, i, b, j + 1, done + [b[j]])
  {
    SplitAt(b, j);
    var right, after := b[j + 1..], done + [b[j]];
    assert b[j] in b[j..];
    forall x | x in right ensures x !in after { assert x in b[j..]; }
    forall x | x in after ensures x in a[..i] || x in b[..j + 1] { assert x in done || x == b[j]; }
  }

  /** Copies the rest of one chain. */
  method CopyRest<T>(a: array<T>, from: nat, size: nat, c: array<T>, start: nat) returns (csize: nat)
    requires from <= size <= a.Length && start + (size - from) <= c.Length && a != c
    modifies c
    ensures csize == start + (size - from) && c[..csize] == old(c[..start]) + a[from..size]
  {
    csize := start;
    var i := from;
    while i < size
      invariant from <= i <= size && csize == start + (i - from)
      invariant c[..csize] == old(c[..start]) + a[from..i]
    {
      c[csize] := a[i];
      i, csize := i + 1, csize + 1;
    }
  }

  /** `Envir_merge2`: the buffer must have room for the tables of both chains, counted once. */
  method Merge2<T(!new, ==)>(a: array<T>, asize: nat, b: array<T>, bsize: nat, c: array<T>)
    returns (ok: bool, csize: nat)
    requires asize <= a.Length && bsize <= b.Length && c != a && c != b
    requires |Elements(a[..asize]) + Elements(b[..bsize])| <= c.Length
    requires Distinct(a[..asize]) && Distinct(b[..bsize])
    modifies c
    ensures ok <==> !Conflict(a[..asize], b[..bsize])
    ensures ok ==> csize == |Elements(a[..asize]) + Elements(b[..bsize])| && IsMerge(a[..asize], b[..bsize], c[..csize])
    ensures ok ==> PrefersLeft(a[..asize], b[..bsize], c[..csize])
    ensures ok ==> Merge(a[..asize], b[..bsize]) == Some(c[..csize])
    ensures !ok ==> Merge(a[..asize], b[..bsize]).None?
  {
    ghost var us, them, whole := a[..asize], b[..bsize], Merge(a[..asize], b[..bsize]);
    MergingStarts(us, them, whole);
    MergeIsExact(us, them);
    var i, j;
    ok, i, j, csize := MergeHeads(a, asize, b, bsize, c, whole);
    if ok {
      MergeRests(us, i, them, j, c[..csize], whole);
      MergedSize(us, them);
      MergePrefersLeft(us, them);
      assert us[i..] == a[i..asize] && them[j..] == b[j..bsize];
      csize := CopyRest(a, i, asize, c, csize);
      csize := CopyRest(b, j, bsize, c, csize);
    }
  }

  // ---------- several parents ----------

  const MAX_SIZE := 1024

  function AllElements<T(==)>(chains: seq<seq<T>>): set<T> { set i, x | 0 <= i < |chains| && x in chains[i] :: x }

  /** Parents from the left, each merged into the result so far. */
  function MergeAll<T(==)>(chains: seq<seq<T>>): Option<seq<T>>
    requires chains != []
  {
    if |chains| == 1 then Some(chains[0])
    else
      var before := MergeAll(chains[..|chains| - 1]);
      if before.None? then None else Merge(before.value, chains[|chains| - 1])
  }

  lemma {:induction false} MergeAllKeepsOrders<T(!new)>(chains: seq<seq<T>>)
    requires chains != [] && (forall i :: 0 <= i < |chains| ==> Distinct(chains[i])) && MergeAll(chains).Some?
    ensures var c := MergeAll(chains).value;
      && Distinct(c)
      && (forall i :: 0 <= i < |chains| ==> KeepsOrder(chains[i], c) && forall x :: x in chains[i] ==> x in c)
      && (forall x :: x in c ==> exists i :: 0 <= i < |chains| && x in chains[i])
  {
    var n := |chains| - 1;
    if n > 0 {
      MergeAllKeepsOrders(chains[..n]);
      var before, c := MergeAll(chains[..n]).value, MergeAll(chains).value;
      MergeIsExact(before, chains[n]);
      forall i | 0 <= i < |chains| ensures KeepsOrder(chains[i], c) && forall x :: x in chains[i] ==> x in c {
        if i < n { assert chains[..n][i] == chains[i]; }
      }
      forall x | x in c ensures exists i :: 0 <= i < |chains| && x in chains[i] {
        if x in before {
          var i :| 0 <= i < n && x in chains[..n][i];
          assert x in chains[i];
        }
      }
    }
  }

  /** The chains before i can be merged, and the result conflicts with chain i. */
  ghost predicate FailsAt<T(!new)>(chains: seq<seq<T>>, i: nat) {
    0 < i < |chains| && MergeAll(chains[..i]).Some? && Conflict(MergeAll(chains[..i]).value, chains[i])
  }

  /** Several parents cannot be linearized exactly if, at some point, the next one conflicts with the result so far. */
  lemma {:induction false} MergeAllFailsIff<T(!new)>(chains: seq<seq<T>>)
    requires chains != [] && forall i :: 0 <= i < |chains| ==> Distinct(chains[i])
    ensures MergeAll(chains).None? <==> exists i: nat :: FailsAt(chains, i)
  {
    var n := |chains| - 1;
    if n > 0 {
      var prefix := chains[..n];
      MergeAllFailsIff(prefix);
      forall i: nat | i < n ensures FailsAt(prefix, i) == FailsAt(chains, i) { assert prefix[..i] == chains[..i]; }
      if MergeAll(prefix).Some? {
        MergeAllKeepsOrders(prefix);
        MergeIsExact(MergeAll(prefix).value, chains[n]);
        assert FailsAt(chains, n) <==> Conflict(MergeAll(prefix).value, chains[n]);
      }
    }
  }

  /** Linearization can fail although some order suits all the parents: it is committed to the order it chose first. */
  lemma CommonOrderCanBeMissed<T(!new)>(x: T, y: T)
    requires x != y
    ensures var chains := [[x], [y], [y, x]];
      MergeAll(chains).None? && forall i :: 0 <= i < |chains| ==> KeepsOrder(chains[i], [y, x])
  {
    var two := [[x], [y]];
    assert [[x], [y], [y, x]][..2] == two && two[..1] == [[x]];
    assert [x][1..] == [] && [y][1..] == [] && [y, x][1..] == [x] && [x, y][1..] == [y] && [x] + [y] == [x, y];
    assert MergeAll(two) == Merge([x], [y]) == Cons(x, Merge([], [y])) == Some([x, y]);
    assert Merge([x, y], [y, x]).None?;
  }

  /** The first table of a chain that binds the key: `Form::get`. */
  function Finds<T>(chain: seq<T>, binds: T -> bool): Option<T> {
    if chain == [] then None else if binds(chain[0]) then Some(chain[0]) else Finds(chain[1..], binds)
  }

  lemma {:induction false} FindsFirst<T>(chain: seq<T>, binds: T -> bool)
    ensures match Finds(chain, binds)
      case Some(t) => binds(t) && t in chain && forall u :: u in chain && binds(u) && u != t ==> Before(chain, t, u)
      case None => forall u :: u in chain ==> !binds(u)
  {
    if chain != [] {
      FindsFirst(chain[1..], binds);
      var r := Finds(chain, binds);
      if r.Some? {
        forall u | u in chain && binds(u) && u != r.value ensures Before(chain, r.value, u) {
          BeforeInTail(chain, r.value, u);
          assert chain == [chain[0]] + chain[1..];
        }
      }
    }
  }

  /** If the table that answers a lookup comes from some parent, it is the one that this parent alone would use. */
  lemma ParentsAnswer<T(!new)>(chains: seq<seq<T>>, binds: T -> bool, i: nat)
    requires i < |chains| && (forall k :: 0 <= k < |chains| ==> Distinct(chains[k])) && MergeAll(chains).Some?
    requires Finds(MergeAll(chains).value, binds).Some? && Finds(MergeAll(chains).value, binds).value in chains[i]
    ensures Finds(chains[i], binds) == Finds(MergeAll(chains).value, binds)
  {
    var c := MergeAll(chains).value;
    var t := Finds(c, binds).value;
    MergeAllKeepsOrders(chains);
    FindsFirst(c, binds);
    FindsFirst(chains[i], binds);
    var u := Finds(chains[i], binds);
    assert binds(t);
    if u.value != t {
      assert Before(chains[i], u.value, t);
      assert u.value in c && Before(c, t, u.value);
      NotBothWays(c, t, u.value);
    }
  }

  /** What fits into a buffer, of which the last place is never used. */
  function Cut<T>(list: seq<T>): seq<T> { if |list| < MAX_SIZE then list else list[..MAX_SIZE - 1] }
  function CutAll<T>(chains: seq<seq<T>>): (r: seq<seq<T>>)
    ensures |r| == |chains|
  {
    seq(|chains|, i requires 0 <= i < |chains| => Cut(chains[i]))
  }

  /** `Envir_toVec`. */
  method ToVec<T>(list: seq<T>, vec: array<T>) returns (size: nat)
    requires vec.Length == MAX_SIZE
    modifies vec
    ensures size == |Cut(list)| && vec[..size] == Cut(list)
  {
    size := 0;
    while size < |list| && size < MAX_SIZE - 1
      invariant size <= |list| && size < MAX_SIZE && vec[..size] == list[..size]
    {
      vec[size] := list[size];
      size := size + 1;
    }
    assert list[..|list|] == list;
  }

  /** Reads the next chain into one buffer and merges it with the result so far into another. */
  method MergeNext<T(!new, ==)>(ghost chains: seq<seq<T>>, ghost i: nat, chain: seq<T>, a: array<T>, asize: nat,
                                b: array<T>, c: array<T>)
    returns (ok: bool, csize: nat)
    requires 0 < i < |chains| && chains[i] == Cut(chain) && forall k :: 0 <= k < |chains| ==> Distinct(chains[k])
    requires |AllElements(chains)| <= MAX_SIZE == b.Length == c.Length && a != b && b != c && a != c
    requires asize <= a.Length && MergeAll(chains[..i]) == Some(a[..asize])
    modifies b, c
    ensures ok ==> csize <= c.Length && MergeAll(chains[..i + 1]) == Some(c[..csize])
    ensures !ok ==> MergeAll(chains).None?
  {
    NextMerge(chains, i, a[..asize]);
    var bsize := ToVec(chain, b);
    ok, csize := Merge2(a, asize, b, bsize, c);
    if ok { assert csize == |c[..csize]|; }
  }

  /**
    `linearizeInheritance`: the buffers of result and input are rotated after each merge.  All tables of
    two or more parents, counted once, must fit into a buffer.
   */
  method Linearize<T(!new, ==, 0)>(chains: seq<seq<T>>) returns (r: Option<seq<T>>)
    requires |chains| >= 2 ==> |AllElements(CutAll(chains))| <= MAX_SIZE
    requires forall i :: 0 <= i < |chains| ==> Distinct(chains[i])
    ensures r == if chains == [] then Some([]) else if |chains| == 1 then Some(chains[0]) else MergeAll(CutAll(chains))
  {
    if chains == [] { return Some([]); }
    if |chains| == 1 { return Some(chains[0]); }
    ghost var cut := CutAll(chains);
    var ta, tb, tc := new T[MAX_SIZE], new T[MAX_SIZE], new T[MAX_SIZE];
    var asize := ToVec(chains[0], ta);
    assert cut[..1] == [cut[0]];
    var i := 1;
    while i < |chains|
      invariant 1 <= i <= |chains| && ta.Length == tb.Length == tc.Length == MAX_SIZE
      invariant ta != tb && tb != tc && ta != tc && fresh(ta) && fresh(tb) && fresh(tc)
      invariant 0 <= asize <= ta.Length && MergeAll(cut[..i]) == Some(ta[..asize])
    {
      var ok, csize := MergeNext(cut, i, chains[i], ta, asize, tb, tc);
      if !ok { return None; }
      ta, tc := tc, ta;
      asize := csize;
      i := i + 1;
    }
    assert cut[..|cut|] == cut;
    r := Some(ta[..asize]);
  }

  /** The next chain: there is room for it, and merging it decides the next prefix. */
  lemma NextMerge<T(!new)>(chains: seq<seq<T>>, i: nat, done: seq<T>)
    requires 0 < i < |chains| && (forall k :: 0 <= k < |chains| ==> Distinct(chains[k])) &&
      MergeAll(chains[..i]) == Some(done)
    ensures Distinct(done) && |Elements(done) + Elements(chains[i])| <= |AllElements(chains)|
    ensures MergeAll(chains[..i + 1]) == Merge(done, chains[i])
    ensures Merge(done, chains[i]).None? ==> MergeAll(chains).None?
  {
    assert chains[..i + 1][..i] == chains[..i];
    RoomFor(chains, i, done);
    if Merge(done, chains[i]).None? { FailsFrom(chains, i + 1); }
  }

  /** The tables merged so far and those of the next chain are among all of them. */
  lemma RoomFor<T(!new)>(chains: seq<seq<T>>, i: nat, done: seq<T>)
    requires 0 < i < |chains| && (forall k :: 0 <= k < |chains| ==> Distinct(chains[k])) &&
      MergeAll(chains[..i]) == Some(done)
    ensures Distinct(done) && |Elements(done) + Elements(chains[i])| <= |AllElements(chains)|
  {
    MergeAllKeepsOrders(chains[..i]);
    var some, all := Elements(done) + Elements(chains[i]), AllElements(chains);
    forall x | x in some ensures x in all {
      if x in done {
        var k :| 0 <= k < i && x in chains[..i][k];
        assert x in chains[k];
      }
    }
    SubsetSize(some, all);
  }

  lemma {:induction false} SubsetSize<T>(a: set<T>, b: set<T>)
    requires a <= b
    ensures |a| <= |b|
  {
    if x :| x in a { SubsetSize(a - {x}, b - {x}); }
  }

  lemma {:induction false} FailsFrom<T>(chains: seq<seq<T>>, i: nat)
    requires 0 < i <= |chains| && MergeAll(chains[..i]).None?
    ensures MergeAll(chains).None?
    decreases |chains|
  {
    if i < |chains| {
      assert chains[..|chains| - 1][..i] == chains[..i];
      FailsFrom(chains[..|chains| - 1], i);
    } else {
      assert chains[..i] == chains;
    }
  }
}
