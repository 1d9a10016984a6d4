/**
  Structural comparison.  Lists are chains of blocks walked by cursors; the answer depends only on
  the elements, never on how they are cut into blocks, and its sign is a total order whose zero is
  structural equality.
 */
module Comparison {
  type byte = x: int | 0 <= x < 256

  // a string is a sequence of bytes; a forced finite list is a chain of blocks, of values or of numbers
  datatype Chain<T> = Nil | Node(items: seq<T>, next: Chain<T>)
  datatype Value = Real(r: real) | Str(s: seq<byte>) | VList(vs: Chain<Value>) | ZList(zs: Chain<real>)

  // ---------- the order, on values without blocks ----------

  /** A number, or a sequence with the rank of its type name: String, VList, ZList. */
  datatype Plain = Num(r: real) | Seq(rank: nat, items: seq<Plain>)

  function Order(a: Plain, b: Plain): (c: int)
    ensures -1 <= c <= 1
    decreases a
  {
    match (a, b)
    case (Num(x), Num(y)) => if x < y then -1 else if x > y then 1 else 0
    case (Num(_), Seq(_, _)) => -1
    case (Seq(_, _), Num(_)) => 1
    case (Seq(i, s), Seq(j, t)) => if i < j then -1 else if i > j then 1 else Lexical(s, t)
  }
  function Lexical(s: seq<Plain>, t: seq<Plain>): (c: int)
    ensures -1 <= c <= 1
    decreases s
  {
    if s == [] then (if t == [] then 0 else -1)
    else if t == [] then 1
    else
      var c := Order(s[0], t[0]);
      if c != 0 then c else Lexical(s[1..], t[1..])
  }

  /** Zero exactly on equal values. */
  lemma {:induction false} ZeroIffEqual(a: Plain, b: Plain)
    ensures Order(a, b) == 0 <==> a == b
    decreases a
  {
    if a.Seq? && b.Seq? { LexicalZero(a.items, b.items); }
  }
  lemma {:induction false} LexicalZero(s: seq<Plain>, t: seq<Plain>)
    ensures Lexical(s, t) == 0 <==> s == t
    decreases s
  {
    if s != [] && t != [] {
      ZeroIffEqual(s[0], t[0]);
      LexicalZero(s[1..], t[1..]);
      assert s == [s[0]] + s[1..] && t == [t[0]] + t[1..];
    }
  }

  lemma {:induction false} Antisymmetric(a: Plain, b: Plain)
    ensures Order(b, a) == -Order(a, b)
    decreases a
  {
    if a.Seq? && b.Seq? { LexicalAntisymmetric(a.items, b.items); }
  }
  lemma {:induction false} LexicalAntisymmetric(s: seq<Plain>, t: seq<Plain>)
    ensures Lexical(t, s) == -Lexical(s, t)
    decreases s
  {
    if s != [] && t != [] {
      Antisymmetric(s[0], t[0]);
      LexicalAntisymmetric(s[1..], t[1..]);
    }
  }

  lemma {:induction false} Transitive(a: Plain, b: Plain, c: Plain)
    requires Order(a, b) <= 0 && Order(b, c) <= 0
    ensures Order(a, c) <= 0
    decreases a
  {
    if a.Seq? && b.Seq? && c.Seq? && a.rank == b.rank == c.rank { LexicalTransitive(a.items, b.items, c.items); }
  }
  lemma {:induction false} LexicalTransitive(s: seq<Plain>, t: seq<Plain>, u: seq<Plain>)
    requires Lexical(s, t) <= 0 && Lexical(t, u) <= 0
    ensures Lexical(s, u) <= 0
    decreases s
  {
    if s != [] && t != [] && u != [] {
      Transitive(s[0], t[0], u[0]);
      ZeroIffEqual(s[0], t[0]);
      ZeroIffEqual(t[0], u[0]);
      ZeroIffEqual(s[0], u[0]);
      Antisymmetric(s[0], t[0]);
      if s[0] == u[0] && s[0] == t[0] { LexicalTransitive(s[1..], t[1..], u[1..]); }
    }
  }

  // ---------- values and their blocks ----------

  function All<T>(c: Chain<T>): seq<T> { if c.Nil? then [] else c.items + All(c.next) }

  function Nums(s: seq<real>): (r: seq<Plain>)
    ensures |r| == |s|
  {
    seq(|s|, i requires 0 <= i < |s| => Num(s[i]))
  }
  function Bytes(s: seq<byte>): (r: seq<Plain>)
    ensures |r| == |s|
  {
    seq(|s|, i requires 0 <= i < |s| => Num(s[i] as real))
  }

  function Flat(v: Value): Plain
    decreases v
  {
    match v
    case Real(x) => Num(x)
    case Str(s) => Seq(0, Bytes(s))
    case VList(vs) => Seq(1, FlatChain(vs))
    case ZList(zs) => Seq(2, Nums(All(zs)))
  }
  function FlatChain(c: Chain<Value>): seq<Plain>
    decreases c
  {
    if c.Nil? then [] else FlatAll(c.items) + FlatChain(c.next)
  }
  function FlatAll(vs: seq<Value>): (r: seq<Plain>)
    ensures |r| == |vs| && forall i :: 0 <= i < |vs| ==> r[i] == Flat(vs[i])
    decreases vs
  {
    if vs == [] then [] else [Flat(vs[0])] + FlatAll(vs[1..])
  }

  /** Only the elements count, not how they are cut into blocks. */
  lemma {:induction false} BlocksDoNotMatter(c: Chain<Value>)
    ensures FlatChain(c) == FlatAll(All(c))
  {
    if c.Node? { BlocksDoNotMatter(c.next); }
  }

  // ---------- what the order means, on the values themselves ----------

  /** The same kind, and the same elements. */
  ghost predicate Alike(a: Value, b: Value)
    decreases Flat(a)
  {
    match (a, b)
    case (Real(x), Real(y)) => x == y
    case (Str(s), Str(t)) => s == t
    case (ZList(c), ZList(d)) => All(c) == All(d)
    case (VList(c), VList(d)) =>
      BlocksDoNotMatter(c);
      |All(c)| == |All(d)| && forall i :: 0 <= i < |All(c)| ==> Alike(All(c)[i], All(d)[i])
    case _ => false
  }

  /** String before VList before ZList. */
  predicate KindPrecedes(a: Value, b: Value) { (a.Str? && (b.VList? || b.ZList?)) || (a.VList? && b.ZList?) }

  /**
    Smaller numbers come first, numbers before objects, objects in the order of their kinds; of two
    sequences of a kind the first difference decides, and where there is none the shorter comes first.
   */
  ghost predicate Precedes(a: Value, b: Value)
    decreases Flat(a), 1
  {
    match (a, b)
    case (Real(x), Real(y)) => x < y
    case (Real(_), _) => true
    case (_, Real(_)) => false
    case (Str(s), Str(t)) => exists k :: 0 <= k <= |s| && ByteDecides(s, t, k)
    case (ZList(c), ZList(d)) => exists k :: 0 <= k <= |All(c)| && NumberDecides(All(c), All(d), k)
    case (VList(c), VList(d)) =>
      BlocksDoNotMatter(c);
      exists k :: 0 <= k <= |All(c)| && ElementDecides(All(c), All(d), k)
    case _ => KindPrecedes(a, b)
  }

  /** Up to k the sequences are the same; there the first one ends, or has the smaller element. */
  predicate ByteDecides(s: seq<byte>, t: seq<byte>, k: nat)
    requires k <= |s|
  {
    k < |t| && s[..k] == t[..k] && (k < |s| ==> s[k] < t[k])
  }
  predicate NumberDecides(s: seq<real>, t: seq<real>, k: nat)
    requires k <= |s|
  {
    k < |t| && s[..k] == t[..k] && (k < |s| ==> s[k] < t[k])
  }
  ghost predicate ElementDecides(s: seq<Value>, t: seq<Value>, k: nat)
    requires k <= |s|
    decreases Seq(1, FlatAll(s)), 0
  {
    k < |t| && (forall i :: 0 <= i < k ==> Alike(s[i], t[i])) && (k < |s| ==> Precedes(s[k], t[k]))
  }
  predicate ItemDecides(s: seq<Plain>, t: seq<Plain>, k: nat)
    requires k <= |s|
  {
    k < |t| && s[..k] == t[..k] && (k < |s| ==> Order(s[k], t[k]) < 0)
  }

  lemma {:induction false} FirstDifference(s: seq<Plain>, t: seq<Plain>)
    ensures Lexical(s, t) < 0 <==> exists k :: 0 <= k <= |s| && ItemDecides(s, t, k)
  {
    if s == [] {
      assert t != [] ==> ItemDecides(s, t, 0);
    } else if t != [] {
      var s1, t1 := s[1..], t[1..];
      FirstDifference(s1, t1);
      ZeroIffEqual(s[0], t[0]);
      if Order(s[0], t[0]) < 0 { assert ItemDecides(s, t, 0); }
      if k :| 0 <= k <= |s1| && ItemDecides(s1, t1, k) && s[0] == t[0] {
        assert s[..k + 1] == [s[0]] + s1[..k] && t[..k + 1] == [t[0]] + t1[..k];
        assert ItemDecides(s, t, k + 1);
      }
      if k :| 0 <= k <= |s| && ItemDecides(s, t, k) && k > 0 {
        assert s[..k][1..] == s1[..k - 1] && t[..k][1..] == t1[..k - 1] && s[0] == s[..k][0] == t[..k][0] == t[0];
        assert ItemDecides(s1, t1, k - 1);
      }
    }
  }

  lemma BytesDecide(s: seq<byte>, t: seq<byte>, k: nat)
    requires k <= |s|
    ensures ItemDecides(Bytes(s), Bytes(t), k) <==> ByteDecides(s, t, k)
  {
    if k < |t| {
      if Bytes(s)[..k] == Bytes(t)[..k] {
        forall i | 0 <= i < k ensures s[i] == t[i] { assert Bytes(s)[..k][i] == Bytes(t)[..k][i]; }
      }
      if s[..k] == t[..k] {
        forall i | 0 <= i < k ensures Bytes(s)[i] == Bytes(t)[i] { assert s[..k][i] == t[..k][i]; }
      }
    }
  }

  lemma NumbersDecide(s: seq<real>, t: seq<real>, k: nat)
    requires k <= |s|
    ensures ItemDecides(Nums(s), Nums(t), k) <==> NumberDecides(s, t, k)
  {
    if k < |t| {
      if Nums(s)[..k] == Nums(t)[..k] {
        forall i | 0 <= i < k ensures s[i] == t[i] { assert Nums(s)[..k][i] == Nums(t)[..k][i]; }
      }
      if s[..k] == t[..k] {
        forall i | 0 <= i < k ensures Nums(s)[i] == Nums(t)[i] { assert s[..k][i] == t[..k][i]; }
      }
    }
  }

  /** Equal without their blocks means alike. */
  lemma {:induction false} FlatMeans(a: Value, b: Value)
    ensures Flat(a) == Flat(b) <==> Alike(a, b)
    decreases Flat(a)
  {
    match (a, b)
    case (Str(s), Str(t)) => BytesInjective(s, t);
    case (ZList(c), ZList(d)) => NumsInjective(All(c), All(d));
    case (VList(c), VList(d)) =>
      BlocksDoNotMatter(c);
      BlocksDoNotMatter(d);
      var s, t := All(c), All(d);
      forall i | 0 <= i < |s| && i < |t| ensures Flat(s[i]) == Flat(t[i]) <==> Alike(s[i], t[i]) {
        FlatMeans(s[i], t[i]);
      }
      if FlatAll(s) == FlatAll(t) {
        forall i | 0 <= i < |s| ensures Alike(s[i], t[i]) { assert FlatAll(s)[i] == FlatAll(t)[i]; }
      }
    case _ =>
  }

  lemma BytesInjective(s: seq<byte>, t: seq<byte>)
    ensures Bytes(s) == Bytes(t) <==> s == t
  {
    if Bytes(s) == Bytes(t) {
      forall q | 0 <= q < |s| ensures s[q] == t[q] { assert Bytes(s)[q] == Bytes(t)[q]; }
    }
  }

  lemma NumsInjective(s: seq<real>, t: seq<real>)
    ensures Nums(s) == Nums(t) <==> s == t
  {
    if Nums(s) == Nums(t) {
      forall q | 0 <= q < |s| ensures s[q] == t[q] { assert Nums(s)[q] == Nums(t)[q]; }
    }
  }

  /** The order of the values without their blocks is that of the values. */
  lemma {:induction false} OrderMeans(a: Value, b: Value)
    ensures Order(Flat(a), Flat(b)) < 0 <==> Precedes(a, b)
    decreases Flat(a)
  {
    match (a, b)
    case (Str(s), Str(t)) =>
      FirstDifference(Bytes(s), Bytes(t));
      forall k | 0 <= k <= |s| ensures ItemDecides(Bytes(s), Bytes(t), k) <==> ByteDecides(s, t, k) {
        BytesDecide(s, t, k);
      }
    case (ZList(c), ZList(d)) =>
      FirstDifference(Nums(All(c)), Nums(All(d)));
      forall k | 0 <= k <= |All(c)|
        ensures ItemDecides(Nums(All(c)), Nums(All(d)), k) <==> NumberDecides(All(c), All(d), k) {
        NumbersDecide(All(c), All(d), k);
      }
    case (VList(c), VList(d)) => ListOrderMeans(a, b);
    case _ =>
  }

  lemma {:induction false} ListOrderMeans(a: Value, b: Value)
    requires a.VList? && b.VList?
    ensures Order(Flat(a), Flat(b)) < 0 <==> Precedes(a, b)
    decreases Flat(a), 0
  {
    BlocksDoNotMatter(a.vs);
    BlocksDoNotMatter(b.vs);
    var s, t := All(a.vs), All(b.vs);
    FirstDifference(FlatAll(s), FlatAll(t));
    forall i | 0 <= i < |s| && i < |t| ensures SameMeaning(s[i], t[i]) {
      FlatMeans(s[i], t[i]);
      OrderMeans(s[i], t[i]);
    }
    forall k | 0 <= k <= |s| ensures ItemDecides(FlatAll(s), FlatAll(t), k) <==> ElementDecides(s, t, k) {
      ElementsDecide(s, t, k);
    }
    assert Order(Flat(a), Flat(b)) == Lexical(FlatAll(s), FlatAll(t));
  }

  ghost predicate SameMeaning(a: Value, b: Value) {
    (Flat(a) == Flat(b) <==> Alike(a, b)) && (Order(Flat(a), Flat(b)) < 0 <==> Precedes(a, b))
  }

  lemma ElementsDecide(s: seq<Value>, t: seq<Value>, k: nat)
    requires k <= |s|
    requires forall i :: 0 <= i < |s| && i < |t| ==> SameMeaning(s[i], t[i])
    ensures ItemDecides(FlatAll(s), FlatAll(t), k) <==> ElementDecides(s, t, k)
  {
    if k < |t| {
      if FlatAll(s)[..k] == FlatAll(t)[..k] {
        forall i | 0 <= i < k ensures Alike(s[i], t[i]) { assert FlatAll(s)[..k][i] == FlatAll(t)[..k][i]; }
      }
      if forall i :: 0 <= i < k ==> Alike(s[i], t[i]) {
        forall i | 0 <= i < k ensures FlatAll(s)[i] == FlatAll(t)[i] { assert Alike(s[i], t[i]); }
      }
    }
  }

  /** Of two values either one precedes the other or they are alike, never two of these. */
  lemma PrecedesDecides(a: Value, b: Value)
    ensures Alike(a, b) <==> !Precedes(a, b) && !Precedes(b, a)
    ensures !(Precedes(a, b) && Precedes(b, a))
  {
    OrderMeans(a, b);
    OrderMeans(b, a);
    FlatMeans(a, b);
    Antisymmetric(Flat(a), Flat(b));
    ZeroIffEqual(Flat(a), Flat(b));
  }

  lemma PrecedesIsTransitive(a: Value, b: Value, c: Value)
    requires Precedes(a, b) && Precedes(b, c)
    ensures Precedes(a, c)
  {
    OrderMeans(a, b);
    OrderMeans(b, c);
    OrderMeans(a, c);
    Transitive(Flat(a), Flat(b), Flat(c));
    ZeroIffEqual(Flat(a), Flat(c));
    Antisymmetric(Flat(b), Flat(c));
  }

  // ---------- cursors ----------

  datatype Cursor<T> = Cursor(node: Chain<T>, off: nat)

  /** The cursor stands before element k of the sequence. */
  predicate Before<T(==)>(c: Cursor<T>, s: seq<T>, k: nat) {
    k <= |s| && match c.node
      case Nil => k == |s|
      case Node(items, next) => c.off <= |items| && s[k..] == items[c.off..] + All(next)
  }

  // find the next element, passing over empty blocks
  method Settle<T(==)>(c: Cursor<T>, ghost s: seq<T>, ghost k: nat) returns (d: Cursor<T>)
    requires Before(c, s, k)
    ensures Before(d, s, k) &&
      if k == |s| then d.node.Nil? else d.node.Node? && d.off < |d.node.items| && d.node.items[d.off] == s[k]
  {
    d := c;
    while d.node.Node? && d.off == |d.node.items|
      invariant Before(d, s, k)
      decreases d.node
    {
      d := Cursor(d.node.next, 0);
    }
    assert d.node.Node? ==> s[k..][0] == s[k];
  }

  // In::advance
  method Advance<T(==)>(c: Cursor<T>, n: nat, ghost s: seq<T>, ghost k: nat) returns (d: Cursor<T>)
    requires Before(c, s, k) && c.node.Node? && c.off + n <= |c.node.items|
    ensures Before(d, s, k + n)
  {
    assert s[k + n..] == s[k..][n..];
    assert c.node.items[c.off + n..] == c.node.items[c.off..][n..];
    d := if c.off + n == |c.node.items| then Cursor(c.node.next, 0) else Cursor(c.node, c.off + n);
  }

  // ---------- comparison ----------

  predicate SameSign(r: int, c: int) { (r < 0 <==> c < 0) && (r > 0 <==> c > 0) }

  /** Comparing from the second elements on, once the first ones are equal. */
  lemma LexicalStep(s: seq<Plain>, t: seq<Plain>)
    requires s != [] && t != []
    ensures Lexical(s, t) == if Order(s[0], t[0]) != 0 then Order(s[0], t[0]) else Lexical(s[1..], t[1..])
  {}

  // strcmp
  method StrCmp(s: seq<byte>, t: seq<byte>) returns (r: int)
    ensures SameSign(r, Lexical(Bytes(s), Bytes(t)))
  {
    var i := 0;
    while i < |s| && i < |t|
      invariant 0 <= i <= |s| && i <= |t| && Lexical(Bytes(s), Bytes(t)) == Lexical(Bytes(s)[i..], Bytes(t)[i..])
    {
      if s[i] != t[i] { return (s[i] as int) - (t[i] as int); }
      LexicalStep(Bytes(s)[i..], Bytes(t)[i..]);
      i := i + 1;
    }
    r := if i < |s| then 1 else if i < |t| then -1 else 0;
  }

  function Rank(v: Value): nat { match v case Real(_) => 0 case Str(_) => 0 case VList(_) => 1 case ZList(_) => 2 }

  // Object::Compare, for an object that is not a number: by type name, String before VList before ZList
  function ObjectCompare(a: Value, b: Value): int {
    if b.Real? then 1 else if Rank(a) < Rank(b) then -1 else if Rank(a) > Rank(b) then 1 else 0
  }

  method CompareReals(x: real, y: real) returns (r: int)
    ensures r == Order(Num(x), Num(y))
  {
    r := if x < y then -1 else if x > y then 1 else 0;
  }

  method Compare(a: Value, b: Value) returns (r: int)
    ensures r < 0 <==> Precedes(a, b)
    ensures r > 0 <==> Precedes(b, a)
    ensures r == 0 <==> Alike(a, b)
    ensures SameSign(r, Order(Flat(a), Flat(b)))
    decreases Flat(a), 1
  {
    ZeroIffEqual(Flat(a), Flat(b));
    FlatMeans(a, b);
    OrderMeans(a, b);
    OrderMeans(b, a);
    Antisymmetric(Flat(a), Flat(b));
    match a
    case Real(x) => if b.Real? { r := CompareReals(x, b.r); } else { r := -1; }
    case Str(s) => if b.Str? { r := StrCmp(s, b.s); } else { r := ObjectCompare(a, b); }
    case VList(_) => if b.VList? { r := CompareVLists(a, b); } else { r := ObjectCompare(a, b); }
    case ZList(_) => if b.ZList? { r := CompareZLists(a.zs, b.zs); } else { r := ObjectCompare(a, b); }
  }

  method CompareVLists(a: Value, b: Value) returns (r: int)
    requires a.VList? && b.VList?
    ensures SameSign(r, Lexical(FlatChain(a.vs), FlatChain(b.vs)))
    decreases Flat(a), 0
  {
    BlocksDoNotMatter(a.vs);
    BlocksDoNotMatter(b.vs);
    ghost var s, t := All(a.vs), All(b.vs);
    ghost var fs, ft := FlatAll(s), FlatAll(t);
    var c, d := Cursor(a.vs, 0), Cursor(b.vs, 0);
    ghost var k := 0;
    while true
      invariant 0 <= k && Before(c, s, k) && Before(d, t, k)
      invariant Lexical(fs, ft) == Lexical(fs[k..], ft[k..])
      decreases |s| - k
    {
      c := Settle(c, s, k);
      d := Settle(d, t, k);
      if c.node.Nil? { return if d.node.Nil? then 0 else -1; }
      if d.node.Nil? { return 1; }
      var x, y := c.node.items[c.off], d.node.items[d.off];
      assert Flat(x) == fs[k] && Flat(y) == ft[k] && fs == Flat(a).items;
      r := Compare(x, y);
      LexicalStep(fs[k..], ft[k..]);
      if r != 0 { return; }
      c := Advance(c, 1, s, k);
      d := Advance(d, 1, t, k);
      k := k + 1;
    }
  }

  method CompareZLists(a: Chain<real>, b: Chain<real>) returns (r: int)
    ensures SameSign(r, Lexical(Nums(All(a)), Nums(All(b))))
  {
    ghost var s, t := All(a), All(b);
    var c, d := Cursor(a, 0), Cursor(b, 0);
    ghost var k := 0;
    while true
      invariant 0 <= k && Before(c, s, k) && Before(d, t, k)
      invariant Lexical(Nums(s), Nums(t)) == Lexical(Nums(s)[k..], Nums(t)[k..])
      decreases |s| - k
    {
      c := Settle(c, s, k);
      d := Settle(d, t, k);
      if c.node.Nil? { return if d.node.Nil? then 0 else -1; }
      if d.node.Nil? { return 1; }
      r := CompareReals(c.node.items[c.off], d.node.items[d.off]);
      LexicalStep(Nums(s)[k..], Nums(t)[k..]);
      if r != 0 { return; }
      c := Advance(c, 1, s, k);
      d := Advance(d, 1, t, k);
      k := k + 1;
    }
  }

  // ---------- equality ----------

  method Equals(a: Value, b: Value, block: nat) returns (r: bool)
    requires block > 0
    ensures r <==> Alike(a, b)
    ensures r <==> Flat(a) == Flat(b)
    decreases Flat(a), 1
  {
    FlatMeans(a, b);
    match (a, b)
    case (Real(x), Real(y)) => r := x == y;
    case (Str(s), Str(t)) => r := EqualBytes(s, t);
    case (VList(_), VList(_)) => r := EqualVLists(a, b, block);
    case (ZList(s), ZList(t)) => r := EqualZLists(s, t, block);
    case _ => r := false;
  }

  method EqualBytes(s: seq<byte>, t: seq<byte>) returns (r: bool)
    ensures r <==> Bytes(s) == Bytes(t)
  {
    var c := StrCmp(s, t);
    LexicalZero(Bytes(s), Bytes(t));
    r := c == 0;
  }

  lemma EndsTogether<T>(s: seq<T>, t: seq<T>, k: nat)
    requires k <= |s| && k <= |t| && (k == |s| || k == |t|) && forall q :: 0 <= q < k ==> s[q] == t[q]
    ensures s == t <==> k == |s| == |t|
  {}

  method EqualVLists(a: Value, b: Value, block: nat) returns (r: bool)
    requires a.VList? && b.VList? && block > 0
    ensures r <==> FlatChain(a.vs) == FlatChain(b.vs)
    decreases Flat(a), 0
  {
    BlocksDoNotMatter(a.vs);
    BlocksDoNotMatter(b.vs);
    ghost var s, t := All(a.vs), All(b.vs);
    LexicalZero(FlatAll(s), FlatAll(t));
    var c, d := Cursor(a.vs, 0), Cursor(b.vs, 0);
    ghost var k := 0;
    while true
      invariant 0 <= k && Before(c, s, k) && Before(d, t, k)
      invariant Lexical(FlatAll(s), FlatAll(t)) == Lexical(FlatAll(s)[k..], FlatAll(t)[k..])
      decreases |s| - k
    {
      c := Settle(c, s, k);
      d := Settle(d, t, k);
      if c.node.Nil? || d.node.Nil? { return c.node.Nil? && d.node.Nil?; }
      var x, y := c.node.items[c.off], d.node.items[d.off];
      assert Flat(x) == Flat(a).items[k];
      var same := Equals(x, y, block);
      LexicalStep(FlatAll(s)[k..], FlatAll(t)[k..]);
      ZeroIffEqual(Flat(x), Flat(y));
      if !same { return false; }
      c := Advance(c, 1, s, k);
      d := Advance(d, 1, t, k);
      k := k + 1;
    }
  }

  method EqualZLists(a: Chain<real>, b: Chain<real>, block: nat) returns (r: bool)
    requires block > 0
    ensures r <==> Nums(All(a)) == Nums(All(b))
  {
    ghost var s, t := All(a), All(b);
    NumsInjective(s, t);
    var c, d := Cursor(a, 0), Cursor(b, 0);
    ghost var k := 0;
    while true
      invariant 0 <= k && Before(c, s, k) && Before(d, t, k)
      invariant forall q :: 0 <= q < k ==> s[q] == t[q]
      decreases |s| - k
    {
      c := Settle(c, s, k);
      d := Settle(d, t, k);
      if c.node.Nil? || d.node.Nil? {
        EndsTogether(s, t, k);
        return c.node.Nil? && d.node.Nil?;
      }
      var n := if |c.node.items| - c.off < block then |c.node.items| - c.off else block;
      n := if |d.node.items| - d.off < n then |d.node.items| - d.off else n;
      var same := SameStretch(c, d, n, s, t, k);
      if !same { return false; }
      c := Advance(c, n, s, k);
      d := Advance(d, n, t, k);
      k := k + n;
    }
  }

  // the inner loop over one stretch of both lists
  method SameStretch(c: Cursor<real>, d: Cursor<real>, n: nat, ghost s: seq<real>, ghost t: seq<real>, ghost k: nat)
    returns (same: bool)
    requires Before(c, s, k) && Before(d, t, k) && c.node.Node? && d.node.Node?
    requires c.off + n <= |c.node.items| && d.off + n <= |d.node.items|
    ensures k + n <= |s| && k + n <= |t| && (same <==> forall q :: k <= q < k + n ==> s[q] == t[q])
  {
    assert |s[k..]| >= n && |t[k..]| >= n;
    for m := 0 to n
      invariant forall q :: k <= q < k + m ==> s[q] == t[q]
    {
      assert s[k..][m] == s[k + m] && t[k..][m] == t[k + m];
      if c.node.items[c.off + m] != d.node.items[d.off + m] { return false; }
    }
    same := true;
  }
}
