/**
  Nested each-mapping.  Arguments marked with masks are iterated at the levels of their bits; the
  list that results shows, at a path of indices, the call on the arguments indexed by their own.
 */
module EachMapping {
  import opened Basics
  import opened Masks
  import opened LazyLists
  import opened LazyPaths
  import opened LazyStore
  import opened LazyTurns
  import opened LazyEach
  import opened LazyRun
  import opened LazyLaws

  // ---------- the indexed comprehension ----------

  /** Those of the indices whose level, counted from the bit on, is in the mask. */
  function Select(mask: nat, bit: nat, idx: Path): Path
    decreases |idx|
  {
    if idx == [] then [] else (if Bit(mask, bit) then [idx[0]] else []) + Select(mask, bit + 1, idx[1..])
  }

  /** Some argument that is marked at the level after the indices is no scalar there. */
  ghost predicate Opens<A(!new)>(h: Graph<A>, v: View<A>, masks: seq<nat>, bit: nat, idx: Path)
    requires ViewOk(h, v) && |masks| == |v.ins|
  {
    exists j :: 0 <= j < |v.ins| && Bit(masks[j], bit + |idx|) && !Seen(h, v, j, Select(masks[j], bit, idx)).Leaf?
  }

  ghost predicate OpenAlong<A(!new)>(h: Graph<A>, v: View<A>, masks: seq<nat>, bit: nat, idx: Path)
    requires ViewOk(h, v) && |masks| == |v.ins|
  {
    forall t: nat :: t < |idx| ==> Opens(h, v, masks, bit, idx[..t])
  }

  /** After the indices there is no level left, or the next one does not open. */
  ghost predicate Final<A(!new)>(h: Graph<A>, v: View<A>, masks: seq<nat>, bit: nat, below: nat, idx: Path)
    requires ViewOk(h, v) && |masks| == |v.ins|
  {
    |idx| == below || !Opens(h, v, masks, bit, idx)
  }

  /** Every argument has an element at its own indices. */
  ghost predicate Reaches<A(!new)>(h: Graph<A>, v: View<A>, masks: seq<nat>, bit: nat, idx: Path)
    requires ViewOk(h, v) && |masks| == |v.ins|
  {
    forall j :: 0 <= j < |v.ins| ==> !Seen(h, v, j, Select(masks[j], bit, idx)).Absent?
  }

  /** The arguments indexed by their own indices. */
  function Selected<A>(v: View<A>, masks: seq<nat>, bit: nat, idx: Path): View<A>
    requires |masks| == |v.before|
  {
    v.(before := seq(|v.before|, j requires 0 <= j < |v.before| => v.before[j] + Select(masks[j], bit, idx)))
  }

  lemma SelectedOk<A(!new)>(h: Graph<A>, v: View<A>, masks: seq<nat>, bit: nat, idx: Path)
    requires ViewOk(h, v) && |masks| == |v.ins|
    ensures ViewOk(h, Selected(v, masks, bit, idx))
  {}

  lemma SelectedSeen<A(!new)>(h: Graph<A>, v: View<A>, masks: seq<nat>, bit: nat, idx: Path, j: nat, q: Path)
    requires ViewOk(h, v) && |masks| == |v.ins| && j < |v.ins|
    ensures ViewOk(h, Selected(v, masks, bit, idx))
    ensures Seen(h, Selected(v, masks, bit, idx), j, q) == Seen(h, v, j, Select(masks[j], bit, idx) + q)
  {
    var s := Select(masks[j], bit, idx);
    assert (v.before[j] + s) + q == v.before[j] + (s + q);
  }

  lemma SeenStays<A(!new)>(h: Graph<A>, v: View<A>, j: nat, p: Path)
    requires ViewOk(h, v) && j < |v.ins|
    ensures Stays(Seen(h, v, j, []), Seen(h, v, j, p))
  {
    assert v.before[j] + [] == (v.before[j] + p)[..|v.before[j]|];
    InClosed(h, v.ins[j], v.i, v.before[j] + p, |v.before[j]|, v.level);
  }

  lemma MissingStays<A(!new)>(h: Graph<A>, v: View<A>, masks: seq<nat>, bit: nat, idx: Path)
    requires ViewOk(h, v) && |masks| == |v.ins| && Missing(h, v)
    ensures !Reaches(h, v, masks, bit, idx)
  {
    var j :| 0 <= j < |v.ins| && Seen(h, v, j, []).Absent?;
    SeenStays(h, v, j, Select(masks[j], bit, idx));
  }

  /**
    One level down, each argument is at its own indices what it was; a scalar is taken as it is by the
    mapper, which is the same as indexing it.
   */
  lemma DeeperSelects<A(!new)>(h: Graph<A>, v: View<A>, masks: seq<nat>, bit: nat, idx: Path, j: nat, q: Path)
    requires ViewOk(h, v) && |masks| == |v.ins| && idx != [] && j < |v.ins| && !Missing(h, v)
    ensures Seen(h, Deeper(h, v, masks, bit, idx[0]), j, Select(masks[j], bit + 1, idx[1..]) + q)
         == Seen(h, v, j, Select(masks[j], bit, idx) + q)
  {
    var s, own := Select(masks[j], bit + 1, idx[1..]), Select(masks[j], bit, idx);
    DeeperSeen(h, v, masks, bit, idx[0], j, s + q);
    if !Bit(masks[j], bit) {
      assert own == s;
    } else if Iterated(h, v, masks, bit, j) {
      assert own + q == [idx[0]] + (s + q);
    } else {
      SeenStays(h, v, j, s + q);
      SeenStays(h, v, j, own + q);
    }
  }

  lemma DeeperOpens<A(!new)>(h: Graph<A>, v: View<A>, masks: seq<nat>, bit: nat, idx: Path)
    requires ViewOk(h, v) && |masks| == |v.ins| && idx != [] && !Missing(h, v)
    ensures Opens(h, Deeper(h, v, masks, bit, idx[0]), masks, bit + 1, idx[1..]) == Opens(h, v, masks, bit, idx)
    ensures forall below: nat :: below > 0 ==>
      Final(h, Deeper(h, v, masks, bit, idx[0]), masks, bit + 1, below - 1, idx[1..]) ==
        Final(h, v, masks, bit, below, idx)
    ensures Reaches(h, Deeper(h, v, masks, bit, idx[0]), masks, bit + 1, idx[1..]) == Reaches(h, v, masks, bit, idx)
  {
    var deeper, b, rest := Deeper(h, v, masks, bit, idx[0]), bit + 1, idx[1..];
    forall j | 0 <= j < |v.ins|
      ensures Seen(h, deeper, j, Select(masks[j], b, rest)) == Seen(h, v, j, Select(masks[j], bit, idx)) {
      DeeperSelects(h, v, masks, bit, idx, j, []);
      assert Select(masks[j], b, rest) + [] == Select(masks[j], b, rest);
      assert Select(masks[j], bit, idx) + [] == Select(masks[j], bit, idx);
    }
    assert b + |rest| == bit + |idx|;
  }

  lemma DeeperIsOpen<A(!new)>(h: Graph<A>, v: View<A>, masks: seq<nat>, bit: nat, idx: Path)
    requires ViewOk(h, v) && |masks| == |v.ins| && idx != [] && !Missing(h, v)
    requires forall t: nat :: 0 < t < |idx| ==> Opens(h, v, masks, bit, idx[..t])
    ensures OpenAlong(h, Deeper(h, v, masks, bit, idx[0]), masks, bit + 1, idx[1..])
  {
    var deeper, b, rest := Deeper(h, v, masks, bit, idx[0]), bit + 1, idx[1..];
    forall t: nat | t < |rest| ensures Opens(h, deeper, masks, b, rest[..t]) {
      var cut := idx[..t + 1];
      assert cut[0] == idx[0] && cut[1..] == rest[..t];
      assert Opens(h, v, masks, bit, idx[..t + 1]);
      DeeperOpens(h, v, masks, bit, cut);
    }
  }

  /** Where nothing is missing, the mapping settles exactly if the level does not open. */
  lemma SettlesUnlessOpen<A(!new)>(h: Graph<A>, v: View<A>, masks: seq<nat>, bit: nat, below: nat)
    requires ViewOk(h, v) && |masks| == |v.ins| && !Missing(h, v)
    ensures Settled(h, v, masks, bit, below) <==> below == 0 || !Opens(h, v, masks, bit, [])
  {
    forall j | 0 <= j < |v.ins|
      ensures Iterated(h, v, masks, bit, j) <==> Bit(masks[j], bit) && !Seen(h, v, j, Select(masks[j], bit, [])).Leaf? {
      assert Select(masks[j], bit, []) == [];
    }
  }

  lemma DeeperCalls<A(!new)>(h: Graph<A>, f: Fun<A>, v: View<A>, masks: seq<nat>, bit: nat, idx: Path, q: Path)
    requires ViewOk(h, v) && |masks| == |v.ins| && FunOk(f, |v.ins|) && idx != [] && !Missing(h, v)
    ensures ViewOk(h, Selected(v, masks, bit, idx))
    ensures FunAt(h, f, Selected(Deeper(h, v, masks, bit, idx[0]), masks, bit + 1, idx[1..]), q)
         == FunAt(h, f, Selected(v, masks, bit, idx), q)
  {
    var deeper, b, rest := Deeper(h, v, masks, bit, idx[0]), bit + 1, idx[1..];
    var from, to := Selected(deeper, masks, b, rest), Selected(v, masks, bit, idx);
    forall j, p | 0 <= j < |v.ins| ensures Seen(h, from, j, p) == Seen(h, to, j, p) {
      SelectedSeen(h, deeper, masks, b, rest, j, p);
      SelectedSeen(h, v, masks, bit, idx, j, p);
      DeeperSelects(h, v, masks, bit, idx, j, p);
    }
    FunAlike(h, f, from, to, q);
  }

  /**
    What the indexed comprehension has at the indices, and at the path q inside: nothing exactly if some
    argument has nothing at its own indices; where the indices are final, what the call shows on the
    arguments, each indexed by its own; a list where they are not.
   */
  ghost predicate Comprehends<A(!new)>(h: Graph<A>, f: Fun<A>, v: View<A>, masks: seq<nat>, bit: nat, below: nat,
          idx: Path, q: Path, l: Label<A>)
    requires ViewOk(h, v) && |masks| == |v.ins| && FunOk(f, |v.ins|)
  {
    if !Reaches(h, v, masks, bit, idx) then l.Absent?
    else if Final(h, v, masks, bit, below, idx) then SelectedOk(h, v, masks, bit, idx);
      l == FunAt(h, f, Selected(v, masks, bit, idx), q)
    else q == [] ==> l.Nest?
  }

  /** A mapping, along indices at which every level before has opened, is the comprehension. */
  lemma {:induction false} Comprehension<A(!new)>(h: Graph<A>, f: Fun<A>, v: View<A>, masks: seq<nat>, bit: nat,
          below: nat, idx: Path, q: Path)
    requires ViewOk(h, v) && |masks| == |v.ins| && FunOk(f, |v.ins|) && |idx| <= below &&
      OpenAlong(h, v, masks, bit, idx)
    ensures Comprehends(h, f, v, masks, bit, below, idx, q, EachAt(h, f, v, masks, bit, below, idx + q))
    decreases |idx|, 1
  {
    if Missing(h, v) {
      MissingStays(h, v, masks, bit, idx);
    } else if idx == [] {
      assert idx + q == q;
      ComprehensionHere(h, f, v, masks, bit, below, q);
    } else {
      assert idx[..0] == [] && Opens(h, v, masks, bit, idx[..0]);
      SettlesUnlessOpen(h, v, masks, bit, below);
      assert (idx + q)[0] == idx[0] && (idx + q)[1..] == idx[1..] + q;
      ComprehensionBelow(h, f, v, masks, bit, below, idx, q);
    }
  }

  /** One level down, at the first of the indices. */
  lemma {:induction false} ComprehensionBelow<A(!new)>(h: Graph<A>, f: Fun<A>, v: View<A>, masks: seq<nat>, bit: nat,
          below: nat, idx: Path, q: Path)
    requires ViewOk(h, v) && |masks| == |v.ins| && FunOk(f, |v.ins|) && 0 < |idx| <= below && !Missing(h, v)
    requires forall t: nat :: 0 < t < |idx| ==> Opens(h, v, masks, bit, idx[..t])
    ensures Comprehends(h, f, v, masks, bit, below, idx, q,
      EachAt(h, f, Deeper(h, v, masks, bit, idx[0]), masks, bit + 1, below - 1, idx[1..] + q))
    decreases |idx|, 0
  {
    DeeperIsOpen(h, v, masks, bit, idx);
    var deeper, rest := Deeper(h, v, masks, bit, idx[0]), idx[1..];
    Comprehension(h, f, deeper, masks, bit + 1, below - 1, rest, q);
    DeeperComprehends(h, f, v, masks, bit, below, idx, q, EachAt(h, f, deeper, masks, bit + 1, below - 1, rest + q));
  }

  lemma ComprehensionHere<A(!new)>(h: Graph<A>, f: Fun<A>, v: View<A>, masks: seq<nat>, bit: nat, below: nat, q: Path)
    requires ViewOk(h, v) && |masks| == |v.ins| && FunOk(f, |v.ins|) && !Missing(h, v)
    ensures Comprehends(h, f, v, masks, bit, below, [], q, EachAt(h, f, v, masks, bit, below, q))
  {
    SettlesUnlessOpen(h, v, masks, bit, below);
    forall j | 0 <= j < |v.ins| ensures !Seen(h, v, j, Select(masks[j], bit, [])).Absent? {
      assert !Seen(h, v, j, []).Absent?;
    }
    assert Selected(v, masks, bit, []).before == v.before by {
      forall j | 0 <= j < |v.before| ensures v.before[j] + Select(masks[j], bit, []) == v.before[j] {
        assert v.before[j] + [] == v.before[j];
      }
    }
  }

  lemma DeeperComprehends<A(!new)>(h: Graph<A>, f: Fun<A>, v: View<A>, masks: seq<nat>, bit: nat, below: nat, idx: Path,
          q: Path, l: Label<A>)
    requires ViewOk(h, v) && |masks| == |v.ins| && FunOk(f, |v.ins|) && idx != [] && below > 0 && !Missing(h, v)
    requires Comprehends(h, f, Deeper(h, v, masks, bit, idx[0]), masks, bit + 1, below - 1, idx[1..], q, l)
    ensures Comprehends(h, f, v, masks, bit, below, idx, q, l)
  {
    DeeperOpens(h, v, masks, bit, idx);
    DeeperCalls(h, f, v, masks, bit, idx, q);
  }

  // ---------- starting an each-mapping ----------

  function Combined(masks: seq<nat>): nat { if masks == [] then 0 else Or(masks[0], Combined(masks[1..])) }

  ghost predicate Used(masks: seq<nat>, bit: nat) { exists j :: 0 <= j < |masks| && Bit(masks[j], bit) }

  lemma {:induction false} CombinedBits(masks: seq<nat>, b: nat)
    ensures Bit(Combined(masks), b) <==> Used(masks, b)
  {
    if masks == [] {
      ZeroHasNoBits(b);
    } else {
      var rest := masks[1..];
      BitOfOr(masks[0], Combined(rest), b);
      CombinedBits(rest, b);
      if j :| 0 <= j < |rest| && Bit(rest[j], b) { assert Bit(masks[j + 1], b); }
      if j :| 0 < j < |masks| && Bit(masks[j], b) { assert Bit(rest[j - 1], b); }
    }
  }

  /** Accepted masks, when their union is positive, use exactly the levels that are counted. */
  lemma AcceptedUse(masks: seq<nat>, b: nat)
    requires Combined(masks) < 2 * SIGN && Accepts(Combined(masks)) && Signed(Combined(masks)) > 0
    ensures Used(masks, b) <==> b < Levels(Combined(masks))
  {
    AcceptedIff(Combined(masks));
    BitOfOnes(Levels(Combined(masks)), b);
    CombinedBits(masks, b);
  }

  /** All arguments that are to be iterated at the top level call themselves finite. */
  predicate TopFinite<A>(h: Graph<A>, row: seq<V<A>>, masks: seq<nat>)
    requires AllValid(h, row) && |masks| == |row|
  {
    forall j :: 0 <= j < |row| && Bit(masks[j], 0) ==> Marked(h, row[j])
  }

  /** The mapper that each-mapping over the arguments starts. */
  function TopMapper<A>(h: Graph<A>, f: Fun<A>, row: seq<V<A>>, masks: seq<nat>, block: Size): Gen<A>
    requires AllValid(h, row) && |masks| == |row|
  {
    EachGen(h, f, row, masks, 0, Levels(Combined(masks)), TopFinite(h, row, masks), block)
  }

  ghost predicate TopEnds<A(!new)>(h: Graph<A>, row: seq<V<A>>, masks: seq<nat>)
    requires WF(h) && AllValid(h, row) && |masks| == |row|
  {
    exists j :: 0 <= j < |row| && IsIterated(row[j], masks[j], 0) && Ends(h, row[j].id)
  }

  /** The list ends exactly if some argument that is iterated at the top level ends. */
  lemma EndsIff<A(!new)>(h: Graph<A>, f: Fun<A>, row: seq<V<A>>, masks: seq<nat>, block: Size)
    requires WF(h) && AllValid(h, row) && FunOk(f, |row|) && |masks| == |row|
    ensures GenOk(h, TopMapper(h, f, row, masks, block))
    ensures GenEnds(h, TopMapper(h, f, row, masks, block)) <==> TopEnds(h, row, masks)
  {
    var g := TopMapper(h, f, row, masks, block);
    if i: nat :| GenAt(h, g, i, []) == Absent { EndsAt(h, f, row, masks, block, i); }
    if j :| 0 <= j < |row| && IsIterated(row[j], masks[j], 0) && Ends(h, row[j].id) {
      var i: nat :| At(h, row[j].id, i, []) == Absent;
      OutAt(h, g, j, i, []);
    }
  }

  lemma EndsAt<A(!new)>(h: Graph<A>, f: Fun<A>, row: seq<V<A>>, masks: seq<nat>, block: Size, i: nat)
    requires WF(h) && AllValid(h, row) && FunOk(f, |row|) && |masks| == |row|
    requires GenAt(h, TopMapper(h, f, row, masks, block), i, []) == Absent
    ensures TopEnds(h, row, masks)
  {
    var g := TopMapper(h, f, row, masks, block);
    EachPresent(h, g, i);
    var j :| 0 <= j < |g.ins| && InAt(h, g.ins[j], i, [], g.level).Absent?;
    NotConstant(h, g.ins[j], i, g.level);
    assert IsIterated(row[j], masks[j], 0) && At(h, row[j].id, i, []) == Absent;
  }

  /** Where the arguments' marks are right, the mark of the list is wrong exactly if no mask has the lowest bit. */
  lemma FiniteMarkWrongIff<A(!new)>(h: Graph<A>, f: Fun<A>, row: seq<V<A>>, masks: seq<nat>, block: Size)
    requires WF(h) && AllValid(h, row) && FunOk(f, |row|) && |masks| == |row| && Plain(h) && Honest(h)
    ensures GenOk(h, TopMapper(h, f, row, masks, block))
    ensures TopFinite(h, row, masks) && !GenEnds(h, TopMapper(h, f, row, masks, block)) <==> !Used(masks, 0)
  {
    EndsIff(h, f, row, masks, block);
    if j :| 0 <= j < |masks| && Bit(masks[j], 0) {
      if TopFinite(h, row, masks) { assert Marked(h, row[j]) && IsIterated(row[j], masks[j], 0); }
    }
  }

  /** The arguments that are to be iterated at the top level are all marked finite, or none is. */
  predicate Uniform<A>(h: Graph<A>, row: seq<V<A>>, masks: seq<nat>)
    requires AllValid(h, row) && |masks| == |row|
  {
    TopFinite(h, row, masks) || forall j :: 0 <= j < |row| && Bit(masks[j], 0) ==> !Marked(h, row[j])
  }

  /**
    Where lists are marked exactly if they end, so is this one exactly if some mask has the lowest bit and
    the arguments iterated there are alike.
   */
  lemma MarkExactIff<A(!new)>(h: Graph<A>, f: Fun<A>, row: seq<V<A>>, masks: seq<nat>, block: Size)
    requires WF(h) && AllValid(h, row) && FunOk(f, |row|) && |masks| == |row| && Plain(h) && Exact(h)
    ensures GenOk(h, TopMapper(h, f, row, masks, block))
    ensures (TopFinite(h, row, masks) <==> GenEnds(h, TopMapper(h, f, row, masks, block))) <==>
      Used(masks, 0) && Uniform(h, row, masks)
  {
    EndsIff(h, f, row, masks, block);
    assert TopEnds(h, row, masks) <==> exists j :: 0 <= j < |row| && Bit(masks[j], 0) && Marked(h, row[j]) by {
      if j :| 0 <= j < |row| && Bit(masks[j], 0) && Marked(h, row[j]) {
        assert IsIterated(row[j], masks[j], 0) && Ends(h, row[j].id);
      }
    }
    if j :| 0 <= j < |masks| && Bit(masks[j], 0) { assert TopFinite(h, row, masks) ==> Marked(h, row[j]); }
  }

  /** A finite list mapped together with an endless one: the result ends, but is not marked. */
  lemma MixedArgumentsLoseTheMark<A(!new)>(h: Graph<A>, f: Fun<A>, row: seq<V<A>>, masks: seq<nat>, block: Size, j: nat,
          k: nat)
    requires WF(h) && AllValid(h, row) && FunOk(f, |row|) && |masks| == |row| && Plain(h) && Exact(h)
    requires j < |row| && k < |row| && Bit(masks[j], 0) && Bit(masks[k], 0) && Marked(h, row[j]) && !Marked(h, row[k])
    ensures GenOk(h, TopMapper(h, f, row, masks, block)) && GenEnds(h, TopMapper(h, f, row, masks, block))
    ensures !TopMapper(h, f, row, masks, block).finite
  {
    EndsIff(h, f, row, masks, block);
    assert IsIterated(row[j], masks[j], 0) && Ends(h, row[j].id);
  }

  /** Each operators without a level are accepted; their list is marked finite and never ends. */
  lemma ZeroMaskIsEndless<A(!new)>(h: Graph<A>, f: Fun<A>, row: seq<V<A>>, masks: seq<nat>, block: Size)
    requires WF(h) && AllValid(h, row) && FunOk(f, |row|) && |masks| == |row| && Combined(masks) == 0
    ensures Accepts(Combined(masks)) && GenOk(h, TopMapper(h, f, row, masks, block))
    ensures TopFinite(h, row, masks) && !GenEnds(h, TopMapper(h, f, row, masks, block))
  {
    ZeroHasNoBits(0);
    CombinedBits(masks, 0);
    EndsIff(h, f, row, masks, block);
  }

  lemma TopMapperKeeps<A(!new)>(h: Graph<A>, f: Fun<A>, row: seq<V<A>>, masks: seq<nat>, block: Size)
    requires WF(h) && AllValid(h, row) && FunOk(f, |row|) && |masks| == |row|
    ensures GenOk(h, TopMapper(h, f, row, masks, block))
    ensures var k := NewGen(h, TopMapper(h, f, row, masks, block)); Keeps(h, k) && Below(h, k, 0)
    ensures Used(masks, 0) ==> StaysHonest(h, NewGen(h, TopMapper(h, f, row, masks, block)))
    ensures Used(masks, 0) && Uniform(h, row, masks) && Plain(h) && Exact(h) ==>
      Exact(NewGen(h, TopMapper(h, f, row, masks, block)))
  {
    var g := TopMapper(h, f, row, masks, block);
    EndsIff(h, f, row, masks, block);
    NewGenKeeps(h, g);
    if Used(masks, 0) {
      if Plain(h) { if Honest(h) { FiniteMarkWrongIff(h, f, row, masks, block); } }
      NewGenHonest(h, g);
    }
    if Used(masks, 0) && Uniform(h, row, masks) && Plain(h) && Exact(h) {
      MarkExactIff(h, f, row, masks, block);
      TopMapperExact(h, g);
    }
  }

  lemma TopMapperExact<A(!new)>(h: Graph<A>, g: Gen<A>)
    requires Fresh(h, g) && Exact(h) && (g.finite <==> GenEnds(h, g))
    ensures WF(NewGen(h, g)) && Exact(NewGen(h, g))
  {
    NewGenEnds(h, g);
    var k := NewGen(h, g);
    forall n | 0 <= n < |k.cells| ensures k.cells[n].finite <==> Ends(k, n) {
      if n < |h.cells| { EndsKept(h, k, n); }
    }
  }

  /** An argument on the stack: a value, perhaps marked with a mask by each operators. */
  datatype Operand<A> = Whole(v: V<A>) | EachOp(v: V<A>, mask: nat)

  function Values<A>(args: seq<Operand<A>>): (r: seq<V<A>>)
    ensures |r| == |args|
  {
    seq(|args|, j requires 0 <= j < |args| => args[j].v)
  }
  function MaskList<A>(args: seq<Operand<A>>): (r: seq<nat>)
    ensures |r| == |args|
  {
    seq(|args|, j requires 0 <= j < |args| => if args[j].EachOp? then args[j].mask else 0)
  }

  lemma {:induction false} WholeAddsNothing(m: nat)
    ensures Or(0, m) == m
  {
    if m > 0 { WholeAddsNothing(m / 2); }
  }

  lemma {:induction false} OrCommutes(m: nat, n: nat)
    ensures Or(m, n) == Or(n, m)
    decreases m + n
  {
    if m + n > 0 { OrCommutes(m / 2, n / 2); }
  }

  // the loop over the arguments, from the last to the first
  method TopInputs<A(!new)>(h: Graph<A>, args: seq<Operand<A>>) returns (ins: seq<In<A>>, maxMask: nat, finite: bool)
    requires AllValid(h, Values(args))
    ensures ins == SubIns(Values(args), MaskList(args), 0) && maxMask == Combined(MaskList(args))
    ensures finite == TopFinite(h, Values(args), MaskList(args))
  {
    var row, masks := Values(args), MaskList(args);
    ins, maxMask, finite := [], 0, true;
    ghost var all := SubIns(row, masks, 0);
    assert masks[|args|..] == [];
    for i := |args| downto 0
      invariant maxMask == Combined(masks[i..]) && ins == all[i..]
      invariant finite <==> forall j :: i <= j < |args| && Bit(masks[j], 0) ==> Marked(h, row[j])
    {
      assert masks[i..] == [masks[i]] + masks[i + 1..] && all[i..] == [all[i]] + all[i + 1..];
      var v := row[i];
      match args[i]
      case EachOp(_, mask) =>
        OrCommutes(maxMask, mask);
        maxMask := Or(maxMask, mask);
        if Bit(mask, 0) {
          if !Marked(h, v) { finite := false; }
          ins := [Input(v)] + ins;
        } else {
          ins := [Const(v)] + ins;
        }
      case Whole(_) =>
        WholeAddsNothing(maxMask);
        ZeroHasNoBits(0);
        ins := [Const(v)] + ins;
    }
    assert masks[0..] == masks && all[0..] == all;
  }

  // handleEachOps: no list if levels are empty
  method HandleEachOps<A(!new)>(s: Store<A>, f: Fun<A>, args: seq<Operand<A>>) returns (r: Option<V<A>>)
    requires WF(s.graph) && AllValid(s.graph, Values(args)) && FunOk(f, |args|)
    modifies s
    ensures Keeps(old(s.graph), s.graph) && (Used(MaskList(args), 0) ==> StaysHonest(old(s.graph), s.graph))
    ensures Plain(old(s.graph)) && Exact(old(s.graph)) ==>
      (Used(MaskList(args), 0) && Uniform(old(s.graph), Values(args), MaskList(args)) ==> Exact(s.graph))
    ensures r.Some? <==> Accepts(Combined(MaskList(args)))
    ensures r.Some? ==> r.value == Ref(|old(s.graph).cells|)
    ensures r.Some? ==>
      s.graph == NewGen(old(s.graph), TopMapper(old(s.graph), f, Values(args), MaskList(args), s.block))
    ensures r.None? ==> s.graph == old(s.graph)
  {
    KeepsAll(s.graph);
    var ins, maxMask, finite := TopInputs(s.graph, args);
    if Accepts(maxMask) {
      TopMapperKeeps(s.graph, f, Values(args), MaskList(args), s.block);
      r := Some(Ref(|s.graph.cells|));
      var kind := Each(f, MaskList(args), 1, Levels(maxMask) - 1);
      s.graph := NewGen(s.graph, Gen(kind, ins, Above(s.graph, ins), finite, s.block, false, 0));
    } else {
      r := None;
    }
  }

  /**
    The list that each-mapping returns is the comprehension over the arguments, at indices along which
    every level after the first has opened.
   */
  lemma EachOpsComprehend<A(!new)>(h: Graph<A>, f: Fun<A>, row: seq<V<A>>, masks: seq<nat>, block: Size, idx: Path,
          q: Path)
    requires WF(h) && AllValid(h, row) && FunOk(f, |row|) && |masks| == |row| && ViewOk(h, RowView(row))
    requires 0 < |idx| <= Levels(Combined(masks)) &&
      forall t: nat :: 0 < t < |idx| ==> Opens(h, RowView(row), masks, 0, idx[..t])
    ensures var k, v := NewGen(h, TopMapper(h, f, row, masks, block)), RowView(row);
      WF(k) && Comprehends(h, f, v, masks, 0, Levels(Combined(masks)), idx, q, At(k, |h.cells|, idx[0], idx[1..] + q))
  {
    var g := TopMapper(h, f, row, masks, block);
    TopMapperKeeps(h, f, row, masks, block);
    assert At(NewGen(h, g), |h.cells|, idx[0], idx[1..] + q) == GenAt(h, g, idx[0], idx[1..] + q) by {
      NewGenKeeps(h, g);
    }
    TopComprehends(h, f, row, masks, g, Levels(Combined(masks)), idx, q);
  }

  lemma TopComprehends<A(!new)>(h: Graph<A>, f: Fun<A>, row: seq<V<A>>, masks: seq<nat>, g: Gen<A>, levels: nat,
          idx: Path, q: Path)
    requires WF(h) && AllValid(h, row) && FunOk(f, |row|) && |masks| == |row| && ViewOk(h, RowView(row))
    requires 0 < |idx| <= levels && forall t: nat :: 0 < t < |idx| ==> Opens(h, RowView(row), masks, 0, idx[..t])
    requires GenOk(h, g) && g.kind == Each(f, masks, 1, levels - 1) && g.ins == SubIns(row, masks, 0)
    ensures Comprehends(h, f, RowView(row), masks, 0, levels, idx, q, GenAt(h, g, idx[0], idx[1..] + q))
  {
    SubMapperAt(h, f, row, masks, 0, levels, g, idx[0], idx[1..] + q);
    RowMissesNothing(h, row);
    ComprehensionBelow(h, f, RowView(row), masks, 0, levels, idx, q);
  }

  lemma RowMissesNothing<A(!new)>(h: Graph<A>, row: seq<V<A>>)
    requires WF(h) && AllValid(h, row) && ViewOk(h, RowView(row))
    ensures !Missing(h, RowView(row))
  {
    forall j | 0 <= j < |row| ensures !Seen(h, RowView(row), j, []).Absent? { RowSeen(h, row, j, []); }
  }
}
