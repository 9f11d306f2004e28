/** Inputs the wrapper accepts and answers with a pair that does not stand for what the product would give. */
module LoraWitnesses {
  import opened Common
  import opened TensorAlgebra
  import opened LoraTensor
  import opened LoraIndexing
  import opened LoraReshaping
  import opened LoraJoining
  import opened LoraCatExact

  /** A pair of these shapes with every entry one. */
  function PairOfOnes(a: Shape, b: Shape): (l: Lora)
    ensures l.a.shape == a && l.b.shape == b
  {
    Lora(Fill(a, 1.0), Fill(b, 1.0))
  }

  // ---------- indexing ----------

  /** `l[1:]` where A is broadcast along the first axis: A is emptied, B is not. */
  lemma SliceEmptiesA()
    ensures var l := PairOfOnes([1, 1, 1], [2, 1, 1]);
            var sl := Slice(Some(1), None, 1);
            && WellFormed(l) && GetSlice(l, sl).Ok?
            && GetSlice(l, sl).value.a.shape[0] == 0 && GetSlice(l, sl).value.b.shape[0] == 1
            && !StandsFor(GetSlice(l, sl).value, l, [sl])
  {
    hide Fill, StandsFor;
    var l, sl := PairOfOnes([1, 1, 1], [2, 1, 1]), Slice(Some(1), None, 1);
    GetSliceExact(l, sl);
    FirstLength(l.a, sl);
    FirstLength(l.b, sl);
  }

  lemma FirstLength(t: Tensor, sl: Ix)
    requires |t.shape| == 3 && sl.Slice? && sl.step >= 1
    ensures GetItem(t, [sl]).Some?
    ensures GetItem(t, [sl]).value.shape == [SliceLen(sl, t.shape[0]), t.shape[1], t.shape[2]]
  {
    hide GetItem, Resolve, SliceLen;
    ThreeRanges(t, sl, FULL, FULL);
    RangeOf(FULL, t.shape[1]);
    RangeOf(FULL, t.shape[2]);
    FullLength(t.shape[1]);
    FullLength(t.shape[2]);
    PadItem(t, [sl]);
    assert Padded([sl], 3) == [sl, FULL, FULL];
  }

  lemma FullLength(d: nat)
    ensures SliceLen(FULL, d) == d
  {
  }

  lemma RangeOf(sl: Ix, d: nat)
    requires sl.Slice? && sl.step >= 1
    ensures Resolve(sl, d).Some? && Resolve(sl, d).value.Range? && Resolve(sl, d).value.len == SliceLen(sl, d)
  {
  }

  /** The shape that three slices leave. */
  lemma ThreeRanges(t: Tensor, x: Ix, y: Ix, z: Ix)
    requires |t.shape| == 3 && x.Slice? && y.Slice? && z.Slice? && x.step >= 1 && y.step >= 1 && z.step >= 1
    ensures GetItem(t, [x, y, z]).Some?
    ensures GetItem(t, [x, y, z]).value.shape ==
            [SliceLen(x, t.shape[0]), SliceLen(y, t.shape[1]), SliceLen(z, t.shape[2])]
  {
    hide GetItem, Resolve, ResolveAll, Select, SliceLen, AllInAxis;
    var s := t.shape;
    RangeOf(x, s[0]);
    RangeOf(y, s[1]);
    RangeOf(z, s[2]);
    var ps := [Resolve(x, s[0]).value, Resolve(y, s[1]).value, Resolve(z, s[2]).value];
    ResolveAllIs([x, y, z], s, ps);
    GetItemWhole(t, [x, y, z], ps);
    OutShapeTwo([ps[0]], ps[1], ps[2]);
    assert ps == [ps[0]] + [ps[1], ps[2]];
    assert OutShape([ps[0]]) == [ps[0].len] by {
      assert [ps[0]][..0] == [] && OutShape([]) == [];
    }
  }

  /** `l[0:1, :, :]` where both factors have two rows: A keeps both. */
  lemma SliceKeepsA()
    ensures var l := PairOfOnes([2, 1, 1], [2, 1, 1]);
            var given := [Slice(Some(0), Some(1), 1), FULL, FULL];
            WellFormed(l) && GetEntries(l, given).Ok? && !StandsFor(GetEntries(l, given).value, l, given)
  {
    hide Fill, StandsFor, GetEntries;
    var l, sl := PairOfOnes([2, 1, 1], [2, 1, 1]), Slice(Some(0), Some(1), 1);
    WellFormedMultipliable(l);
    ShapeExact(l);
    ThreeRanges(Product(l), sl, FULL, FULL);
    PaddedWhole([sl, FULL, FULL]);
    GetEntriesAccepted(l, [sl, FULL, FULL]);
    GetEntriesExact(l, [sl, FULL, FULL]);
    var ixs := [sl, FULL, FULL];
    assert ixs[0].Slice? && l.a.shape[0] != 1 && SliceLen(ixs[0], l.b.shape[0]) != l.b.shape[0];
    assert !TupleGuard(l, ixs);
  }

  /** `l[..., 0:1]`: one slice inserted where the ellipsis stands for two. */
  lemma EllipsisMisses()
    ensures var l := PairOfOnes([1, 1, 2], [1, 2, 1]);
            var sl := Slice(Some(0), Some(1), 1);
            var r := GetTuple(l, Axes([]) + [Ellipsis] + Axes([sl]));
            WellFormed(l) && r.Ok? && WellFormed(r.value) && !StandsFor(r.value, l, EllipsisMeaning([], [sl], 3))
  {
    hide Fill, StandsFor, GetEntries, TupleGuard, GetItem, Multipliable, Product, GetTuple, Expand, Padded;
    var l, sl := PairOfOnes([1, 1, 2], [1, 2, 1]), Slice(Some(0), Some(1), 1);
    WellFormedMultipliable(l);
    ShapeExact(l);
    ThreeRanges(Product(l), FULL, sl, FULL);
    ThreeRanges(Product(l), FULL, FULL, sl);
    GetTupleEllipsis(l, [], [sl]);
    ExpandEllipsis([], [sl], 1);
    assert [] + Fulls(1) + [sl] == [FULL, sl] && EllipsisMeaning([], [sl], 3) == [FULL, FULL, sl];
    MiddleSlice(l, sl);
    var m := GetEntries(l, [FULL, sl]).value;
    OtherItem(m, l, [FULL, sl, FULL], [FULL, FULL, sl]);
  }

  lemma MiddleSlice(l: Lora, sl: Ix)
    requires WellFormed(l) && |l.a.shape| == 3 && l.a.shape[0] == 1 && sl.Slice? && sl.step >= 1
    ensures GetEntries(l, [FULL, sl]).Ok? && WellFormed(GetEntries(l, [FULL, sl]).value)
    ensures StandsFor(GetEntries(l, [FULL, sl]).value, l, [FULL, sl, FULL])
  {
    hide GetEntries, GetItem, Product, StandsFor;
    assert Padded([FULL, sl], 3) == [FULL, sl, FULL];
    ProductShape(l);
    ThreeRanges(Product(l), FULL, sl, FULL);
    PadItem(Product(l), [FULL, sl]);
    GetEntriesAccepted(l, [FULL, sl]);
    GetEntriesExact(l, [FULL, sl]);
    assert TupleGuard(l, [FULL, sl, FULL]);
    PadStandsFor(GetEntries(l, [FULL, sl]).value, l, [FULL, sl]);
  }

  /** A pair stands for one product only. */
  lemma OtherItem(m: Lora, l: Lora, ixs: seq<Ix>, other: seq<Ix>)
    requires StandsFor(m, l, ixs) && Multipliable(l.b, l.a) && GetItem(Product(l), ixs) != GetItem(Product(l), other)
    ensures !StandsFor(m, l, other)
  {
  }

  /** `l[:, 0, 0]` with every dimension one: a matrix instead of a vector. */
  lemma TwoIntegersAccepted()
    ensures var l := PairOfOnes([1, 1, 1], [1, 1, 1]);
            var given := [FULL, Int(0), Int(0)];
            WellFormed(l) && GetEntries(l, given).Ok? && !StandsFor(GetEntries(l, given).value, l, given)
  {
    hide Fill, GetItem, Product;
    var l := PairOfOnes([1, 1, 1], [1, 1, 1]);
    var given := [FULL, Int(0), Int(0)];
    PaddedWhole(given);
    assert EntriesA(l, given) == [FULL, FULL, Int(0)] && given[..2] == [FULL, Int(0)];
    TwoRangesFirst(l.a);
    OuterRanges(l.b);
    LastTwoMustBeSlices(l, given);
    AxesOfResult(l, given, GetEntries(l, given).value);
  }

  lemma TwoRangesFirst(t: Tensor)
    requires t.shape == [1, 1, 1]
    ensures GetItem(t, [FULL, FULL, Int(0)]).Some? && GetItem(t, [FULL, FULL, Int(0)]).value.shape == [1, 1]
  {
    hide GetItem, ResolveAll, Select, AllInAxis;
    var ps := [FullRange(1), FullRange(1), Point(0)];
    ResolveAllIs([FULL, FULL, Int(0)], t.shape, ps);
    GetItemWhole(t, [FULL, FULL, Int(0)], ps);
    OutShapeTwo([], FullRange(1), FullRange(1));
    PointSnoc([FullRange(1), FullRange(1)], 0, [0, 0]);
    assert [] + [FullRange(1), FullRange(1)] == [FullRange(1), FullRange(1)];
    assert ps == [FullRange(1), FullRange(1)] + [Point(0)];
  }

  lemma OuterRanges(t: Tensor)
    requires t.shape == [1, 1, 1]
    ensures GetItem(t, [FULL, Int(0)]).Some? && GetItem(t, [FULL, Int(0)]).value.shape == [1, 1]
  {
    hide GetItem, ResolveAll, Select, AllInAxis;
    var ixs := [FULL, Int(0), FULL];
    var ps := [FullRange(1), Point(0), FullRange(1)];
    assert Padded([FULL, Int(0)], 3) == ixs;
    PadItem(t, [FULL, Int(0)]);
    ResolveAllIs(ixs, t.shape, ps);
    GetItemWhole(t, ixs, ps);
    RangeSnoc([], FullRange(1), [], 0);
    PointSnoc([FullRange(1)], 0, [0]);
    RangeSnoc([FullRange(1), Point(0)], FullRange(1), [0], 0);
    assert [] + [FullRange(1)] == [FullRange(1)] && [FullRange(1)] + [Point(0)] == [FullRange(1), Point(0)];
    assert ps == [FullRange(1), Point(0)] + [FullRange(1)];
  }

  /** With one axis more than the indexed product a pair does not stand for it. */
  lemma AxesOfResult(l: Lora, ixs: seq<Ix>, m: Lora)
    requires Multipliable(l.b, l.a) && GetItem(Product(l), ixs).Some?
    requires |m.b.shape| == |GetItem(Product(l), ixs).value.shape| + 1
    ensures !StandsFor(m, l, ixs)
  {
    hide GetItem;
  }

  // ---------- reshape and permute ----------

  /** Factors of rank 0 are regrouped to a shape with more elements. */
  lemma EmptyRankGrows()
    ensures var l := PairOfOnes([0, 1], [2, 0]);
            && WellFormed(l) && LoraReshape(l, [3, 1]).Ok? && Multipliable(l.b, l.a)
            && ShapeOf(l) == [2, 1] && ReshapeInferred(Product(l), [3, 1]).None?
  {
    hide Fill, Product, LoraReshape, Prod;
    var l := PairOfOnes([0, 1], [2, 0]);
    ProductShape(l);
    assert -1 !in [3, 1] && AsShape([3, 1]) == [3, 1] && ShapeOf(l) == [2, 1];
    ProdTwo(3, 1);
    ProdTwo(2, 1);
    ReshapeAccepted(l, [3, 1]);
  }

  lemma ProdTwo(m: nat, n: nat)
    ensures Prod([m, n]) == m * n
  {
    ProdSnoc([], m);
    ProdSnoc([m], n);
    assert [] + [m] == [m] && [m] + [n] == [m, n];
  }

  /** Two dimensions left to be inferred. */
  lemma TwoInferred()
    ensures var l := PairOfOnes([1, 1], [1, 1]);
            && WellFormed(l) && LoraReshape(l, [-1, -1]).Ok? && Multipliable(l.b, l.a)
            && ReshapeInferred(Product(l), [-1, -1]).None?
  {
    hide Fill, Product;
    var l := PairOfOnes([1, 1], [1, 1]);
    ProductShape(l);
    ProdTwo(1, 1);
    assert ShapeOf(l) == [1, 1];
    assert Known([-1]) == Known([]) * 1 && [-1, -1][..1] == [-1] && [-1][..0] == [];
    assert Inferred([-1, -1], 1).Some? && Inferred([-1, -1], 1).value == [1, 1];
    assert AsShape([1, 1]) == [1, 1];
    assert Ones(0) + [1, 1] == [1, 1] && [1, 1][..1] + [1] == [1, 1];
  }

  /** `permute(2, 1)` of a matrix: axis 2 passes for axis 0. */
  lemma AxisPastTheLast()
    ensures var l := PairOfOnes([1, 1], [1, 1]);
            && WellFormed(l) && LoraPermute(l, [2, 1]).Ok? && Multipliable(l.b, l.a)
            && PermuteTo(Product(l), [2, 1]).None?
  {
    hide Fill, Product, Permute, LoraPermute, Lead;
    var l := PairOfOnes([1, 1], [1, 1]);
    var dims := FromEnd([2, 1], 2);
    assert dims == [0, -1];
    NumbersAre([0, -1], [0, 1], 2);
    assert Identity(2) == [0, 1];
    PermuteToIs(l.b, [0, -1], [0, 1]);
    PermuteAccepted(l, [2, 1]);
    LeadOnes(l);
    PermuteExact(l, [2, 1]);
    assert [2, 1][0] >= 2;
  }

  lemma NumbersAre(dims: seq<int>, ds: seq<nat>, n: nat)
    requires |dims| == |ds| && forall i | 0 <= i < |dims| :: AxisNumber(dims[i], n) == Some(ds[i])
    ensures AxisNumbers(dims, n) == Some(ds)
  {
    var r := AxisNumbers(dims, n);
    assert r.Some? && forall i | 0 <= i < |ds| :: Some(r.value[i]) == Some(ds[i]);
    assert r.value == ds;
  }

  // ---------- cat ----------

  /** Two operands whose A is broadcast: their A rows are joined to fewer than the rows of B. */
  lemma BroadcastJoined()
    ensures var l := PairOfOnes([1, 1, 1], [2, 1, 1]);
            && AllWellFormed([l, l]) && LoraCat([l, l]).Ok?
            && LoraCat([l, l]).value.a.shape == [2, 1, 1] && LoraCat([l, l]).value.b.shape == [4, 1, 1]
            && !JoinsProducts([l, l], LoraCat([l, l]).value)
  {
    hide Fill, JoinsProducts, Get, Total, Cat;
    var l := PairOfOnes([1, 1, 1], [2, 1, 1]);
    var ls := [l, l];
    assert Heads(As(ls)) == [1, 1] && Heads(Bs(ls)) == [2, 2];
    TotalTwo(1);
    TotalTwo(2);
    assert [1, 1, 1][1..] == [1, 1] && [2, 1, 1][1..] == [1, 1];
    assert [2] + [1, 1] == [2, 1, 1] && [4] + [1, 1] == [4, 1, 1];
    BroadcastCatFails(ls);
  }

  lemma TotalTwo(d: nat)
    ensures Total([d, d]) == 2 * d
  {
    assert [d, d][1..] == [d] && [d][1..] == [];
    assert Total([d]) == d + Total([]);
  }
}
