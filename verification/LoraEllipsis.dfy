/** When the entries the wrapper reads out of a tuple index every pair of given shapes as the tuple means it. */
module LoraEllipsis {
  import opened Common
  import opened TensorAlgebra
  import opened LoraTensor
  import opened LoraIndexing
  import opened LoraReshaping
  import opened LoraJoining
  import opened LoraCatExact

  predicate Alike(l: Lora, m: Lora) {
    l.a.shape == m.a.shape && l.b.shape == m.b.shape
  }

  // ---------- pairs that tell indices apart ----------

  /** The tensor that is one where coordinate `i` is `c`, and zero elsewhere. */
  function Marker(s: Shape, i: nat, c: nat): (t: Tensor)
    ensures t.shape == s
  {
    Build(s, x => if i < |x| && x[i] == c then 1.0 else 0.0)
  }

  lemma MarkerAt(s: Shape, i: nat, c: nat, x: Index)
    requires Valid(s, x) && i < |s|
    ensures Get(Marker(s, i, c), x) == if x[i] == c then 1.0 else 0.0
  {
    BuildAt(s, x => if i < |x| && x[i] == c then 1.0 else 0.0, x);
  }

  /** A pair of the same shapes whose product tells whether coordinate `i` is `c`. */
  function Pointer(l: Lora, i: nat, c: nat): (m: Lora)
    requires WellFormed(l)
    ensures Alike(l, m)
  {
    if i < |l.b.shape| - 1 then Lora(Fill(l.a.shape, 1.0), Marker(l.b.shape, i, c))
    else Lora(Marker(l.a.shape, i, c), Fill(l.b.shape, 1.0))
  }

  lemma PointerSummand(l: Lora, i: nat, c: nat, lead: Index, p: nat, j: nat, k: nat)
    requires WellFormed(l) && i < |l.b.shape| && Valid(ShapeOf(l), lead + [p, j]) && k < Rank(l)
    ensures |lead| + 2 == |l.a.shape|
    ensures Summand(Pointer(l, i, c), lead + [p, j], k) == if (lead + [p, j])[i] == c then 1.0 else 0.0
  {
    hide Fill, Marker, Get, Summand;
    var m, n := Pointer(l, i, c), |l.b.shape|;
    StackIndexB(l, lead, p, j, k);
    StackIndexA(l, lead, p, j, k);
    var xb, xa := lead + [p, k], Clamp(Lead(l.a.shape), lead) + [k, j];
    SummandTwo(m, lead, p, j, k);
    if i < n - 1 {
      MarkerAt(l.b.shape, i, c, xb);
      FillAt(l.a.shape, 1.0, xa);
      assert xb[i] == (lead + [p, j])[i];
    } else {
      MarkerAt(l.a.shape, i, c, xa);
      FillAt(l.b.shape, 1.0, xb);
      assert xa[i] == j == (lead + [p, j])[i];
    }
  }

  lemma PointerAt(l: Lora, i: nat, c: nat, x: Index)
    requires WellFormed(l) && i < |l.b.shape| && Valid(ShapeOf(l), x)
    ensures var m := Pointer(l, i, c);
            Multipliable(m.b, m.a) && Get(Product(m), x) == Rank(l) as real * (if x[i] == c then 1.0 else 0.0)
  {
    hide Summand, MatMul, Get, Pointer;
    var m, n := Pointer(l, i, c), |x|;
    ProductAt(m, x);
    var f, v := (k: nat) => Summand(m, x, k), if x[i] == c then 1.0 else 0.0;
    assert x == x[..n - 2] + [x[n - 2], x[n - 1]];
    forall k: nat | k < Rank(l)
      ensures f(k) == v
    {
      PointerSummand(l, i, c, x[..n - 2], x[n - 2], x[n - 1], k);
    }
    SumConstant(Rank(l), f, v);
  }

  /** Two places of a product can be told apart by some pair of the same shapes, unless the rank is 0. */
  lemma ToldApart(l: Lora, u: Index, v: Index) returns (m: Lora)
    requires WellFormed(l) && Rank(l) > 0 && Valid(ShapeOf(l), u) && Valid(ShapeOf(l), v) && u != v
    ensures Alike(l, m) && WellFormed(m) && Multipliable(m.b, m.a) && Get(Product(m), u) != Get(Product(m), v)
  {
    hide MatMul, Get, Pointer;
    var i :| 0 <= i < |u| && u[i] != v[i];
    m := Pointer(l, i, u[i]);
    PointerAt(l, i, u[i], u);
    PointerAt(l, i, u[i], v);
  }

  // ---------- lists of entries that select the same ----------

  /** On products of this shape both lists of entries take every element of the result from the same place. */
  ghost predicate SameSelection(xs: seq<Ix>, ys: seq<Ix>, s: Shape, rank: nat)
    requires |xs| == |ys| == |s|
  {
    match (ResolveAll(xs, s), ResolveAll(ys, s))
    case (Some(ps), Some(qs)) =>
      OutShape(ps) == OutShape(qs) && (rank > 0 ==> forall x | Valid(OutShape(ps), x) :: Source(ps, x) == Source(qs, x))
    case _ => false
  }

  lemma ItemIs(l: Lora, xs: seq<Ix>)
    requires WellFormed(l) && |xs| == |l.b.shape|
    ensures Multipliable(l.b, l.a) && Product(l).shape == ShapeOf(l)
    ensures ResolveAll(xs, ShapeOf(l)).None? ==> GetItem(Product(l), xs).None?
    ensures ResolveAll(xs, ShapeOf(l)).Some? ==>
              var ps := ResolveAll(xs, ShapeOf(l)).value;
              AllInAxis(ps, ShapeOf(l)) && GetItem(Product(l), xs) == Some(Select(Product(l), ps))
  {
    hide Select, MatMul, ResolveAll, AllInAxis;
    ProductShape(l);
    PaddedWhole(xs);
    if ResolveAll(xs, ShapeOf(l)).Some? {
      GetItemWhole(Product(l), xs, ResolveAll(xs, ShapeOf(l)).value);
    }
  }

  lemma ZeroProduct(l: Lora, x: Index)
    requires WellFormed(l) && Rank(l) == 0
    ensures Multipliable(l.b, l.a) && Get(Product(l), x) == 0.0
  {
    hide MatMul;
    ProductShape(l);
    if Valid(ShapeOf(l), x) {
      NoRank(l, x);
    }
  }

  lemma SelectedSame(l: Lora, ps: seq<Pick>, qs: seq<Pick>)
    requires WellFormed(l) && AllInAxis(ps, ShapeOf(l)) && AllInAxis(qs, ShapeOf(l)) && OutShape(ps) == OutShape(qs)
    requires Rank(l) > 0 ==> forall x | Valid(OutShape(ps), x) :: Source(ps, x) == Source(qs, x)
    ensures Multipliable(l.b, l.a) && Product(l).shape == ShapeOf(l)
    ensures Select(Product(l), ps) == Select(Product(l), qs)
  {
    hide MatMul, Select, AllInAxis, Get, Valid, Multipliable;
    ProductShape(l);
    var t, u := Select(Product(l), ps), Select(Product(l), qs);
    forall x | Valid(OutShape(ps), x)
      ensures Get(t, x) == Get(u, x)
    {
      ValidLength(OutShape(ps), x);
      SelectAt(Product(l), ps, x);
      SelectAt(Product(l), qs, x);
      if Rank(l) == 0 {
        ZeroProduct(l, Source(ps, x));
        ZeroProduct(l, Source(qs, x));
      }
    }
    TensorExt(t, u);
  }

  lemma SelectedApart(l: Lora, ps: seq<Pick>, qs: seq<Pick>, x: Index) returns (m: Lora)
    requires WellFormed(l) && AllInAxis(ps, ShapeOf(l)) && AllInAxis(qs, ShapeOf(l)) && OutShape(ps) == OutShape(qs)
    requires Rank(l) > 0 && Valid(OutShape(ps), x) && |x| == |OutShape(ps)| && Source(ps, x) != Source(qs, x)
    ensures Alike(l, m) && WellFormed(m) && Multipliable(m.b, m.a) && Product(m).shape == ShapeOf(l)
    ensures Select(Product(m), ps) != Select(Product(m), qs)
  {
    hide MatMul, Select, AllInAxis, Get, Multipliable;
    SourceValid(ps, ShapeOf(l), x);
    SourceValid(qs, ShapeOf(l), x);
    m := ToldApart(l, Source(ps, x), Source(qs, x));
    ProductShape(m);
    SelectAt(Product(m), ps, x);
    SelectAt(Product(m), qs, x);
  }

  /** Both lists of entries select the same tensor from every product of these factor shapes. */
  ghost predicate AlwaysEqual(l: Lora, xs: seq<Ix>, ys: seq<Ix>)
    requires WellFormed(l)
  {
    forall m | Alike(l, m) && WellFormed(m) && Multipliable(m.b, m.a) ::
      GetItem(Product(m), xs).Some? && GetItem(Product(m), xs) == GetItem(Product(m), ys)
  }

  /** They do exactly when they select the same places. */
  lemma SelectionExact(l: Lora, xs: seq<Ix>, ys: seq<Ix>)
    requires WellFormed(l) && |xs| == |ys| == |l.b.shape|
    ensures AlwaysEqual(l, xs, ys) <==> SameSelection(xs, ys, ShapeOf(l), Rank(l))
  {
    hide GetItem, SameSelection, Product, Multipliable;
    if SameSelection(xs, ys, ShapeOf(l), Rank(l)) {
      forall m | Alike(l, m) && WellFormed(m) && Multipliable(m.b, m.a)
        ensures GetItem(Product(m), xs).Some? && GetItem(Product(m), xs) == GetItem(Product(m), ys)
      {
        SelectionHolds(m, xs, ys);
      }
    } else if AlwaysEqual(l, xs, ys) {
      SelectionFails(l, xs, ys);
    }
  }

  lemma SelectionHolds(l: Lora, xs: seq<Ix>, ys: seq<Ix>)
    requires WellFormed(l) && |xs| == |ys| == |l.b.shape| && SameSelection(xs, ys, ShapeOf(l), Rank(l))
    ensures Multipliable(l.b, l.a)
    ensures GetItem(Product(l), xs).Some? && GetItem(Product(l), xs) == GetItem(Product(l), ys)
  {
    hide GetItem, Select, MatMul, ResolveAll, AllInAxis, Get, Valid, OutShape, Source, Multipliable;
    ItemIs(l, xs);
    ItemIs(l, ys);
    SelectedSame(l, ResolveAll(xs, ShapeOf(l)).value, ResolveAll(ys, ShapeOf(l)).value);
  }

  lemma SelectionFails(l: Lora, xs: seq<Ix>, ys: seq<Ix>)
    requires WellFormed(l) && |xs| == |ys| == |l.b.shape| && !SameSelection(xs, ys, ShapeOf(l), Rank(l))
    ensures !AlwaysEqual(l, xs, ys)
  {
    hide GetItem, Select, MatMul, ResolveAll, AllInAxis, Get, Valid, OutShape, Source, Multipliable;
    ItemIs(l, xs);
    ItemIs(l, ys);
    if ResolveAll(xs, ShapeOf(l)).Some? && ResolveAll(ys, ShapeOf(l)).Some? {
      var ps, qs := ResolveAll(xs, ShapeOf(l)).value, ResolveAll(ys, ShapeOf(l)).value;
      if OutShape(ps) == OutShape(qs) {
        ElementsFail(l, xs, ys, ps, qs);
      } else {
        assert Select(Product(l), ps).shape != Select(Product(l), qs).shape;
      }
    }
  }

  lemma ElementsFail(l: Lora, xs: seq<Ix>, ys: seq<Ix>, ps: seq<Pick>, qs: seq<Pick>)
    requires WellFormed(l) && |xs| == |ys| == |l.b.shape|
    requires ResolveAll(xs, ShapeOf(l)) == Some(ps) && ResolveAll(ys, ShapeOf(l)) == Some(qs)
    requires OutShape(ps) == OutShape(qs) && !SameSelection(xs, ys, ShapeOf(l), Rank(l))
    ensures !AlwaysEqual(l, xs, ys)
  {
    hide GetItem, Select, MatMul, ResolveAll, AllInAxis, Get, OutShape, Source, Multipliable;
    ItemIs(l, xs);
    ItemIs(l, ys);
    var x :| Valid(OutShape(ps), x) && Source(ps, x) != Source(qs, x);
    var m := SelectedApart(l, ps, qs, x);
    ItemIs(m, xs);
    ItemIs(m, ys);
  }

  // ---------- the wrapper's reading ----------

  /** What indexing with `given` returns stands for the product indexed with `meant`, for all pairs of these shapes. */
  ghost predicate AlwaysMeans(l: Lora, given: seq<Ix>, meant: seq<Ix>) {
    forall m | Alike(l, m) && WellFormed(m) ::
      GetEntries(m, given).Ok? && StandsFor(GetEntries(m, given).value, m, meant)
  }

  lemma GivenIndexes(l: Lora, m: Lora, given: seq<Ix>)
    requires WellFormed(l) && |given| == |l.a.shape| && Alike(l, m) && WellFormed(m)
    requires given[|given| - 2].Slice? && given[|given| - 1].Slice? && TupleGuard(l, given)
    ensures Multipliable(m.b, m.a) && (GetEntries(m, given).Ok? <==> GetItem(Product(m), given).Some?)
    ensures GetEntries(m, given).Ok? ==> StandsFor(GetEntries(m, given).value, m, given)
  {
    hide GetEntries, GetItem, StandsFor, Product, Multipliable;
    PaddedWhole(given);
    GetEntriesAccepted(m, given);
    if GetEntries(m, given).Ok? {
      GetEntriesExact(m, given);
    }
  }

  /** Where the guard holds, reading a tuple as `given` is right for all pairs exactly when it selects what is meant. */
  lemma ReadingExact(l: Lora, given: seq<Ix>, meant: seq<Ix>)
    requires WellFormed(l) && |given| == |meant| == |l.a.shape|
    requires given[|given| - 2].Slice? && given[|given| - 1].Slice? && TupleGuard(l, given)
    ensures AlwaysMeans(l, given, meant) <==> SameSelection(given, meant, ShapeOf(l), Rank(l))
  {
    hide GetEntries, GetItem, Product, Multipliable, SameSelection, TupleGuard;
    SelectionExact(l, given, meant);
    forall m | Alike(l, m) && WellFormed(m)
      ensures Multipliable(m.b, m.a)
      ensures GetEntries(m, given).Ok? && StandsFor(GetEntries(m, given).value, m, meant) <==>
              GetItem(Product(m), given).Some? && GetItem(Product(m), given) == GetItem(Product(m), meant)
    {
      GivenIndexes(l, m, given);
    }
  }

  /**
   * A tuple with one ellipsis in which the wrapper inserts too few slices: it is right for all pairs of these
   * shapes exactly when, filled up behind instead, it selects the same places.
   */
  lemma EllipsisAlways(l: Lora, pre: seq<Ix>, post: seq<Ix>)
    requires WellFormed(l) && post != [] && 2 * (|pre| + |post|) <= |l.a.shape|
    requires var given := Padded(pre + Fulls(|pre| + |post|) + post, |l.a.shape|);
             given[|given| - 2].Slice? && given[|given| - 1].Slice? && TupleGuard(l, given)
    ensures var n, es := |l.a.shape|, Axes(pre) + [Ellipsis] + Axes(post);
            (forall m | Alike(l, m) && WellFormed(m) ::
               GetTuple(m, es).Ok? && StandsFor(GetTuple(m, es).value, m, EllipsisMeaning(pre, post, n))) <==>
            SameSelection(Padded(pre + Fulls(|pre| + |post|) + post, n), EllipsisMeaning(pre, post, n),
                          ShapeOf(l), Rank(l))
  {
    hide GetEntries, StandsFor, SameSelection, TupleGuard, GetTuple, Expand;
    var n, ixs := |l.a.shape|, pre + Fulls(|pre| + |post|) + post;
    ReadingExact(l, Padded(ixs, n), EllipsisMeaning(pre, post, n));
    forall m | Alike(l, m) && WellFormed(m)
      ensures GetTuple(m, Axes(pre) + [Ellipsis] + Axes(post)) == GetEntries(m, Padded(ixs, n))
    {
      GetTupleEllipsis(m, pre, post);
      ExpandEllipsis(pre, post, |pre| + |post|);
      EntriesPadded(m, ixs);
    }
  }

  lemma EntriesPadded(l: Lora, ixs: seq<Ix>)
    requires WellFormed(l) && |ixs| <= |l.a.shape|
    ensures GetEntries(l, Padded(ixs, |l.a.shape|)) == GetEntries(l, ixs)
  {
    hide IndexFactors;
    PaddedWhole(Padded(ixs, |l.a.shape|));
  }
}
