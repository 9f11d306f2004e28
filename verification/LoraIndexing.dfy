/** `__getitem__` of the low-rank wrapper: plain integers, plain slices and index tuples with an ellipsis. */
module LoraIndexing {
  import opened Common
  import opened TensorAlgebra
  import opened LoraTensor

  /** `self._lora_A[ixsA]`, `self._lora_B[ixsB]`, and the constructor. */
  function IndexFactors(l: Lora, ixsA: seq<Ix>, ixsB: seq<Ix>): LoraResult {
    match (GetItem(l.a, ixsA), GetItem(l.b, ixsB))
    case (Some(a), Some(b)) => New(a, b)
    case _ => Err(BadIndex)
  }

  function GetInt(l: Lora, i: int): LoraResult
    requires WellFormed(l)
  {
    if |ShapeOf(l)| > 2 then IndexFactors(l, [Int(i)], [Int(i)]) else Err(NotImplemented)
  }

  function GetSlice(l: Lora, sl: Ix): LoraResult
    requires WellFormed(l) && sl.Slice?
  {
    if |ShapeOf(l)| > 2 then IndexFactors(l, [sl], [sl])
    else match GetItem(l.b, [sl]) case Some(b) => New(l.a, b) case None => Err(BadIndex)
  }

  datatype Entry = Axis(ix: Ix) | Ellipsis

  /** Every ellipsis replaced by `k` full slices. */
  function Expand(es: seq<Entry>, k: nat): seq<Ix> {
    FlatMap((e: Entry) => match e case Axis(ix) => [ix] case Ellipsis => seq(k, _ => FULL), es)
  }

  /** The entries for A: integers reduced modulo A's own dimension, slices dropped, the last entry kept. */
  function EntriesA(l: Lora, ixs: seq<Ix>): seq<Ix>
    requires |ixs| == |l.a.shape| >= 2
    requires forall i | 0 <= i < |ixs| - 2 :: ixs[i].Int? ==> l.a.shape[i] != 0
  {
    var n := |ixs|;
    seq(n - 2, i requires 0 <= i < n - 2 =>
          match ixs[i] case Int(j) => Int(j % l.a.shape[i]) case Slice(_, _, _) => FULL)
    + [FULL, ixs[n - 1]]
  }

  /** The tuple path once the ellipsis is expanded. */
  function GetEntries(l: Lora, given: seq<Ix>): LoraResult
    requires WellFormed(l)
  {
    var n := |l.a.shape|;
    if |given| > n then Err(BadIndex)
    else
      var ixs := Padded(given, n);
      if exists i :: 0 <= i < n - 2 && ixs[i].Int? && l.a.shape[i] == 0 then Err(BadIndex)
      else IndexFactors(l, EntriesA(l, ixs), ixs[..n - 1])
  }

  function GetTuple(l: Lora, es: seq<Entry>): LoraResult
    requires WellFormed(l)
  {
    if es == [] then Err(AssertionError)
    else if es[|es| - 1] == Ellipsis then GetTuple(l, es[..|es| - 1])
    else GetEntries(l, Expand(es, |es| - 1))
  }

  // ---------- joining the picks of the two factors ----------

  lemma ResolveFull(d: nat)
    ensures Resolve(FULL, d) == Some(FullRange(d))
  {
  }

  lemma ResolveAllIs(ixs: seq<Ix>, s: Shape, ps: seq<Pick>)
    requires |ixs| == |s| == |ps| && forall i | 0 <= i < |s| :: Resolve(ixs[i], s[i]) == Some(ps[i])
    ensures ResolveAll(ixs, s) == Some(ps)
  {
    var r := ResolveAll(ixs, s);
    if r.Some? {
      assert forall i | 0 <= i < |s| :: r.value[i] == ps[i];
      assert r.value == ps;
    }
  }

  /** Entries on the product and the same entries as the two factors see them. */
  predicate Aligned(l: Lora, ixsA: seq<Ix>, ixsB: seq<Ix>, ixs: seq<Ix>) {
    var n := |ixs|;
    && WellFormed(l) && |ixsA| == |ixsB| == n == |l.a.shape|
    && ixsA[n - 2] == FULL && ixsA[n - 1] == ixs[n - 1]
    && ixsB[n - 1] == FULL && ixsB[..n - 1] == ixs[..n - 1]
    && ResolveAll(ixsA, l.a.shape).Some? && ResolveAll(ixsB, l.b.shape).Some?
  }

  function JoinedPicks(l: Lora, ixsA: seq<Ix>, ixsB: seq<Ix>, ixs: seq<Ix>): (seq<Pick>, seq<Pick>)
    requires Aligned(l, ixsA, ixsB, ixs)
  {
    var n, pa, pb := |ixs|, ResolveAll(ixsA, l.a.shape).value, ResolveAll(ixsB, l.b.shape).value;
    (pb[..n - 1] + [pa[n - 1]], pa[..n - 2])
  }

  lemma JoinedResolve(l: Lora, ixsA: seq<Ix>, ixsB: seq<Ix>, ixs: seq<Ix>)
    requires Aligned(l, ixsA, ixsB, ixs)
    ensures var (ps, qs) := JoinedPicks(l, ixsA, ixsB, ixs);
            && ResolveAll(ixs, ShapeOf(l)) == Some(ps)
            && ResolveAll(ixsB, l.b.shape) == Some(PicksB(l, ps))
            && ResolveAll(ixsA, l.a.shape) == Some(PicksA(l, ps, qs))
            && AllInAxis(ps, ShapeOf(l)) && AllInAxis(qs, Lead(l.a.shape))
  {
    hide InAxis, ResolveAll;
    var (ps, qs) := JoinedPicks(l, ixsA, ixsB, ixs);
    var n, pa, pb := |ixs|, ResolveAll(ixsA, l.a.shape).value, ResolveAll(ixsB, l.b.shape).value;
    forall i | 0 <= i < n ensures Resolve(ixs[i], ShapeOf(l)[i]) == Some(ps[i]) {
      if i < n - 1 {
        assert ixs[i] == ixs[..n - 1][i] == ixsB[..n - 1][i] == ixsB[i];
      }
    }
    ResolveAllIs(ixs, ShapeOf(l), ps);
    ResolveFull(Rank(l));
    assert Resolve(ixsB[n - 1], l.b.shape[n - 1]) == Some(pb[n - 1]);
    assert Resolve(ixsA[n - 2], l.a.shape[n - 2]) == Some(pa[n - 2]);
    assert pb == PicksB(l, ps);
    assert pa == PicksA(l, ps, qs);
    ResolvedInAxis(ixs, ShapeOf(l));
    ResolvedInAxis(ixsA, l.a.shape);
    assert forall i | 0 <= i < n - 2 :: qs[i] == pa[i] && Lead(l.a.shape)[i] == l.a.shape[i];
  }

  /** Both factors agree on which leading axes disappear. */
  predicate SameKinds(ps: seq<Pick>, qs: seq<Pick>) {
    |ps| == |qs| && forall i | 0 <= i < |ps| :: ps[i].Point? <==> qs[i].Point?
  }

  predicate LeadFits(a: Shape, b: Shape) {
    |a| == |b| && forall i | 0 <= i < |a| :: a[i] == 1 || a[i] == b[i]
  }

  predicate LengthsFit(ps: seq<Pick>, qs: seq<Pick>) {
    && |ps| == |qs|
    && forall i | 0 <= i < |ps| :: ps[i].Range? && qs[i].Range? ==> qs[i].len == 1 || qs[i].len == ps[i].len
  }

  /** The results' leading dimensions fit exactly when the selected lengths do, axis by axis. */
  lemma {:induction false} FitsExact(ps: seq<Pick>, qs: seq<Pick>)
    requires SameKinds(ps, qs)
    ensures |OutShape(ps)| == |OutShape(qs)|
    ensures LeadFits(OutShape(qs), OutShape(ps)) <==> LengthsFit(ps, qs)
    decreases |ps|
  {
    if ps != [] {
      var n := |ps| - 1;
      FitsExact(ps[..n], qs[..n]);
      assert LengthsFit(ps, qs) <==>
             LengthsFit(ps[..n], qs[..n]) && (ps[n].Range? ==> qs[n].len == 1 || qs[n].len == ps[n].len) by {
        LengthsFitSnoc(ps[..n], qs[..n], ps[n], qs[n]);
        assert ps == ps[..n] + [ps[n]] && qs == qs[..n] + [qs[n]];
      }
      if ps[n].Range? {
        LeadFitsSnoc(OutShape(qs[..n]), OutShape(ps[..n]), qs[n].len, ps[n].len);
      }
    }
  }

  lemma LengthsFitSnoc(ps: seq<Pick>, qs: seq<Pick>, p: Pick, q: Pick)
    requires |ps| == |qs| && (p.Point? <==> q.Point?)
    ensures LengthsFit(ps + [p], qs + [q]) <==>
            LengthsFit(ps, qs) && (p.Range? ==> q.len == 1 || q.len == p.len)
  {
    var a, b := ps + [p], qs + [q];
    assert forall i | 0 <= i < |ps| :: a[i] == ps[i] && b[i] == qs[i];
    assert a[|ps|] == p && b[|ps|] == q;
  }

  lemma LeadFitsSnoc(a: Shape, b: Shape, d: nat, e: nat)
    requires |a| == |b|
    ensures LeadFits(a + [d], b + [e]) <==> LeadFits(a, b) && (d == 1 || d == e)
  {
    var x, y := a + [d], b + [e];
    assert forall i | 0 <= i < |a| :: x[i] == a[i] && y[i] == b[i];
    assert x[|a|] == d && y[|a|] == e;
  }

  /** A length that fits selects the right element of A. */
  predicate AxisFits(aDim: nat, p: Pick, q: Pick) {
    && (p.Point? <==> q.Point?)
    && (p.Point? ==> LeadMatches(aDim, p, q))
    && (p.Range? ==> (LeadMatches(aDim, p, q) <==> q.len == 1 || q.len == p.len))
  }

  lemma GetItemWhole(t: Tensor, ixs: seq<Ix>, ps: seq<Pick>)
    requires |ixs| == |t.shape| && ResolveAll(ixs, t.shape) == Some(ps)
    ensures AllInAxis(ps, t.shape) && GetItem(t, ixs) == Some(Select(t, ps))
  {
    PaddedWhole(ixs);
    ResolvedInAxis(ixs, t.shape);
  }

  lemma JoinedRanges(l: Lora, ixsA: seq<Ix>, ixsB: seq<Ix>, ixs: seq<Ix>, ps: seq<Pick>, qs: seq<Pick>)
    requires Aligned(l, ixsA, ixsB, ixs) && (ps, qs) == JoinedPicks(l, ixsA, ixsB, ixs)
    ensures |ps| == |ixs| && forall i | 0 <= i < |ps| :: ps[i].Range? <==> ixs[i].Slice?
  {
    JoinedResolve(l, ixsA, ixsB, ixs);
    forall i | 0 <= i < |ps| ensures ps[i].Range? <==> ixs[i].Slice? {
      assert Resolve(ixs[i], ShapeOf(l)[i]) == Some(ps[i]);
    }
  }

  /** What indexing the factors gives when the last two entries are slices. */
  lemma IndexFactorsValue(l: Lora, ixsA: seq<Ix>, ixsB: seq<Ix>, ixs: seq<Ix>, ps: seq<Pick>, qs: seq<Pick>)
    requires Aligned(l, ixsA, ixsB, ixs) && (ps, qs) == JoinedPicks(l, ixsA, ixsB, ixs)
    requires ps[|ps| - 2].Range? && ps[|ps| - 1].Range? && SameKinds(ps[..|ps| - 2], qs)
    ensures AllInAxis(PicksA(l, ps, qs), l.a.shape) && AllInAxis(PicksB(l, ps), l.b.shape)
    ensures IndexFactors(l, ixsA, ixsB) == Ok(Lora(Select(l.a, PicksA(l, ps, qs)), Select(l.b, PicksB(l, ps))))
  {
    hide AllInAxis, InAxis;
    JoinedResolve(l, ixsA, ixsB, ixs);
    GetItemWhole(l.a, ixsA, PicksA(l, ps, qs));
    GetItemWhole(l.b, ixsB, PicksB(l, ps));
    ShapesOfResult(l, ps, qs);
    FitsExact(ps[..|ps| - 2], qs);
    NewOk(Select(l.a, PicksA(l, ps, qs)), Select(l.b, PicksB(l, ps)),
          OutShape(qs), OutShape(ps[..|ps| - 2]), Rank(l), ps[|ps| - 2].len, ps[|ps| - 1].len);
  }

  lemma NewOk(x: Tensor, y: Tensor, a: Shape, b: Shape, r: nat, d: nat, e: nat)
    requires |a| == |b| && x.shape == a + [r, e] && y.shape == b + [d, r]
    ensures New(x, y) == Ok(Lora(x, y))
  {
  }

  lemma KindsAgree(l: Lora, ps: seq<Pick>, qs: seq<Pick>)
    requires |l.a.shape| == |ps| == |qs| + 2 && forall i | 0 <= i < |qs| :: AxisFits(l.a.shape[i], ps[i], qs[i])
    ensures SameKinds(ps[..|ps| - 2], qs)
  {
    forall i | 0 <= i < |qs| ensures ps[..|ps| - 2][i].Point? <==> qs[i].Point? {
      assert AxisFits(l.a.shape[i], ps[i], qs[i]);
    }
  }

  /** `m` stands for the product of `l` indexed by `ixs`. */
  predicate StandsFor(m: Lora, l: Lora, ixs: seq<Ix>) {
    && Multipliable(l.b, l.a) && Multipliable(m.b, m.a)
    && GetItem(Product(l), ixs) == Some(Product(m))
  }

  /**
   * When the last two entries are slices: the pair is well formed exactly when the selected lengths fit,
   * and then it stands for the indexed product.
   */
  lemma IndexFactorsExact(l: Lora, ixsA: seq<Ix>, ixsB: seq<Ix>, ixs: seq<Ix>, ps: seq<Pick>, qs: seq<Pick>)
    requires Aligned(l, ixsA, ixsB, ixs) && (ps, qs) == JoinedPicks(l, ixsA, ixsB, ixs)
    requires ixs[|ixs| - 2].Slice? && ixs[|ixs| - 1].Slice?
    requires forall i | 0 <= i < |qs| :: AxisFits(l.a.shape[i], ps[i], qs[i])
    ensures IndexFactors(l, ixsA, ixsB).Ok?
    ensures var m := IndexFactors(l, ixsA, ixsB).value;
            && (WellFormed(m) <==> LengthsFit(ps[..|ps| - 2], qs))
            && (WellFormed(m) <==> StandsFor(m, l, ixs))
  {
    hide Multipliable, Product;
    var n := |ps|;
    JoinedRanges(l, ixsA, ixsB, ixs, ps, qs);
    KindsAgree(l, ps, qs);
    IndexFactorsValue(l, ixsA, ixsB, ixs, ps, qs);
    var m := IndexFactors(l, ixsA, ixsB).value;
    FitsExact(ps[..n - 2], qs);
    ShapesOfResult(l, ps, qs);
    WellFormedParts(m, OutShape(qs), OutShape(ps[..n - 2]), Rank(l), ps[n - 2].len, ps[n - 1].len);
    if LengthsFit(ps[..n - 2], qs) {
      ProductIndexed(l, ixsA, ixsB, ixs, ps, qs);
    }
    if StandsFor(m, l, ixs) {
      ShapeDecides(l, ixsA, ixsB, ixs, ps, qs, m);
    }
  }

  lemma IndexedShape(l: Lora, ixsA: seq<Ix>, ixsB: seq<Ix>, ixs: seq<Ix>, ps: seq<Pick>, qs: seq<Pick>)
    requires Aligned(l, ixsA, ixsB, ixs) && (ps, qs) == JoinedPicks(l, ixsA, ixsB, ixs)
    ensures Multipliable(l.b, l.a) && GetItem(Product(l), ixs).Some?
    ensures GetItem(Product(l), ixs).value.shape == OutShape(ps)
  {
    JoinedResolve(l, ixsA, ixsB, ixs);
    WellFormedMultipliable(l);
    GetItemWhole(Product(l), ixs, ps);
  }

  lemma ResultShape(l: Lora, ps: seq<Pick>, qs: seq<Pick>, m: Lora)
    requires |ps| == |l.b.shape| >= 2 && ps[|ps| - 2].Range? && ps[|ps| - 1].Range?
    requires m.b.shape == OutShape(PicksB(l, ps)) && m.a.shape == OutShape(PicksA(l, ps, qs))
    requires |m.a.shape| == |m.b.shape| >= 2
    ensures ShapeOf(m) == OutShape(ps)
  {
    hide OutShape, PicksA, PicksB;
    var n := |ps|;
    ShapesOfResult(l, ps, qs);
    OutShapeTwo(ps[..n - 2], ps[n - 2], ps[n - 1]);
    assert ps == ps[..n - 2] + [ps[n - 2], ps[n - 1]];
  }

  /** An ill-formed result does not stand for the indexed product: already its shape is another. */
  lemma ShapeDecides(
      l: Lora, ixsA: seq<Ix>, ixsB: seq<Ix>, ixs: seq<Ix>, ps: seq<Pick>, qs: seq<Pick>, m: Lora)
    requires Aligned(l, ixsA, ixsB, ixs) && (ps, qs) == JoinedPicks(l, ixsA, ixsB, ixs) && |ps| == |l.b.shape|
    requires ps[|ps| - 2].Range? && ps[|ps| - 1].Range? && |m.a.shape| == |m.b.shape| >= 2
    requires m.b.shape == OutShape(PicksB(l, ps)) && m.a.shape == OutShape(PicksA(l, ps, qs))
    requires StandsFor(m, l, ixs)
    ensures WellFormed(m)
  {
    hide Product, Multipliable, GetItem, OutShape, PicksA, PicksB, Aligned, JoinedPicks, ShapeOf, WellFormed;
    IndexedShape(l, ixsA, ixsB, ixs, ps, qs);
    ResultShape(l, ps, qs, m);
    ShapeExact(m);
  }

  lemma ProductIndexed(l: Lora, ixsA: seq<Ix>, ixsB: seq<Ix>, ixs: seq<Ix>, ps: seq<Pick>, qs: seq<Pick>)
    requires Aligned(l, ixsA, ixsB, ixs) && (ps, qs) == JoinedPicks(l, ixsA, ixsB, ixs)
    requires ps[|ps| - 2].Range? && ps[|ps| - 1].Range?
    requires forall i | 0 <= i < |qs| :: AxisFits(l.a.shape[i], ps[i], qs[i])
    requires LengthsFit(ps[..|ps| - 2], qs)
    ensures AllInAxis(PicksA(l, ps, qs), l.a.shape) && AllInAxis(PicksB(l, ps), l.b.shape)
    ensures var m := Lora(Select(l.a, PicksA(l, ps, qs)), Select(l.b, PicksB(l, ps)));
            && Multipliable(l.b, l.a) && Multipliable(m.b, m.a)
            && GetItem(Product(l), ixs) == Some(Product(m))
  {
    JoinedResolve(l, ixsA, ixsB, ixs);
    FitsMatch(l, ps, qs);
    SplitInAxis(l, ps, qs);
    SplitCommutes(l, ps, qs);
    WellFormedMultipliable(l);
    GetItemWhole(Product(l), ixs, ps);
  }

  lemma WellFormedParts(m: Lora, a: Shape, b: Shape, r: nat, d: nat, e: nat)
    requires |a| == |b| && m.a.shape == a + [r, e] && m.b.shape == b + [d, r]
    ensures WellFormed(m) <==> LeadFits(a, b)
  {
    assert forall i | 0 <= i < |a| :: m.a.shape[i] == a[i] && m.b.shape[i] == b[i];
    if WellFormed(m) {
      forall i | 0 <= i < |a| ensures a[i] == 1 || a[i] == b[i] {
        assert m.a.shape[i] == 1 || m.a.shape[i] == m.b.shape[i];
      }
    }
  }

  lemma PaddedWhole(ixs: seq<Ix>)
    ensures Padded(ixs, |ixs|) == ixs
  {
  }

  lemma ShapesOfResult(l: Lora, ps: seq<Pick>, qs: seq<Pick>)
    requires |ps| == |l.b.shape| >= 2 && ps[|ps| - 2].Range? && ps[|ps| - 1].Range?
    ensures OutShape(PicksA(l, ps, qs)) == OutShape(qs) + [Rank(l), ps[|ps| - 1].len]
    ensures OutShape(PicksB(l, ps)) == OutShape(ps[..|ps| - 2]) + [ps[|ps| - 2].len, Rank(l)]
  {
    var n := |ps|;
    OutShapeTwo(qs, FullRange(Rank(l)), ps[n - 1]);
    assert PicksB(l, ps) == ps[..n - 2] + [ps[n - 2], FullRange(Rank(l))];
    OutShapeTwo(ps[..n - 2], ps[n - 2], FullRange(Rank(l)));
  }

  lemma FitsMatch(l: Lora, ps: seq<Pick>, qs: seq<Pick>)
    requires WellFormed(l) && AllInAxis(ps, ShapeOf(l)) && AllInAxis(qs, Lead(l.a.shape))
    requires |qs| == |ps| - 2 && ps[|ps| - 2].Range? && ps[|ps| - 1].Range?
    requires forall i | 0 <= i < |qs| :: AxisFits(l.a.shape[i], ps[i], qs[i])
    requires LengthsFit(ps[..|ps| - 2], qs)
    ensures SplitOk(l, ps, qs)
  {
    var lead := Lead(l.a.shape);
    forall i | 0 <= i < |qs| ensures LeadMatches(lead[i], ps[..|ps| - 2][i], qs[i]) {
      assert AxisFits(l.a.shape[i], ps[i], qs[i]);
      assert ps[..|ps| - 2][i] == ps[i];
    }
  }

  // ---------- one axis ----------

  lemma IntAxisFits(aDim: nat, bDim: nat, i: int, p: Pick, q: Pick)
    requires aDim == 1 || aDim == bDim
    requires Resolve(Int(i), bDim) == Some(p) && Resolve(Int(i), aDim) == Some(q)
    ensures AxisFits(aDim, p, q)
  {
  }

  /** In the tuple path A's entry is the integer modulo its own dimension. */
  lemma ModAxisFits(aDim: nat, bDim: nat, i: int, p: Pick, q: Pick)
    requires (aDim == 1 || aDim == bDim) && aDim != 0
    requires Resolve(Int(i), bDim) == Some(p) && Resolve(Int(i % aDim), aDim) == Some(q)
    ensures AxisFits(aDim, p, q)
  {
    if aDim == bDim {
      assert 0 <= i < aDim ==> i % aDim == i;
      assert i < 0 <= i + aDim ==> i % aDim == i + aDim by {
        if i < 0 <= i + aDim {
          ModShift(i, aDim);
        }
      }
    }
  }

  lemma ModShift(i: int, d: nat)
    requires i < 0 <= i + d
    ensures d != 0 && i % d == i + d
  {
    var q := i / d;
    assert d * q + i % d == i;
    MulBounds(d, q);
  }

  lemma MulBounds(d: nat, q: int)
    ensures q >= 0 ==> d * q >= 0
    ensures q <= -2 ==> d * q <= -2 * d
  {
    if q <= -2 {
      MulMono(2, -q, d);
      assert d * q == -((-q) * d);
    }
  }

  lemma EqualSlicesFit(d: nat, p: Pick)
    requires p.Range? && InAxis(p, d)
    ensures AxisFits(d, p, p)
  {
    if d == 1 {
      forall o: nat | o < p.len ensures Nth(p, o) == 0 {
        assert Nth(p, o) < d;
      }
    }
  }

  /** Selecting as many elements as there are selects them all in order. */
  lemma WholeRange(p: Pick, d: nat, o: nat)
    requires p.Range? && InAxis(p, d) && p.step >= 1 && p.len == d && o < d
    ensures Nth(p, o) == o
  {
    assert Nth(p, d - 1) < d;
    MulMono(1, p.step, d - 1);
    MulMono(2, p.step, d - 1);
  }

  /** A full slice of A fits: it keeps the single element of A, or the axis is not really sliced. */
  lemma FullSliceFits(aDim: nat, bDim: nat, p: Pick)
    requires (aDim == 1 || aDim == bDim) && p.Range? && InAxis(p, bDim) && p.step >= 1
    ensures AxisFits(aDim, p, FullRange(aDim))
  {
    assert Nth(FullRange(aDim), 0) == 0;
    if aDim != 1 && p.len == aDim {
      forall o: nat | o < p.len ensures Nth(FullRange(aDim), o) == Nth(p, o) {
        WholeRange(p, aDim, o);
      }
    }
  }

  /** Slicing A like B on a broadcast axis fits unless the slice loses A's only element. */
  lemma BroadcastSliceFits(bDim: nat, p: Pick, q: Pick)
    requires p.Range? && InAxis(p, bDim) && q.Range? && InAxis(q, 1) && q.step >= 1
    ensures q.len <= 1 && AxisFits(1, p, q)
  {
    assert q.len > 1 ==> Nth(q, 1) < 1;
    assert q.len == 1 ==> Nth(q, 0) < 1;
  }

  // ---------- plain integers and slices ----------

  lemma PadItem(t: Tensor, ixs: seq<Ix>)
    requires |ixs| <= |t.shape|
    ensures GetItem(t, ixs) == GetItem(t, Padded(ixs, |t.shape|))
  {
    PaddedWhole(Padded(ixs, |t.shape|));
  }

  lemma PadFactors(l: Lora, ixsA: seq<Ix>, ixsB: seq<Ix>)
    requires |ixsA| <= |l.a.shape| && |ixsB| <= |l.b.shape|
    ensures IndexFactors(l, ixsA, ixsB) == IndexFactors(l, Padded(ixsA, |l.a.shape|), Padded(ixsB, |l.b.shape|))
  {
    PadItem(l.a, ixsA);
    PadItem(l.b, ixsB);
  }

  lemma {:induction false} ResolveFulls(s: Shape, ixs: seq<Ix>)
    requires |ixs| == |s| && forall i | 0 <= i < |s| :: Resolve(ixs[i], s[i]).Some?
    ensures ResolveAll(ixs, s).Some?
  {
    if s != [] {
      ResolveFulls(s[..|s| - 1], ixs[..|s| - 1]);
    }
  }

  /** One entry for the first axis, given to both factors of a tensor with leading dimensions. */
  lemma FirstAxisAligned(l: Lora, ix: Ix)
    requires WellFormed(l) && |l.a.shape| > 2
    requires Resolve(ix, l.a.shape[0]).Some? && Resolve(ix, l.b.shape[0]).Some?
    ensures var ixs := Padded([ix], |l.a.shape|);
            && Aligned(l, ixs, ixs, ixs)
            && var (ps, qs) := JoinedPicks(l, ixs, ixs, ixs);
            && ps[0] == Resolve(ix, l.b.shape[0]).value && qs[0] == Resolve(ix, l.a.shape[0]).value
            && forall i | 0 < i < |qs| :: ps[i] == FullRange(l.b.shape[i]) && qs[i] == FullRange(l.a.shape[i])
  {
    var n := |l.a.shape|;
    var ixs := Padded([ix], n);
    assert forall i | 0 < i < n :: ixs[i] == FULL;
    ResolveFulls(l.a.shape, ixs);
    ResolveFulls(l.b.shape, ixs);
    var pa, pb := ResolveAll(ixs, l.a.shape).value, ResolveAll(ixs, l.b.shape).value;
    forall i | 0 < i < n ensures pb[i] == FullRange(l.b.shape[i]) && pa[i] == FullRange(l.a.shape[i]) {
      ResolveFull(l.a.shape[i]);
      ResolveFull(l.b.shape[i]);
      assert Resolve(ixs[i], l.a.shape[i]) == Some(pa[i]) && Resolve(ixs[i], l.b.shape[i]) == Some(pb[i]);
    }
    assert Resolve(ixs[0], l.a.shape[0]) == Some(pa[0]) && Resolve(ixs[0], l.b.shape[0]) == Some(pb[0]);
  }

  lemma FirstAxisFits(l: Lora, ps: seq<Pick>, qs: seq<Pick>)
    requires WellFormed(l) && |ps| == |l.a.shape| == |qs| + 2 && qs != []
    requires forall i | 0 < i < |qs| :: ps[i] == FullRange(l.b.shape[i]) && qs[i] == FullRange(l.a.shape[i])
    requires AxisFits(l.a.shape[0], ps[0], qs[0])
    ensures forall i | 0 <= i < |qs| :: AxisFits(l.a.shape[i], ps[i], qs[i])
    ensures LengthsFit(ps[..|ps| - 2], qs) <==> (ps[0].Range? ==> qs[0].len == 1 || qs[0].len == ps[0].len)
  {
    forall i | 0 <= i < |qs| ensures AxisFits(l.a.shape[i], ps[i], qs[i]) {
      if i > 0 {
        FullInAxis(l.b.shape[i]);
        FullSliceFits(l.a.shape[i], l.b.shape[i], ps[i]);
      }
    }
    var lead := ps[..|ps| - 2];
    assert lead[0] == ps[0];
    forall i | 0 < i < |qs| ensures qs[i].len == 1 || qs[i].len == lead[i].len {
      assert lead[i] == ps[i];
    }
  }

  lemma PadStandsFor(m: Lora, l: Lora, ixs: seq<Ix>)
    requires WellFormed(l) && |ixs| <= |l.a.shape|
    ensures StandsFor(m, l, Padded(ixs, |l.a.shape|)) <==> StandsFor(m, l, ixs)
  {
    WellFormedMultipliable(l);
    PadItem(Product(l), ixs);
  }

  lemma IntAligned(l: Lora, i: int, ixs: seq<Ix>)
    requires WellFormed(l) && |l.a.shape| > 2 && IndexFactors(l, [Int(i)], [Int(i)]).Ok?
    requires ixs == Padded([Int(i)], |l.a.shape|)
    ensures Aligned(l, ixs, ixs, ixs)
    ensures var (ps, qs) := JoinedPicks(l, ixs, ixs, ixs);
            && (forall i | 0 <= i < |qs| :: AxisFits(l.a.shape[i], ps[i], qs[i]))
            && LengthsFit(ps[..|ps| - 2], qs)
  {
    FirstResolves(l.a, Int(i));
    FirstResolves(l.b, Int(i));
    FirstAxisAligned(l, Int(i));
    var (ps, qs) := JoinedPicks(l, ixs, ixs, ixs);
    IntAxisFits(l.a.shape[0], l.b.shape[0], i, ps[0], qs[0]);
    FirstAxisFits(l, ps, qs);
  }

  /** A plain integer either is refused or indexes the product. */
  lemma GetIntCorrect(l: Lora, i: int)
    requires WellFormed(l) && GetInt(l, i).Ok?
    ensures WellFormed(GetInt(l, i).value) && StandsFor(GetInt(l, i).value, l, [Int(i)])
  {
    var ixs := Padded([Int(i)], |l.a.shape|);
    PadFactors(l, [Int(i)], [Int(i)]);
    IntAligned(l, i, ixs);
    FactorsStand(l, ixs, ixs, ixs);
    PadStandsFor(GetInt(l, i).value, l, [Int(i)]);
  }

  lemma FirstIsEnough(t: Tensor, ix: Ix)
    requires t.shape != [] && Resolve(ix, t.shape[0]).Some?
    ensures GetItem(t, [ix]).Some?
  {
    var ixs := Padded([ix], |t.shape|);
    forall i | 0 <= i < |t.shape|
      ensures Resolve(ixs[i], t.shape[i]).Some?
    {
      ResolveFull(t.shape[i]);
    }
    ResolveFulls(t.shape, ixs);
  }

  /**
   * A plain integer is accepted when it fits the first axis of both factors: where A is broadcast along it only
   * 0 and -1 are, though the product has every row.
   */
  lemma GetIntAccepted(l: Lora, i: int)
    requires WellFormed(l)
    ensures GetInt(l, i).Ok? <==>
            |l.a.shape| > 2 && -l.a.shape[0] <= i < l.a.shape[0] && -l.b.shape[0] <= i < l.b.shape[0]
    ensures Multipliable(l.b, l.a) && (GetItem(Product(l), [Int(i)]).Some? <==> -l.b.shape[0] <= i < l.b.shape[0])
  {
    WellFormedMultipliable(l);
    IntResolves(Product(l), i);
    if |l.a.shape| > 2 {
      IntResolves(l.a, i);
      IntResolves(l.b, i);
      if GetItem(l.a, [Int(i)]).Some? && GetItem(l.b, [Int(i)]).Some? {
        IntSelected(l, i);
      }
    }
  }

  lemma IntResolves(t: Tensor, i: int)
    requires t.shape != []
    ensures GetItem(t, [Int(i)]).Some? <==> -t.shape[0] <= i < t.shape[0]
  {
    hide GetItem;
    if GetItem(t, [Int(i)]).Some? {
      FirstResolves(t, Int(i));
    } else if Resolve(Int(i), t.shape[0]).Some? {
      FirstIsEnough(t, Int(i));
    }
  }

  lemma IntSelected(l: Lora, i: int)
    requires WellFormed(l) && |l.a.shape| > 2
    requires Resolve(Int(i), l.a.shape[0]).Some? && Resolve(Int(i), l.b.shape[0]).Some?
    ensures GetInt(l, i).Ok?
  {
    hide GetItem;
    var ixs := Padded([Int(i)], |l.a.shape|);
    FirstAxisAligned(l, Int(i));
    var (ps, qs) := JoinedPicks(l, ixs, ixs, ixs);
    IntAxisFits(l.a.shape[0], l.b.shape[0], i, ps[0], qs[0]);
    FirstAxisFits(l, ps, qs);
    FactorsStand(l, ixs, ixs, ixs);
    PadFactors(l, [Int(i)], [Int(i)]);
  }

  /** `IndexFactorsExact` in terms of `StandsFor`. */
  lemma FactorsStand(l: Lora, ixsA: seq<Ix>, ixsB: seq<Ix>, ixs: seq<Ix>)
    requires Aligned(l, ixsA, ixsB, ixs)
    requires ixs[|ixs| - 2].Slice? && ixs[|ixs| - 1].Slice?
    requires var (ps, qs) := JoinedPicks(l, ixsA, ixsB, ixs);
             forall i | 0 <= i < |qs| :: AxisFits(l.a.shape[i], ps[i], qs[i])
    ensures IndexFactors(l, ixsA, ixsB).Ok?
    ensures var (ps, qs) := JoinedPicks(l, ixsA, ixsB, ixs);
            var m := IndexFactors(l, ixsA, ixsB).value;
            && (WellFormed(m) <==> LengthsFit(ps[..|ps| - 2], qs))
            && (WellFormed(m) <==> StandsFor(m, l, ixs))
  {
    var (ps, qs) := JoinedPicks(l, ixsA, ixsB, ixs);
    IndexFactorsExact(l, ixsA, ixsB, ixs, ps, qs);
  }

  lemma FirstResolves(t: Tensor, ix: Ix)
    requires t.shape != [] && GetItem(t, [ix]).Some?
    ensures Resolve(ix, t.shape[0]).Some?
  {
    var ixs := Padded([ix], |t.shape|);
    assert Resolve(ixs[0], t.shape[0]) == Some(ResolveAll(ixs, t.shape).value[0]);
  }

  /** The number of elements a slice selects on an axis of size `d`. */
  function SliceLen(sl: Ix, d: nat): nat
    requires sl.Slice? && sl.step >= 1
  {
    Resolve(sl, d).value.len
  }

  /**
   * A plain slice of a tensor with leading dimensions gives a well-formed pair, and then the sliced product,
   * exactly when A's first dimension is B's, or the slice does not lose A's only element while keeping some of B.
   */
  lemma GetSliceExact(l: Lora, sl: Ix)
    requires WellFormed(l) && |l.a.shape| > 2 && sl.Slice? && sl.step >= 1
    ensures GetSlice(l, sl).Ok?
    ensures var m := GetSlice(l, sl).value;
            && (WellFormed(m) <==> || l.a.shape[0] == l.b.shape[0] || SliceLen(sl, l.a.shape[0]) != 0
                                   || SliceLen(sl, l.b.shape[0]) == 0)
            && (WellFormed(m) <==> StandsFor(m, l, [sl]))
  {
    var ixs := Padded([sl], |l.a.shape|);
    PadFactors(l, [sl], [sl]);
    SliceAligned(l, sl, ixs);
    FactorsStand(l, ixs, ixs, ixs);
    PadStandsFor(GetSlice(l, sl).value, l, [sl]);
  }

  lemma SliceAligned(l: Lora, sl: Ix, ixs: seq<Ix>)
    requires WellFormed(l) && |l.a.shape| > 2 && sl.Slice? && sl.step >= 1
    requires ixs == Padded([sl], |l.a.shape|)
    ensures Aligned(l, ixs, ixs, ixs)
    ensures var (ps, qs) := JoinedPicks(l, ixs, ixs, ixs);
            && (forall i | 0 <= i < |qs| :: AxisFits(l.a.shape[i], ps[i], qs[i]))
            && (LengthsFit(ps[..|ps| - 2], qs) <==>
                || l.a.shape[0] == l.b.shape[0] || SliceLen(sl, l.a.shape[0]) != 0 || SliceLen(sl, l.b.shape[0]) == 0)
  {
    FirstAxisAligned(l, sl);
    var (ps, qs) := JoinedPicks(l, ixs, ixs, ixs);
    ResolveInAxis(sl, l.a.shape[0]);
    ResolveInAxis(sl, l.b.shape[0]);
    if l.a.shape[0] == l.b.shape[0] {
      EqualSlicesFit(l.a.shape[0], ps[0]);
    } else {
      BroadcastSliceFits(l.b.shape[0], ps[0], qs[0]);
    }
    FirstAxisFits(l, ps, qs);
  }

  lemma {:induction false} FullSource(s: Shape, ps: seq<Pick>, x: Index)
    requires |ps| == |s| == |x| && forall i | 0 <= i < |s| :: ps[i] == FullRange(s[i])
    ensures OutShape(ps) == s && Source(ps, x) == x
  {
    if s != [] {
      var n := |s| - 1;
      FullSource(s[..n], ps[..n], x[..n]);
      assert Nth(ps[n], x[n]) == x[n];
      assert s == s[..n] + [s[n]] && x == x[..n] + [x[n]];
    }
  }

  /** Selecting everything changes nothing. */
  lemma SelectAll(t: Tensor)
    ensures var ixs := Padded([], |t.shape|);
            GetItem(t, ixs) == Some(t)
  {
    var n := |t.shape|;
    var ixs := Padded([], n);
    var ps := seq(n, i requires 0 <= i < n => FullRange(t.shape[i]));
    forall i | 0 <= i < n ensures Resolve(ixs[i], t.shape[i]) == Some(ps[i]) {
      ResolveFull(t.shape[i]);
    }
    ResolveAllIs(ixs, t.shape, ps);
    GetItemWhole(t, ixs, ps);
    FullSource(t.shape, ps, seq(n, _ => 0));
    forall x | Valid(t.shape, x) ensures Get(Select(t, ps), x) == Get(t, x) {
      FullSource(t.shape, ps, x);
      SelectAt(t, ps, x);
    }
    TensorExt(Select(t, ps), t);
  }

  lemma MatrixAligned(l: Lora, sl: Ix)
    requires WellFormed(l) && |l.a.shape| == 2 && sl.Slice? && sl.step >= 1
    ensures Aligned(l, [FULL, FULL], [sl, FULL], [sl, FULL])
    ensures |JoinedPicks(l, [FULL, FULL], [sl, FULL], [sl, FULL]).1| == 0
  {
    ResolveFull(l.a.shape[0]);
    ResolveFull(l.a.shape[1]);
    ResolveFull(l.b.shape[1]);
    ResolveFulls(l.a.shape, [FULL, FULL]);
    ResolveFulls(l.b.shape, [sl, FULL]);
  }

  lemma MatrixFactors(l: Lora, sl: Ix)
    requires WellFormed(l) && |l.a.shape| == 2 && sl.Slice?
    ensures GetSlice(l, sl) == IndexFactors(l, [FULL, FULL], [sl, FULL])
  {
    hide GetItem;
    SelectAll(l.a);
    assert Padded([], 2) == [FULL, FULL];
    PadItem(l.b, [sl]);
    assert Padded([sl], 2) == [sl, FULL];
  }

  /** A plain slice of a matrix slices the rows of the product. */
  lemma GetSliceMatrix(l: Lora, sl: Ix)
    requires WellFormed(l) && |l.a.shape| == 2 && sl.Slice? && sl.step >= 1
    ensures GetSlice(l, sl).Ok? && WellFormed(GetSlice(l, sl).value) && StandsFor(GetSlice(l, sl).value, l, [sl])
  {
    hide MatMul, Product, StandsFor;
    MatrixAligned(l, sl);
    MatrixFactors(l, sl);
    FactorsStand(l, [FULL, FULL], [sl, FULL], [sl, FULL]);
    assert Padded([sl], 2) == [sl, FULL];
    PadStandsFor(GetSlice(l, sl).value, l, [sl]);
  }

  /** Every slice with a positive step is accepted, and no other, as by the product. */
  lemma GetSliceAccepted(l: Lora, sl: Ix)
    requires WellFormed(l) && sl.Slice?
    ensures GetSlice(l, sl).Ok? <==> sl.step >= 1
    ensures Multipliable(l.b, l.a) && (GetItem(Product(l), [sl]).Some? <==> sl.step >= 1)
  {
    hide GetItem, IndexFactors;
    WellFormedMultipliable(l);
    SliceResolves(l.b, sl);
    SliceResolves(Product(l), sl);
    if sl.step >= 1 {
      if |l.a.shape| > 2 {
        GetSliceExact(l, sl);
      } else {
        GetSliceMatrix(l, sl);
      }
    } else {
      SliceRefused(l, sl);
    }
  }

  lemma SliceRefused(l: Lora, sl: Ix)
    requires WellFormed(l) && sl.Slice? && GetItem(l.b, [sl]).None?
    ensures !GetSlice(l, sl).Ok?
  {
  }

  lemma SliceResolves(t: Tensor, sl: Ix)
    requires t.shape != [] && sl.Slice?
    ensures GetItem(t, [sl]).Some? <==> sl.step >= 1
  {
    hide GetItem;
    if GetItem(t, [sl]).Some? {
      FirstResolves(t, sl);
    } else if sl.step >= 1 {
      FirstIsEnough(t, sl);
    }
  }

  // ---------- index tuples ----------

  /** Every slice of a leading axis either keeps the whole axis or meets a dimension of A that is 1. */
  predicate TupleGuard(l: Lora, ixs: seq<Ix>)
    requires WellFormed(l) && |ixs| == |l.a.shape|
  {
    forall i | 0 <= i < |ixs| - 2 ::
      ixs[i].Slice? && ixs[i].step >= 1 ==> l.a.shape[i] == 1 || SliceLen(ixs[i], l.b.shape[i]) == l.b.shape[i]
  }

  /** What an entry of a leading axis selects from the product and from A. */
  predicate EntryLengths(l: Lora, ixs: seq<Ix>, i: nat, p: Pick, q: Pick)
    requires WellFormed(l) && |ixs| == |l.a.shape| && i < |ixs| - 2
  {
    && AxisFits(l.a.shape[i], p, q)
    && (p.Range? <==> ixs[i].Slice?)
    && (ixs[i].Slice? ==> && ixs[i].step >= 1 && q.Range? && q.len == l.a.shape[i]
                          && p.len == SliceLen(ixs[i], l.b.shape[i]))
  }

  lemma EntryFits(l: Lora, ixs: seq<Ix>, i: nat, p: Pick, q: Pick)
    requires WellFormed(l) && |ixs| == |l.a.shape| && i < |ixs| - 2
    requires ixs[i].Int? ==> l.a.shape[i] != 0
    requires Resolve(ixs[i], l.b.shape[i]) == Some(p)
    requires Some(q) ==
             Resolve(match ixs[i] case Int(j) => Int(j % l.a.shape[i]) case Slice(_, _, _) => FULL, l.a.shape[i])
    ensures EntryLengths(l, ixs, i, p, q)
  {
    if ixs[i].Int? {
      ModAxisFits(l.a.shape[i], l.b.shape[i], ixs[i].i, p, q);
    } else {
      ResolveInAxis(ixs[i], l.b.shape[i]);
      ResolveFull(l.a.shape[i]);
      FullSliceFits(l.a.shape[i], l.b.shape[i], p);
    }
  }

  /** The entries of the two factors, padded to one for each axis. */
  predicate EntriesResolve(l: Lora, ixs: seq<Ix>)
    requires WellFormed(l) && |ixs| == |l.a.shape|
    requires forall i | 0 <= i < |ixs| - 2 :: ixs[i].Int? ==> l.a.shape[i] != 0
  {
    && ResolveAll(EntriesA(l, ixs), l.a.shape).Some?
    && ResolveAll(ixs[..|ixs| - 1] + [FULL], l.b.shape).Some?
  }

  lemma EntriesAligned(l: Lora, ixs: seq<Ix>)
    requires WellFormed(l) && |ixs| == |l.a.shape|
    requires forall i | 0 <= i < |ixs| - 2 :: ixs[i].Int? ==> l.a.shape[i] != 0
    requires EntriesResolve(l, ixs)
    ensures var ixsA, ixsB := EntriesA(l, ixs), ixs[..|ixs| - 1] + [FULL];
            && Aligned(l, ixsA, ixsB, ixs)
            && var (ps, qs) := JoinedPicks(l, ixsA, ixsB, ixs);
            && forall i | 0 <= i < |qs| :: EntryLengths(l, ixs, i, ps[i], qs[i])
  {
    var ixsA, ixsB := EntriesA(l, ixs), ixs[..|ixs| - 1] + [FULL];
    assert Aligned(l, ixsA, ixsB, ixs);
    var (ps, qs) := JoinedPicks(l, ixsA, ixsB, ixs);
    JoinedRanges(l, ixsA, ixsB, ixs, ps, qs);
    forall i | 0 <= i < |qs| ensures EntryLengths(l, ixs, i, ps[i], qs[i]) {
      assert Resolve(ixsB[i], l.b.shape[i]) == Some(ps[i]) && Resolve(ixsA[i], l.a.shape[i]) == Some(qs[i]);
      EntryFits(l, ixs, i, ps[i], qs[i]);
    }
  }

  lemma FactorsPadded(l: Lora, ixs: seq<Ix>)
    requires WellFormed(l) && |ixs| == |l.a.shape|
    requires forall i | 0 <= i < |ixs| - 2 :: ixs[i].Int? ==> l.a.shape[i] != 0
    ensures IndexFactors(l, EntriesA(l, ixs), ixs[..|ixs| - 1] + [FULL]) ==
            IndexFactors(l, EntriesA(l, ixs), ixs[..|ixs| - 1])
    ensures IndexFactors(l, EntriesA(l, ixs), ixs[..|ixs| - 1]).Ok? ==> EntriesResolve(l, ixs)
  {
    var n := |ixs|;
    PaddedWhole(EntriesA(l, ixs));
    PaddedWhole(ixs[..n - 1] + [FULL]);
    assert Padded(ixs[..n - 1], n) == ixs[..n - 1] + [FULL];
    PadFactors(l, EntriesA(l, ixs), ixs[..n - 1]);
  }

  lemma EntriesFit(l: Lora, ixs: seq<Ix>)
    requires WellFormed(l) && |ixs| == |l.a.shape|
    requires forall i | 0 <= i < |ixs| - 2 :: ixs[i].Int? ==> l.a.shape[i] != 0
    requires EntriesResolve(l, ixs)
    ensures var ixsA, ixsB := EntriesA(l, ixs), ixs[..|ixs| - 1] + [FULL];
            && Aligned(l, ixsA, ixsB, ixs)
            && var (ps, qs) := JoinedPicks(l, ixsA, ixsB, ixs);
            && (forall i | 0 <= i < |qs| :: AxisFits(l.a.shape[i], ps[i], qs[i]))
            && (LengthsFit(ps[..|ps| - 2], qs) <==> TupleGuard(l, ixs))
  {
    hide Build, GetItem;
    EntriesAligned(l, ixs);
    var (ps, qs) := JoinedPicks(l, EntriesA(l, ixs), ixs[..|ixs| - 1] + [FULL], ixs);
    GuardIsFit(l, ixs, ps, qs);
  }

  /**
   * An index tuple whose last two entries are slices gives a well-formed pair, and then the indexed product,
   * exactly under `TupleGuard`.
   */
  lemma GetEntriesExact(l: Lora, given: seq<Ix>)
    requires WellFormed(l) && GetEntries(l, given).Ok?
    requires var ixs := Padded(given, |l.a.shape|); ixs[|ixs| - 2].Slice? && ixs[|ixs| - 1].Slice?
    ensures var m := GetEntries(l, given).value;
            && (WellFormed(m) <==> TupleGuard(l, Padded(given, |l.a.shape|)))
            && (WellFormed(m) <==> StandsFor(m, l, given))
  {
    hide GetItem;
    var ixs := Padded(given, |l.a.shape|);
    FactorsPadded(l, ixs);
    EntriesFit(l, ixs);
    FactorsStand(l, EntriesA(l, ixs), ixs[..|ixs| - 1] + [FULL], ixs);
    PadStandsFor(GetEntries(l, given).value, l, given);
  }

  lemma EntryResolves(l: Lora, ixs: seq<Ix>, i: nat)
    requires WellFormed(l) && |ixs| == |l.a.shape| && i < |ixs| - 2
    requires Resolve(ixs[i], l.b.shape[i]).Some?
    ensures ixs[i].Int? ==> l.a.shape[i] != 0
    ensures Resolve(match ixs[i] case Int(j) => Int(j % l.a.shape[i]) case Slice(_, _, _) => FULL, l.a.shape[i]).Some?
  {
    ResolveFull(l.a.shape[i]);
  }

  /** If every entry fits its axis of the product, the entries of both factors fit theirs. */
  lemma ProductResolves(l: Lora, ixs: seq<Ix>)
    requires WellFormed(l) && |ixs| == |l.a.shape| && ixs[|ixs| - 2].Slice?
    requires forall i | 0 <= i < |ixs| :: Resolve(ixs[i], ShapeOf(l)[i]).Some?
    ensures forall i | 0 <= i < |ixs| - 2 :: ixs[i].Int? ==> l.a.shape[i] != 0
    ensures EntriesResolve(l, ixs)
  {
    var n := |ixs|;
    forall i | 0 <= i < n - 2
      ensures ixs[i].Int? ==> l.a.shape[i] != 0
    {
      assert ShapeOf(l)[i] == l.b.shape[i];
      EntryResolves(l, ixs, i);
    }
    var ixsA, ixsB := EntriesA(l, ixs), ixs[..n - 1] + [FULL];
    forall i | 0 <= i < n
      ensures Resolve(ixsA[i], l.a.shape[i]).Some? && Resolve(ixsB[i], l.b.shape[i]).Some?
    {
      ResolveFull(l.a.shape[i]);
      ResolveFull(l.b.shape[i]);
      assert i < n - 1 ==> ShapeOf(l)[i] == l.b.shape[i];
      assert i == n - 1 ==> ShapeOf(l)[i] == l.a.shape[i];
      if i < n - 2 {
        EntryResolves(l, ixs, i);
      }
    }
    ResolveFulls(l.a.shape, ixsA);
    ResolveFulls(l.b.shape, ixsB);
  }

  lemma ItemResolves(t: Tensor, ixs: seq<Ix>)
    requires |ixs| == |t.shape|
    ensures GetItem(t, ixs).Some? <==> forall i | 0 <= i < |ixs| :: Resolve(ixs[i], t.shape[i]).Some?
  {
    PaddedWhole(ixs);
    if forall i | 0 <= i < |ixs| :: Resolve(ixs[i], t.shape[i]).Some? {
      ResolveFulls(t.shape, ixs);
    }
  }

  lemma AlignedItem(l: Lora, ixsA: seq<Ix>, ixsB: seq<Ix>, ixs: seq<Ix>)
    requires Aligned(l, ixsA, ixsB, ixs) && Multipliable(l.b, l.a)
    ensures GetItem(Product(l), ixs).Some?
  {
    JoinedResolve(l, ixsA, ixsB, ixs);
    WellFormedMultipliable(l);
    GetItemWhole(Product(l), ixs, JoinedPicks(l, ixsA, ixsB, ixs).0);
  }

  lemma ProductShape(l: Lora)
    requires WellFormed(l)
    ensures Multipliable(l.b, l.a) && Product(l).shape == ShapeOf(l)
  {
    WellFormedMultipliable(l);
  }

  lemma EntriesTaken(l: Lora, given: seq<Ix>, ixs: seq<Ix>)
    requires WellFormed(l) && |given| <= |l.a.shape| && ixs == Padded(given, |l.a.shape|)
    requires ixs[|ixs| - 2].Slice? && ixs[|ixs| - 1].Slice?
    requires forall i | 0 <= i < |ixs| :: Resolve(ixs[i], ShapeOf(l)[i]).Some?
    ensures GetEntries(l, given).Ok?
  {
    hide GetItem, IndexFactors, Resolve, EntriesResolve, EntriesA, TupleGuard, LengthsFit, AxisFits, Aligned, StandsFor,
         ShapeOf, JoinedPicks, Padded;
    ProductResolves(l, ixs);
    FactorsPadded(l, ixs);
    EntriesFit(l, ixs);
    FactorsStand(l, EntriesA(l, ixs), ixs[..|ixs| - 1] + [FULL], ixs);
  }

  lemma EntriesRefused(l: Lora, given: seq<Ix>, ixs: seq<Ix>)
    requires WellFormed(l) && |given| <= |l.a.shape| && ixs == Padded(given, |l.a.shape|)
    requires GetEntries(l, given).Ok?
    ensures Multipliable(l.b, l.a) && GetItem(Product(l), ixs).Some?
  {
    hide GetItem, IndexFactors, Resolve, EntriesResolve, EntriesA, Product;
    WellFormedMultipliable(l);
    FactorsPadded(l, ixs);
    EntriesAligned(l, ixs);
    AlignedItem(l, EntriesA(l, ixs), ixs[..|ixs| - 1] + [FULL], ixs);
  }

  /** Tuples whose last two entries are slices are accepted exactly when the product accepts them. */
  lemma GetEntriesAccepted(l: Lora, given: seq<Ix>)
    requires WellFormed(l)
    requires |given| <= |l.a.shape| ==>
               var ixs := Padded(given, |l.a.shape|); ixs[|ixs| - 2].Slice? && ixs[|ixs| - 1].Slice?
    ensures Multipliable(l.b, l.a) && (GetEntries(l, given).Ok? <==> GetItem(Product(l), given).Some?)
  {
    hide GetItem, GetEntries, Product, Multipliable;
    ProductShape(l);
    if |given| <= |l.a.shape| {
      var ixs := Padded(given, |l.a.shape|);
      PadItem(Product(l), given);
      ItemResolves(Product(l), ixs);
      if GetItem(Product(l), given).Some? {
        EntriesTaken(l, given, ixs);
      } else if GetEntries(l, given).Ok? {
        EntriesRefused(l, given, ixs);
      }
    } else {
      TooMany(l, Product(l), given);
    }
  }

  lemma TooMany(l: Lora, t: Tensor, ixs: seq<Ix>)
    requires WellFormed(l) && |ixs| > |l.a.shape| == |t.shape|
    ensures GetItem(t, ixs).None? && !GetEntries(l, ixs).Ok?
  {
  }

  lemma GuardIsFit(l: Lora, ixs: seq<Ix>, ps: seq<Pick>, qs: seq<Pick>)
    requires WellFormed(l) && |ixs| == |l.a.shape| == |ps| == |qs| + 2
    requires forall i | 0 <= i < |qs| :: EntryLengths(l, ixs, i, ps[i], qs[i])
    ensures forall i | 0 <= i < |qs| :: AxisFits(l.a.shape[i], ps[i], qs[i])
    ensures LengthsFit(ps[..|ps| - 2], qs) <==> TupleGuard(l, ixs)
  {
    var lead := ps[..|ps| - 2];
    if TupleGuard(l, ixs) {
      forall i | 0 <= i < |qs| && lead[i].Range? && qs[i].Range? ensures qs[i].len == 1 || qs[i].len == lead[i].len {
        assert EntryLengths(l, ixs, i, ps[i], qs[i]);
      }
    }
    if LengthsFit(lead, qs) {
      forall i | 0 <= i < |ixs| - 2 && ixs[i].Slice? && ixs[i].step >= 1
        ensures l.a.shape[i] == 1 || SliceLen(ixs[i], l.b.shape[i]) == l.b.shape[i]
      {
        assert EntryLengths(l, ixs, i, ps[i], qs[i]);
        assert lead[i] == ps[i];
      }
    }
  }

  // ---------- the ellipsis ----------

  function Axes(ixs: seq<Ix>): (r: seq<Entry>)
    ensures |r| == |ixs| && forall i | 0 <= i < |ixs| :: r[i] == Axis(ixs[i])
  {
    seq(|ixs|, i requires 0 <= i < |ixs| => Axis(ixs[i]))
  }

  function Fulls(k: nat): (r: seq<Ix>)
    ensures |r| == k && forall i | 0 <= i < k :: r[i] == FULL
  {
    seq(k, _ => FULL)
  }

  lemma {:induction false} ExpandAxes(ixs: seq<Ix>, k: nat)
    ensures Expand(Axes(ixs), k) == ixs
  {
    if ixs != [] {
      assert Axes(ixs)[1..] == Axes(ixs[1..]);
      ExpandAxes(ixs[1..], k);
    }
  }

  /** The entries a tuple with one ellipsis stands for: full slices fill the tuple up to the rank. */
  function EllipsisMeaning(pre: seq<Ix>, post: seq<Ix>, n: nat): seq<Ix>
    requires |pre| + |post| <= n
  {
    pre + Fulls(n - |pre| - |post|) + post
  }

  lemma ExpandEllipsis(pre: seq<Ix>, post: seq<Ix>, k: nat)
    ensures Expand(Axes(pre) + [Ellipsis] + Axes(post), k) == pre + Fulls(k) + post
  {
    var f := (e: Entry) => match e case Axis(ix) => [ix] case Ellipsis => seq(k, _ => FULL);
    FlatMapConcat(f, Axes(pre) + [Ellipsis], Axes(post));
    FlatMapConcat(f, Axes(pre), [Ellipsis]);
    ExpandAxes(pre, k);
    ExpandAxes(post, k);
    assert FlatMap(f, [Ellipsis]) == Fulls(k) + FlatMap(f, []);
  }

  /** Moving full slices across a list changes nothing only if there are none or the list is full too. */
  lemma {:induction false} FullsCommute(post: seq<Ix>, d: nat)
    ensures post + Fulls(d) == Fulls(d) + post <==> d == 0 || forall i | 0 <= i < |post| :: post[i] == FULL
  {
    if d > 0 && post + Fulls(d) == Fulls(d) + post {
      forall i | 0 <= i < |post| ensures post[i] == FULL {
        FullEntry(post, d, i);
      }
    } else if d == 0 {
      assert post + Fulls(0) == post == Fulls(0) + post;
    }
  }

  lemma {:induction false} FullEntry(post: seq<Ix>, d: nat, i: nat)
    requires d > 0 && post + Fulls(d) == Fulls(d) + post && i < |post|
    ensures post[i] == FULL
    decreases i
  {
    assert (post + Fulls(d))[i] == post[i];
    assert (Fulls(d) + post)[i] == if i < d then FULL else post[i - d];
    if i >= d {
      FullEntry(post, d, i - d);
    }
  }

  /**
   * The wrapper inserts as many full slices as the tuple has other entries. That is what the ellipsis means
   * exactly when these are as many as the missing axes, or too few with nothing but full slices after it.
   */
  lemma EllipsisExact(pre: seq<Ix>, post: seq<Ix>, n: nat)
    requires |pre| + |post| <= n
    ensures var c := |pre| + |post|;
            var given := Expand(Axes(pre) + [Ellipsis] + Axes(post), c);
            (|given| <= n && Padded(given, n) == EllipsisMeaning(pre, post, n)) <==>
            2 * c == n || (2 * c < n && forall i | 0 <= i < |post| :: post[i] == FULL)
  {
    var c := |pre| + |post|;
    ExpandEllipsis(pre, post, c);
    var given := pre + Fulls(c) + post;
    if 2 * c <= n {
      var d := n - 2 * c;
      FullsCommute(post, d);
      var head := pre + Fulls(c);
      assert Padded(given, n) == head + (post + Fulls(d));
      assert EllipsisMeaning(pre, post, n) == head + (Fulls(d) + post);
      SameTail(head, post + Fulls(d), Fulls(d) + post);
    }
  }

  lemma SameTail<T>(h: seq<T>, a: seq<T>, b: seq<T>)
    ensures h + a == h + b <==> a == b
  {
    if h + a == h + b {
      assert a == (h + a)[|h|..] && b == (h + b)[|h|..];
    }
  }

  lemma GetTupleUnfold(l: Lora, es: seq<Entry>)
    requires WellFormed(l) && es != []
    ensures GetTuple(l, es) == if es[|es| - 1] == Ellipsis then GetTuple(l, es[..|es| - 1])
                               else GetEntries(l, Expand(es, |es| - 1))
  {
  }

  /** The tuple path for an ellipsis that is not the last entry. */
  lemma GetTupleEllipsis(l: Lora, pre: seq<Ix>, post: seq<Ix>)
    requires WellFormed(l) && post != []
    ensures GetTuple(l, Axes(pre) + [Ellipsis] + Axes(post)) ==
            GetEntries(l, Expand(Axes(pre) + [Ellipsis] + Axes(post), |pre| + |post|))
  {
    hide *;
    var es := Axes(pre) + [Ellipsis] + Axes(post);
    assert es[|es| - 1] == Axis(post[|post| - 1]);
    GetTupleUnfold(l, es);
  }

  /**
   * A tuple with one ellipsis, when the wrapper inserts the right number of slices: the result is well formed, and
   * stands for the indexed product, exactly under `TupleGuard`.
   */
  lemma GetEllipsisCorrect(l: Lora, pre: seq<Ix>, post: seq<Ix>)
    requires WellFormed(l) && post != []
    requires var es := Axes(pre) + [Ellipsis] + Axes(post); GetTuple(l, es).Ok?
    requires var n, c := |l.a.shape|, |pre| + |post|;
             c <= n && (2 * c == n || (2 * c < n && forall i | 0 <= i < |post| :: post[i] == FULL))
    requires var ixs := EllipsisMeaning(pre, post, |l.a.shape|); ixs[|ixs| - 2].Slice? && ixs[|ixs| - 1].Slice?
    ensures var ixs := EllipsisMeaning(pre, post, |l.a.shape|);
            var m := GetTuple(l, Axes(pre) + [Ellipsis] + Axes(post)).value;
            && (WellFormed(m) <==> TupleGuard(l, ixs))
            && (WellFormed(m) <==> StandsFor(m, l, ixs))
  {
    var es := Axes(pre) + [Ellipsis] + Axes(post);
    var given := Expand(es, |pre| + |post|);
    EllipsisExact(pre, post, |l.a.shape|);
    GetTupleEllipsis(l, pre, post);
    GetEntriesExact(l, given);
    PadStandsFor(GetTuple(l, es).value, l, given);
  }

  lemma NoEllipsis(l: Lora, ixs: seq<Ix>)
    requires WellFormed(l) && ixs != []
    ensures GetTuple(l, Axes(ixs)) == GetEntries(l, ixs)
  {
    hide GetEntries;
    ExpandAxes(ixs, |ixs| - 1);
  }

  /** A trailing ellipsis is dropped, which leaves the same entries. */
  lemma TrailingEllipsis(l: Lora, ixs: seq<Ix>)
    requires WellFormed(l) && ixs != []
    ensures GetTuple(l, Axes(ixs) + [Ellipsis]) == GetEntries(l, ixs)
    ensures |ixs| <= |l.a.shape| ==> EllipsisMeaning(ixs, [], |l.a.shape|) == Padded(ixs, |l.a.shape|)
  {
    hide GetTuple, GetEntries, Expand;
    var es := Axes(ixs) + [Ellipsis];
    assert es[..|es| - 1] == Axes(ixs);
    GetTupleUnfold(l, es);
    NoEllipsis(l, ixs);
  }

  // ---------- the last two entries ----------

  /**
   * An integer among the last two entries is refused, or (both being integers) yields a pair whose shape has
   * one axis more than the indexed product.
   */
  lemma LastTwoMustBeSlices(l: Lora, given: seq<Ix>)
    requires WellFormed(l) && GetEntries(l, given).Ok?
    requires var ixs := Padded(given, |l.a.shape|); ixs[|ixs| - 2].Int? || ixs[|ixs| - 1].Int?
    ensures Multipliable(l.b, l.a) && GetItem(Product(l), given).Some?
    ensures |GetEntries(l, given).value.b.shape| == |GetItem(Product(l), given).value.shape| + 1
  {
    hide Padded;
    var n := |l.a.shape|;
    var ixs := Padded(given, n);
    var ixsA, ixsB := EntriesA(l, ixs), ixs[..n - 1] + [FULL];
    FactorsPadded(l, ixs);
    EntriesAligned(l, ixs);
    var (ps, qs) := JoinedPicks(l, ixsA, ixsB, ixs);
    WellFormedMultipliable(l);
    PadItem(Product(l), given);
    JoinedLengths(l, ixsA, ixsB, ixs, ps, qs);
    KindsFromLengths(l, ixs, ps, qs);
    LastTwo(l, ps, qs);
  }

  lemma KindsFromLengths(l: Lora, ixs: seq<Ix>, ps: seq<Pick>, qs: seq<Pick>)
    requires WellFormed(l) && |ixs| == |l.a.shape| == |ps| == |qs| + 2
    requires forall i | 0 <= i < |qs| :: EntryLengths(l, ixs, i, ps[i], qs[i])
    ensures SameKinds(ps[..|ps| - 2], qs)
  {
    forall i | 0 <= i < |qs| ensures ps[..|ps| - 2][i].Point? <==> qs[i].Point? {
      assert EntryLengths(l, ixs, i, ps[i], qs[i]);
    }
  }

  lemma JoinedLengths(l: Lora, ixsA: seq<Ix>, ixsB: seq<Ix>, ixs: seq<Ix>, ps: seq<Pick>, qs: seq<Pick>)
    requires Aligned(l, ixsA, ixsB, ixs) && (ps, qs) == JoinedPicks(l, ixsA, ixsB, ixs) && Multipliable(l.b, l.a)
    requires IndexFactors(l, ixsA, ixsB).Ok?
    ensures |ps| == |ixs| && forall i | 0 <= i < |ps| :: ps[i].Range? <==> ixs[i].Slice?
    ensures GetItem(Product(l), ixs).Some?
    ensures GetItem(Product(l), ixs).value.shape == OutShape(ps)
    ensures IndexFactors(l, ixsA, ixsB).value.b.shape == OutShape(PicksB(l, ps))
    ensures |OutShape(PicksA(l, ps, qs))| == |OutShape(PicksB(l, ps))|
  {
    JoinedResolve(l, ixsA, ixsB, ixs);
    JoinedRanges(l, ixsA, ixsB, ixs, ps, qs);
    GetItemWhole(l.a, ixsA, PicksA(l, ps, qs));
    GetItemWhole(l.b, ixsB, PicksB(l, ps));
    WellFormedMultipliable(l);
    GetItemWhole(Product(l), ixs, ps);
  }

  lemma LastTwo(l: Lora, ps: seq<Pick>, qs: seq<Pick>)
    requires |ps| == |l.b.shape| >= 2 && SameKinds(ps[..|ps| - 2], qs)
    requires ps[|ps| - 2].Point? || ps[|ps| - 1].Point?
    requires |OutShape(PicksA(l, ps, qs))| == |OutShape(PicksB(l, ps))|
    ensures |OutShape(PicksB(l, ps))| == |OutShape(ps)| + 1
  {
    var n := |ps|;
    FitsExact(ps[..n - 2], qs);
    LastTwoLengths(ps[..n - 2], ps[n - 2], ps[n - 1]);
    LastTwoLengths(qs, FullRange(Rank(l)), ps[n - 1]);
    LastTwoLengths(ps[..n - 2], ps[n - 2], FullRange(Rank(l)));
    assert ps == ps[..n - 2] + [ps[n - 2], ps[n - 1]];
    assert PicksB(l, ps) == ps[..n - 2] + [ps[n - 2], FullRange(Rank(l))];
  }

  lemma LastTwoLengths(ps: seq<Pick>, p: Pick, r: Pick)
    ensures |OutShape(ps + [p, r])| == |OutShape(ps)| + (if p.Range? then 1 else 0) + (if r.Range? then 1 else 0)
  {
    assert (ps + [p, r])[..|ps| + 1] == ps + [p];
    assert (ps + [p])[..|ps|] == ps;
  }
}
