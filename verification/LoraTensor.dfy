/**
 * The low-rank wrapper: a pair of factors standing for the batched product B @ A, and operations that
 * touch only the factors. Each is compared with the same operation on the product.
 */
module LoraTensor {
  import opened Common
  import opened TensorAlgebra

  datatype Lora = Lora(a: Tensor, b: Tensor)

  /** The errors of the wrapper, and `IllFormed` for a pair that no longer has a product of its shape. */
  datatype LoraError = AssertionError | NotImplemented | BadIndex | BadShape | IllFormed

  type LoraResult = Result<Lora, LoraError>

  /** The checks of the constructor. */
  function New(a: Tensor, b: Tensor): LoraResult {
    if |a.shape| != |b.shape| then Err(AssertionError)
    else if |a.shape| < 2 then Err(BadIndex)
    else if a.shape[|a.shape| - 2] != b.shape[|b.shape| - 1] then Err(AssertionError)
    else Ok(Lora(a, b))
  }

  /** What the wrapper relies on: every leading dimension of A is 1 or that of B. */
  predicate WellFormed(l: Lora) {
    && |l.a.shape| == |l.b.shape| >= 2
    && l.a.shape[|l.a.shape| - 2] == l.b.shape[|l.b.shape| - 1]
    && forall i | 0 <= i < |l.a.shape| - 2 :: l.a.shape[i] == 1 || l.a.shape[i] == l.b.shape[i]
  }

  function Rank(l: Lora): nat
    requires |l.b.shape| >= 1
  {
    l.b.shape[|l.b.shape| - 1]
  }

  /** The `shape` property of the wrapper. */
  function ShapeOf(l: Lora): Shape
    requires |l.a.shape| == |l.b.shape| >= 2
  {
    l.b.shape[..|l.b.shape| - 1] + [l.a.shape[|l.a.shape| - 1]]
  }

  /** The tensor the pair stands for. */
  function Product(l: Lora): Tensor
    requires Multipliable(l.b, l.a)
  {
    MatMul(l.b, l.a)
  }

  /** `shape` is the shape of the product exactly when the pair is well formed. */
  lemma ShapeExact(l: Lora)
    requires Multipliable(l.b, l.a)
    ensures ShapeOf(l) == Product(l).shape <==> WellFormed(l)
  {
    var m := |l.a.shape| - 2;
    var s := MatMulShape(l.b, l.a);
    assert ShapeOf(l) == l.b.shape[..m] + [l.b.shape[m], l.a.shape[m + 1]];
    assert s[..m] == Broadcast(Lead(l.b.shape), Lead(l.a.shape));
    if WellFormed(l) {
      assert s[..m] == l.b.shape[..m];
    }
    if ShapeOf(l) == s {
      assert ShapeOf(l)[..m] == l.b.shape[..m];
      forall i | 0 <= i < m ensures l.a.shape[i] == 1 || l.a.shape[i] == l.b.shape[i] {
        assert s[..m][i] == l.b.shape[..m][i];
      }
    }
  }

  // ---------- elements of the product ----------

  /** One summand of the element of the product at `x`. */
  function Summand(l: Lora, x: Index, k: nat): real
    requires |l.a.shape| == |x| >= 2
  {
    var n := |x|;
    Get(l.b, x[..n - 1] + [k]) * Get(l.a, Clamp(Lead(l.a.shape), x[..n - 2]) + [k, x[n - 1]])
  }

  lemma WellFormedMultipliable(l: Lora)
    requires WellFormed(l)
    ensures Multipliable(l.b, l.a) && MatMulShape(l.b, l.a) == ShapeOf(l)
  {
    ShapeExact(l);
  }

  lemma SummandIsTerm(l: Lora, x: Index, k: nat)
    requires WellFormed(l) && Valid(ShapeOf(l), x)
    ensures var n := |x|;
            |x| == |l.a.shape| && Term(l.b, l.a, x[..n - 2], x[n - 2], x[n - 1], k) == Summand(l, x, k)
  {
    var n := |x|;
    forall i | 0 <= i < n - 2 ensures x[i] < l.b.shape[i] {
      assert ShapeOf(l)[i] == l.b.shape[i];
    }
    assert Clamp(Lead(l.b.shape), x[..n - 2]) == x[..n - 2];
    assert x[..n - 2] + [x[n - 2], k] == x[..n - 1] + [k];
  }

  lemma ProductAt(l: Lora, x: Index)
    requires WellFormed(l) && Valid(ShapeOf(l), x)
    ensures Multipliable(l.b, l.a)
    ensures Get(Product(l), x) == Sum(Rank(l), (k: nat) => Summand(l, x, k))
  {
    hide Lead;
    WellFormedMultipliable(l);
    var n := |x|;
    MatMulAt(l.b, l.a, x);
    var f := (k: nat) => Term(l.b, l.a, x[..n - 2], x[n - 2], x[n - 1], k);
    var g := (k: nat) => Summand(l, x, k);
    forall k: nat ensures f(k) == g(k) {
      SummandIsTerm(l, x, k);
    }
    SumEqual(Rank(l), f, g);
  }

  /** Two products are equal when their elements have equal summands. */
  lemma SameElement(l: Lora, x: Index, m: Lora, y: Index)
    requires WellFormed(l) && WellFormed(m) && Valid(ShapeOf(l), x) && Valid(ShapeOf(m), y)
    requires Rank(l) == Rank(m) && forall k: nat | k < Rank(l) :: Summand(l, x, k) == Summand(m, y, k)
    ensures Multipliable(l.b, l.a) && Multipliable(m.b, m.a)
    ensures Get(Product(l), x) == Get(Product(m), y)
  {
    ProductAt(l, x);
    ProductAt(m, y);
    SumEqual(Rank(l), (k: nat) => Summand(l, x, k), (k: nat) => Summand(m, y, k));
  }

  // ---------- indexing ----------

  /** Indexing A's leading axis by `q` does what indexing the product's by `p` needs. */
  predicate LeadMatches(aDim: nat, p: Pick, q: Pick) {
    match p
    case Point(i) => q == Point(if aDim == 1 then 0 else i)
    case Range(_, _, len) =>
      && q.Range?
      && (q.len == len || q.len == 1)
      && forall o: nat | o < len :: Nth(q, if q.len == 1 then 0 else o) == if aDim == 1 then 0 else Nth(p, o)
  }

  predicate LeadsMatch(aLead: Shape, ps: seq<Pick>, qs: seq<Pick>) {
    |ps| == |qs| == |aLead| && forall i | 0 <= i < |ps| :: LeadMatches(aLead[i], ps[i], qs[i])
  }

  lemma ClampSnoc(s: Shape, d: nat, x: Index, i: nat)
    requires |s| == |x|
    ensures Clamp(s + [d], x + [i]) == Clamp(s, x) + [if d == 1 then 0 else i]
  {
  }

  lemma PointSnoc(qs: seq<Pick>, p: nat, x: Index)
    requires |x| == |OutShape(qs)|
    ensures OutShape(qs + [Point(p)]) == OutShape(qs)
    ensures Source(qs + [Point(p)], x) == Source(qs, x) + [p]
  {
    assert (qs + [Point(p)])[..|qs|] == qs;
  }

  lemma RangeSnoc(qs: seq<Pick>, p: Pick, x: Index, i: nat)
    requires p.Range? && |x| == |OutShape(qs)|
    ensures OutShape(qs + [p]) == OutShape(qs) + [p.len]
    ensures Source(qs + [p], x + [i]) == Source(qs, x) + [Nth(p, i)]
  {
    assert (qs + [p])[..|qs|] == qs;
    assert (x + [i])[..|x|] == x;
  }

  /** One more axis: the claim of `LeadSource` for shorter lists gives it for these. */
  lemma LeadSourceStep(aLead: Shape, d: nat, ps: seq<Pick>, p: Pick, qs: seq<Pick>, q: Pick, x: Index, o: nat)
    requires LeadMatches(d, p, q) && (p.Range? ==> o < p.len)
    requires |OutShape(ps)| == |x| == |OutShape(qs)| && |Source(ps, x)| == |aLead|
    requires Source(qs, Clamp(OutShape(qs), x)) == Clamp(aLead, Source(ps, x))
    ensures var z := if p.Point? then x else x + [o];
            && |OutShape(ps + [p])| == |z| == |OutShape(qs + [q])| && |Source(ps + [p], z)| == |aLead| + 1
            && Source(qs + [q], Clamp(OutShape(qs + [q]), z)) == Clamp(aLead + [d], Source(ps + [p], z))
  {
    var c := Clamp(OutShape(qs), x);
    if p.Point? {
      PointSnoc(ps, p.p, x);
      PointSnoc(qs, q.p, x);
      PointSnoc(qs, q.p, c);
      ClampSnoc(aLead, d, Source(ps, x), p.p);
    } else {
      var e := if q.len == 1 then 0 else o;
      RangeSnoc(ps, p, x, o);
      RangeSnoc(qs, q, x, o);
      RangeSnoc(qs, q, c, e);
      ClampSnoc(OutShape(qs), q.len, x, o);
      ClampSnoc(aLead, d, Source(ps, x), Nth(p, o));
    }
  }

  lemma {:induction false} LeadSource(aLead: Shape, ps: seq<Pick>, qs: seq<Pick>, x: Index)
    requires LeadsMatch(aLead, ps, qs) && Valid(OutShape(ps), x)
    ensures |OutShape(qs)| == |x| && |Source(ps, x)| == |aLead|
    ensures Source(qs, Clamp(OutShape(qs), x)) == Clamp(aLead, Source(ps, x))
    decreases |ps|
  {
    if ps != [] {
      var n := |ps| - 1;
      assert LeadMatches(aLead[n], ps[n], qs[n]);
      assert aLead == aLead[..n] + [aLead[n]] && ps == ps[..n] + [ps[n]] && qs == qs[..n] + [qs[n]];
      if ps[n].Point? {
        LeadSource(aLead[..n], ps[..n], qs[..n], x);
        LeadSourceStep(aLead[..n], aLead[n], ps[..n], ps[n], qs[..n], qs[n], x, 0);
      } else {
        var y, o := x[..|x| - 1], x[|x| - 1];
        assert x == y + [o];
        LeadSource(aLead[..n], ps[..n], qs[..n], y);
        LeadSourceStep(aLead[..n], aLead[n], ps[..n], ps[n], qs[..n], qs[n], y, o);
      }
    }
  }

  /** Picks on the product, split into those on B and on A. */
  function PicksB(l: Lora, ps: seq<Pick>): seq<Pick>
    requires |ps| == |l.b.shape| >= 2
  {
    ps[..|ps| - 1] + [FullRange(Rank(l))]
  }

  function PicksA(l: Lora, ps: seq<Pick>, qs: seq<Pick>): seq<Pick>
    requires |ps| == |l.b.shape| >= 2
  {
    qs + [FullRange(Rank(l)), ps[|ps| - 1]]
  }

  predicate SplitOk(l: Lora, ps: seq<Pick>, qs: seq<Pick>) {
    && WellFormed(l) && AllInAxis(ps, ShapeOf(l))
    && ps[|ps| - 2].Range? && ps[|ps| - 1].Range?
    && AllInAxis(qs, Lead(l.a.shape))
    && LeadsMatch(Lead(l.a.shape), ps[..|ps| - 2], qs)
  }

  lemma FullInAxis(d: nat)
    ensures InAxis(FullRange(d), d)
  {
  }

  lemma SplitInAxis(l: Lora, ps: seq<Pick>, qs: seq<Pick>)
    requires SplitOk(l, ps, qs)
    ensures AllInAxis(PicksB(l, ps), l.b.shape) && AllInAxis(PicksA(l, ps, qs), l.a.shape)
  {
    var n := |ps|;
    FullInAxis(Rank(l));
    forall i | 0 <= i < n ensures InAxis(PicksB(l, ps)[i], l.b.shape[i]) {
      assert i < n - 1 ==> ShapeOf(l)[i] == l.b.shape[i];
    }
    forall i | 0 <= i < n ensures InAxis(PicksA(l, ps, qs)[i], l.a.shape[i]) {
      if i < n - 2 {
        assert Lead(l.a.shape)[i] == l.a.shape[i];
      } else if i == n - 1 {
        assert ShapeOf(l)[i] == l.a.shape[i];
      }
    }
  }

  function SplitSelect(l: Lora, ps: seq<Pick>, qs: seq<Pick>): Lora
    requires SplitOk(l, ps, qs)
  {
    SplitInAxis(l, ps, qs);
    Lora(Select(l.a, PicksA(l, ps, qs)), Select(l.b, PicksB(l, ps)))
  }

  lemma OutShapeTwo(qs: seq<Pick>, p: Pick, r: Pick)
    requires p.Range? && r.Range?
    ensures OutShape(qs + [p, r]) == OutShape(qs) + [p.len, r.len]
  {
    assert (qs + [p, r])[..|qs| + 1] == qs + [p];
    assert (qs + [p])[..|qs|] == qs;
  }

  lemma SourceTwo(qs: seq<Pick>, p: Pick, r: Pick, x: Index, i: nat, j: nat)
    requires p.Range? && r.Range? && |x| == |OutShape(qs)|
    ensures OutShape(qs + [p, r]) == OutShape(qs) + [p.len, r.len]
    ensures Source(qs + [p, r], x + [i, j]) == Source(qs, x) + [Nth(p, i), Nth(r, j)]
  {
    RangeSnoc(qs, p, x, i);
    RangeSnoc(qs + [p], r, x + [i], j);
    assert qs + [p, r] == qs + [p] + [r];
    assert x + [i, j] == x + [i] + [j];
  }

  lemma SplitShapes(l: Lora, ps: seq<Pick>, qs: seq<Pick>)
    requires SplitOk(l, ps, qs)
    ensures var n, m := |ps|, SplitSelect(l, ps, qs);
            && OutShape(ps) == OutShape(ps[..n - 2]) + [ps[n - 2].len, ps[n - 1].len]
            && m.b.shape == OutShape(ps[..n - 2]) + [ps[n - 2].len, Rank(l)]
            && m.a.shape == OutShape(qs) + [Rank(l), ps[n - 1].len]
            && |OutShape(qs)| == |OutShape(ps[..n - 2])|
  {
    var n := |ps|;
    assert ps == ps[..n - 2] + [ps[n - 2], ps[n - 1]];
    OutShapeTwo(ps[..n - 2], ps[n - 2], ps[n - 1]);
    assert PicksB(l, ps) == ps[..n - 2] + [ps[n - 2], FullRange(Rank(l))];
    OutShapeTwo(ps[..n - 2], ps[n - 2], FullRange(Rank(l)));
    OutShapeTwo(qs, FullRange(Rank(l)), ps[n - 1]);
    SplitInAxis(l, ps, qs);
    OutLengths(Lead(l.a.shape), ps[..n - 2], qs);
  }

  lemma {:induction false} OutLengths(aLead: Shape, ps: seq<Pick>, qs: seq<Pick>)
    requires LeadsMatch(aLead, ps, qs)
    ensures |OutShape(qs)| == |OutShape(ps)|
    ensures forall i | 0 <= i < |OutShape(ps)| :: OutShape(qs)[i] == 1 || OutShape(qs)[i] == OutShape(ps)[i]
    decreases |ps|
  {
    if ps != [] {
      var n := |ps| - 1;
      assert LeadMatches(aLead[n], ps[n], qs[n]);
      OutLengths(aLead[..n], ps[..n], qs[..n]);
    }
  }

  lemma SplitWellFormed(l: Lora, ps: seq<Pick>, qs: seq<Pick>)
    requires SplitOk(l, ps, qs)
    ensures WellFormed(SplitSelect(l, ps, qs)) && ShapeOf(SplitSelect(l, ps, qs)) == OutShape(ps)
    ensures Rank(SplitSelect(l, ps, qs)) == Rank(l)
  {
    SplitShapes(l, ps, qs);
    OutLengths(Lead(l.a.shape), ps[..|ps| - 2], qs);
  }

  lemma SourceB(l: Lora, ps: seq<Pick>, qs: seq<Pick>, lead: Index, i: nat, j: nat, k: nat)
    requires SplitOk(l, ps, qs) && Valid(OutShape(ps), lead + [i, j]) && k < Rank(l)
    ensures |Source(ps, lead + [i, j])| == |ps|
    ensures Valid(OutShape(PicksB(l, ps)), lead + [i, k])
    ensures Source(PicksB(l, ps), lead + [i, k]) == Source(ps, lead + [i, j])[..|ps| - 1] + [k]
  {
    var n := |ps|;
    var p, r, f := ps[n - 2], ps[n - 1], FullRange(Rank(l));
    assert ps == ps[..n - 2] + [p, r];
    assert PicksB(l, ps) == ps[..n - 2] + [p, f];
    OutShapeTwo(ps[..n - 2], p, r);
    SourceTwo(ps[..n - 2], p, r, lead, i, j);
    SourceTwo(ps[..n - 2], p, f, lead, i, k);
    ValidTwo(OutShape(ps[..n - 2]), p.len, r.len, lead, i, j);
    ValidTwo(OutShape(ps[..n - 2]), p.len, f.len, lead, i, k);
    SourceLength(ps[..n - 2], lead);
  }

  lemma ValidTwo(s: Shape, d: nat, e: nat, x: Index, i: nat, j: nat)
    requires |s| == |x|
    ensures Valid(s + [d, e], x + [i, j]) <==> Valid(s, x) && i < d && j < e
  {
    if Valid(s + [d, e], x + [i, j]) {
      forall a | 0 <= a < |s| ensures x[a] < s[a] {
        assert (x + [i, j])[a] < (s + [d, e])[a];
      }
      assert (x + [i, j])[|s|] < (s + [d, e])[|s|] && (x + [i, j])[|s| + 1] < (s + [d, e])[|s| + 1];
    }
  }

  lemma {:induction false} SourceLength(ps: seq<Pick>, x: Index)
    requires |x| == |OutShape(ps)|
    ensures |Source(ps, x)| == |ps|
  {
    if ps != [] {
      var n := |ps| - 1;
      SourceLength(ps[..n], if ps[n].Point? then x else x[..|x| - 1]);
    }
  }

  lemma SourceA(l: Lora, ps: seq<Pick>, qs: seq<Pick>, lead: Index, i: nat, j: nat, k: nat)
    requires SplitOk(l, ps, qs) && Valid(OutShape(ps), lead + [i, j]) && k < Rank(l)
    ensures |Source(ps, lead + [i, j])| == |ps| && |lead| == |OutShape(qs)|
    ensures var src, y := Source(ps, lead + [i, j]), Clamp(OutShape(qs), lead) + [k, j];
            && Valid(OutShape(PicksA(l, ps, qs)), y)
            && Source(PicksA(l, ps, qs), y) == Clamp(Lead(l.a.shape), src[..|ps| - 2]) + [k, src[|ps| - 1]]
  {
    var n := |ps|;
    var p, r, f := ps[n - 2], ps[n - 1], FullRange(Rank(l));
    assert ps == ps[..n - 2] + [p, r];
    OutShapeTwo(ps[..n - 2], p, r);
    SourceTwo(ps[..n - 2], p, r, lead, i, j);
    ValidTwo(OutShape(ps[..n - 2]), p.len, r.len, lead, i, j);
    LeadSource(Lead(l.a.shape), ps[..n - 2], qs, lead);
    OutLengths(Lead(l.a.shape), ps[..n - 2], qs);
    var y := Clamp(OutShape(qs), lead);
    SourceTwo(qs, f, r, y, k, j);
    assert Valid(OutShape(qs), y);
    ValidTwo(OutShape(qs), f.len, r.len, y, k, j);
    SourceLength(ps[..n - 2], lead);
  }

  lemma FactorB(l: Lora, ps: seq<Pick>, qs: seq<Pick>, lead: Index, i: nat, j: nat, k: nat)
    requires SplitOk(l, ps, qs) && Valid(OutShape(ps), lead + [i, j]) && k < Rank(l)
    ensures |Source(ps, lead + [i, j])| == |ps|
    ensures Get(SplitSelect(l, ps, qs).b, lead + [i, k]) == Get(l.b, Source(ps, lead + [i, j])[..|ps| - 1] + [k])
  {
    SplitInAxis(l, ps, qs);
    SourceB(l, ps, qs, lead, i, j, k);
    SelectAt(l.b, PicksB(l, ps), lead + [i, k]);
  }

  lemma FactorA(l: Lora, ps: seq<Pick>, qs: seq<Pick>, lead: Index, i: nat, j: nat, k: nat)
    requires SplitOk(l, ps, qs) && Valid(OutShape(ps), lead + [i, j]) && k < Rank(l)
    ensures |Source(ps, lead + [i, j])| == |ps| && |SplitSelect(l, ps, qs).a.shape| == |lead| + 2
    ensures var src, a := Source(ps, lead + [i, j]), SplitSelect(l, ps, qs).a;
            Get(a, Clamp(Lead(a.shape), lead) + [k, j]) ==
            Get(l.a, Clamp(Lead(l.a.shape), src[..|ps| - 2]) + [k, src[|ps| - 1]])
  {
    SplitInAxis(l, ps, qs);
    SourceA(l, ps, qs, lead, i, j, k);
    OutShapeTwo(qs, FullRange(Rank(l)), ps[|ps| - 1]);
    assert Lead(SplitSelect(l, ps, qs).a.shape) == OutShape(qs);
    SelectAt(l.a, PicksA(l, ps, qs), Clamp(OutShape(qs), lead) + [k, j]);
  }

  lemma SplitSummand(l: Lora, ps: seq<Pick>, qs: seq<Pick>, lead: Index, i: nat, j: nat, k: nat)
    requires SplitOk(l, ps, qs) && Valid(OutShape(ps), lead + [i, j]) && k < Rank(l)
    ensures |SplitSelect(l, ps, qs).a.shape| == |lead| + 2 && |Source(ps, lead + [i, j])| == |ps|
    ensures Summand(SplitSelect(l, ps, qs), lead + [i, j], k) == Summand(l, Source(ps, lead + [i, j]), k)
  {
    FactorB(l, ps, qs, lead, i, j, k);
    FactorA(l, ps, qs, lead, i, j, k);
    SameSummand(SplitSelect(l, ps, qs), lead, i, j, l, Source(ps, lead + [i, j]), k);
  }

  lemma MatrixSummand(l: Lora, i: nat, j: nat, k: nat)
    requires |l.a.shape| == 2
    ensures Summand(l, [i, j], k) == Get(l.b, [i, k]) * Get(l.a, [k, j])
  {
    assert [] + [i, j] == [i, j] && [] + [i, k] == [i, k];
    SummandTwo(l, [], i, j, k);
    assert Clamp(Lead(l.a.shape), []) + [k, j] == [k, j];
  }

  /** Equal factors give equal summands. */
  lemma SameSummand(m: Lora, lead: Index, i: nat, j: nat, l: Lora, y: Index, k: nat)
    requires |m.a.shape| == |lead| + 2 && |l.a.shape| == |y| >= 2
    requires Get(m.b, lead + [i, k]) == Get(l.b, y[..|y| - 1] + [k])
    requires Get(m.a, Clamp(Lead(m.a.shape), lead) + [k, j]) ==
             Get(l.a, Clamp(Lead(l.a.shape), y[..|y| - 2]) + [k, y[|y| - 1]])
    ensures Summand(m, lead + [i, j], k) == Summand(l, y, k)
  {
    SummandTwo(m, lead, i, j, k);
  }

  lemma SummandTwo(l: Lora, lead: Index, i: nat, j: nat, k: nat)
    requires |l.a.shape| == |lead| + 2
    ensures Summand(l, lead + [i, j], k) == Get(l.b, lead + [i, k]) * Get(l.a, Clamp(Lead(l.a.shape), lead) + [k, j])
  {
    var x := lead + [i, j];
    assert x[..|x| - 2] == lead && x[..|x| - 1] + [k] == lead + [i, k];
  }

  lemma TwoRanges(ps: seq<Pick>)
    requires |ps| >= 2 && ps[|ps| - 2].Range? && ps[|ps| - 1].Range?
    ensures |OutShape(ps)| >= 2
  {
    var n := |ps|;
    assert ps == ps[..n - 2] + [ps[n - 2], ps[n - 1]];
    OutShapeTwo(ps[..n - 2], ps[n - 2], ps[n - 1]);
  }

  lemma SplitSummandAt(l: Lora, ps: seq<Pick>, qs: seq<Pick>, x: Index, k: nat)
    requires SplitOk(l, ps, qs) && Valid(OutShape(ps), x) && k < Rank(l)
    ensures |SplitSelect(l, ps, qs).a.shape| == |x| >= 2 && |Source(ps, x)| == |ps|
    ensures Summand(SplitSelect(l, ps, qs), x, k) == Summand(l, Source(ps, x), k)
  {
    TwoRanges(ps);
    var n := |x|;
    var lead, i, j := x[..n - 2], x[n - 2], x[n - 1];
    assert x == lead + [i, j];
    SplitSummand(l, ps, qs, lead, i, j, k);
  }

  lemma SplitElement(l: Lora, ps: seq<Pick>, qs: seq<Pick>, m: Lora, x: Index)
    requires SplitOk(l, ps, qs) && m == SplitSelect(l, ps, qs) && Valid(OutShape(ps), x)
    ensures Multipliable(l.b, l.a) && Multipliable(m.b, m.a) && Valid(ShapeOf(l), Source(ps, x))
    ensures Get(Product(m), x) == Get(Product(l), Source(ps, x))
  {
    SplitWellFormed(l, ps, qs);
    SourceValid(ps, ShapeOf(l), x);
    forall k: nat | k < Rank(l) ensures |m.a.shape| == |x| && Summand(m, x, k) == Summand(l, Source(ps, x), k) {
      SplitSummandAt(l, ps, qs, x, k);
    }
    SameElement(m, x, l, Source(ps, x));
  }

  /** Indexing both factors this way indexes the product. */
  lemma SplitCommutes(l: Lora, ps: seq<Pick>, qs: seq<Pick>)
    requires SplitOk(l, ps, qs)
    ensures WellFormed(SplitSelect(l, ps, qs)) && Multipliable(l.b, l.a)
    ensures AllInAxis(ps, Product(l).shape)
    ensures var m := SplitSelect(l, ps, qs);
            Multipliable(m.b, m.a) && Product(m) == Select(Product(l), ps)
  {
    var m := SplitSelect(l, ps, qs);
    WellFormedMultipliable(l);
    SplitWellFormed(l, ps, qs);
    WellFormedMultipliable(m);
    var p, t := Product(l), Select(Product(l), ps);
    forall x | Valid(OutShape(ps), x) ensures Get(Product(m), x) == Get(t, x) {
      SelectAt(p, ps, x);
      SplitElement(l, ps, qs, m, x);
    }
    TensorExt(Product(m), t);
  }

  /**
   * Each batch is multiplied by itself: with B's own batch, and with A's, or with A's only one along an axis on
   * which A has one.
   */
  lemma BatchElement(l: Lora, batch: Index, own: Index, i: nat, j: nat)
    requires WellFormed(l) && |batch| == |own| == |l.a.shape| - 2 && Valid(ShapeOf(l), batch + [i, j])
    requires forall d | 0 <= d < |batch| :: own[d] == if l.a.shape[d] == 1 then 0 else batch[d]
    ensures Multipliable(l.b, l.a)
    ensures Get(Product(l), batch + [i, j]) ==
            Sum(Rank(l), (k: nat) => Get(l.b, batch + [i, k]) * Get(l.a, own + [k, j]))
  {
    hide Summand, Product, Get, Sum, Multipliable, Valid;
    ProductAt(l, batch + [i, j]);
    assert Clamp(Lead(l.a.shape), batch) == own;
    var f := (k: nat) => Summand(l, batch + [i, j], k);
    var g := (k: nat) => Get(l.b, batch + [i, k]) * Get(l.a, own + [k, j]);
    forall k: nat
      ensures f(k) == g(k)
    {
      SummandTwo(l, batch, i, j, k);
    }
    SumEqual(Rank(l), f, g);
  }

  // ---------- the adapter's own tensors ----------

  /**
   * An adapter starts from two matrices: if their ranks agree they make a well-formed pair, whose product has the
   * rows of B, the columns of A, and in each place the sum over the rank.
   */
  lemma AdapterProduct(a: Tensor, b: Tensor, i: nat, j: nat)
    requires |a.shape| == |b.shape| == 2 && i < b.shape[0] && j < a.shape[1]
    ensures New(a, b).Ok? <==> Multipliable(b, a)
    ensures New(a, b).Ok? ==>
              var l := New(a, b).value;
              && l == Lora(a, b) && WellFormed(l) && Product(l).shape == [b.shape[0], a.shape[1]]
              && Get(Product(l), [i, j]) == Sum(Rank(l), (k: nat) => Get(l.b, [i, k]) * Get(l.a, [k, j]))
  {
    hide MatMul, Get, Sum;
    if New(a, b).Ok? {
      WellFormedMultipliable(Lora(a, b));
      ShapeExact(Lora(a, b));
      AdapterElement(Lora(a, b), i, j);
    }
  }

  lemma AdapterElement(l: Lora, i: nat, j: nat)
    requires WellFormed(l) && |l.a.shape| == 2 && i < l.b.shape[0] && j < l.a.shape[1]
    ensures Multipliable(l.b, l.a)
    ensures Get(Product(l), [i, j]) == Sum(Rank(l), (k: nat) => Get(l.b, [i, k]) * Get(l.a, [k, j]))
  {
    hide Summand, Product, Get, Sum, Multipliable;
    assert Valid(ShapeOf(l), [i, j]);
    ProductAt(l, [i, j]);
    var f, g := (k: nat) => Summand(l, [i, j], k), (k: nat) => Get(l.b, [i, k]) * Get(l.a, [k, j]);
    forall k: nat
      ensures f(k) == g(k)
    {
      MatrixSummand(l, i, j, k);
    }
    SumEqual(Rank(l), f, g);
  }
}
