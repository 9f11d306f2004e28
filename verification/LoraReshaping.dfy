/** `reshape`, `permute` and `transpose` of the low-rank wrapper. */
module LoraReshaping {
  import opened Common
  import opened TensorAlgebra
  import opened LoraTensor

  // ---------- the new shape ----------

  /** The product of the given dimensions, with 1 for every -1. */
  function Known(shape: seq<int>): int {
    if shape == [] then 1
    else Known(shape[..|shape| - 1]) * (if shape[|shape| - 1] == -1 then 1 else shape[|shape| - 1])
  }

  /** Every -1 replaced by the quotient of the element count and the known dimensions. */
  function Inferred(shape: seq<int>, elems: nat): Option<seq<int>> {
    if -1 !in shape then Some(shape)
    else if Known(shape) == 0 || elems % Known(shape) != 0 then None
    else Some(seq(|shape|, i requires 0 <= i < |shape| => if shape[i] == -1 then elems / Known(shape) else shape[i]))
  }

  predicate NonNegative(shape: seq<int>) {
    forall i | 0 <= i < |shape| :: shape[i] >= 0
  }

  function AsShape(shape: seq<int>): (s: Shape)
    requires NonNegative(shape)
    ensures |s| == |shape| && forall i | 0 <= i < |s| :: s[i] == shape[i]
  {
    seq(|shape|, i requires 0 <= i < |shape| => shape[i])
  }

  function Ones(n: nat): (s: Shape)
    ensures |s| == n && forall i | 0 <= i < n :: s[i] == 1
  {
    seq(n, _ => 1)
  }

  /** `torch.reshape` on a plain tensor for dimensions that are all given. */
  function ReshapeTo(t: Tensor, s: Shape): Option<Tensor> {
    if Prod(s) == Prod(t.shape) then Some(Reshape(t, s)) else None
  }

  /** At most one dimension is left to be inferred. */
  predicate OneInferred(shape: seq<int>) {
    forall i, j | 0 <= i < j < |shape| :: shape[i] != -1 || shape[j] != -1
  }

  /** `torch.reshape` on a plain tensor: at most one -1, inferred from the number of elements. */
  function ReshapeInferred(t: Tensor, shape: seq<int>): Option<Tensor> {
    if !OneInferred(shape) then None
    else match Inferred(shape, Prod(t.shape))
      case Some(full) => if NonNegative(full) then ReshapeTo(t, AsShape(full)) else None
      case None => None
  }

  /** The wrapper's `reshape`, which fills every -1 with the same quotient. */
  function LoraReshape(l: Lora, shape: seq<int>): LoraResult
    requires WellFormed(l)
  {
    var orig := ShapeOf(l);
    var last := orig[|orig| - 1];
    if |shape| < 2 then Err(NotImplemented)
    else match Inferred(shape, Prod(orig))
      case None => Err(BadShape)
      case Some(full) =>
        if full[|full| - 1] != last then Err(NotImplemented)
        else if !NonNegative(full) then Err(BadShape)
        else
          var s := AsShape(full);
          match (ReshapeTo(l.a, Ones(|s| - 2) + [Rank(l), last]), ReshapeTo(l.b, s[..|s| - 1] + [Rank(l)]))
          case (Some(a), Some(b)) => New(a, b)
          case _ => Err(BadShape)
  }

  // ---------- row-major regrouping ----------

  /** Regrouping all axes but the last moves whole rows. */
  lemma SplitLast(s: Shape, t: Shape, d: nat, x: Index, j: nat)
    requires Valid(s, x) && j < d && Prod(s) == Prod(t)
    ensures Ravel(s, x) < Prod(t) && Ravel(s + [d], x + [j]) < Prod(t + [d])
    ensures Unravel(t + [d], Ravel(s + [d], x + [j])) == Unravel(t, Ravel(s, x)) + [j]
  {
    hide Ravel, Unravel, Prod;
    RavelBelow(s, x);
    RavelLast(s, d, x, j);
    ProdSnoc(t, d);
    RowBelow(Ravel(s, x), Prod(t), d, j);
    UnravelLast(t, d, Ravel(s + [d], x + [j]));
    DivModOf(Ravel(s, x), d, j);
  }

  lemma RavelLast(s: Shape, d: nat, x: Index, j: nat)
    requires |x| == |s|
    ensures Ravel(s + [d], x + [j]) == Ravel(s, x) * d + j
  {
    assert (s + [d])[..|s|] == s && (x + [j])[..|s|] == x;
  }

  lemma UnravelLast(t: Shape, d: nat, q: nat)
    requires q < Prod(t + [d])
    ensures d > 0 && q / d < Prod(t) && Unravel(t + [d], q) == Unravel(t, q / d) + [q % d]
  {
    assert (t + [d])[..|t|] == t;
    DivBelow(q, Prod(t), d);
  }

  lemma ReshapeGet(t: Tensor, s: Shape, x: Index)
    requires Prod(s) == Prod(t.shape) && Valid(s, x)
    ensures Ravel(s, x) < Prod(t.shape)
    ensures Get(Reshape(t, s), x) == Get(t, Unravel(t.shape, Ravel(s, x)))
  {
    RavelBelow(s, x);
    RavelUnravel(t.shape, Ravel(s, x));
  }

  lemma {:induction false} ProdOnes(s: Shape)
    requires forall i | 0 <= i < |s| :: s[i] == 1
    ensures Prod(s) == 1
  {
    if s != [] {
      ProdOnes(s[..|s| - 1]);
    }
  }

  lemma {:induction false} OnesOfProd(s: Shape)
    requires Prod(s) == 1
    ensures forall i | 0 <= i < |s| :: s[i] == 1
  {
    if s != [] {
      var n := |s| - 1;
      FactorsOfOne(Prod(s[..n]), s[n]);
      OnesOfProd(s[..n]);
    }
  }

  lemma FactorsOfOne(a: nat, b: nat)
    requires a * b == 1
    ensures a == 1 && b == 1
  {
    MulMono(2, a, b);
    MulMono(2, b, a);
  }

  lemma ProdSnoc(s: Shape, d: nat)
    ensures Prod(s + [d]) == Prod(s) * d
  {
    assert (s + [d])[..|s|] == s;
  }

  lemma CancelRight(a: nat, b: nat, d: nat)
    requires a * d == b * d && d > 0
    ensures a == b
  {
    MulMono(a + 1, b, d);
    MulMono(b + 1, a, d);
  }

  lemma ZeroIndex(s: Shape, x: Index)
    requires Valid(s, x) && forall i | 0 <= i < |s| :: s[i] == 1
    ensures x == seq(|s|, _ => 0)
  {
  }

  lemma OnesProd(u: Shape, r: nat, d: nat)
    requires forall i | 0 <= i < |u| :: u[i] == 1
    ensures Prod(u + [r]) == r && Prod(u + [r] + [d]) == r * d
  {
    ProdOnes(u);
    ProdSnoc(u, r);
    ProdSnoc(u + [r], d);
  }

  /** Leading axes of size 1 carry no information: the last two coordinates stay. */
  lemma OnesIndex(u: Shape, lead: Shape, r: nat, d: nat, z: Index, k: nat, j: nat)
    requires (forall i | 0 <= i < |u| :: u[i] == 1) && (forall i | 0 <= i < |lead| :: lead[i] == 1)
    requires Valid(u, z) && k < r && j < d
    ensures Prod(u + [r] + [d]) == Prod(lead + [r] + [d]) && Valid(u + [r] + [d], z + [k] + [j])
    ensures Ravel(u + [r] + [d], z + [k] + [j]) < Prod(lead + [r] + [d])
    ensures Unravel(lead + [r] + [d], Ravel(u + [r] + [d], z + [k] + [j])) == seq(|lead|, _ => 0) + [k] + [j]
  {
    ProdOnes(u);
    ProdOnes(lead);
    OnesProd(u, r, d);
    OnesProd(lead, r, d);
    SplitLast(u, lead, r, z, k);
    SplitLast(u + [r], lead + [r], d, z + [k], j);
    ZeroIndex(lead, Unravel(lead, Ravel(u, z)));
  }

  /** A's element behind an index of the reshaped A, whose leading axes all have size 1. */
  lemma ReshapedA(t: Tensor, a: Tensor, u: Shape, lead: Shape, r: nat, d: nat, x: Index, y: Index, k: nat, j: nat)
    requires (forall i | 0 <= i < |u| :: u[i] == 1) && (forall i | 0 <= i < |lead| :: lead[i] == 1)
    requires t.shape == lead + [r, d] && a.shape == u + [r, d] && a.data == t.data
    requires |x| == |u| && |y| == |lead| && k < r && j < d
    ensures Get(a, Clamp(u, x) + [k, j]) == Get(t, Clamp(lead, y) + [k, j])
  {
    var z := Clamp(u, x);
    OnesIndex(u, lead, r, d, z, k, j);
    assert u + [r, d] == u + [r] + [d] && lead + [r, d] == lead + [r] + [d];
    assert z + [k, j] == z + [k] + [j];
    var w := Clamp(lead, y);
    assert w == seq(|lead|, _ => 0) && w + [k] + [j] == w + [k, j];
    assert a == Reshape(t, a.shape);
    ReshapeGet(t, a.shape, z + [k, j]);
  }

  lemma ReshapedB(l: Lora, b: Tensor, s: Shape, x: Index, k: nat)
    requires WellFormed(l) && b.shape == s + [Rank(l)] && b.data == l.b.data
    requires Valid(s, x) && k < Rank(l) && Prod(s) == Prod(l.b.shape[..|l.b.shape| - 1])
    ensures Ravel(s, x) < Prod(s)
    ensures Get(b, x + [k]) == Get(l.b, Unravel(l.b.shape[..|l.b.shape| - 1], Ravel(s, x)) + [k])
  {
    var rows := l.b.shape[..|l.b.shape| - 1];
    assert l.b.shape == rows + [Rank(l)];
    assert b == Reshape(l.b, b.shape);
    SplitLast(s, rows, Rank(l), x, k);
    ReshapeGet(l.b, b.shape, x + [k]);
  }

  /** What a reshape that succeeds has checked. */
  predicate ReshapeOk(l: Lora, s: Shape, m: Lora) {
    && WellFormed(l) && |s| >= 2 && s[|s| - 1] == l.a.shape[|l.a.shape| - 1]
    && Prod(s[..|s| - 1]) == Prod(l.b.shape[..|l.b.shape| - 1])
    && Lead(l.a.shape) == Ones(|l.a.shape| - 2)
    && m.a.shape == Ones(|s| - 2) + [Rank(l), s[|s| - 1]] && m.a.data == l.a.data
    && m.b.shape == s[..|s| - 1] + [Rank(l)] && m.b.data == l.b.data
  }

  lemma ReshapeShapes(l: Lora, s: Shape, m: Lora)
    requires ReshapeOk(l, s, m)
    ensures WellFormed(m) && ShapeOf(m) == s && Rank(m) == Rank(l) && Prod(s) == Prod(ShapeOf(l))
  {
    assert s == s[..|s| - 1] + [s[|s| - 1]];
    ProdSnoc(s[..|s| - 1], s[|s| - 1]);
    ProdSnoc(l.b.shape[..|l.b.shape| - 1], s[|s| - 1]);
  }

  lemma ReshapeFactorA(l: Lora, s: Shape, m: Lora, x: Index, y: Index, k: nat, j: nat)
    requires ReshapeOk(l, s, m) && |x| == |s| - 2 && |y| == |l.a.shape| - 2 && k < Rank(l) && j < s[|s| - 1]
    ensures |m.a.shape| == |s|
    ensures Get(m.a, Clamp(Lead(m.a.shape), x) + [k, j]) == Get(l.a, Clamp(Lead(l.a.shape), y) + [k, j])
  {
    var u, lead, d := Ones(|s| - 2), Lead(l.a.shape), s[|s| - 1];
    assert Lead(m.a.shape) == u;
    assert l.a.shape == lead + [Rank(l), d];
    ReshapedA(l.a, m.a, u, lead, Rank(l), d, x, y, k, j);
  }

  lemma ReshapeSummand(l: Lora, s: Shape, m: Lora, rows: Index, j: nat, k: nat, lead: Index, i: nat)
    requires ReshapeOk(l, s, m) && Valid(s[..|s| - 1], lead + [i]) && j < s[|s| - 1] && k < Rank(l)
    requires Ravel(s[..|s| - 1], lead + [i]) < Prod(s[..|s| - 1])
    requires rows == Unravel(l.b.shape[..|l.b.shape| - 1], Ravel(s[..|s| - 1], lead + [i]))
    ensures |m.a.shape| == |lead| + 2 && |l.a.shape| == |rows| + 1
    ensures Summand(m, lead + [i, j], k) == Summand(l, rows + [j], k)
  {
    hide Summand;
    ReshapedB(l, m.b, s[..|s| - 1], lead + [i], k);
    assert lead + [i] + [k] == lead + [i, k];
    var y := rows + [j];
    assert y[..|y| - 1] == rows;
    ReshapeFactorA(l, s, m, lead, y[..|y| - 2], k, j);
    SameSummand(m, lead, i, j, l, y, k);
  }

  lemma ReshapeElement(l: Lora, s: Shape, m: Lora, lead: Index, i: nat, j: nat)
    requires ReshapeOk(l, s, m) && Valid(s, lead + [i, j])
    ensures Multipliable(l.b, l.a) && Multipliable(m.b, m.a) && Prod(s) == Prod(Product(l).shape)
    ensures Get(Product(m), lead + [i, j]) == Get(Reshape(Product(l), s), lead + [i, j])
  {
    var n, all, x := |s| - 1, l.b.shape[..|l.b.shape| - 1], lead + [i, j];
    ReshapeShapes(l, s, m);
    WellFormedMultipliable(l);
    assert s == s[..n] + [s[n]] && x == lead + [i] + [j];
    assert x[..n] == lead + [i] && x[n] == j;
    SplitLast(s[..n], all, s[n], lead + [i], j);
    var rows := Unravel(all, Ravel(s[..n], lead + [i]));
    assert ShapeOf(l) == all + [s[n]];
    forall k: nat | k < Rank(l) ensures |m.a.shape| == |x| && Summand(m, x, k) == Summand(l, rows + [j], k) {
      ReshapeSummand(l, s, m, rows, j, k, lead, i);
    }
    SameElement(m, x, l, rows + [j]);
    ReshapeGet(Product(l), s, x);
  }

  lemma ReshapeProduct(l: Lora, s: Shape, m: Lora)
    requires ReshapeOk(l, s, m)
    ensures WellFormed(m) && Multipliable(l.b, l.a) && Multipliable(m.b, m.a)
    ensures ReshapeTo(Product(l), s) == Some(Product(m))
  {
    hide Prod;
    ReshapeShapes(l, s, m);
    WellFormedMultipliable(l);
    WellFormedMultipliable(m);
    var t := Reshape(Product(l), s);
    forall x | Valid(s, x) ensures Get(Product(m), x) == Get(t, x) {
      assert x == x[..|x| - 2] + [x[|x| - 2], x[|x| - 1]];
      ReshapeElement(l, s, m, x[..|x| - 2], x[|x| - 2], x[|x| - 1]);
    }
    TensorExt(Product(m), t);
  }

  /** The full new shape, when the -1 entries could be inferred. */
  function FullShape(l: Lora, shape: seq<int>): Option<Shape>
    requires WellFormed(l)
  {
    match Inferred(shape, Prod(ShapeOf(l)))
    case Some(full) => if NonNegative(full) then Some(AsShape(full)) else None
    case None => None
  }

  /** With rank and row size positive, success means A has no leading dimension but 1 and B's rows are kept. */
  lemma ReshapeChecks(l: Lora, shape: seq<int>)
    requires WellFormed(l) && LoraReshape(l, shape).Ok? && Rank(l) > 0 && l.a.shape[|l.a.shape| - 1] > 0
    ensures FullShape(l, shape).Some? && ReshapeOk(l, FullShape(l, shape).value, LoraReshape(l, shape).value)
  {
    hide Prod;
    var s, m := FullShape(l, shape).value, LoraReshape(l, shape).value;
    var n, r, d := |s|, Rank(l), l.a.shape[|l.a.shape| - 1];
    var lead, u := Lead(l.a.shape), Ones(n - 2);
    assert l.a.shape == lead + [r] + [d] && u + [r, d] == u + [r] + [d];
    ProdSnoc(lead, r);
    ProdSnoc(lead + [r], d);
    ProdSnoc(u, r);
    ProdSnoc(u + [r], d);
    ProdOnes(u);
    CancelRight(Prod(lead) * r, 1 * r, d);
    CancelRight(Prod(lead), 1, r);
    OnesOfProd(lead);
    assert lead == Ones(|lead|);
    ProdSnoc(s[..n - 1], r);
    ProdSnoc(l.b.shape[..|l.b.shape| - 1], r);
    assert l.b.shape == l.b.shape[..|l.b.shape| - 1] + [r];
    CancelRight(Prod(s[..n - 1]), Prod(l.b.shape[..|l.b.shape| - 1]), r);
  }

  /** Without columns there is nothing to check and nothing to move. */
  lemma ReshapeEmpty(l: Lora, shape: seq<int>)
    requires WellFormed(l) && LoraReshape(l, shape).Ok? && l.a.shape[|l.a.shape| - 1] == 0
    ensures var m := LoraReshape(l, shape).value;
            && WellFormed(m) && Multipliable(l.b, l.a) && Multipliable(m.b, m.a)
            && FullShape(l, shape).Some?
            && ReshapeTo(Product(l), FullShape(l, shape).value) == Some(Product(m))
  {
    hide Prod;
    var s, m, n := FullShape(l, shape).value, LoraReshape(l, shape).value, |l.a.shape| - 1;
    WellFormedMultipliable(l);
    WellFormedMultipliable(m);
    assert s == s[..|s| - 1] + [0] && ShapeOf(l) == l.b.shape[..n] + [0] && ShapeOf(m) == s;
    ProdSnoc(s[..|s| - 1], 0);
    ProdSnoc(l.b.shape[..n], 0);
    assert Product(m).data == [] == Product(l).data;
  }

  /** `reshape` keeping the last dimension, where it succeeds, reshapes the product. */
  lemma ReshapeCommutes(l: Lora, shape: seq<int>)
    requires WellFormed(l) && LoraReshape(l, shape).Ok? && Rank(l) > 0
    ensures var m := LoraReshape(l, shape).value;
            && WellFormed(m) && Multipliable(l.b, l.a) && Multipliable(m.b, m.a)
            && FullShape(l, shape).Some?
            && ReshapeTo(Product(l), FullShape(l, shape).value) == Some(Product(m))
  {
    if l.a.shape[|l.a.shape| - 1] == 0 {
      ReshapeEmpty(l, shape);
    } else {
      ReshapeChecks(l, shape);
      ReshapeProduct(l, FullShape(l, shape).value, LoraReshape(l, shape).value);
    }
  }

  lemma AllZero(l: Lora, q: nat)
    requires WellFormed(l) && Rank(l) == 0
    ensures Multipliable(l.b, l.a) && Product(l).shape == ShapeOf(l)
    ensures q < Prod(ShapeOf(l)) ==> Product(l).data[q] == 0.0
  {
    WellFormedMultipliable(l);
    ShapeExact(l);
    if q < Prod(ShapeOf(l)) {
      var x := Unravel(ShapeOf(l), q);
      RavelUnravel(ShapeOf(l), q);
      ProductAt(l, x);
    }
  }

  /** Without rank both products are zero, so only the number of elements can tell them apart. */
  lemma ReshapeZero(l: Lora, m: Lora)
    requires WellFormed(l) && WellFormed(m) && Rank(l) == Rank(m) == 0
    ensures Multipliable(l.b, l.a) && Multipliable(m.b, m.a)
    ensures ReshapeTo(Product(l), ShapeOf(m)) == Some(Product(m)) <==> Prod(ShapeOf(m)) == Prod(ShapeOf(l))
  {
    AllZero(l, 0);
    AllZero(m, 0);
    if Prod(ShapeOf(m)) == Prod(ShapeOf(l)) {
      forall q | 0 <= q < Prod(ShapeOf(m))
        ensures Product(m).data[q] == Product(l).data[q]
      {
        AllZero(l, q);
        AllZero(m, q);
      }
      assert Reshape(Product(l), ShapeOf(m)).data == Product(m).data;
    }
  }

  lemma ReshapeFull(l: Lora, shape: seq<int>)
    requires WellFormed(l) && LoraReshape(l, shape).Ok?
    ensures var m := LoraReshape(l, shape).value;
            && WellFormed(m) && Multipliable(l.b, l.a) && Multipliable(m.b, m.a)
            && FullShape(l, shape).Some? && var s := FullShape(l, shape).value;
            (ReshapeTo(Product(l), s) == Some(Product(m)) <==> Rank(l) > 0 || Prod(s) == Prod(ShapeOf(l)))
  {
    var s, m := FullShape(l, shape).value, LoraReshape(l, shape).value;
    if Rank(l) > 0 {
      ReshapeCommutes(l, shape);
    } else {
      assert s == s[..|s| - 1] + [s[|s| - 1]] && ShapeOf(m) == s;
      ReshapeZero(l, m);
    }
  }

  /**
   * `reshape`, where it succeeds, gives a well-formed pair. It stands for the reshaped product exactly when at
   * most one dimension was left to be inferred (PyTorch refuses more) and, for factors of rank 0, which can be
   * regrouped at will, the new shape holds as many elements as the old.
   */
  lemma ReshapeExact(l: Lora, shape: seq<int>)
    requires WellFormed(l) && LoraReshape(l, shape).Ok?
    ensures var m := LoraReshape(l, shape).value;
            && WellFormed(m) && Multipliable(l.b, l.a) && Multipliable(m.b, m.a) && FullShape(l, shape).Some?
            && (ReshapeInferred(Product(l), shape) == Some(Product(m)) <==>
                OneInferred(shape) && (Rank(l) > 0 || Prod(FullShape(l, shape).value) == Prod(ShapeOf(l))))
  {
    hide LoraReshape, ReshapeTo, Prod, Product, Inferred, OneInferred;
    ReshapeFull(l, shape);
    InferredOnProduct(l, shape);
  }

  lemma InferredOnProduct(l: Lora, shape: seq<int>)
    requires WellFormed(l) && FullShape(l, shape).Some?
    ensures Multipliable(l.b, l.a)
    ensures ReshapeInferred(Product(l), shape) ==
            if OneInferred(shape) then ReshapeTo(Product(l), FullShape(l, shape).value) else None
  {
    WellFormedMultipliable(l);
  }

  /** Which shapes the wrapper accepts. */
  lemma ReshapeAccepted(l: Lora, shape: seq<int>)
    requires WellFormed(l)
    ensures LoraReshape(l, shape).Ok? <==>
            && |shape| >= 2 && FullShape(l, shape).Some?
            && var s, r, d := FullShape(l, shape).value, Rank(l), l.a.shape[|l.a.shape| - 1];
            && s[|s| - 1] == d && (r == 0 || d == 0 || Lead(l.a.shape) == Ones(|l.a.shape| - 2))
            && (r == 0 || Prod(s[..|s| - 1]) == Prod(l.b.shape[..|l.b.shape| - 1]))
  {
    hide Prod, ReshapeTo;
    if |shape| >= 2 && FullShape(l, shape).Some? {
      var s := FullShape(l, shape).value;
      FullLast(l, shape);
      ReshapeA(l, |s| - 2);
      ReshapeB(l, s[..|s| - 1]);
    }
  }

  lemma FullLast(l: Lora, shape: seq<int>)
    requires WellFormed(l) && |shape| >= 2 && FullShape(l, shape).Some?
    ensures var s, r, d := FullShape(l, shape).value, Rank(l), l.a.shape[|l.a.shape| - 1];
            |s| == |shape| && (LoraReshape(l, shape).Ok? <==>
            s[|s| - 1] == d && ReshapeTo(l.a, Ones(|s| - 2) + [r, d]).Some? && ReshapeTo(l.b, s[..|s| - 1] + [r]).Some?)
  {
    hide Prod;
  }

  lemma ReshapeA(l: Lora, n: nat)
    requires WellFormed(l)
    ensures var r, d := Rank(l), l.a.shape[|l.a.shape| - 1];
            ReshapeTo(l.a, Ones(n) + [r, d]).Some? <==> r == 0 || d == 0 || Lead(l.a.shape) == Ones(|l.a.shape| - 2)
  {
    hide Prod;
    var r, d, lead := Rank(l), l.a.shape[|l.a.shape| - 1], Lead(l.a.shape);
    assert l.a.shape == lead + [r] + [d] && Ones(n) + [r, d] == Ones(n) + [r] + [d];
    OnesProd(Ones(n), r, d);
    ProdSnoc(lead, r);
    ProdSnoc(lead + [r], d);
    if Prod(lead) * r * d == r * d && r > 0 && d > 0 {
      CancelRight(Prod(lead) * r, 1 * r, d);
      CancelRight(Prod(lead), 1, r);
      OnesOfProd(lead);
      assert lead == Ones(|lead|);
    }
    if lead == Ones(|lead|) {
      ProdOnes(lead);
    }
  }

  lemma ReshapeB(l: Lora, rows: Shape)
    requires WellFormed(l)
    ensures ReshapeTo(l.b, rows + [Rank(l)]).Some? <==>
            Rank(l) == 0 || Prod(rows) == Prod(l.b.shape[..|l.b.shape| - 1])
  {
    hide Prod;
    var was, r := l.b.shape[..|l.b.shape| - 1], Rank(l);
    assert l.b.shape == was + [r];
    ProdSnoc(rows, r);
    ProdSnoc(was, r);
    if Prod(rows) * r == Prod(was) * r && r > 0 {
      CancelRight(Prod(rows), Prod(was), r);
    }
  }

  lemma {:induction false} KnownOne(shape: seq<int>, full: seq<int>, p: nat)
    requires p < |shape| == |full| && shape[p] == -1
    requires forall i | 0 <= i < |shape| && i != p :: shape[i] != -1 && full[i] == shape[i]
    requires NonNegative(full)
    ensures Prod(AsShape(full)) == Known(shape) * full[p]
    decreases |shape|
  {
    var n := |shape| - 1;
    assert AsShape(full)[..n] == AsShape(full[..n]);
    if p < n {
      KnownOne(shape[..n], full[..n], p);
      var a, b, c := Known(shape[..n]), full[p], full[n];
      assert a * b * c == a * c * b;
    } else {
      KnownAll(shape[..n], full[..n]);
    }
  }

  lemma {:induction false} KnownAll(shape: seq<int>, full: seq<int>)
    requires |shape| == |full| && forall i | 0 <= i < |shape| :: shape[i] != -1 && full[i] == shape[i]
    requires NonNegative(full)
    ensures Prod(AsShape(full)) == Known(shape)
  {
    if shape != [] {
      var n := |shape| - 1;
      assert AsShape(full)[..n] == AsShape(full[..n]);
      KnownAll(shape[..n], full[..n]);
    }
  }

  /** The inferred dimension is the one that keeps the number of elements. */
  lemma InferredKeepsElements(shape: seq<int>, elems: nat, p: nat)
    requires p < |shape| && shape[p] == -1 && forall i | 0 <= i < |shape| && i != p :: shape[i] >= 0
    requires Inferred(shape, elems).Some?
    ensures var full := Inferred(shape, elems).value;
            && |full| == |shape| && (forall i | 0 <= i < |shape| && i != p :: full[i] == shape[i])
            && NonNegative(full) && Prod(AsShape(full)) == elems
  {
    KnownPositive(shape, p);
    var full := Inferred(shape, elems).value;
    assert elems / Known(shape) >= 0;
    KnownOne(shape, full, p);
    assert elems == Known(shape) * (elems / Known(shape)) + elems % Known(shape);
  }

  lemma {:induction false} KnownPositive(shape: seq<int>, p: nat)
    requires forall i | 0 <= i < |shape| && i != p :: shape[i] >= 0
    requires p < |shape| ==> shape[p] == -1
    ensures Known(shape) >= 0
    decreases |shape|
  {
    if shape != [] {
      var n := |shape| - 1;
      KnownPositive(shape[..n], p);
      if n != p {
        NonNegProduct(Known(shape[..n]), shape[n]);
      }
    }
  }

  lemma NonNegProduct(a: int, b: int)
    requires a >= 0 && b >= 0
    ensures a * b >= 0
  {
  }

  // ---------- permute ----------

  /** PyTorch's reading of an axis number. */
  function AxisNumber(d: int, n: nat): Option<nat> {
    if 0 <= d < n then Some(d) else if d < 0 <= d + n then Some(d + n) else None
  }

  function AxisNumbers(dims: seq<int>, n: nat): (r: Option<seq<nat>>)
    ensures r.Some? ==> |r.value| == |dims| && forall i | 0 <= i < |dims| :: AxisNumber(dims[i], n) == Some(r.value[i])
    ensures r.None? ==> exists i | 0 <= i < |dims| :: AxisNumber(dims[i], n).None?
  {
    if dims == [] then Some([])
    else match (AxisNumber(dims[0], n), AxisNumbers(dims[1..], n))
      case (Some(d), Some(ds)) => Some([d] + ds)
      case _ => None
  }

  /** `torch.permute` on a plain tensor. */
  function PermuteTo(t: Tensor, dims: seq<int>): Option<Tensor> {
    match AxisNumbers(dims, |t.shape|)
    case Some(ds) => if IsPermutation(ds, |t.shape|) then Some(Permute(t, ds)) else None
    case None => None
  }

  /** Axis numbers counted from the end, as the wrapper first rewrites them. */
  function FromEnd(dims: seq<int>, n: nat): (r: seq<int>)
    ensures |r| == |dims|
  {
    seq(|dims|, i requires 0 <= i < |dims| => if dims[i] >= 0 then dims[i] - n else dims[i])
  }

  function LoraPermute(l: Lora, given: seq<int>): LoraResult
    requires WellFormed(l)
  {
    var n := |l.b.shape|;
    var dims := FromEnd(given, n);
    if dims == [] then Err(BadIndex)
    else if dims[|dims| - 1] == -1 then
      if exists i :: 0 <= i < n - 2 && l.a.shape[i] != 1 then Err(AssertionError)
      else match PermuteTo(l.b, dims) case Some(b) => New(l.a, b) case None => Err(BadShape)
    else if n == 2 && |dims| >= 2 && dims[|dims| - 1] == -2 && dims[|dims| - 2] == -1 then
      match (PermuteTo(l.b, dims), PermuteTo(l.a, dims))
      case (Some(a), Some(b)) => New(a, b)
      case _ => Err(BadShape)
    else Err(NotImplemented)
  }

  /** For axis numbers PyTorch accepts, the rewriting changes nothing. */
  lemma FromEndSame(given: seq<int>, n: nat)
    requires forall i | 0 <= i < |given| :: given[i] < n
    ensures AxisNumbers(FromEnd(given, n), n) == AxisNumbers(given, n)
  {
    forall i | 0 <= i < |given| ensures AxisNumber(FromEnd(given, n)[i], n) == AxisNumber(given[i], n) {
    }
    SameNumbers(FromEnd(given, n), given, n);
  }

  lemma {:induction false} SameNumbers(a: seq<int>, b: seq<int>, n: nat)
    requires |a| == |b| && forall i | 0 <= i < |a| :: AxisNumber(a[i], n) == AxisNumber(b[i], n)
    ensures AxisNumbers(a, n) == AxisNumbers(b, n)
  {
    if a != [] {
      SameNumbers(a[1..], b[1..], n);
    }
  }

  /** A permutation that leaves the last axis where it is. */
  predicate KeepsLast(ds: seq<nat>, n: nat) {
    IsPermutation(ds, n + 1) && ds[n] == n
  }

  lemma OthersBelow(ds: seq<nat>, n: nat, i: nat)
    requires KeepsLast(ds, n) && i < n
    ensures ds[i] < n
  {
    AxisBelow(ds, n + 1, i);
    if ds[i] == n {
      AxesDistinct(ds, n + 1, i, n);
    }
  }

  /** The other axes do not see the last coordinate. */
  lemma UnpermutedLast(x: Index, ds: seq<nat>, j: nat)
    requires KeepsLast(ds, |x|)
    ensures Unpermuted(x + [j], ds) == Unpermuted(x + [0], ds)[..|x|] + [j]
  {
    var n := |x|;
    UnpermutedAt(x + [j], ds, n);
    forall a | 0 <= a < n ensures Unpermuted(x + [j], ds)[a] == Unpermuted(x + [0], ds)[a] {
      AxisPresent(ds, n + 1, a);
      var i := Position(ds, a);
      UnpermutedAt(x + [j], ds, i);
      UnpermutedAt(x + [0], ds, i);
      assert i != n;
    }
  }

  lemma PermutedLast(s: seq<nat>, ds: seq<nat>, d: nat)
    requires KeepsLast(ds, |s|)
    ensures Permuted(s + [d], ds) == Permuted(s + [0], ds)[..|s|] + [d]
  {
    PermutedAt(s + [d], ds, |s|);
    forall i | 0 <= i < |s| ensures Permuted(s + [d], ds)[i] == Permuted(s + [0], ds)[i] {
      OthersBelow(ds, |s|, i);
      PermutedAt(s + [d], ds, i);
      PermutedAt(s + [0], ds, i);
    }
  }

  /** Indices and axes with the last one replaced. */
  lemma PermutedRows(rows: Shape, ds: seq<nat>, x: Index, d: nat, j: nat)
    requires KeepsLast(ds, |rows|) && |x| == |rows| && j < d
    requires Valid(Permuted(rows + [0], ds)[..|rows|], x)
    ensures Valid(Permuted(rows + [d], ds), x + [j])
    ensures Unpermuted(x + [j], ds) == Unpermuted(x + [0], ds)[..|rows|] + [j]
    ensures Valid(rows + [d], Unpermuted(x + [j], ds))
  {
    PermutedLast(rows, ds, d);
    UnpermutedLast(x, ds, j);
    UnpermutedValid(rows + [d], ds, x + [j]);
  }

  /** `l` with B's axes permuted, the rank staying last and A having no leading dimension but 1. */
  predicate PermuteOk(l: Lora, ds: seq<nat>, m: Lora) {
    && WellFormed(l) && KeepsLast(ds, |l.b.shape| - 1)
    && (forall i | 0 <= i < |l.a.shape| - 2 :: l.a.shape[i] == 1)
    && m.a == l.a && m.b == Permute(l.b, ds)
  }

  function Rows(l: Lora): Shape
    requires WellFormed(l)
  {
    l.b.shape[..|l.b.shape| - 1]
  }

  function PermutedRowShape(l: Lora, ds: seq<nat>): Shape
    requires WellFormed(l) && KeepsLast(ds, |l.b.shape| - 1)
  {
    Permuted(Rows(l) + [0], ds)[..|Rows(l)|]
  }

  lemma PermuteShapes(l: Lora, ds: seq<nat>, m: Lora)
    requires PermuteOk(l, ds, m)
    ensures WellFormed(m) && Rank(m) == Rank(l) && ShapeOf(m) == Permuted(ShapeOf(l), ds)
    ensures ShapeOf(m) == PermutedRowShape(l, ds) + [l.a.shape[|ds| - 1]]
  {
    var n := |ds| - 1;
    assert l.b.shape == Rows(l) + [Rank(l)];
    PermutedLast(Rows(l), ds, Rank(l));
    PermutedLast(Rows(l), ds, l.a.shape[n]);
  }

  lemma PermuteSummand(l: Lora, ds: seq<nat>, m: Lora, lead: Index, i: nat, j: nat, k: nat)
    requires PermuteOk(l, ds, m) && |lead| + 2 == |ds| && k < Rank(l)
    requires Valid(PermutedRowShape(l, ds), lead + [i])
    ensures Summand(m, lead + [i, j], k) == Summand(l, Unpermuted(lead + [i] + [0], ds)[..|ds| - 1] + [j], k)
  {
    var n := |ds| - 1;
    var y := Unpermuted(lead + [i] + [0], ds)[..n] + [j];
    assert l.b.shape == Rows(l) + [Rank(l)];
    PermutedRows(Rows(l), ds, lead + [i], Rank(l), k);
    assert lead + [i] + [k] == lead + [i, k];
    PermuteAt(l.b, ds, lead + [i, k]);
    assert y[..n] == Unpermuted(lead + [i] + [0], ds)[..n];
    var lead_a := Lead(l.a.shape);
    assert forall a | 0 <= a < |lead_a| :: lead_a[a] == l.a.shape[a];
    assert Clamp(lead_a, lead) == Clamp(lead_a, y[..n - 1]);
    SameSummand(m, lead, i, j, l, y, k);
  }

  lemma PermuteElement(l: Lora, ds: seq<nat>, m: Lora, lead: Index, i: nat, j: nat)
    requires PermuteOk(l, ds, m) && |lead| + 2 == |ds| && j < l.a.shape[|ds| - 1]
    requires Valid(PermutedRowShape(l, ds), lead + [i])
    ensures Multipliable(l.b, l.a) && Multipliable(m.b, m.a) && |Product(l).shape| == |ds|
    ensures Get(Product(m), lead + [i, j]) == Get(Permute(Product(l), ds), lead + [i, j])
  {
    hide Permute;
    var n := |ds| - 1;
    var x := lead + [i, j];
    var y := Unpermuted(lead + [i] + [0], ds)[..n] + [j];
    PermuteShapes(l, ds, m);
    WellFormedMultipliable(l);
    PermutedRows(Rows(l), ds, lead + [i], l.a.shape[n], j);
    assert lead + [i] + [j] == x;
    assert ShapeOf(l) == Rows(l) + [l.a.shape[n]];
    PermuteAt(Product(l), ds, x);
    forall k: nat | k < Rank(l) ensures |m.a.shape| == |x| && Summand(m, x, k) == Summand(l, y, k) {
      PermuteSummand(l, ds, m, lead, i, j, k);
    }
    SameElement(m, x, l, y);
  }

  lemma PermuteProduct(l: Lora, ds: seq<nat>, m: Lora)
    requires PermuteOk(l, ds, m)
    ensures WellFormed(m) && Multipliable(l.b, l.a) && Multipliable(m.b, m.a)
    ensures |Product(l).shape| == |ds| && Permute(Product(l), ds) == Product(m)
  {
    PermuteShapes(l, ds, m);
    WellFormedMultipliable(l);
    WellFormedMultipliable(m);
    var p, t := Product(m), Permute(Product(l), ds);
    forall x | Valid(ShapeOf(m), x) ensures Get(p, x) == Get(t, x) {
      PermuteElementAt(l, ds, m, x);
    }
    TensorExt(p, t);
  }

  lemma PermuteElementAt(l: Lora, ds: seq<nat>, m: Lora, x: Index)
    requires PermuteOk(l, ds, m) && |m.a.shape| == |m.b.shape| && Valid(ShapeOf(m), x)
    ensures Multipliable(l.b, l.a) && Multipliable(m.b, m.a) && |Product(l).shape| == |ds|
    ensures Get(Product(m), x) == Get(Permute(Product(l), ds), x)
  {
    hide Permute;
    var n := |ds|;
    PermuteShapes(l, ds, m);
    var lead, i, j := x[..n - 2], x[n - 2], x[n - 1];
    assert x == lead + [i, j] == lead + [i] + [j];
    ValidSnoc(PermutedRowShape(l, ds), l.a.shape[n - 1], lead + [i], j);
    PermuteElement(l, ds, m, lead, i, j);
  }

  lemma ValidSnoc(s: Shape, d: nat, x: Index, j: nat)
    requires Valid(s + [d], x + [j]) && |s| == |x|
    ensures Valid(s, x) && j < d
  {
    forall a | 0 <= a < |s| ensures x[a] < s[a] {
      assert (x + [j])[a] < (s + [d])[a];
    }
    assert (x + [j])[|s|] < (s + [d])[|s|];
  }

  // ---------- transposing a matrix ----------

  const SWAP: seq<nat> := [1, 0]

  lemma SwapAt(t: Tensor, i: nat, j: nat)
    requires |t.shape| == 2 && i < t.shape[1] && j < t.shape[0]
    ensures IsPermutation(SWAP, 2) && Permute(t, SWAP).shape == [t.shape[1], t.shape[0]]
    ensures Get(Permute(t, SWAP), [i, j]) == Get(t, [j, i])
  {
    SwapShape(t.shape);
    UnpermutedAt([i, j], SWAP, 0);
    UnpermutedAt([i, j], SWAP, 1);
    assert Unpermuted([i, j], SWAP) == [j, i];
    PermuteAt(t, SWAP, [i, j]);
  }

  lemma SwapShape(s: Shape)
    requires |s| == 2
    ensures IsPermutation(SWAP, 2) && Permuted(s, SWAP) == [s[1], s[0]]
  {
    assert Identity(2) == [0, 1];
    PermutedAt(s, SWAP, 0);
    PermutedAt(s, SWAP, 1);
  }

  predicate TransposeOk(l: Lora, m: Lora) {
    && WellFormed(l) && |l.a.shape| == 2 && IsPermutation(SWAP, 2)
    && m.a == Permute(l.b, SWAP) && m.b == Permute(l.a, SWAP)
  }

  /** Transposing a matrix product swaps and transposes the factors. */
  lemma TransposeSummand(l: Lora, m: Lora, i: nat, j: nat, k: nat)
    requires TransposeOk(l, m) && i < l.a.shape[1] && j < l.b.shape[0] && k < Rank(l)
    ensures |m.a.shape| == 2 && Summand(m, [i, j], k) == Summand(l, [j, i], k)
  {
    hide Permute;
    MatrixSummand(l, j, i, k);
    SwapAt(l.a, i, k);
    SwapAt(l.b, k, j);
    SwappedFactors(l, m, i, j, k);
  }

  lemma SwappedFactors(l: Lora, m: Lora, i: nat, j: nat, k: nat)
    requires |m.a.shape| == 2
    requires Get(m.b, [i, k]) == Get(l.a, [k, i]) && Get(m.a, [k, j]) == Get(l.b, [j, k])
    ensures Summand(m, [i, j], k) == Get(l.b, [j, k]) * Get(l.a, [k, i])
  {
    MatrixSummand(m, i, j, k);
  }

  lemma TransposeShapes(l: Lora, m: Lora)
    requires TransposeOk(l, m)
    ensures WellFormed(m) && Rank(m) == Rank(l) && ShapeOf(m) == [l.a.shape[1], l.b.shape[0]]
  {
    SwapShape(l.a.shape);
    SwapShape(l.b.shape);
  }

  lemma TransposeElement(l: Lora, m: Lora, i: nat, j: nat)
    requires TransposeOk(l, m) && i < l.a.shape[1] && j < l.b.shape[0]
    ensures Multipliable(l.b, l.a) && Multipliable(m.b, m.a)
    ensures Get(Product(m), [i, j]) == Get(Product(l), [j, i])
  {
    TransposeShapes(l, m);
    forall k: nat | k < Rank(l) ensures |m.a.shape| == 2 && Summand(m, [i, j], k) == Summand(l, [j, i], k) {
      TransposeSummand(l, m, i, j, k);
    }
    assert Valid(ShapeOf(m), [i, j]) && Valid(ShapeOf(l), [j, i]);
    SameElement(m, [i, j], l, [j, i]);
  }

  lemma TransposedShape(l: Lora, m: Lora)
    requires TransposeOk(l, m)
    ensures WellFormed(m) && Multipliable(l.b, l.a) && Multipliable(m.b, m.a)
    ensures |Product(l).shape| == 2
    ensures Product(m).shape == Permute(Product(l), SWAP).shape == [l.a.shape[1], l.b.shape[0]]
  {
    hide Permute, Permuted, MatMul, MatMulShape, Broadcastable, Lead;
    TransposeShapes(l, m);
    WellFormedMultipliable(l);
    WellFormedMultipliable(m);
    MatMulHasShape(l);
    MatMulHasShape(m);
    SwapShape(Product(l).shape);
  }

  lemma MatMulHasShape(l: Lora)
    requires Multipliable(l.b, l.a)
    ensures Product(l).shape == MatMulShape(l.b, l.a)
  {
  }

  lemma TransposeProduct(l: Lora, m: Lora)
    requires TransposeOk(l, m)
    ensures WellFormed(m) && Multipliable(l.b, l.a) && Multipliable(m.b, m.a)
    ensures |Product(l).shape| == 2 && Permute(Product(l), SWAP) == Product(m)
  {
    hide Product;
    TransposedShape(l, m);
    var p, t := Product(m), Permute(Product(l), SWAP);
    forall x | Valid(p.shape, x) ensures Get(p, x) == Get(t, x) {
      TransposeElementAt(l, m, x);
    }
    TensorExt(p, t);
  }

  lemma TransposeElementAt(l: Lora, m: Lora, x: Index)
    requires TransposeOk(l, m) && |x| == 2 && x[0] < l.a.shape[1] && x[1] < l.b.shape[0]
    ensures Multipliable(l.b, l.a) && Multipliable(m.b, m.a) && |Product(l).shape| == 2
    ensures Get(Product(m), x) == Get(Permute(Product(l), SWAP), x)
  {
    hide MatMulShape, Permute;
    assert x == [x[0], x[1]];
    WellFormedMultipliable(l);
    TransposeElement(l, m, x[0], x[1]);
    SwapAt(Product(l), x[0], x[1]);
  }

  lemma MatrixPermuteChecks(l: Lora, dims: seq<int>, ds: seq<nat>)
    requires WellFormed(l) && |l.b.shape| == 2 && |dims| >= 2
    requires dims[|dims| - 1] == -2 && dims[|dims| - 2] == -1
    requires AxisNumbers(dims, 2) == Some(ds) && PermuteTo(l.a, dims).Some? && PermuteTo(l.b, dims).Some?
    ensures ds == SWAP && TransposeOk(l, Lora(PermuteTo(l.b, dims).value, PermuteTo(l.a, dims).value))
  {
    hide Permute;
    PermuteToSome(l.a, dims, ds);
    PermuteToSome(l.b, dims, ds);
    SwapNumbers(dims, ds);
  }

  lemma PermuteToSome(t: Tensor, dims: seq<int>, ds: seq<nat>)
    requires AxisNumbers(dims, |t.shape|) == Some(ds) && PermuteTo(t, dims).Some?
    ensures |dims| == |ds| == |t.shape| && IsPermutation(ds, |t.shape|) && PermuteTo(t, dims) == Some(Permute(t, ds))
  {
  }

  lemma SwapNumbers(dims: seq<int>, ds: seq<nat>)
    requires |dims| == 2 && dims[1] == -2 && dims[0] == -1 && AxisNumbers(dims, 2) == Some(ds)
    ensures ds == SWAP
  {
    assert AxisNumber(dims[0], 2) == Some(ds[0]) && AxisNumber(dims[1], 2) == Some(ds[1]);
  }

  lemma LastPermuteChecks(l: Lora, dims: seq<int>, ds: seq<nat>)
    requires WellFormed(l) && dims != [] && dims[|dims| - 1] == -1
    requires forall i | 0 <= i < |l.b.shape| - 2 :: l.a.shape[i] == 1
    requires AxisNumbers(dims, |l.b.shape|) == Some(ds) && PermuteTo(l.b, dims).Some?
    ensures PermuteOk(l, ds, Lora(l.a, PermuteTo(l.b, dims).value))
  {
    hide AxisNumbers, Get, Permute, Unpermuted, Unravel;
    assert AxisNumber(dims[|dims| - 1], |l.b.shape|) == Some(ds[|dims| - 1]);
  }

  /** What a permutation that succeeds has done. */
  lemma PermuteChecks(l: Lora, given: seq<int>, ds: seq<nat>)
    requires WellFormed(l) && LoraPermute(l, given).Ok?
    requires AxisNumbers(FromEnd(given, |l.b.shape|), |l.b.shape|) == Some(ds)
    ensures PermuteOk(l, ds, LoraPermute(l, given).value)
            || (ds == SWAP && TransposeOk(l, LoraPermute(l, given).value))
  {
    var dims := FromEnd(given, |l.b.shape|);
    if dims[|dims| - 1] == -1 {
      LastPermuteChecks(l, dims, ds);
    } else {
      MatrixPermuteChecks(l, dims, ds);
    }
  }

  lemma PermuteResolves(l: Lora, given: seq<int>)
    requires WellFormed(l) && LoraPermute(l, given).Ok?
    ensures AxisNumbers(FromEnd(given, |l.b.shape|), |l.b.shape|).Some?
  {
  }

  /** A permutation the wrapper supports permutes the product, for axis numbers PyTorch itself accepts. */
  lemma PermuteCommutes(l: Lora, given: seq<int>)
    requires WellFormed(l) && LoraPermute(l, given).Ok?
    requires forall i | 0 <= i < |given| :: given[i] < |l.b.shape|
    ensures var m := LoraPermute(l, given).value;
            && WellFormed(m) && Multipliable(l.b, l.a) && Multipliable(m.b, m.a)
            && PermuteTo(Product(l), given) == Some(Product(m))
  {
    var n, m := |l.b.shape|, LoraPermute(l, given).value;
    PermuteResolves(l, given);
    var ds := AxisNumbers(FromEnd(given, n), n).value;
    FromEndSame(given, n);
    PermuteChecks(l, given, ds);
    PermutesProduct(l, ds, m);
    PermuteToIs(Product(l), given, ds);
  }

  /** The wrapper also takes axis numbers past the last one; those PyTorch refuses. */
  lemma PermuteExact(l: Lora, given: seq<int>)
    requires WellFormed(l) && LoraPermute(l, given).Ok?
    ensures Multipliable(l.b, l.a)
    ensures PermuteTo(Product(l), given).Some? <==> forall i | 0 <= i < |given| :: given[i] < |l.b.shape|
    ensures PermuteTo(Product(l), given).Some? ==>
              var m := LoraPermute(l, given).value;
              WellFormed(m) && Multipliable(m.b, m.a) && PermuteTo(Product(l), given) == Some(Product(m))
  {
    WellFormedMultipliable(l);
    ShapeExact(l);
    if forall i | 0 <= i < |given| :: given[i] < |l.b.shape| {
      PermuteCommutes(l, given);
    }
  }

  lemma PermutedLastSame(s: Shape, ds: seq<nat>)
    requires s != [] && IsPermutation(ds, |s|) && ds[|s| - 1] == |s| - 1
    ensures Permuted(s, ds)[|s| - 1] == s[|s| - 1]
  {
    PermutedAt(s, ds, |s| - 1);
  }

  /** Which permutations the wrapper accepts: the columns stay last, or a matrix is transposed. */
  lemma PermuteAccepted(l: Lora, given: seq<int>)
    requires WellFormed(l)
    ensures var n := |l.b.shape|; var dims := FromEnd(given, n);
            LoraPermute(l, given).Ok? <==>
            && PermuteTo(l.b, dims).Some?
            && ((dims[n - 1] == -1 && Lead(l.a.shape) == Ones(n - 2)) || dims == [-1, -2])
  {
    hide PermuteTo, New, FromEnd, WellFormed, Lead, Ones;
    var n := |l.b.shape|;
    var dims := FromEnd(given, n);
    PermuteLength(l.b, dims);
    PermuteLength(l.a, dims);
    LeadOnes(l);
    if PermuteTo(l.b, dims).Some? {
      if dims[n - 1] == -1 {
        LastAccepted(l, dims);
      } else if dims == [-1, -2] {
        SwapAccepted(l, dims);
      }
    }
  }

  lemma PermuteLength(t: Tensor, dims: seq<int>)
    ensures PermuteTo(t, dims).Some? ==> |dims| == |t.shape|
  {
  }

  lemma LeadOnes(l: Lora)
    requires WellFormed(l)
    ensures Lead(l.a.shape) == Ones(|l.b.shape| - 2) <==> forall i | 0 <= i < |l.b.shape| - 2 :: l.a.shape[i] == 1
  {
    assert forall i | 0 <= i < |l.b.shape| - 2 :: Lead(l.a.shape)[i] == l.a.shape[i];
  }

  lemma LastAccepted(l: Lora, dims: seq<int>)
    requires WellFormed(l) && dims != [] && dims[|dims| - 1] == -1 && PermuteTo(l.b, dims).Some?
    ensures |dims| == |l.b.shape| && New(l.a, PermuteTo(l.b, dims).value).Ok?
  {
    hide Permute, IsPermutation, Permuted;
    var ds := AxisNumbers(dims, |l.b.shape|).value;
    PermuteToSome(l.b, dims, ds);
    assert AxisNumber(dims[|dims| - 1], |l.b.shape|) == Some(ds[|dims| - 1]);
    PermutedLastSame(l.b.shape, ds);
  }

  lemma SwapAccepted(l: Lora, dims: seq<int>)
    requires WellFormed(l) && PermuteTo(l.b, dims).Some? && dims == [-1, -2]
    ensures |l.b.shape| == 2 && PermuteTo(l.a, dims).Some?
    ensures New(PermuteTo(l.b, dims).value, PermuteTo(l.a, dims).value).Ok?
  {
    hide Permute, IsPermutation, Permuted;
    var ds := AxisNumbers(dims, |l.b.shape|).value;
    PermuteToSome(l.b, dims, ds);
    SwapNumbers(dims, ds);
    SwapShape(l.a.shape);
    SwapShape(l.b.shape);
  }

  lemma PermutesProduct(l: Lora, ds: seq<nat>, m: Lora)
    requires PermuteOk(l, ds, m) || (ds == SWAP && TransposeOk(l, m))
    ensures WellFormed(m) && Multipliable(l.b, l.a) && Multipliable(m.b, m.a)
    ensures IsPermutation(ds, |Product(l).shape|) && Permute(Product(l), ds) == Product(m)
  {
    if PermuteOk(l, ds, m) {
      PermuteProduct(l, ds, m);
    } else {
      TransposeProduct(l, m);
    }
  }

  lemma PermuteToIs(t: Tensor, dims: seq<int>, ds: seq<nat>)
    requires AxisNumbers(dims, |t.shape|) == Some(ds) && IsPermutation(ds, |t.shape|)
    ensures PermuteTo(t, dims) == Some(Permute(t, ds))
  {
  }

  // ---------- transpose ----------

  /** The axes with two of them exchanged; out of range numbers are refused. */
  function Swapped(n: nat, d0: int, d1: int): Option<seq<nat>> {
    match (AxisNumber(d0, n), AxisNumber(d1, n))
    case (Some(p), Some(q)) => Some(Identity(n)[p := q][q := p])
    case _ => None
  }

  function LoraTranspose(l: Lora, d0: int, d1: int): LoraResult
    requires WellFormed(l)
  {
    match Swapped(|l.b.shape|, d0, d1)
    case Some(ds) => LoraPermute(l, Ints(ds))
    case None => Err(BadIndex)
  }

  function Ints(ds: seq<nat>): (r: seq<int>)
    ensures |r| == |ds| && forall i | 0 <= i < |ds| :: r[i] == ds[i]
  {
    seq(|ds|, i requires 0 <= i < |ds| => ds[i])
  }

  /** `torch.transpose` on a plain tensor. */
  function TransposeTo(t: Tensor, d0: int, d1: int): Option<Tensor> {
    match Swapped(|t.shape|, d0, d1)
    case Some(ds) => SwappedIsPermutation(|t.shape|, d0, d1); Some(Permute(t, ds))
    case None => None
  }

  lemma SwappedIsPermutation(n: nat, d0: int, d1: int)
    requires Swapped(n, d0, d1).Some?
    ensures IsPermutation(Swapped(n, d0, d1).value, n)
  {
    var p, q := AxisNumber(d0, n).value, AxisNumber(d1, n).value;
    SwapMultiset(Identity(n), p, q);
  }

  lemma SwapMultiset(s: seq<nat>, p: nat, q: nat)
    requires p < |s| && q < |s|
    ensures multiset(s[p := s[q]][q := s[p]]) == multiset(s)
  {
  }

  lemma {:induction false} OwnNumbers(ds: seq<nat>, n: nat)
    requires forall i | 0 <= i < |ds| :: ds[i] < n
    ensures AxisNumbers(Ints(ds), n) == Some(ds)
  {
    if ds != [] {
      assert Ints(ds)[1..] == Ints(ds[1..]);
      OwnNumbers(ds[1..], n);
      assert [ds[0]] + ds[1..] == ds;
    }
  }

  lemma TransposeCommutes(l: Lora, d0: int, d1: int)
    requires WellFormed(l) && LoraTranspose(l, d0, d1).Ok?
    ensures var m := LoraTranspose(l, d0, d1).value;
            && WellFormed(m) && Multipliable(l.b, l.a) && Multipliable(m.b, m.a)
            && TransposeTo(Product(l), d0, d1) == Some(Product(m))
  {
    var n := |l.b.shape|;
    var ds := Swapped(n, d0, d1).value;
    SwappedIsPermutation(n, d0, d1);
    forall i | 0 <= i < n ensures ds[i] < n {
      AxisBelow(ds, n, i);
    }
    OwnNumbers(ds, n);
    PermuteCommutes(l, Ints(ds));
    assert |Product(l).shape| == n;
    PermuteToIs(Product(l), Ints(ds), ds);
  }

  /** Which two axes the wrapper exchanges: not the columns, unless of a matrix. */
  lemma TransposeAccepted(l: Lora, d0: int, d1: int)
    requires WellFormed(l)
    ensures var n := |l.b.shape|;
            LoraTranspose(l, d0, d1).Ok? <==>
            && AxisNumber(d0, n).Some? && AxisNumber(d1, n).Some?
            && var p, q := AxisNumber(d0, n).value, AxisNumber(d1, n).value;
            (p == q || (p < n - 1 && q < n - 1) ==> Lead(l.a.shape) == Ones(n - 2)) &&
            (p != q && (p == n - 1 || q == n - 1) ==> n == 2)
  {
    hide LoraPermute, IsPermutation, Permute, AxisNumbers, Identity, WellFormed, Ones, Lead;
    var n := |l.b.shape|;
    if Swapped(n, d0, d1).Some? {
      var ds := Swapped(n, d0, d1).value;
      SwappedIsPermutation(n, d0, d1);
      ResolvedSwap(l, ds);
      PermuteAccepted(l, Ints(ds));
      SwappedLast(n, AxisNumber(d0, n).value, AxisNumber(d1, n).value, ds);
    }
  }

  lemma ResolvedSwap(l: Lora, ds: seq<nat>)
    requires WellFormed(l) && IsPermutation(ds, |l.b.shape|)
    ensures PermuteTo(l.b, FromEnd(Ints(ds), |l.b.shape|)).Some?
  {
    hide Permute, IsPermutation, AxisNumbers;
    var n := |l.b.shape|;
    forall i | 0 <= i < |ds|
      ensures ds[i] < n
    {
      LengthOfPermutation(ds, n);
      AxisBelow(ds, n, i);
    }
    OwnNumbers(ds, n);
    FromEndSame(Ints(ds), n);
    PermuteToIs(l.b, FromEnd(Ints(ds), n), ds);
  }

  lemma LengthOfPermutation(ds: seq<nat>, n: nat)
    requires IsPermutation(ds, n)
    ensures |ds| == n
  {
  }

  lemma SwappedLast(n: nat, p: nat, q: nat, ds: seq<nat>)
    requires n >= 2 && p < n && q < n && ds == Identity(n)[p := q][q := p]
    ensures |FromEnd(Ints(ds), n)| == n
    ensures FromEnd(Ints(ds), n)[n - 1] == -1 <==> p == q || (p < n - 1 && q < n - 1)
    ensures FromEnd(Ints(ds), n) == [-1, -2] <==> n == 2 && p != q
  {
    var dims := FromEnd(Ints(ds), n);
    assert forall i | 0 <= i < n :: dims[i] == ds[i] - n;
    if n == 2 && p != q {
      assert dims == [-1, -2];
    }
  }
}
