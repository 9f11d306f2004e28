/**
 * The chain the wrapper was made for: regrouping the attention rows of a Llama weight per head, written for
 * plain tensors as reshape, swapaxes, reshape, and run unchanged on a low-rank adapter.
 */
module LlamaPermute {
  import opened Common
  import opened TensorAlgebra
  import opened LoraTensor
  import opened LoraReshaping
  import opened LoraChain
  import opened LoraExpression

  /** A's leading dimensions are all 1, as those of every reshaped pair. */
  predicate FlatA(l: Lora): (flat: bool)
    ensures flat ==> WellFormed(l) && |l.a.shape| == |l.b.shape| >= 2
  {
    WellFormed(l) && Lead(l.a.shape) == Ones(|l.a.shape| - 2)
  }

  /** `weights.reshape(h, 2, n // h // 2, d).swapaxes(1, 2).reshape(n, d)`, for weights of shape [n, d]. */
  function Regroup<T>(weights: T, n: nat, d: nat, h: nat): Expr<T>
    requires h > 0
  {
    var grouped := Apply(ReshapeOp(Ints([h, 2, n / h / 2, d])), Leaf(weights));
    Apply(ReshapeOp(Ints([n, d])), Apply(TransposeOp(1, 2), grouped))
  }

  // ---------- the shapes along the chain ----------

  lemma FlatProd(l: Lora)
    requires FlatA(l)
    ensures l.a.shape == Ones(|l.a.shape| - 2) + [Rank(l)] + [l.a.shape[|l.a.shape| - 1]]
    ensures Prod(l.a.shape) == Rank(l) * l.a.shape[|l.a.shape| - 1]
  {
    var n := |l.a.shape|;
    assert l.a.shape == Lead(l.a.shape) + [Rank(l)] + [l.a.shape[n - 1]];
    OnesProd(Ones(n - 2), Rank(l), l.a.shape[n - 1]);
  }

  /** The wrapper accepts every shape that keeps the columns and the number of rows. */
  lemma ReshapeAccepts(l: Lora, s: Shape)
    requires FlatA(l) && |s| >= 2 && s[|s| - 1] == l.a.shape[|l.a.shape| - 1]
    requires Prod(s[..|s| - 1]) == Prod(l.b.shape[..|l.b.shape| - 1])
    ensures LoraReshape(l, Ints(s)).Ok?
    ensures var m := LoraReshape(l, Ints(s)).value; FlatA(m) && m.b.shape == s[..|s| - 1] + [Rank(l)]
    ensures LoraReshape(l, Ints(s)).value.a.shape == Ones(|s| - 2) + [Rank(l), s[|s| - 1]]
  {
    hide Prod;
    var r, d, n := Rank(l), s[|s| - 1], |s|;
    assert -1 !in Ints(s) && AsShape(Ints(s)) == s;
    FlatProd(l);
    assert Ones(n - 2) + [r, d] == Ones(n - 2) + [r] + [d];
    OnesProd(Ones(n - 2), r, d);
    ProdSnoc(s[..n - 1], r);
    assert l.b.shape == l.b.shape[..|l.b.shape| - 1] + [r];
    ProdSnoc(l.b.shape[..|l.b.shape| - 1], r);
  }

  lemma SwapMiddle(s: Shape)
    requires |s| == 4
    ensures Swapped(4, 1, 2) == Some([0, 2, 1, 3]) && IsPermutation([0, 2, 1, 3], 4)
    ensures Permuted(s, [0, 2, 1, 3]) == [s[0], s[2], s[1], s[3]]
  {
    hide Identity, IsPermutation, Permuted, Swapped;
    MiddleSwap();
    SwappedIsPermutation(4, 1, 2);
    MiddleAxes(s);
  }

  lemma MiddleSwap()
    ensures Swapped(4, 1, 2) == Some([0, 2, 1, 3])
  {
    hide Identity;
    assert Identity(4) == [0, 1, 2, 3];
    assert [0, 1, 2, 3][1 := 2][2 := 1] == [0, 2, 1, 3];
  }

  lemma MiddleAxes(s: Shape)
    requires |s| == 4 && IsPermutation([0, 2, 1, 3], 4)
    ensures Permuted(s, [0, 2, 1, 3]) == [s[0], s[2], s[1], s[3]]
  {
    hide IsPermutation, Permuted;
    PermutedAt(s, [0, 2, 1, 3], 0);
    PermutedAt(s, [0, 2, 1, 3], 1);
    PermutedAt(s, [0, 2, 1, 3], 2);
    PermutedAt(s, [0, 2, 1, 3], 3);
  }

  /** A permutation that leaves the columns last is accepted, and leaves A alone. */
  lemma PermuteAccepts(l: Lora, given: seq<int>, ds: seq<nat>)
    requires FlatA(l) && |given| == |l.b.shape| == |ds| && given[|ds| - 1] == |ds| - 1
    requires AxisNumbers(FromEnd(given, |ds|), |ds|) == Some(ds) && IsPermutation(ds, |ds|)
    ensures LoraPermute(l, given) == New(l.a, Permute(l.b, ds))
  {
    hide Permute, IsPermutation, AxisNumbers, New;
    forall i | 0 <= i < |ds| - 2
      ensures l.a.shape[i] == 1
    {
      assert l.a.shape[i] == Lead(l.a.shape)[i];
    }
  }

  lemma SameFactors(l: Lora, b: Tensor)
    requires FlatA(l) && |b.shape| == |l.b.shape| && b.shape[|b.shape| - 1] == Rank(l)
    ensures New(l.a, b) == Ok(Lora(l.a, b)) && FlatA(Lora(l.a, b))
  {
    forall i | 0 <= i < |b.shape| - 2
      ensures l.a.shape[i] == 1
    {
      assert l.a.shape[i] == Lead(l.a.shape)[i];
    }
  }

  /** Swapping the two middle axes leaves A alone. */
  lemma TransposeAccepts(l: Lora)
    requires FlatA(l) && |l.b.shape| == 4
    ensures LoraTranspose(l, 1, 2).Ok?
    ensures var m := LoraTranspose(l, 1, 2).value;
            FlatA(m) && m.a == l.a && m.b.shape == [l.b.shape[0], l.b.shape[2], l.b.shape[1], l.b.shape[3]]
  {
    hide AxisNumbers, IsPermutation, Permuted, Identity, LoraPermute, New, FlatA, Swapped;
    var given := Ints([0, 2, 1, 3]);
    SwapMiddle(l.b.shape);
    OwnNumbers([0, 2, 1, 3], 4);
    FromEndSame(given, 4);
    PermuteAccepts(l, given, [0, 2, 1, 3]);
    SameFactors(l, Permute(l.b, [0, 2, 1, 3]));
  }

  lemma RowsRegrouped(h: nat, k: nat, n: nat)
    requires n == h * 2 * k
    ensures Prod([h, 2, k]) == n && Prod([h, k, 2]) == n && Prod([n]) == n
  {
    ProdSnoc([], n);
    ProdSnoc([], h);
    ProdSnoc([h], 2);
    ProdSnoc([h, 2], k);
    ProdSnoc([h], k);
    ProdSnoc([h, k], 2);
    assert [] + [n] == [n] && [] + [h] == [h] && [h] + [2] == [h, 2] && [h, 2] + [k] == [h, 2, k];
    assert [h] + [k] == [h, k] && [h, k] + [2] == [h, k, 2];
    assert h * k * 2 == h * 2 * k;
  }

  /** Three operations in a row. */
  lemma ThreeSteps(l: Lora, p: Op, q: Op, s: Op, m1: Lora, m2: Lora, m3: Lora)
    requires WellFormed(l) && OnPair(p, l) == Ok(m1) && Supported(p, l)
    requires WellFormed(m1) && OnPair(q, m1) == Ok(m2) && Supported(q, m1)
    requires WellFormed(m2) && OnPair(s, m2) == Ok(m3) && Supported(s, m2) && WellFormed(m3)
    ensures var e := Apply(s, Apply(q, Apply(p, Leaf(l))));
            Supports(e) && PairOf(e) == Ok(m3)
  {
    hide OnPair, Supported, WellFormed;
    assert PairOf(Leaf(l)) == Ok(l) && Supports(Leaf(l));
    var e1 := Apply(p, Leaf(l));
    assert PairOf(e1) == Ok(m1) && Supports(e1);
    assert PairOf(Apply(q, e1)) == Ok(m2) && Supports(Apply(q, e1));
  }

  /** Every step is accepted, and rows and columns come back as they were. */
  lemma RegroupSteps(l: Lora, h: nat, k: nat) returns (m1: Lora, m2: Lora, m3: Lora)
    requires FlatA(l) && |l.b.shape| == 2 && l.b.shape[0] == h * 2 * k
    ensures FlatA(m1) && FlatA(m2) && FlatA(m3) && Rank(m1) == Rank(m2) == Rank(m3) == Rank(l)
    ensures LoraReshape(l, Ints([h, 2, k, l.a.shape[1]])) == Ok(m1) && LoraTranspose(m1, 1, 2) == Ok(m2)
    ensures LoraReshape(m2, Ints([l.b.shape[0], l.a.shape[1]])) == Ok(m3)
    ensures m3.a.shape == l.a.shape && m3.b.shape == l.b.shape
  {
    hide *;
    RowsRegrouped(h, k, l.b.shape[0]);
    FlatShapes(l);
    m1, m2 := GroupSteps(l, h, k, l.b.shape[0]);
    m3 := UngroupStep(l, m2, h, k, l.b.shape[0]);
  }

  lemma FlatShapes(l: Lora)
    requires FlatA(l)
    ensures WellFormed(l) && |l.a.shape| == |l.b.shape| >= 2
  {
  }

  lemma GroupSteps(l: Lora, h: nat, k: nat, n: nat) returns (m1: Lora, m2: Lora)
    requires FlatA(l) && |l.a.shape| == |l.b.shape| == 2 && l.b.shape[0] == n
    requires Prod([h, 2, k]) == n == Prod([n])
    ensures FlatA(m1) && FlatA(m2) && Rank(m1) == Rank(m2) == Rank(l)
    ensures LoraReshape(l, Ints([h, 2, k, l.a.shape[1]])) == Ok(m1) && LoraTranspose(m1, 1, 2) == Ok(m2)
    ensures m2.b.shape == [h, k, 2, Rank(l)] && |m2.a.shape| == 4 && m2.a.shape[3] == l.a.shape[1]
  {
    hide FlatA, Ints, LoraReshape, LoraTranspose, Ones, Prod;
    var d := l.a.shape[1];
    assert [h, 2, k, d][..3] == [h, 2, k] && l.b.shape[..1] == [n];
    ReshapeAccepts(l, [h, 2, k, d]);
    m1 := LoraReshape(l, Ints([h, 2, k, d])).value;
    TransposeAccepts(m1);
    m2 := LoraTranspose(m1, 1, 2).value;
  }

  lemma UngroupStep(l: Lora, m: Lora, h: nat, k: nat, n: nat) returns (m3: Lora)
    requires FlatA(l) && |l.a.shape| == |l.b.shape| == 2 && l.b.shape[0] == n
    requires FlatA(m) && m.b.shape == [h, k, 2, Rank(l)] && |m.a.shape| == 4 && m.a.shape[3] == l.a.shape[1]
    requires Prod([h, k, 2]) == n == Prod([n])
    ensures FlatA(m3) && Rank(m3) == Rank(l) && LoraReshape(m, Ints([n, l.a.shape[1]])) == Ok(m3)
    ensures m3.a.shape == l.a.shape && m3.b.shape == l.b.shape
  {
    hide Ints, LoraReshape, LoraTranspose, Prod, FlatA, Ones, WellFormed;
    var d := l.a.shape[1];
    FlatShapes(l);
    MatrixShapes(l);
    assert m.b.shape[..3] == [h, k, 2] && [n, d][..1] == [n];
    ReshapeAccepts(m, [n, d]);
    m3 := LoraReshape(m, Ints([n, d])).value;
  }

  lemma MatrixShapes(l: Lora)
    requires WellFormed(l) && |l.b.shape| == 2
    ensures |l.a.shape| == 2 && l.a.shape == Ones(0) + [Rank(l), l.a.shape[1]]
    ensures l.b.shape == [l.b.shape[0]] + [Rank(l)]
  {
  }

  lemma MatrixIsFlat(l: Lora)
    requires WellFormed(l) && |l.b.shape| == 2
    ensures FlatA(l)
  {
    assert Lead(l.a.shape) == Ones(0);
  }

  lemma FlatSupports(l: Lora, s: Shape)
    requires FlatA(l) && Rank(l) > 0
    ensures WellFormed(l) && Supported(ReshapeOp(Ints(s)), l) && Supported(TransposeOp(1, 2), l)
  {
  }

  /**
   * On every matrix adapter of positive rank whose rows divide into heads of even size, the regrouping is
   * accepted, and what it returns stands for the regrouped product.
   */
  lemma RegroupCommutes(l: Lora, h: nat)
    requires WellFormed(l) && |l.a.shape| == |l.b.shape| == 2 && Rank(l) > 0 && h > 0
    requires l.b.shape[0] == h * 2 * (l.b.shape[0] / h / 2)
    ensures var e, f := Regroup(l, l.b.shape[0], l.a.shape[1], h), RegroupedProduct(l, h);
            && PairOf(e).Ok? && TensorOf(f).Some? && Means(PairOf(e).value, TensorOf(f).value)
            && PairOf(e).value.b.shape == l.b.shape && PairOf(e).value.a.shape == l.a.shape
  {
    hide LoraReshape, LoraTranspose, TensorOf, PairOf, Supports, Means, Supported, WellFormed, FlatA;
    var n, d := l.b.shape[0], l.a.shape[1];
    MatrixIsFlat(l);
    var m1, m2, m3 := RegroupSteps(l, h, n / h / 2);
    FlatSupports(l, [h, 2, n / h / 2, d]);
    FlatSupports(m1, []);
    FlatSupports(m2, [n, d]);
    FlatSupports(m3, []);
    ThreeSteps(l, ReshapeOp(Ints([h, 2, n / h / 2, d])), TransposeOp(1, 2), ReshapeOp(Ints([n, d])), m1, m2, m3);
    ExprCommutes(Regroup(l, n, d, h));
    ProductFirst(l, h);
  }

  /** The regrouping of the product itself. */
  function RegroupedProduct(l: Lora, h: nat): Expr<Tensor>
    requires WellFormed(l) && |l.b.shape| == 2 && h > 0
  {
    WellFormedMultipliable(l);
    Regroup(Product(l), l.b.shape[0], l.a.shape[1], h)
  }

  lemma ProductFirst(l: Lora, h: nat)
    requires WellFormed(l) && |l.b.shape| == 2 && h > 0 && Supports(Regroup(l, l.b.shape[0], l.a.shape[1], h))
    ensures Materialized(Regroup(l, l.b.shape[0], l.a.shape[1], h)) == RegroupedProduct(l, h)
  {
    hide Supported, OnPair, Product, PairOf, Supports;
    var n, d := l.b.shape[0], l.a.shape[1];
    var s1, s3 := ReshapeOp(Ints([h, 2, n / h / 2, d])), ReshapeOp(Ints([n, d]));
    ThreeDeep(l, s1, TransposeOp(1, 2), s3);
  }

  lemma ThreeDeep(l: Lora, p: Op, q: Op, s: Op)
    requires WellFormed(l) && Supports(Apply(s, Apply(q, Apply(p, Leaf(l)))))
    ensures Multipliable(l.b, l.a)
    ensures Materialized(Apply(s, Apply(q, Apply(p, Leaf(l))))) == Apply(s, Apply(q, Apply(p, Leaf(Product(l)))))
  {
    hide Supported, OnPair, Product;
    WellFormedMultipliable(l);
    var e1 := Apply(p, Leaf(l));
    assert Supports(Apply(q, e1)) && Supports(e1) && Supports(Leaf(l));
    assert Materialized(Leaf(l)) == Leaf(Product(l));
    assert Materialized(e1) == Apply(p, Leaf(Product(l)));
    assert Materialized(Apply(q, e1)) == Apply(q, Materialized(e1));
  }

  // ---------- what the chain does to the rows ----------

  lemma SameOffset(t: Tensor, s: Shape, x: Index, y: Index)
    requires Prod(s) == Prod(t.shape) && Valid(s, x) && Valid(t.shape, y) && Ravel(s, x) == Ravel(t.shape, y)
    ensures Get(Reshape(t, s), x) == Get(t, y)
  {
    ReshapeGet(t, s, x);
    UnravelRavel(t.shape, y);
  }

  lemma RavelSnoc(s: Shape, d: nat, x: Index, i: nat)
    requires Valid(s, x) && i < d
    ensures Valid(s + [d], x + [i]) && Ravel(s + [d], x + [i]) == Ravel(s, x) * d + i
  {
    assert (s + [d])[..|s|] == s && (x + [i])[..|x|] == x;
  }

  lemma Ravel2(n: nat, d: nat, i: nat, c: nat)
    requires i < n && c < d
    ensures Valid([n, d], [i, c]) && Ravel([n, d], [i, c]) == i * d + c
  {
    hide Ravel;
    RavelSnoc([], n, [], i);
    RavelSnoc([n], d, [i], c);
    RavelNothing();
    assert [] + [n] == [n] && [] + [i] == [i] && [n] + [d] == [n, d] && [i] + [c] == [i, c];
  }

  lemma RavelNothing()
    ensures Ravel([], []) == 0
  {
  }

  lemma Ravel4(p: nat, q: nat, r: nat, d: nat, x: nat, y: nat, z: nat, c: nat)
    requires x < p && y < q && z < r && c < d
    ensures Valid([p, q, r, d], [x, y, z, c]) && Ravel([p, q, r, d], [x, y, z, c]) == ((x * q + y) * r + z) * d + c
  {
    hide Ravel;
    Ravel2(p, q, x, y);
    RavelSnoc([p, q], r, [x, y], z);
    RavelSnoc([p, q, r], d, [x, y, z], c);
    assert [p, q] + [r] == [p, q, r] && [p, q, r] + [d] == [p, q, r, d];
    assert [x, y] + [z] == [x, y, z] && [x, y, z] + [c] == [x, y, z, c];
  }

  lemma RowBound(p: nat, q: nat, r: nat, x: nat, y: nat, z: nat)
    requires x < p && y < q && z < r
    ensures (x * q + y) * r + z < p * q * r
  {
    RowBelow(x, p, q, y);
    RowBelow(x * q + y, p * q, r, z);
  }

  lemma ProdFour(p: nat, q: nat, r: nat, d: nat)
    ensures Prod([p, q, r, d]) == p * q * r * d && Prod([p * q * r, d]) == p * q * r * d
  {
    ProdSnoc([], p);
    ProdSnoc([p], q);
    ProdSnoc([p, q], r);
    ProdSnoc([p, q, r], d);
    ProdSnoc([], p * q * r);
    ProdSnoc([p * q * r], d);
    assert [] + [p] == [p] && [p] + [q] == [p, q] && [p, q] + [r] == [p, q, r] && [p, q, r] + [d] == [p, q, r, d];
    assert [] + [p * q * r] == [p * q * r] && [p * q * r] + [d] == [p * q * r, d];
  }

  /** Grouping the rows of a matrix in three axes, and back. */
  lemma GroupedRow(t: Tensor, p: nat, q: nat, r: nat, d: nat, x: nat, y: nat, z: nat, c: nat)
    requires x < p && y < q && z < r && c < d
    ensures Prod([p, q, r, d]) == Prod([p * q * r, d])
    ensures t.shape == [p * q * r, d] ==>
              Get(Reshape(t, [p, q, r, d]), [x, y, z, c]) == Get(t, [(x * q + y) * r + z, c])
    ensures t.shape == [p, q, r, d] ==>
              Get(Reshape(t, [p * q * r, d]), [(x * q + y) * r + z, c]) == Get(t, [x, y, z, c])
  {
    hide Ravel, Prod;
    ProdFour(p, q, r, d);
    RowBound(p, q, r, x, y, z);
    Ravel4(p, q, r, d, x, y, z, c);
    Ravel2(p * q * r, d, (x * q + y) * r + z, c);
    if t.shape == [p * q * r, d] {
      SameOffset(t, [p, q, r, d], [x, y, z, c], [(x * q + y) * r + z, c]);
    }
    if t.shape == [p, q, r, d] {
      SameOffset(t, [p * q * r, d], [(x * q + y) * r + z, c], [x, y, z, c]);
    }
  }

  lemma MiddleSwapped(t: Tensor, p: nat, q: nat, r: nat, d: nat, x: nat, y: nat, z: nat, c: nat)
    requires t.shape == [p, q, r, d] && x < p && y < q && z < r && c < d
    ensures IsPermutation([0, 2, 1, 3], 4) && Permute(t, [0, 2, 1, 3]).shape == [p, r, q, d]
    ensures Get(Permute(t, [0, 2, 1, 3]), [x, z, y, c]) == Get(t, [x, y, z, c])
  {
    hide Permute, IsPermutation, Permuted, Unpermuted;
    var dims: seq<nat>, to := [0, 2, 1, 3], [x, z, y, c];
    SwapMiddle(t.shape);
    PermuteAt(t, dims, to);
    UnpermutedAt(to, dims, 0);
    UnpermutedAt(to, dims, 1);
    UnpermutedAt(to, dims, 2);
    UnpermutedAt(to, dims, 3);
    assert Unpermuted(to, dims) == [x, y, z, c];
  }

  lemma ReshapeStep(t: Tensor, s: Shape)
    requires Prod(s) == Prod(t.shape)
    ensures OnTensor(ReshapeOp(Ints(s)), t) == Some(Reshape(t, s))
  {
    hide Prod;
    assert -1 !in Ints(s) && AsShape(Ints(s)) == s;
  }

  lemma SwapStep(t: Tensor)
    requires |t.shape| == 4
    ensures IsPermutation([0, 2, 1, 3], 4) && OnTensor(TransposeOp(1, 2), t) == Some(Permute(t, [0, 2, 1, 3]))
  {
    hide Permute, Permuted, IsPermutation;
    SwapMiddle(t.shape);
  }

  lemma ThreeTensorSteps(t: Tensor, p: Op, q: Op, s: Op, t1: Tensor, t2: Tensor, t3: Tensor)
    requires OnTensor(p, t) == Some(t1) && OnTensor(q, t1) == Some(t2) && OnTensor(s, t2) == Some(t3)
    ensures TensorOf(Apply(s, Apply(q, Apply(p, Leaf(t))))) == Some(t3)
  {
    hide OnTensor;
    assert TensorOf(Apply(p, Leaf(t))) == Some(t1);
    assert TensorOf(Apply(q, Apply(p, Leaf(t)))) == Some(t2);
  }

  /**
   * The regrouping interleaves the two halves of every head: row `y` of half `z` of head `x` becomes row
   * `2 * y + z` of that head, column by column.
   */
  lemma RowsInterleaved(t: Tensor, h: nat, k: nat, d: nat, x: nat, y: nat, z: nat, c: nat)
    requires t.shape == [h * 2 * k, d] && x < h && y < k && z < 2 && c < d
    ensures var chain := TensorOf(Regroup(t, h * 2 * k, d, h));
            chain.Some? && Get(chain.value, [(x * k + y) * 2 + z, c]) == Get(t, [(x * 2 + z) * k + y, c])
  {
    hide Permute, IsPermutation, Permuted, Reshape, Prod, OnTensor, TensorOf, Get;
    var n := h * 2 * k;
    HeadSize(h, k);
    GroupedRow(t, h, 2, k, d, x, z, y, c);
    ReshapeStep(t, [h, 2, k, d]);
    var t1 := Reshape(t, [h, 2, k, d]);
    MiddleSwapped(t1, h, 2, k, d, x, z, y, c);
    SwapStep(t1);
    var t2 := Permute(t1, [0, 2, 1, 3]);
    GroupedRow(t2, h, k, 2, d, x, y, z, c);
    assert h * k * 2 == n;
    ReshapeStep(t2, [n, d]);
    var t3 := Reshape(t2, [n, d]);
    ThreeTensorSteps(t, ReshapeOp(Ints([h, 2, k, d])), TransposeOp(1, 2), ReshapeOp(Ints([n, d])), t1, t2, t3);
  }

  lemma HeadSize(h: nat, k: nat)
    requires h > 0
    ensures h * 2 * k / h / 2 == k
  {
    DivModOf(2 * k, h, 0);
    assert h * 2 * k == 2 * k * h;
  }
}
