/** The operations on one low-rank pair, each beside the same operation on a plain tensor. */
module LoraChain {
  import opened Common
  import opened TensorAlgebra
  import opened LoraTensor
  import opened LoraIndexing
  import opened LoraReshaping

  datatype Op =
    | IndexInt(i: int)
    | IndexSlice(start: Option<int>, stop: Option<int>, step: int)
    | IndexTuple(ixs: seq<Ix>)
    | IndexEllipsis(pre: seq<Ix>, post: seq<Ix>)
    | ReshapeOp(shape: seq<int>)
    | PermuteOp(dims: seq<int>)
    | TransposeOp(d0: int, d1: int)

  function OnPair(op: Op, l: Lora): LoraResult
    requires WellFormed(l)
  {
    match op
    case IndexInt(i) => GetInt(l, i)
    case IndexSlice(start, stop, step) => GetSlice(l, Slice(start, stop, step))
    case IndexTuple(ixs) => GetTuple(l, Axes(ixs))
    case IndexEllipsis(pre, post) => GetTuple(l, Axes(pre) + [Ellipsis] + Axes(post))
    case ReshapeOp(shape) => LoraReshape(l, shape)
    case PermuteOp(dims) => LoraPermute(l, dims)
    case TransposeOp(d0, d1) => LoraTranspose(l, d0, d1)
  }

  /** The same operation on a plain tensor. */
  function OnTensor(op: Op, t: Tensor): Option<Tensor> {
    match op
    case IndexInt(i) => GetItem(t, [Int(i)])
    case IndexSlice(start, stop, step) => GetItem(t, [Slice(start, stop, step)])
    case IndexTuple(ixs) => GetItem(t, ixs)
    case IndexEllipsis(pre, post) =>
      if |pre| + |post| <= |t.shape| then GetItem(t, EllipsisMeaning(pre, post, |t.shape|)) else None
    case ReshapeOp(shape) => ReshapeInferred(t, shape)
    case PermuteOp(dims) => PermuteTo(t, dims)
    case TransposeOp(d0, d1) => TransposeTo(t, d0, d1)
  }

  /** Entries (padded to the rank) that the wrapper indexes correctly. */
  predicate EntriesSupported(l: Lora, ixs: seq<Ix>)
    requires WellFormed(l)
  {
    |ixs| <= |l.a.shape| &&
    var full := Padded(ixs, |l.a.shape|);
    full[|full| - 2].Slice? && full[|full| - 1].Slice? && TupleGuard(l, full)
  }

  /** When an operation that the wrapper accepts is right; see the exact conditions proved for each. */
  predicate Supported(op: Op, l: Lora)
    requires WellFormed(l)
  {
    match op
    case IndexInt(_) => true
    case IndexSlice(start, stop, step) =>
      step >= 1 &&
      (|l.a.shape| > 2 ==> || l.a.shape[0] == l.b.shape[0] || SliceLen(Slice(start, stop, step), l.a.shape[0]) != 0
                           || SliceLen(Slice(start, stop, step), l.b.shape[0]) == 0)
    case IndexTuple(ixs) => EntriesSupported(l, ixs)
    case IndexEllipsis(pre, post) =>
      var n, c := |l.a.shape|, |pre| + |post|;
      && c <= n && EntriesSupported(l, EllipsisMeaning(pre, post, n))
      && (post == [] || 2 * c == n || (2 * c < n && forall i | 0 <= i < |post| :: post[i] == FULL))
    case ReshapeOp(shape) =>
      OneInferred(shape) &&
      (Rank(l) > 0 || (FullShape(l, shape).Some? && Prod(FullShape(l, shape).value) == Prod(ShapeOf(l))))
    case PermuteOp(dims) => forall i | 0 <= i < |dims| :: dims[i] < |l.b.shape|
    case TransposeOp(_, _) => true
  }

  /** `m` is well formed and stands for `t`. */
  predicate Means(m: Lora, t: Tensor) {
    WellFormed(m) && Multipliable(m.b, m.a) && Product(m) == t
  }

  lemma TupleCommutes(l: Lora, ixs: seq<Ix>)
    requires WellFormed(l) && EntriesSupported(l, ixs) && GetTuple(l, Axes(ixs)).Ok?
    ensures Multipliable(l.b, l.a) && GetItem(Product(l), ixs).Some?
    ensures Means(GetTuple(l, Axes(ixs)).value, GetItem(Product(l), ixs).value)
  {
    NoEllipsis(l, ixs);
    GetEntriesExact(l, ixs);
  }

  lemma EllipsisCommutes(l: Lora, pre: seq<Ix>, post: seq<Ix>)
    requires WellFormed(l) && Supported(IndexEllipsis(pre, post), l)
    requires GetTuple(l, Axes(pre) + [Ellipsis] + Axes(post)).Ok?
    ensures var ixs := EllipsisMeaning(pre, post, |l.a.shape|);
            var m := GetTuple(l, Axes(pre) + [Ellipsis] + Axes(post)).value;
            && Multipliable(l.b, l.a) && GetItem(Product(l), ixs).Some? && Means(m, GetItem(Product(l), ixs).value)
  {
    var n := |l.a.shape|;
    var ixs := EllipsisMeaning(pre, post, n);
    if post == [] {
      TrailingMeaning(l, pre);
    } else {
      GetEllipsisWhole(ixs, n);
      GetEllipsisCorrect(l, pre, post);
    }
  }

  lemma GetEllipsisWhole(ixs: seq<Ix>, n: nat)
    requires |ixs| == n
    ensures Padded(ixs, n) == ixs
  {
  }

  lemma TrailingMeaning(l: Lora, pre: seq<Ix>)
    requires WellFormed(l) && |pre| <= |l.a.shape| && EntriesSupported(l, EllipsisMeaning(pre, [], |l.a.shape|))
    requires GetTuple(l, Axes(pre) + [Ellipsis] + Axes([])).Ok?
    ensures var ixs, m := EllipsisMeaning(pre, [], |l.a.shape|), GetTuple(l, Axes(pre) + [Ellipsis] + Axes([])).value;
            && Multipliable(l.b, l.a) && GetItem(Product(l), ixs).Some? && Means(m, GetItem(Product(l), ixs).value)
  {
    hide GetEntries, TupleGuard;
    var n := |l.a.shape|;
    var es := Axes(pre) + [Ellipsis] + Axes([]);
    assert es == Axes(pre) + [Ellipsis];
    assert es[..|es| - 1] == Axes(pre);
    GetTupleUnfold(l, es);
    assert pre != [];
    TrailingEllipsis(l, pre);
    GetEllipsisWhole(EllipsisMeaning(pre, [], n), n);
    GetEntriesExact(l, pre);
    PadStandsFor(GetEntries(l, pre).value, l, pre);
  }

  lemma SliceCommutes(l: Lora, sl: Ix)
    requires WellFormed(l) && sl.Slice? && Supported(IndexSlice(sl.start, sl.stop, sl.step), l)
    ensures GetSlice(l, sl).Ok? && Multipliable(l.b, l.a) && GetItem(Product(l), [sl]).Some?
    ensures Means(GetSlice(l, sl).value, GetItem(Product(l), [sl]).value)
  {
    if |l.a.shape| > 2 {
      GetSliceExact(l, sl);
    } else {
      GetSliceMatrix(l, sl);
    }
  }

  lemma ReshapeOpCommutes(l: Lora, shape: seq<int>)
    requires WellFormed(l) && LoraReshape(l, shape).Ok? && Supported(ReshapeOp(shape), l)
    ensures Multipliable(l.b, l.a) && ReshapeInferred(Product(l), shape).Some?
    ensures Means(LoraReshape(l, shape).value, ReshapeInferred(Product(l), shape).value)
  {
    ReshapeExact(l, shape);
  }

  /** One step. */
  lemma OpCommutes(op: Op, l: Lora)
    requires WellFormed(l) && Supported(op, l) && OnPair(op, l).Ok?
    ensures Multipliable(l.b, l.a) && OnTensor(op, Product(l)).Some?
    ensures Means(OnPair(op, l).value, OnTensor(op, Product(l)).value)
  {
    match op {
      case IndexInt(i) => GetIntCorrect(l, i);
      case IndexSlice(start, stop, step) => SliceCommutes(l, Slice(start, stop, step));
      case IndexTuple(ixs) => TupleCommutes(l, ixs);
      case IndexEllipsis(pre, post) => EllipsisOpCommutes(l, pre, post);
      case ReshapeOp(shape) => ReshapeOpCommutes(l, shape);
      case PermuteOp(dims) => PermuteCommutes(l, dims);
      case TransposeOp(d0, d1) => TransposeCommutes(l, d0, d1);
    }
  }

  lemma EllipsisOpCommutes(l: Lora, pre: seq<Ix>, post: seq<Ix>)
    requires WellFormed(l) && Supported(IndexEllipsis(pre, post), l) && OnPair(IndexEllipsis(pre, post), l).Ok?
    ensures Multipliable(l.b, l.a) && OnTensor(IndexEllipsis(pre, post), Product(l)).Some?
    ensures Means(OnPair(IndexEllipsis(pre, post), l).value, OnTensor(IndexEllipsis(pre, post), Product(l)).value)
  {
    EllipsisCommutes(l, pre, post);
    WellFormedMultipliable(l);
    assert |Product(l).shape| == |l.a.shape|;
  }
}
