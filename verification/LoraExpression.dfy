/**
 * Expressions over low-rank pairs: indexing, reshaping, permuting, stacking and joining, nested at will. Factors
 * transformed step by step stand for the product transformed step by step.
 */
module LoraExpression {
  import opened Common
  import opened TensorAlgebra
  import opened LoraTensor
  import opened LoraIndexing
  import opened LoraReshaping
  import opened LoraJoining
  import opened LoraCatExact
  import opened LoraChain

  /** What a conversion does with its tensors, whatever represents them. */
  datatype Expr<T> =
    | Leaf(value: T)
    | Apply(op: Op, arg: Expr<T>)
    | StackOf(args: seq<Expr<T>>)
    | CatOf(args: seq<Expr<T>>)

  /** All values, or one of the errors. */
  function Collect<T, E>(rs: seq<Result<T, E>>): (r: Result<seq<T>, E>)
    ensures r.Ok? <==> forall i | 0 <= i < |rs| :: rs[i].Ok?
    ensures r.Ok? ==> |r.value| == |rs| && forall i | 0 <= i < |rs| :: rs[i] == Ok(r.value[i])
    ensures r.Err? ==> exists i | 0 <= i < |rs| :: rs[i] == Err(r.error)
  {
    if rs == [] then Ok([])
    else match rs[0]
      case Err(e) => Err(e)
      case Ok(v) =>
        match Collect(rs[1..])
        case Ok(vs) => Ok([v] + vs)
        case Err(e) => Err(e)
  }

  function CollectSome<T>(os: seq<Option<T>>): (r: Option<seq<T>>)
    ensures r.Some? <==> forall i | 0 <= i < |os| :: os[i].Some?
    ensures r.Some? ==> |r.value| == |os| && forall i | 0 <= i < |os| :: os[i] == Some(r.value[i])
  {
    if os == [] then Some([])
    else match (os[0], CollectSome(os[1..]))
      case (Some(v), Some(vs)) => Some([v] + vs)
      case _ => None
  }

  // ---------- on pairs and on plain tensors ----------

  /** The evaluation stops where a pair has lost its product. */
  function Kept(r: LoraResult): (k: LoraResult)
    ensures k.Ok? ==> WellFormed(k.value)
  {
    if r.Ok? && !WellFormed(r.value) then Err(IllFormed) else r
  }

  /** What the wrapper computes. */
  function PairOf(e: Expr<Lora>): (r: LoraResult)
    ensures r.Ok? ==> WellFormed(r.value)
  {
    match e
    case Leaf(l) => Kept(Ok(l))
    case Apply(op, arg) => (match PairOf(arg) case Ok(l) => Kept(OnPair(op, l)) case Err(x) => Err(x))
    case StackOf(args) =>
      (match Collect(seq(|args|, i requires 0 <= i < |args| => PairOf(args[i])))
       case Ok(ls) => Kept(LoraStack(ls))
       case Err(x) => Err(x))
    case CatOf(args) =>
      (match Collect(seq(|args|, i requires 0 <= i < |args| => PairOf(args[i])))
       case Ok(ls) => Kept(LoraCat(ls))
       case Err(x) => Err(x))
  }

  /** What the same expression is on plain tensors. */
  function TensorOf(e: Expr<Tensor>): Option<Tensor> {
    match e
    case Leaf(t) => Some(t)
    case Apply(op, arg) => (match TensorOf(arg) case Some(t) => OnTensor(op, t) case None => None)
    case StackOf(args) =>
      (match CollectSome(seq(|args|, i requires 0 <= i < |args| => TensorOf(args[i])))
       case Some(ts) => StackTo(ts)
       case None => None)
    case CatOf(args) =>
      (match CollectSome(seq(|args|, i requires 0 <= i < |args| => TensorOf(args[i])))
       case Some(ts) => CatTo(ts)
       case None => None)
  }

  /** The expression with every pair multiplied out. */
  function Materialized(e: Expr<Lora>): Expr<Tensor>
    requires Supports(e)
  {
    match e
    case Leaf(l) => WellFormedMultipliable(l); Leaf(Product(l))
    case Apply(op, arg) => Apply(op, Materialized(arg))
    case StackOf(args) => StackOf(seq(|args|, i requires 0 <= i < |args| => Materialized(args[i])))
    case CatOf(args) => CatOf(seq(|args|, i requires 0 <= i < |args| => Materialized(args[i])))
  }

  // ---------- what is supported ----------

  /** Operands that the wrapper joins correctly, whatever their entries are. */
  predicate CatSupported(ls: seq<Lora>)
    requires AllWellFormed(ls)
  {
    Operands(ls) ==> RowsKept(ls) || (!HasEntries(ls) && ATotal(ls) == BTotal(ls))
  }

  /** Leaves are well-formed pairs, and every operation is supported on the pairs it is applied to. */
  predicate Supports(e: Expr<Lora>) {
    match e
    case Leaf(l) => WellFormed(l)
    case Apply(op, arg) => Supports(arg) && (PairOf(arg).Ok? ==> Supported(op, PairOf(arg).value))
    case StackOf(args) => forall i | 0 <= i < |args| :: Supports(args[i])
    case CatOf(args) =>
      && (forall i | 0 <= i < |args| :: Supports(args[i]))
      && (match Collect(seq(|args|, i requires 0 <= i < |args| => PairOf(args[i])))
          case Ok(ls) => CatSupported(ls)
          case Err(_) => true)
  }

  // ---------- the theorem ----------

  /** Joining supported operands. */
  lemma CatStands(ls: seq<Lora>)
    requires AllWellFormed(ls) && CatSupported(ls) && LoraCat(ls).Ok?
    ensures WellFormed(LoraCat(ls).value) && JoinsProducts(ls, LoraCat(ls).value)
  {
    hide JoinsProducts, RowsKept, HasEntries, MatMul;
    if |ShapeOf(ls[0])| > 2 {
      CatChecks(ls);
      CatExact(ls);
      SameOperands(ls, ls);
      assert JoinsProducts(ls, Joined(ls));
      IllFormedFails(ls);
    } else {
      CatRowsCommutes(ls);
    }
  }

  /** Lists of pairs that mean lists of tensors: the tensors are the products. */
  lemma AllMean(ls: seq<Lora>, ts: seq<Tensor>)
    requires |ls| == |ts| && forall i | 0 <= i < |ls| :: Means(ls[i], ts[i])
    ensures AllWellFormed(ls) && Products(ls) == ts
  {
    hide MatMul;
    forall i | 0 <= i < |ls|
      ensures WellFormed(ls[i])
    {
      assert Means(ls[i], ts[i]);
    }
    forall i | 0 <= i < |ls|
      ensures Products(ls)[i] == ts[i]
    {
      assert Means(ls[i], ts[i]);
    }
  }

  /** The claim of `ExprCommutes` for one expression. */
  predicate Commutes(e: Expr<Lora>)
    requires Supports(e)
  {
    PairOf(e).Ok? ==>
      TensorOf(Materialized(e)).Some? && Means(PairOf(e).value, TensorOf(Materialized(e)).value)
  }

  function ArgPairs(args: seq<Expr<Lora>>): (rs: seq<LoraResult>)
    ensures |rs| == |args| && forall i | 0 <= i < |args| :: rs[i] == PairOf(args[i])
  {
    seq(|args|, i requires 0 <= i < |args| => PairOf(args[i]))
  }

  function ArgTensors(args: seq<Expr<Lora>>): (os: seq<Option<Tensor>>)
    requires forall i | 0 <= i < |args| :: Supports(args[i])
    ensures |os| == |args| && forall i | 0 <= i < |args| :: os[i] == TensorOf(Materialized(args[i]))
  {
    seq(|args|, i requires 0 <= i < |args| => TensorOf(Materialized(args[i])))
  }

  /** The operands of a stack or a join, given the claim for each of them. */
  lemma ArgsMean(args: seq<Expr<Lora>>)
    requires forall i | 0 <= i < |args| :: Supports(args[i]) && Commutes(args[i])
    requires Collect(ArgPairs(args)).Ok?
    ensures CollectSome(ArgTensors(args)).Some? && AllWellFormed(Collect(ArgPairs(args)).value)
    ensures Products(Collect(ArgPairs(args)).value) == CollectSome(ArgTensors(args)).value
  {
    hide Means, PairOf, TensorOf, Products;
    forall i | 0 <= i < |args|
      ensures ArgTensors(args)[i].Some? && Means(ArgPairs(args)[i].value, ArgTensors(args)[i].value)
    {
      assert Commutes(args[i]);
    }
    AllMean(Collect(ArgPairs(args)).value, CollectSome(ArgTensors(args)).value);
  }

  lemma StackUnfold(args: seq<Expr<Lora>>)
    ensures PairOf(StackOf(args)) == match Collect(ArgPairs(args))
                                     case Ok(ls) => Kept(LoraStack(ls))
                                     case Err(x) => Err(x)
    ensures Supports(StackOf(args)) ==>
              TensorOf(Materialized(StackOf(args))) == match CollectSome(ArgTensors(args))
                                                       case Some(ts) => StackTo(ts)
                                                       case None => None
  {
    hide Kept, LoraStack, StackTo, Collect, CollectSome;
    assert ArgPairs(args) == seq(|args|, i requires 0 <= i < |args| => PairOf(args[i]));
    if Supports(StackOf(args)) {
      var ms := seq(|args|, i requires 0 <= i < |args| => Materialized(args[i]));
      assert ArgTensors(args) == seq(|ms|, i requires 0 <= i < |ms| => TensorOf(ms[i]));
    }
  }

  lemma CatUnfold(args: seq<Expr<Lora>>)
    ensures PairOf(CatOf(args)) == match Collect(ArgPairs(args))
                                   case Ok(ls) => Kept(LoraCat(ls))
                                   case Err(x) => Err(x)
    ensures Supports(CatOf(args)) ==>
              TensorOf(Materialized(CatOf(args))) == match CollectSome(ArgTensors(args))
                                                     case Some(ts) => CatTo(ts)
                                                     case None => None
    ensures Supports(CatOf(args)) && Collect(ArgPairs(args)).Ok? ==> CatSupported(Collect(ArgPairs(args)).value)
  {
    hide Kept, LoraCat, CatTo, Collect, CollectSome, CatSupported;
    assert ArgPairs(args) == seq(|args|, i requires 0 <= i < |args| => PairOf(args[i]));
    if Supports(CatOf(args)) {
      var ms := seq(|args|, i requires 0 <= i < |args| => Materialized(args[i]));
      assert ArgTensors(args) == seq(|ms|, i requires 0 <= i < |ms| => TensorOf(ms[i]));
    }
  }

  lemma ApplyCase(op: Op, arg: Expr<Lora>)
    requires Supports(Apply(op, arg)) && Commutes(arg)
    ensures Commutes(Apply(op, arg))
  {
    hide Build, OnPair, OnTensor, Product;
    if PairOf(arg).Ok? && OnPair(op, PairOf(arg).value).Ok? {
      OpCommutes(op, PairOf(arg).value);
    }
  }

  lemma StackCase(args: seq<Expr<Lora>>)
    requires Supports(StackOf(args)) && forall i | 0 <= i < |args| :: Supports(args[i]) && Commutes(args[i])
    ensures Commutes(StackOf(args))
  {
    hide PairOf, TensorOf, Materialized, LoraStack, StackTo, Products;
    StackUnfold(args);
    if Collect(ArgPairs(args)).Ok? {
      ArgsMean(args);
      if LoraStack(Collect(ArgPairs(args)).value).Ok? {
        StackCommutes(Collect(ArgPairs(args)).value);
      }
    }
  }

  lemma CatCase(args: seq<Expr<Lora>>)
    requires Supports(CatOf(args)) && forall i | 0 <= i < |args| :: Supports(args[i]) && Commutes(args[i])
    ensures Commutes(CatOf(args))
  {
    hide PairOf, TensorOf, Materialized, LoraCat, CatTo, Products, CatSupported;
    CatUnfold(args);
    if Collect(ArgPairs(args)).Ok? {
      ArgsMean(args);
      if LoraCat(Collect(ArgPairs(args)).value).Ok? {
        CatStands(Collect(ArgPairs(args)).value);
      }
    }
  }

  /**
   * For every expression of supported operations that the wrapper evaluates, multiplying the factors of its
   * result equals evaluating the expression on the products.
   */
  lemma {:induction false} ExprCommutes(e: Expr<Lora>)
    requires Supports(e)
    ensures PairOf(e).Ok? ==>
              TensorOf(Materialized(e)).Some? && Means(PairOf(e).value, TensorOf(Materialized(e)).value)
  {
    match e {
      case Leaf(l) =>
        WellFormedMultipliable(l);
      case Apply(op, arg) =>
        ExprCommutes(arg);
        ApplyCase(op, arg);
      case StackOf(args) =>
        forall i | 0 <= i < |args|
          ensures Commutes(args[i])
        {
          ExprCommutes(args[i]);
        }
        StackCase(args);
      case CatOf(args) =>
        forall i | 0 <= i < |args|
          ensures Commutes(args[i])
        {
          ExprCommutes(args[i]);
        }
        CatCase(args);
    }
  }

  // ---------- no evaluation stops ----------

  /** The operations themselves never report a pair without its product. */
  lemma {:induction false} TupleErrors(l: Lora, es: seq<Entry>)
    requires WellFormed(l)
    ensures GetTuple(l, es) != Err(IllFormed)
    decreases |es|
  {
    if es != [] && es[|es| - 1] == Ellipsis {
      TupleErrors(l, es[..|es| - 1]);
    }
  }

  lemma OpErrors(op: Op, l: Lora)
    requires WellFormed(l)
    ensures OnPair(op, l) != Err(IllFormed)
  {
    hide GetItem, Permute, Inferred, Select, GetTuple;
    match op {
      case IndexTuple(ixs) => TupleErrors(l, Axes(ixs));
      case IndexEllipsis(pre, post) => TupleErrors(l, Axes(pre) + [Ellipsis] + Axes(post));
      case _ =>
    }
  }

  lemma JoinErrors(ls: seq<Lora>)
    requires AllWellFormed(ls)
    ensures LoraStack(ls) != Err(IllFormed) && LoraCat(ls) != Err(IllFormed)
  {
    hide StackTo, CatTo;
  }

  /** Supported operations never leave a pair without its product: no evaluation stops for that. */
  lemma {:induction false} NeverIllFormed(e: Expr<Lora>)
    requires Supports(e)
    ensures PairOf(e) != Err(IllFormed)
  {
    hide Supported, OnPair, LoraStack, LoraCat, CatSupported;
    match e {
      case Leaf(l) =>
      case Apply(op, arg) =>
        NeverIllFormed(arg);
        if PairOf(arg).Ok? {
          OpErrors(op, PairOf(arg).value);
          if OnPair(op, PairOf(arg).value).Ok? {
            OpCommutes(op, PairOf(arg).value);
          }
        }
      case StackOf(args) =>
        forall i | 0 <= i < |args|
          ensures PairOf(args[i]) != Err(IllFormed)
        {
          NeverIllFormed(args[i]);
        }
        StackStays(args);
      case CatOf(args) =>
        forall i | 0 <= i < |args|
          ensures PairOf(args[i]) != Err(IllFormed)
        {
          NeverIllFormed(args[i]);
        }
        CatStays(args);
    }
  }

  lemma StackStays(args: seq<Expr<Lora>>)
    requires forall i | 0 <= i < |args| :: PairOf(args[i]) != Err(IllFormed)
    ensures PairOf(StackOf(args)) != Err(IllFormed)
  {
    hide PairOf, LoraStack;
    StackUnfold(args);
    if Collect(ArgPairs(args)).Ok? {
      var ls := Collect(ArgPairs(args)).value;
      JoinErrors(ls);
      if LoraStack(ls).Ok? {
        StackCommutes(ls);
      }
    }
  }

  lemma CatStays(args: seq<Expr<Lora>>)
    requires Supports(CatOf(args)) && forall i | 0 <= i < |args| :: PairOf(args[i]) != Err(IllFormed)
    ensures PairOf(CatOf(args)) != Err(IllFormed)
  {
    hide PairOf, LoraCat, CatSupported;
    CatUnfold(args);
    if Collect(ArgPairs(args)).Ok? {
      var ls := Collect(ArgPairs(args)).value;
      JoinErrors(ls);
      if LoraCat(ls).Ok? {
        CatStands(ls);
      }
    }
  }
}
