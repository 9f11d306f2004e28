/**
 * Dense tensors in row-major order and the tensor operations the low-rank wrapper relies on, as PyTorch
 * defines them on plain tensors.
 */
module TensorAlgebra {
  import opened Common

  type Shape = seq<nat>
  type Index = seq<nat>

  // ---------- row-major indexing ----------

  function Prod(s: Shape): nat {
    if s == [] then 1 else Prod(s[..|s| - 1]) * s[|s| - 1]
  }

  predicate Valid(s: Shape, x: Index) {
    |x| == |s| && forall i | 0 <= i < |s| :: x[i] < s[i]
  }

  function Ravel(s: Shape, x: Index): nat
    requires |x| == |s|
  {
    if s == [] then 0 else Ravel(s[..|s| - 1], x[..|s| - 1]) * s[|s| - 1] + x[|s| - 1]
  }

  function Unravel(s: Shape, q: nat): (x: Index)
    requires q < Prod(s)
    ensures Valid(s, x)
  {
    if s == [] then []
    else
      var d := s[|s| - 1];
      DivBelow(q, Prod(s[..|s| - 1]), d);
      Unravel(s[..|s| - 1], q / d) + [q % d]
  }

  lemma DivBelow(q: nat, p: nat, d: nat)
    requires q < p * d
    ensures d > 0 && q / d < p
  {
    if d != 0 {
      MulMono(p, q / d, d);
      assert (q / d) * d <= q;
    }
  }

  lemma {:induction false} RavelBelow(s: Shape, x: Index)
    requires Valid(s, x)
    ensures Ravel(s, x) < Prod(s)
  {
    if s != [] {
      var n := |s| - 1;
      RavelBelow(s[..n], x[..n]);
      RowBelow(Ravel(s[..n], x[..n]), Prod(s[..n]), s[n], x[n]);
    }
  }

  lemma RowBelow(r: nat, p: nat, d: nat, i: nat)
    requires r < p && i < d
    ensures r * d + i < p * d
  {
    MulMono(r + 1, p, d);
    assert (r + 1) * d == r * d + d;
  }

  lemma {:induction false} UnravelRavel(s: Shape, x: Index)
    requires Valid(s, x)
    ensures Ravel(s, x) < Prod(s) && Unravel(s, Ravel(s, x)) == x
  {
    RavelBelow(s, x);
    if s != [] {
      var n := |s| - 1;
      UnravelRavel(s[..n], x[..n]);
      DivModOf(Ravel(s[..n], x[..n]), s[n], x[n]);
    }
  }

  lemma {:induction false} RavelUnravel(s: Shape, q: nat)
    requires q < Prod(s)
    ensures Ravel(s, Unravel(s, q)) == q
  {
    if s != [] {
      var n := |s| - 1;
      DivBelow(q, Prod(s[..n]), s[n]);
      RavelUnravel(s[..n], q / s[n]);
      assert (Unravel(s[..n], q / s[n]) + [q % s[n]])[..n] == Unravel(s[..n], q / s[n]);
    }
  }

  // ---------- tensors ----------

  datatype Storage = Storage(shape: Shape, data: seq<real>)
  type Tensor = t: Storage | |t.data| == Prod(t.shape) witness Storage([], [0.0])

  function At(t: Tensor, x: Index): real
    requires Valid(t.shape, x)
  {
    RavelBelow(t.shape, x);
    t.data[Ravel(t.shape, x)]
  }

  /** The tensor whose element at each index is given by `f`. */
  function Build(s: Shape, f: Index -> real): Tensor {
    Storage(s, seq(Prod(s), q requires 0 <= q < Prod(s) => f(Unravel(s, q))))
  }

  /** An element of `t`, or zero outside it. */
  function Get(t: Tensor, x: Index): real {
    if Valid(t.shape, x) then At(t, x) else 0.0
  }

  lemma BuildAt(s: Shape, f: Index -> real, x: Index)
    requires Valid(s, x)
    ensures At(Build(s, f), x) == f(x)
  {
    UnravelRavel(s, x);
  }

  /** Tensors of one shape that agree at every index are the same tensor. */
  lemma TensorExt(t: Tensor, u: Tensor)
    requires t.shape == u.shape && forall x | Valid(t.shape, x) :: Get(t, x) == Get(u, x)
    ensures t == u
  {
    forall q | 0 <= q < Prod(t.shape) ensures t.data[q] == u.data[q] {
      var x := Unravel(t.shape, q);
      RavelUnravel(t.shape, q);
      assert Get(t, x) == Get(u, x);
    }
    assert t.data == u.data;
  }

  // ---------- finite sums ----------

  function Sum(n: nat, f: nat -> real): real {
    if n == 0 then 0.0 else Sum(n - 1, f) + f(n - 1)
  }

  lemma {:induction false} SumEqual(n: nat, f: nat -> real, g: nat -> real)
    requires forall k | 0 <= k < n :: f(k) == g(k)
    ensures Sum(n, f) == Sum(n, g)
  {
    if n > 0 {
      SumEqual(n - 1, f, g);
    }
  }

  // ---------- batched matrix product ----------

  /** An index of the broadcast result, seen from an operand whose leading dimensions are `lead`. */
  function Clamp(lead: Shape, x: Index): (y: Index)
    requires |x| == |lead|
    ensures |y| == |x|
  {
    seq(|x|, i requires 0 <= i < |x| => if lead[i] == 1 then 0 else x[i])
  }

  /** The leading dimensions can be broadcast together. */
  predicate Broadcastable(p: Shape, q: Shape) {
    |p| == |q| && forall i | 0 <= i < |p| :: p[i] == q[i] || p[i] == 1 || q[i] == 1
  }

  function Broadcast(p: Shape, q: Shape): (r: Shape)
    requires |p| == |q|
    ensures |r| == |p|
  {
    seq(|p|, i requires 0 <= i < |p| => if q[i] == 1 then p[i] else q[i])
  }

  function Lead(s: Shape): Shape
    requires |s| >= 2
  {
    s[..|s| - 2]
  }

  predicate Multipliable(b: Tensor, a: Tensor) {
    && |b.shape| == |a.shape| >= 2
    && a.shape[|a.shape| - 2] == b.shape[|b.shape| - 1]
    && Broadcastable(Lead(b.shape), Lead(a.shape))
  }

  function Term(b: Tensor, a: Tensor, lead: Index, i: nat, j: nat, k: nat): real
    requires |b.shape| == |a.shape| == |lead| + 2
  {
    Get(b, Clamp(Lead(b.shape), lead) + [i, k]) * Get(a, Clamp(Lead(a.shape), lead) + [k, j])
  }

  function MatMulShape(b: Tensor, a: Tensor): Shape
    requires Multipliable(b, a)
  {
    Broadcast(Lead(b.shape), Lead(a.shape)) + [b.shape[|b.shape| - 2], a.shape[|a.shape| - 1]]
  }

  /** The batched product `b @ a` with broadcasting of the leading dimensions. */
  function MatMul(b: Tensor, a: Tensor): Tensor
    requires Multipliable(b, a)
  {
    var n := |b.shape|;
    Build(MatMulShape(b, a), x => if |x| != n then 0.0 else
            Sum(b.shape[n - 1], (k: nat) => Term(b, a, x[..n - 2], x[n - 2], x[n - 1], k)))
  }

  lemma MatMulAt(b: Tensor, a: Tensor, x: Index)
    requires Multipliable(b, a) && Valid(MatMulShape(b, a), x)
    ensures var n := |b.shape|;
            Get(MatMul(b, a), x) == Sum(b.shape[n - 1], (k: nat) => Term(b, a, x[..n - 2], x[n - 2], x[n - 1], k))
  {
    var n := |b.shape|;
    var f := (x: Index) => if |x| != n then 0.0 else
            Sum(b.shape[n - 1], (k: nat) => Term(b, a, x[..n - 2], x[n - 2], x[n - 1], k));
    BuildAt(MatMulShape(b, a), f, x);
  }

  // ---------- reshape ----------

  /** `torch.reshape` for a shape without a -1: the data keeps its order. */
  function Reshape(t: Tensor, s: Shape): (r: Tensor)
    requires Prod(s) == Prod(t.shape)
    ensures r.shape == s
  {
    Storage(s, t.data)
  }

  // ---------- permute ----------

  function Identity(n: nat): (r: seq<nat>)
    ensures |r| == n && forall i | 0 <= i < n :: r[i] == i
  {
    seq(n, i requires 0 <= i < n => i)
  }

  /** Every axis below `n` exactly once. */
  predicate IsPermutation(dims: seq<nat>, n: nat) {
    |dims| == n && multiset(dims) == multiset(Identity(n))
  }

  lemma AxisBelow(dims: seq<nat>, n: nat, i: nat)
    requires IsPermutation(dims, n) && i < n
    ensures dims[i] < n
  {
    assert dims[i] in multiset(dims);
    assert dims[i] in Identity(n);
  }

  lemma AxisPresent(dims: seq<nat>, n: nat, a: nat)
    requires IsPermutation(dims, n) && a < n
    ensures a in dims
  {
    assert Identity(n)[a] == a;
    assert a in multiset(Identity(n));
    assert a in multiset(dims);
  }

  lemma CountTwice(s: seq<nat>, i: nat, j: nat)
    requires i < j < |s| && s[i] == s[j]
    ensures multiset(s)[s[i]] >= 2
  {
    assert s == s[..i] + [s[i]] + s[i + 1..j] + [s[j]] + s[j + 1..];
  }

  lemma {:induction false} CountOnce(n: nat, a: nat)
    ensures multiset(Identity(n))[a] <= 1
  {
    if n > 0 {
      CountOnce(n - 1, a);
      assert Identity(n) == Identity(n - 1) + [n - 1];
      if a == n - 1 {
        assert a !in Identity(n - 1);
      }
    }
  }

  lemma AxesDistinct(dims: seq<nat>, n: nat, i: nat, j: nat)
    requires IsPermutation(dims, n) && i < n && j < n && dims[i] == dims[j]
    ensures i == j
  {
    CountOnce(n, dims[i]);
    if i < j {
      CountTwice(dims, i, j);
    } else if j < i {
      CountTwice(dims, j, i);
    }
  }

  function Permuted(s: seq<nat>, dims: seq<nat>): (r: seq<nat>)
    requires IsPermutation(dims, |s|)
    ensures |r| == |s|
  {
    seq(|s|, i requires 0 <= i < |s| => AxisBelow(dims, |s|, i); s[dims[i]])
  }

  lemma PermutedAt(s: seq<nat>, dims: seq<nat>, i: nat)
    requires IsPermutation(dims, |s|) && i < |s|
    ensures dims[i] < |s| && Permuted(s, dims)[i] == s[dims[i]]
  {
    AxisBelow(dims, |s|, i);
  }

  /** The position of axis `a` in `dims`. */
  function Position(dims: seq<nat>, a: nat): (i: nat)
    requires a in dims
    ensures i < |dims| && dims[i] == a
  {
    if dims[0] == a then 0 else 1 + Position(dims[1..], a)
  }

  /** The index that `Permuted` turns into `x`. */
  function Unpermuted(x: Index, dims: seq<nat>): (r: Index)
    requires IsPermutation(dims, |x|)
    ensures |r| == |x|
  {
    seq(|x|, a requires 0 <= a < |x| => AxisPresent(dims, |x|, a); x[Position(dims, a)])
  }

  /** Axis `dims[i]` of the operand is axis `i` of the result. */
  lemma UnpermutedAt(x: Index, dims: seq<nat>, i: nat)
    requires IsPermutation(dims, |x|) && i < |x|
    ensures dims[i] < |x| && Unpermuted(x, dims)[dims[i]] == x[i]
  {
    AxisBelow(dims, |x|, i);
    AxisPresent(dims, |x|, dims[i]);
    AxesDistinct(dims, |x|, i, Position(dims, dims[i]));
  }

  /** `torch.permute`: axis `i` of the result is axis `dims[i]` of the operand. */
  function Permute(t: Tensor, dims: seq<nat>): (r: Tensor)
    requires IsPermutation(dims, |t.shape|)
    ensures r.shape == Permuted(t.shape, dims)
  {
    Build(Permuted(t.shape, dims), x => if |x| == |dims| then Get(t, Unpermuted(x, dims)) else 0.0)
  }

  lemma UnpermutedValid(s: Shape, dims: seq<nat>, x: Index)
    requires IsPermutation(dims, |s|) && Valid(Permuted(s, dims), x)
    ensures Valid(s, Unpermuted(x, dims))
  {
    forall a | 0 <= a < |s| ensures Unpermuted(x, dims)[a] < s[a] {
      AxisPresent(dims, |s|, a);
      var i := Position(dims, a);
      UnpermutedAt(x, dims, i);
      PermutedAt(s, dims, i);
    }
  }

  lemma PermuteAt(t: Tensor, dims: seq<nat>, x: Index)
    requires IsPermutation(dims, |t.shape|) && Valid(Permuted(t.shape, dims), x)
    ensures Get(Permute(t, dims), x) == Get(t, Unpermuted(x, dims))
  {
    var f := (x: Index) => if |x| == |dims| then Get(t, Unpermuted(x, dims)) else 0.0;
    BuildAt(Permuted(t.shape, dims), f, x);
  }

  // ---------- basic indexing ----------

  /** One entry of an index tuple: an integer, or a slice whose missing bounds are `None`. */
  datatype Ix = Int(i: int) | Slice(start: Option<int>, stop: Option<int>, step: int)

  const FULL := Slice(None, None, 1)

  /** What an entry selects on its axis. */
  datatype Pick = Point(p: nat) | Range(first: nat, step: nat, len: nat)

  /** Python's clamping of a slice bound. */
  function ClampBound(i: int, d: nat): (r: nat)
    ensures r <= d
  {
    if i < 0 then (if i + d < 0 then 0 else i + d) else if i > d then d else i
  }

  /** Resolves an entry on an axis of size `d`; integers out of range and steps below one are refused. */
  function Resolve(ix: Ix, d: nat): Option<Pick> {
    match ix
    case Int(i) => if 0 <= i < d then Some(Point(i)) else if i < 0 <= i + d then Some(Point(i + d)) else None
    case Slice(start, stop, step) =>
      if step < 1 then None
      else
        var lo := if start.None? then 0 else ClampBound(start.value, d);
        var hi := if stop.None? then d else ClampBound(stop.value, d);
        Some(Range(lo, step, if hi <= lo then 0 else (hi - lo + step - 1) / step))
  }

  function FullRange(d: nat): Pick {
    Range(0, 1, d)
  }

  /** Position of element `o` of a range. */
  function Nth(p: Pick, o: nat): nat
    requires p.Range?
  {
    p.first + o * p.step
  }

  /** The pick stays inside an axis of size `d`. */
  predicate InAxis(p: Pick, d: nat) {
    match p
    case Point(i) => i < d
    case Range(_, _, len) => forall o: nat | o < len :: Nth(p, o) < d
  }

  lemma ResolveInAxis(ix: Ix, d: nat)
    requires Resolve(ix, d).Some?
    ensures InAxis(Resolve(ix, d).value, d)
  {
    var pick := Resolve(ix, d).value;
    if pick.Range? {
      var lo, hi := pick.first, if ix.stop.None? then d else ClampBound(ix.stop.value, d);
      forall o: nat | o < pick.len ensures Nth(pick, o) < d {
        var n := hi - lo + pick.step - 1;
        assert (n / pick.step) * pick.step <= n;
        MulMono(o + 1, n / pick.step, pick.step);
        assert (o + 1) * pick.step == o * pick.step + pick.step;
      }
    }
  }

  predicate AllInAxis(ps: seq<Pick>, s: Shape) {
    |ps| == |s| && forall i | 0 <= i < |s| :: InAxis(ps[i], s[i])
  }

  function OutShape(ps: seq<Pick>): Shape {
    if ps == [] then []
    else
      var n := |ps| - 1;
      if ps[n].Point? then OutShape(ps[..n]) else OutShape(ps[..n]) + [ps[n].len]
  }

  /** The index of the operand behind index `x` of the result. */
  function Source(ps: seq<Pick>, x: Index): Index
    requires |x| == |OutShape(ps)|
  {
    if ps == [] then []
    else
      var n := |ps| - 1;
      match ps[n]
      case Point(p) => Source(ps[..n], x) + [p]
      case Range(_, _, _) => Source(ps[..n], x[..|x| - 1]) + [Nth(ps[n], x[|x| - 1])]
  }

  lemma {:induction false} SourceValid(ps: seq<Pick>, s: Shape, x: Index)
    requires AllInAxis(ps, s) && Valid(OutShape(ps), x)
    ensures Valid(s, Source(ps, x))
  {
    if ps != [] {
      var n := |ps| - 1;
      SourceValid(ps[..n], s[..n], if ps[n].Point? then x else x[..|x| - 1]);
      assert s == s[..n] + [s[n]];
    }
  }

  function Select(t: Tensor, ps: seq<Pick>): (r: Tensor)
    requires AllInAxis(ps, t.shape)
    ensures r.shape == OutShape(ps)
  {
    Build(OutShape(ps), x => if |x| == |OutShape(ps)| then Get(t, Source(ps, x)) else 0.0)
  }

  lemma SelectAt(t: Tensor, ps: seq<Pick>, x: Index)
    requires AllInAxis(ps, t.shape) && Valid(OutShape(ps), x)
    ensures Get(Select(t, ps), x) == Get(t, Source(ps, x))
  {
    var f := (x: Index) => if |x| == |OutShape(ps)| then Get(t, Source(ps, x)) else 0.0;
    BuildAt(OutShape(ps), f, x);
  }

  /** Resolves an index tuple with one entry per axis. */
  function ResolveAll(ixs: seq<Ix>, s: Shape): (r: Option<seq<Pick>>)
    requires |ixs| == |s|
    ensures r.Some? ==> |r.value| == |s| && forall i | 0 <= i < |s| :: Resolve(ixs[i], s[i]) == Some(r.value[i])
    ensures r.None? ==> exists i | 0 <= i < |s| :: Resolve(ixs[i], s[i]).None?
  {
    if s == [] then Some([])
    else
      var n := |s| - 1;
      match (ResolveAll(ixs[..n], s[..n]), Resolve(ixs[n], s[n]))
      case (Some(ps), Some(p)) => Some(ps + [p])
      case _ => None
  }

  lemma ResolvedInAxis(ixs: seq<Ix>, s: Shape)
    requires |ixs| == |s| && ResolveAll(ixs, s).Some?
    ensures AllInAxis(ResolveAll(ixs, s).value, s)
  {
    forall i | 0 <= i < |s| ensures InAxis(ResolveAll(ixs, s).value[i], s[i]) {
      ResolveInAxis(ixs[i], s[i]);
    }
  }

  /** An index tuple padded with full slices to one entry per axis. */
  function Padded(ixs: seq<Ix>, n: nat): (r: seq<Ix>)
    requires |ixs| <= n
    ensures |r| == n
  {
    ixs + seq(n - |ixs|, _ => FULL)
  }

  /** `t[ixs]`: too many entries or an entry that does not resolve are refused. */
  function GetItem(t: Tensor, ixs: seq<Ix>): Option<Tensor> {
    if |ixs| > |t.shape| then None
    else match ResolveAll(Padded(ixs, |t.shape|), t.shape)
      case None => None
      case Some(ps) => ResolvedInAxis(Padded(ixs, |t.shape|), t.shape); Some(Select(t, ps))
  }
}
