/** Which element of a tensor goes where: indexing, joining and permuting, each stated in the caller's own numbers. */
module TensorPlaces {
  import opened Common
  import opened TensorAlgebra
  import opened LoraIndexing
  import opened LoraJoining
  import opened LoraReshaping

  // ---------- one axis ----------

  function Max(a: int, b: int): int {
    if a < b then b else a
  }

  function Min(a: int, b: int): int {
    if a < b then a else b
  }

  /** A slice bound on an axis of size `d`: a negative one counts from the end, and none lies outside the axis. */
  function Bound(b: Option<int>, missing: nat, d: nat): int {
    match b
    case None => missing
    case Some(i) => Max(0, Min(if i < 0 then i + d else i, d))
  }

  function First(sl: Ix, d: nat): int
    requires sl.Slice?
  {
    Bound(sl.start, 0, d)
  }

  function Stop(sl: Ix, d: nat): int
    requires sl.Slice?
  {
    Bound(sl.stop, d, d)
  }

  lemma CeilingExact(n: nat, step: nat, k: nat)
    requires n > 0 && step > 0
    ensures k < (n + step - 1) / step <==> k * step < n
  {
    var q := (n + step - 1) / step;
    assert q * step <= n + step - 1 < q * step + step;
    if k < q {
      MulMono(k + 1, q, step);
      assert (k + 1) * step == k * step + step;
    } else {
      MulMono(q, k, step);
    }
  }

  /** A slice takes the places `first`, `first + step`, and so on below `stop`, in this order. */
  lemma SliceExact(sl: Ix, d: nat, k: nat)
    requires sl.Slice? && sl.step >= 1
    ensures Resolve(sl, d).Some? && Resolve(sl, d).value.Range?
    ensures var p := Resolve(sl, d).value;
            && Nth(p, k) == First(sl, d) + k * sl.step
            && (k < p.len <==> First(sl, d) + k * sl.step < Stop(sl, d))
  {
    var lo, hi := First(sl, d), Stop(sl, d);
    if lo < hi {
      CeilingExact(hi - lo, sl.step, k);
    } else {
      assert k * sl.step >= 0 by {
        MulMono(0, k, sl.step);
      }
    }
  }

  /** An integer takes its own place, counted from the end if it is negative, and nothing outside the axis. */
  lemma IntExact(i: int, d: nat, p: nat)
    ensures Resolve(Int(i), d) == Some(Point(p)) <==> p < d && p == if i < 0 then i + d else i
    ensures Resolve(Int(i), d).Some? ==> Resolve(Int(i), d).value.Point?
  {
  }

  // ---------- index tuples ----------

  /** Element `x` of the result is element `y` of the operand: an integer fixes an axis, a slice renumbers one. */
  predicate Takes(ixs: seq<Ix>, s: Shape, x: Index, y: Index)
    decreases |ixs|
  {
    && |ixs| == |s| == |y|
    && if ixs == [] then x == []
       else
         var n := |ixs| - 1;
         match ixs[n]
         case Int(i) => y[n] < s[n] && y[n] == (if i < 0 then i + s[n] else i) && Takes(ixs[..n], s[..n], x, y[..n])
         case Slice(_, _, step) =>
           && x != [] && y[n] == First(ixs[n], s[n]) + x[|x| - 1] * step && y[n] < Stop(ixs[n], s[n])
           && Takes(ixs[..n], s[..n], x[..|x| - 1], y[..n])
  }

  lemma AllButLast(ixs: seq<Ix>, s: Shape, ps: seq<Pick>)
    requires |ixs| == |s| > 0 && ResolveAll(ixs, s) == Some(ps)
    ensures var n := |ixs| - 1;
            |ps| == n + 1 && ResolveAll(ixs[..n], s[..n]) == Some(ps[..n]) && Resolve(ixs[n], s[n]) == Some(ps[n])
  {
    hide Resolve;
    var n := |ixs| - 1;
    var init := ResolveAll(ixs[..n], s[..n]).value;
    assert ps == init + [ps[n]] && |init| == n;
    assert ps[..n] == init;
  }

  lemma TakesLast(ixs: seq<Ix>, s: Shape, x: Index, y: Index)
    requires |ixs| == |s| == |y| > 0
    ensures var n := |ixs| - 1;
            && (ixs[n].Int? ==>
                (Takes(ixs, s, x, y) <==>
                 y[n] < s[n] && y[n] == (if ixs[n].i < 0 then ixs[n].i + s[n] else ixs[n].i) &&
                 Takes(ixs[..n], s[..n], x, y[..n])))
            && (ixs[n].Slice? ==>
                (Takes(ixs, s, x, y) <==>
                 x != [] && y[n] == First(ixs[n], s[n]) + x[|x| - 1] * ixs[n].step && y[n] < Stop(ixs[n], s[n]) &&
                 Takes(ixs[..n], s[..n], x[..|x| - 1], y[..n])))
  {
    hide First, Stop;
  }

  /** What the picks of a tuple take is what the tuple says, and nothing else. */
  lemma {:induction false} TakesExact(ixs: seq<Ix>, s: Shape, ps: seq<Pick>, x: Index, y: Index)
    requires |ixs| == |s| && ResolveAll(ixs, s) == Some(ps)
    ensures Takes(ixs, s, x, y) <==> Valid(OutShape(ps), x) && y == Source(ps, x)
    decreases |ixs|
  {
    if ixs == [] {
      assert ps == [];
    } else {
      var n := |ixs| - 1;
      AllButLast(ixs, s, ps);
      StepOK(ixs[n], s[n], ps[n]);
      if |y| == n + 1 {
        if ixs[n].Int? {
          TakesExact(ixs[..n], s[..n], ps[..n], x, y[..n]);
        } else if x != [] {
          TakesExact(ixs[..n], s[..n], ps[..n], x[..|x| - 1], y[..n]);
        }
        LastExact(ixs, s, ps, x, y);
      } else if Valid(OutShape(ps), x) {
        SourceSize(ps, x);
      }
    }
  }

  lemma LastExact(ixs: seq<Ix>, s: Shape, ps: seq<Pick>, x: Index, y: Index)
    requires |ixs| == |s| == |y| == |ps| > 0 && ResolveAll(ixs, s) == Some(ps)
    requires var n := |ixs| - 1; Resolve(ixs[n], s[n]) == Some(ps[n])
    requires var n := |ixs| - 1;
             ixs[n].Int? ==> (Takes(ixs[..n], s[..n], x, y[..n]) <==>
                              Valid(OutShape(ps[..n]), x) && y[..n] == Source(ps[..n], x))
    requires var n := |ixs| - 1;
             ixs[n].Slice? && x != [] ==>
               (Takes(ixs[..n], s[..n], x[..|x| - 1], y[..n]) <==>
                Valid(OutShape(ps[..n]), x[..|x| - 1]) && y[..n] == Source(ps[..n], x[..|x| - 1]))
    ensures Takes(ixs, s, x, y) <==> Valid(OutShape(ps), x) && y == Source(ps, x)
  {
    hide Takes, Valid, OutShape, Source, First, Stop, Resolve, Nth, ResolveAll;
    var n := |ixs| - 1;
    StepOK(ixs[n], s[n], ps[n]);
    TakesLast(ixs, s, x, y);
    if ixs[n].Int? {
      IntExact(ixs[n].i, s[n], ps[n].p);
      PointTakes(ps, x, y);
    } else if x != [] {
      SliceExact(ixs[n], s[n], x[|x| - 1]);
      RangeTakes(ps, x, y);
    } else {
      NothingTaken(ps);
    }
  }

  lemma NothingTaken(ps: seq<Pick>)
    requires ps != [] && ps[|ps| - 1].Range?
    ensures !Valid(OutShape(ps), [])
  {
  }

  lemma StepOK(ix: Ix, d: nat, p: Pick)
    requires Resolve(ix, d) == Some(p)
    ensures ix.Slice? ==> ix.step >= 1 && p.Range?
    ensures ix.Int? ==> p.Point?
  {
  }

  lemma PointTakes(ps: seq<Pick>, x: Index, y: Index)
    requires ps != [] && ps[|ps| - 1].Point?
    ensures var n := |ps| - 1;
            Valid(OutShape(ps), x) && y == Source(ps, x) <==>
            |y| == n + 1 && y[n] == ps[n].p && Valid(OutShape(ps[..n]), x) && y[..n] == Source(ps[..n], x)
  {
    if Valid(OutShape(ps), x) {
      SourceSize(ps[..|ps| - 1], x);
    }
  }

  lemma RangeTakes(ps: seq<Pick>, x: Index, y: Index)
    requires ps != [] && ps[|ps| - 1].Range? && x != []
    ensures var n, m := |ps| - 1, |x| - 1;
            Valid(OutShape(ps), x) && y == Source(ps, x) <==>
            && |y| == n + 1 && y[n] == Nth(ps[n], x[m]) && x[m] < ps[n].len
            && Valid(OutShape(ps[..n]), x[..m]) && y[..n] == Source(ps[..n], x[..m])
  {
    var n, m := |ps| - 1, |x| - 1;
    assert x == x[..m] + [x[m]];
    ValidLast(OutShape(ps[..n]), ps[n].len, x[..m], x[m]);
    if |x[..m]| == |OutShape(ps[..n])| {
      SourceSize(ps[..n], x[..m]);
    }
  }

  lemma ValidLast(s: Shape, d: nat, x: Index, i: nat)
    ensures Valid(s + [d], x + [i]) <==> Valid(s, x) && i < d
  {
    if |x| == |s| {
      assert (x + [i])[|s|] == i && (s + [d])[|s|] == d;
      assert forall a | 0 <= a < |s| :: (x + [i])[a] == x[a] && (s + [d])[a] == s[a];
    }
  }

  lemma {:induction false} SourceSize(ps: seq<Pick>, x: Index)
    requires |x| == |OutShape(ps)|
    ensures |Source(ps, x)| == |ps|
  {
    if ps != [] {
      var n := |ps| - 1;
      SourceSize(ps[..n], if ps[n].Point? then x else x[..|x| - 1]);
    }
  }

  /** An index tuple gives the tensor of exactly the elements it takes, each in its place. */
  lemma ItemExact(t: Tensor, ixs: seq<Ix>, x: Index, y: Index)
    requires |ixs| == |t.shape| && GetItem(t, ixs).Some?
    ensures var r := GetItem(t, ixs).value;
            && (Takes(ixs, t.shape, x, y) ==> Valid(r.shape, x) && Valid(t.shape, y) && Get(r, x) == Get(t, y))
            && (Valid(r.shape, x) ==> exists z :: Takes(ixs, t.shape, x, z))
  {
    hide Takes, Select, Source, Get;
    PaddedWhole(ixs);
    var ps := ResolveAll(ixs, t.shape).value;
    ResolvedInAxis(ixs, t.shape);
    TakesExact(ixs, t.shape, ps, x, y);
    if Valid(OutShape(ps), x) {
      SelectAt(t, ps, x);
      SourceValid(ps, t.shape, x);
      TakesExact(ixs, t.shape, ps, x, Source(ps, x));
    }
  }

  // ---------- rows ----------

  /** A tuple of one slice renumbers the rows. */
  lemma {:induction false} RowTaken(sl: Ix, s: Shape, i: nat, rest: Index)
    requires s != [] && sl.Slice? && sl.step >= 1 && Valid(s[1..], rest)
    requires First(sl, s[0]) + i * sl.step < Stop(sl, s[0])
    ensures First(sl, s[0]) + i * sl.step >= 0
    ensures Takes(Padded([sl], |s|), s, [i] + rest, [First(sl, s[0]) + i * sl.step] + rest)
    decreases |s|
  {
    MulMono(0, i, sl.step);
    var n, row := |s| - 1, First(sl, s[0]) + i * sl.step;
    var ixs, x, y := Padded([sl], |s|), [i] + rest, [row] + rest;
    if n == 0 {
      assert ixs == [sl] && x == [i] && y == [row];
      assert Takes([], [], [], []);
      assert ixs[..0] == [] && s[..0] == [] && x[..0] == [] && y[..0] == [];
    } else {
      assert ixs[n] == FULL && ixs[..n] == Padded([sl], n);
      assert s[1..][..n - 1] == s[..n][1..] && x[..n] == [i] + rest[..n - 1] && y[..n] == [row] + rest[..n - 1];
      RowTaken(sl, s[..n], i, rest[..n - 1]);
      assert y[n] == rest[n - 1] == x[n] < s[1..][n - 1];
    }
  }

  /** Row `i` of a slice is row `first + i * step` of the tensor, as long as that lies below `stop`. */
  lemma SliceRows(t: Tensor, sl: Ix, i: nat, rest: Index)
    requires t.shape != [] && sl.Slice? && sl.step >= 1 && Valid(t.shape[1..], rest)
    requires First(sl, t.shape[0]) + i * sl.step < Stop(sl, t.shape[0])
    ensures First(sl, t.shape[0]) + i * sl.step >= 0 && GetItem(t, [sl]).Some?
    ensures var r := GetItem(t, [sl]).value;
            Valid(r.shape, [i] + rest) && Get(r, [i] + rest) == Get(t, [First(sl, t.shape[0]) + i * sl.step] + rest)
  {
    hide Takes, Get, GetItem;
    RowTaken(sl, t.shape, i, rest);
    SliceShape(t, sl);
    PadItem(t, [sl]);
    ItemExact(t, Padded([sl], |t.shape|), [i] + rest, [First(sl, t.shape[0]) + i * sl.step] + rest);
  }

  /** Slicing rows keeps the other axes. */
  lemma SliceShape(t: Tensor, sl: Ix)
    requires t.shape != [] && sl.Slice? && sl.step >= 1
    ensures GetItem(t, [sl]).Some? && GetItem(t, [sl]).value.shape == [SliceLen(sl, t.shape[0])] + t.shape[1..]
  {
    hide AllInAxis, GetItem, InAxis, OutShape, Resolve, ResolveAll, Select, SliceLen;
    var n := |t.shape|;
    var ixs := Padded([sl], n);
    SliceExact(sl, t.shape[0], 0);
    var ps := [Resolve(sl, t.shape[0]).value] + seq(n - 1, j requires 0 <= j < n - 1 => FullRange(t.shape[j + 1]));
    forall j | 0 <= j < n
      ensures Resolve(ixs[j], t.shape[j]) == Some(ps[j])
    {
      if j > 0 {
        ResolveFull(t.shape[j]);
      }
    }
    ResolveAllIs(ixs, t.shape, ps);
    PadItem(t, [sl]);
    GetItemWhole(t, ixs, ps);
    LengthIs(sl, t.shape[0]);
    RangesShape(ps, [SliceLen(sl, t.shape[0])] + t.shape[1..]);
  }

  lemma LengthIs(sl: Ix, d: nat)
    requires sl.Slice? && sl.step >= 1
    ensures Resolve(sl, d).value.len == SliceLen(sl, d)
  {
  }

  lemma {:induction false} RangesShape(ps: seq<Pick>, s: Shape)
    requires |ps| == |s| && forall j | 0 <= j < |s| :: ps[j].Range? && ps[j].len == s[j]
    ensures OutShape(ps) == s
    decreases |ps|
  {
    if ps != [] {
      var n := |ps| - 1;
      RangesShape(ps[..n], s[..n]);
      assert s == s[..n] + [s[n]];
    }
  }

  // ---------- joining ----------

  lemma {:induction false} LocateAt(ds: seq<nat>, w: nat, o: nat)
    requires w < |ds| && o < ds[w]
    ensures Total(ds[..w]) + o < Total(ds) && Locate(ds, Total(ds[..w]) + o) == (w, o)
    decreases |ds|
  {
    if w == 0 {
      assert ds[..0] == [];
    } else {
      assert ds[..w][0] == ds[0] && ds[..w][1..] == ds[1..][..w - 1];
      LocateAt(ds[1..], w - 1, o);
    }
  }

  /** Joined tensors stand one behind the other, in the order of the operands. */
  lemma CatPlaces(ts: seq<Tensor>, w: nat, o: nat, x: Index)
    requires Joinable(ts) && w < |ts| && o < ts[w].shape[0] && Valid(ts[0].shape[1..], x)
    ensures Get(Cat(ts), [Total(Heads(ts)[..w]) + o] + x) == Get(ts[w], [o] + x)
  {
    hide Cat, Get, Total, Locate;
    LocateAt(Heads(ts), w, o);
    CatAt(ts, Total(Heads(ts)[..w]) + o, x);
  }

  function UpTo(m: nat): Ix {
    Slice(None, Some(m), 1)
  }

  function From(m: nat): Ix {
    Slice(Some(m), None, 1)
  }

  lemma PartLengths(d: nat, m: nat)
    requires m <= d
    ensures SliceLen(UpTo(m), d) == m && SliceLen(From(m), d) == d - m
  {
  }

  /** Cutting a tensor in two and joining the parts gives it back. */
  lemma CutAndJoin(t: Tensor, m: nat)
    requires t.shape != [] && m <= t.shape[0]
    ensures GetItem(t, [UpTo(m)]).Some? && GetItem(t, [From(m)]).Some?
    ensures CatTo([GetItem(t, [UpTo(m)]).value, GetItem(t, [From(m)]).value]) == Some(t)
  {
    hide GetItem, Get, SliceLen;
    SliceShape(t, UpTo(m));
    SliceShape(t, From(m));
    PartLengths(t.shape[0], m);
    var a, b := GetItem(t, [UpTo(m)]).value, GetItem(t, [From(m)]).value;
    PartsJoin(t, m, a, b);
  }

  lemma PartsJoin(t: Tensor, m: nat, a: Tensor, b: Tensor)
    requires t.shape != [] && m <= t.shape[0]
    requires GetItem(t, [UpTo(m)]) == Some(a) && GetItem(t, [From(m)]) == Some(b)
    requires a.shape == [m] + t.shape[1..] && b.shape == [t.shape[0] - m] + t.shape[1..]
    ensures CatTo([a, b]) == Some(t)
  {
    hide GetItem, Get, Cat, Total;
    var c := Cat([a, b]);
    TwoHeads(a, b);
    assert c.shape == t.shape;
    forall x | Valid(t.shape, x)
      ensures Get(c, x) == Get(t, x)
    {
      assert x == [x[0]] + x[1..];
      PartElement(t, m, a, b, x[0], x[1..]);
    }
    TensorExt(c, t);
  }

  lemma TwoHeads(a: Tensor, b: Tensor)
    requires a.shape != [] && b.shape != []
    ensures Heads([a, b]) == [a.shape[0], b.shape[0]] && Total([a.shape[0], b.shape[0]]) == a.shape[0] + b.shape[0]
    ensures Total(Heads([a, b])[..0]) == 0 && Total(Heads([a, b])[..1]) == a.shape[0]
  {
    var ds := [a.shape[0], b.shape[0]];
    assert Heads([a, b]) == ds && ds[1..] == [ds[1]] && [ds[1]][1..] == [] && ds[..0] == [];
    assert ds[..1] == [ds[0]] && [ds[0]][1..] == [];
    assert Total([ds[1]]) == ds[1] + Total([]) && Total([ds[0]]) == ds[0] + Total([]);
  }

  lemma PartElement(t: Tensor, m: nat, a: Tensor, b: Tensor, q: nat, rest: Index)
    requires t.shape != [] && m <= t.shape[0] && q < t.shape[0] && Valid(t.shape[1..], rest)
    requires GetItem(t, [UpTo(m)]) == Some(a) && GetItem(t, [From(m)]) == Some(b)
    requires a.shape == [m] + t.shape[1..] && b.shape == [t.shape[0] - m] + t.shape[1..]
    ensures Joinable([a, b]) && Get(Cat([a, b]), [q] + rest) == Get(t, [q] + rest)
  {
    hide GetItem, Get, Cat, Total, Valid;
    TwoHeads(a, b);
    if q < m {
      SliceRows(t, UpTo(m), q, rest);
      CatPlaces([a, b], 0, q, rest);
    } else {
      SliceRows(t, From(m), q - m, rest);
      CatPlaces([a, b], 1, q - m, rest);
    }
  }

  // ---------- permuting ----------

  /** Axis `i` of the result is axis `ds[i]` of the operand, in its size and in every index. */
  lemma PermutePlaces(t: Tensor, ds: seq<nat>, x: Index, z: Index)
    requires IsPermutation(ds, |t.shape|) && Valid(t.shape, x) && |z| == |ds|
    requires forall i | 0 <= i < |ds| :: ds[i] < |x| && z[i] == x[ds[i]]
    ensures |Permute(t, ds).shape| == |ds| && forall i | 0 <= i < |ds| :: Permute(t, ds).shape[i] == t.shape[ds[i]]
    ensures Valid(Permute(t, ds).shape, z) && Get(Permute(t, ds), z) == Get(t, x)
  {
    hide Permute, Get, IsPermutation, Permuted, Unpermuted;
    LengthOfPermutation(ds, |t.shape|);
    forall i | 0 <= i < |ds|
      ensures Permuted(t.shape, ds)[i] == t.shape[ds[i]]
    {
      PermutedAt(t.shape, ds, i);
    }
    PlaceValid(t.shape, ds, x, z);
    PermuteAt(t, ds, z);
    forall a | 0 <= a < |x|
      ensures Unpermuted(z, ds)[a] == x[a]
    {
      AxisPresent(ds, |x|, a);
      UnpermutedAt(z, ds, Position(ds, a));
    }
    assert Unpermuted(z, ds) == x;
  }

  lemma PlaceValid(s: Shape, ds: seq<nat>, x: Index, z: Index)
    requires IsPermutation(ds, |s|) && Valid(s, x) && |z| == |ds| == |s|
    requires forall i | 0 <= i < |ds| :: ds[i] < |x| && z[i] == x[ds[i]]
    requires forall i | 0 <= i < |ds| :: Permuted(s, ds)[i] == s[ds[i]]
    ensures Valid(Permuted(s, ds), z)
  {
    hide IsPermutation, Permuted;
  }

  /** An axis number counted from the front or from the end. */
  predicate Names(d: int, axis: nat, n: nat) {
    axis < n && (d == axis || d == axis - n)
  }

  /** Transposing exchanges two axes, in the shape and in every index. */
  lemma TransposePlaces(t: Tensor, d0: int, d1: int, p: nat, q: nat, x: Index)
    requires Names(d0, p, |t.shape|) && Names(d1, q, |t.shape|) && Valid(t.shape, x)
    ensures TransposeTo(t, d0, d1).Some?
    ensures var r := TransposeTo(t, d0, d1).value;
            && r.shape == t.shape[p := t.shape[q]][q := t.shape[p]]
            && Get(r, x[p := x[q]][q := x[p]]) == Get(t, x)
  {
    hide Permute, Get, IsPermutation;
    var n := |t.shape|;
    var ds := Identity(n)[p := q][q := p];
    assert Swapped(n, d0, d1) == Some(ds);
    SwappedIsPermutation(n, d0, d1);
    PermutePlaces(t, ds, x, x[p := x[q]][q := x[p]]);
  }
}
