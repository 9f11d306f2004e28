/** `torch.stack` and `torch.cat` along the first axis, on plain tensors and on low-rank pairs. */
module LoraJoining {
  import opened Common
  import opened TensorAlgebra
  import opened LoraTensor

  // ---------- plain tensors ----------

  predicate SameShape(ts: seq<Tensor>) {
    ts != [] && forall i | 0 <= i < |ts| :: ts[i].shape == ts[0].shape
  }

  function Stack(ts: seq<Tensor>): (r: Tensor)
    requires SameShape(ts)
    ensures r.shape == [|ts|] + ts[0].shape
  {
    Build([|ts|] + ts[0].shape, x => if x != [] && x[0] < |ts| then Get(ts[x[0]], x[1..]) else 0.0)
  }

  function StackTo(ts: seq<Tensor>): Option<Tensor> {
    if SameShape(ts) then Some(Stack(ts)) else None
  }

  lemma ValidHead(d: nat, s: Shape, q: nat, x: Index)
    requires |x| == |s|
    ensures Valid([d] + s, [q] + x) <==> q < d && Valid(s, x)
  {
    if Valid([d] + s, [q] + x) {
      assert ([q] + x)[0] < ([d] + s)[0];
      forall i | 0 <= i < |s| ensures x[i] < s[i] {
        assert ([q] + x)[i + 1] < ([d] + s)[i + 1];
      }
    }
  }

  lemma StackAt(ts: seq<Tensor>, q: nat, x: Index)
    requires SameShape(ts) && q < |ts| && Valid(ts[0].shape, x)
    ensures Get(Stack(ts), [q] + x) == Get(ts[q], x)
  {
    var f := (x: Index) => if x != [] && x[0] < |ts| then Get(ts[x[0]], x[1..]) else 0.0;
    ValidHead(|ts|, ts[0].shape, q, x);
    BuildAt([|ts|] + ts[0].shape, f, [q] + x);
    assert ([q] + x)[1..] == x;
  }

  function Total(ds: seq<nat>): nat {
    if ds == [] then 0 else ds[0] + Total(ds[1..])
  }

  /** Which operand holds position `q` of the joined axis, and where in it. */
  function Locate(ds: seq<nat>, q: nat): (r: (nat, nat))
    requires q < Total(ds)
    ensures r.0 < |ds| && r.1 < ds[r.0]
  {
    if q < ds[0] then (0, q)
    else
      var (w, o) := Locate(ds[1..], q - ds[0]);
      (w + 1, o)
  }

  predicate Joinable(ts: seq<Tensor>) {
    && ts != [] && (forall i | 0 <= i < |ts| :: ts[i].shape != [])
    && (forall i | 0 <= i < |ts| :: ts[i].shape[1..] == ts[0].shape[1..])
  }

  function Heads(ts: seq<Tensor>): (r: seq<nat>)
    requires forall i | 0 <= i < |ts| :: ts[i].shape != []
    ensures |r| == |ts| && forall i | 0 <= i < |ts| :: r[i] == ts[i].shape[0]
  {
    seq(|ts|, i requires 0 <= i < |ts| => ts[i].shape[0])
  }

  function Cat(ts: seq<Tensor>): (r: Tensor)
    requires Joinable(ts)
    ensures r.shape == [Total(Heads(ts))] + ts[0].shape[1..]
  {
    var ds := Heads(ts);
    Build([Total(ds)] + ts[0].shape[1..], x =>
            if x != [] && x[0] < Total(ds) then
              var (w, o) := Locate(ds, x[0]);
              Get(ts[w], [o] + x[1..])
            else 0.0)
  }

  function CatTo(ts: seq<Tensor>): Option<Tensor> {
    if Joinable(ts) then Some(Cat(ts)) else None
  }

  lemma CatAt(ts: seq<Tensor>, q: nat, x: Index)
    requires Joinable(ts) && q < Total(Heads(ts)) && Valid(ts[0].shape[1..], x)
    ensures var (w, o) := Locate(Heads(ts), q); Get(Cat(ts), [q] + x) == Get(ts[w], [o] + x)
  {
    var ds := Heads(ts);
    var f := (x: Index) => if x != [] && x[0] < Total(ds) then
              var (w, o) := Locate(ds, x[0]);
              Get(ts[w], [o] + x[1..])
            else 0.0;
    ValidHead(Total(ds), ts[0].shape[1..], q, x);
    BuildAt([Total(ds)] + ts[0].shape[1..], f, [q] + x);
    assert ([q] + x)[1..] == x;
  }

  // ---------- lists of pairs ----------

  predicate AllWellFormed(ls: seq<Lora>) {
    forall i | 0 <= i < |ls| :: WellFormed(ls[i])
  }

  function As(ls: seq<Lora>): (r: seq<Tensor>)
    ensures |r| == |ls| && forall i | 0 <= i < |ls| :: r[i] == ls[i].a
  {
    seq(|ls|, i requires 0 <= i < |ls| => ls[i].a)
  }

  function Bs(ls: seq<Lora>): (r: seq<Tensor>)
    ensures |r| == |ls| && forall i | 0 <= i < |ls| :: r[i] == ls[i].b
  {
    seq(|ls|, i requires 0 <= i < |ls| => ls[i].b)
  }

  function Products(ls: seq<Lora>): (r: seq<Tensor>)
    requires AllWellFormed(ls)
    ensures |r| == |ls|
    ensures forall i | 0 <= i < |ls| ::
              Multipliable(ls[i].b, ls[i].a) && r[i] == Product(ls[i]) && r[i].shape == ShapeOf(ls[i])
  {
    assert forall i | 0 <= i < |ls| ::
        Multipliable(ls[i].b, ls[i].a) && MatMulShape(ls[i].b, ls[i].a) == ShapeOf(ls[i]) by {
      forall i | 0 <= i < |ls|
        ensures Multipliable(ls[i].b, ls[i].a) && MatMulShape(ls[i].b, ls[i].a) == ShapeOf(ls[i])
      {
        WellFormedMultipliable(ls[i]);
      }
    }
    seq(|ls|, i requires 0 <= i < |ls| => Product(ls[i]))
  }

  function LoraStack(ls: seq<Lora>): LoraResult {
    match (StackTo(As(ls)), StackTo(Bs(ls)))
    case (Some(a), Some(b)) => New(a, b)
    case _ => Err(BadShape)
  }

  function LoraCat(ls: seq<Lora>): LoraResult
    requires AllWellFormed(ls)
  {
    if ls == [] then Err(BadIndex)
    else if |ShapeOf(ls[0])| > 2 then
      match (CatTo(As(ls)), CatTo(Bs(ls)))
      case (Some(a), Some(b)) => New(a, b)
      case _ => Err(BadShape)
    else if forall i | 0 < i < |ls| :: ls[i].a == ls[0].a then
      match CatTo(Bs(ls)) case Some(b) => New(ls[0].a, b) case None => Err(BadShape)
    else Err(NotImplemented)
  }

  // ---------- one element of a joined pair ----------

  /** Row `q` of `m` along the first axis is row `o` of `l`. */
  ghost predicate RowIs(m: Lora, q: nat, l: Lora, o: nat, aq: nat, ao: nat) {
    && WellFormed(m) && WellFormed(l) && |m.a.shape| == |l.a.shape| > 2 && Rank(m) == Rank(l)
    && ShapeOf(m)[1..] == ShapeOf(l)[1..] && q < ShapeOf(m)[0] && o < ShapeOf(l)[0]
    && aq == (if m.a.shape[0] == 1 then 0 else q) && ao == (if l.a.shape[0] == 1 then 0 else o)
    && m.a.shape[1..] == l.a.shape[1..]
    && (forall y | Valid(l.b.shape[1..], y) :: Get(m.b, [q] + y) == Get(l.b, [o] + y))
    && (forall y | Valid(l.a.shape[1..], y) :: Get(m.a, [aq] + y) == Get(l.a, [ao] + y))
  }

  lemma RowIndexB(l: Lora, lead: Index, i: nat, j: nat, k: nat)
    requires WellFormed(l) && |l.a.shape| > 2 && Valid(ShapeOf(l)[1..], lead + [i, j]) && k < Rank(l)
    ensures Valid(l.b.shape[1..], lead + [i, k])
  {
    var x := lead + [i, j];
    forall d | 0 <= d < |lead| + 1 ensures (lead + [i, k])[d] < l.b.shape[1..][d] {
      assert x[d] < ShapeOf(l)[1..][d];
    }
  }

  lemma RowIndexA(l: Lora, lead: Index, i: nat, j: nat, k: nat)
    requires WellFormed(l) && |l.a.shape| > 2 && Valid(ShapeOf(l)[1..], lead + [i, j]) && k < Rank(l)
    ensures |Lead(l.a.shape)[1..]| == |lead| && Valid(l.a.shape[1..], Clamp(Lead(l.a.shape)[1..], lead) + [k, j])
  {
    var x, la := lead + [i, j], Lead(l.a.shape)[1..];
    var y := Clamp(la, lead) + [k, j];
    forall d | 0 <= d < |y| ensures y[d] < l.a.shape[1..][d] {
      if d < |lead| {
        assert x[d] < ShapeOf(l)[1..][d] == l.b.shape[d + 1];
        assert la[d] == l.a.shape[d + 1];
      } else if d == |lead| + 1 {
        assert x[d] < ShapeOf(l)[1..][d];
      }
    }
  }

  lemma ClampHead(d: nat, s: Shape, q: nat, x: Index)
    requires |s| == |x|
    ensures Clamp([d] + s, [q] + x) == [if d == 1 then 0 else q] + Clamp(s, x)
  {
  }

  lemma RowSummand(m: Lora, q: nat, l: Lora, o: nat, aq: nat, ao: nat, lead: Index, i: nat, j: nat, k: nat)
    requires RowIs(m, q, l, o, aq, ao) && Valid(ShapeOf(l)[1..], lead + [i, j]) && k < Rank(l)
    ensures |m.a.shape| == |lead| + 3 == |l.a.shape|
    ensures Summand(m, [q] + lead + [i, j], k) == Summand(l, [o] + lead + [i, j], k)
  {
    hide Get, Valid;
    RowIndexB(l, lead, i, j, k);
    RowIndexA(l, lead, i, j, k);
    var la := Lead(l.a.shape)[1..];
    assert Lead(m.a.shape) == [m.a.shape[0]] + la && Lead(l.a.shape) == [l.a.shape[0]] + la by {
      assert Lead(m.a.shape)[1..] == m.a.shape[1..][..|la|] && la == l.a.shape[1..][..|la|];
    }
    ClampHead(m.a.shape[0], la, q, lead);
    ClampHead(l.a.shape[0], la, o, lead);
    var y := [o] + lead + [i, j];
    assert [q] + lead + [i, k] == [q] + (lead + [i, k]) && y[..|y| - 1] + [k] == [o] + (lead + [i, k]);
    assert y[..|y| - 2] == [o] + lead;
    var c := Clamp(la, lead);
    assert [aq] + c + [k, j] == [aq] + (c + [k, j]) && [ao] + c + [k, j] == [ao] + (c + [k, j]);
    SameSummand(m, [q] + lead, i, j, l, y, k);
  }

  lemma RowValid(l: Lora, o: nat, z: Index)
    requires WellFormed(l) && |l.a.shape| > 2 && o < ShapeOf(l)[0] && Valid(ShapeOf(l)[1..], z)
    ensures Valid(ShapeOf(l), [o] + z) && |z| >= 2
  {
    var s := ShapeOf(l);
    assert s == [s[0]] + s[1..];
    ValidHead(s[0], s[1..], o, z);
  }

  lemma RowSummandAt(m: Lora, q: nat, l: Lora, o: nat, aq: nat, ao: nat, z: Index, k: nat)
    requires RowIs(m, q, l, o, aq, ao) && Valid(ShapeOf(l)[1..], z) && k < Rank(l)
    ensures |m.a.shape| == |[q] + z| >= 2 && |l.a.shape| == |[o] + z|
    ensures Summand(m, [q] + z, k) == Summand(l, [o] + z, k)
  {
    hide Summand;
    var n := |z|;
    var lead, i, j := z[..n - 2], z[n - 2], z[n - 1];
    assert z == lead + [i, j];
    assert [q] + z == [q] + lead + [i, j] && [o] + z == [o] + lead + [i, j];
    RowSummand(m, q, l, o, aq, ao, lead, i, j, k);
  }

  lemma RowElement(m: Lora, q: nat, l: Lora, o: nat, aq: nat, ao: nat, z: Index)
    requires RowIs(m, q, l, o, aq, ao) && Valid(ShapeOf(l)[1..], z)
    ensures Multipliable(l.b, l.a) && Multipliable(m.b, m.a)
    ensures Get(Product(m), [q] + z) == Get(Product(l), [o] + z)
  {
    RowValid(m, q, z);
    RowValid(l, o, z);
    forall k: nat | k < Rank(l)
      ensures |m.a.shape| == |[q] + z| && |l.a.shape| == |[o] + z| && Summand(m, [q] + z, k) == Summand(l, [o] + z, k)
    {
      RowSummandAt(m, q, l, o, aq, ao, z, k);
    }
    SameElement(m, [q] + z, l, [o] + z);
  }

  // ---------- cat of tensors with leading dimensions ----------

  /** A's first dimension is B's own, not broadcast. */
  predicate OwnHeads(ls: seq<Lora>)
    requires AllWellFormed(ls)
  {
    forall i | 0 <= i < |ls| :: ls[i].a.shape[0] == ls[i].b.shape[0]
  }

  /** Every row of the joined B meets its own operand's row of the joined A. */
  predicate RowsKept(ls: seq<Lora>)
    requires AllWellFormed(ls)
  {
    OwnHeads(ls) || (LongEnough(ls); Total(Heads(As(ls))) == 1)
  }

  lemma LongEnough(ls: seq<Lora>)
    requires AllWellFormed(ls)
    ensures forall i | 0 <= i < |ls| :: As(ls)[i].shape != [] && Bs(ls)[i].shape != []
  {
    forall i | 0 <= i < |ls|
      ensures As(ls)[i].shape != [] && Bs(ls)[i].shape != []
    {
      assert WellFormed(ls[i]);
    }
  }

  /** The pair stands for the joined products. */
  predicate JoinsProducts(ls: seq<Lora>, m: Lora)
    requires AllWellFormed(ls)
  {
    Multipliable(m.b, m.a) && CatTo(Products(ls)) == Some(Product(m))
  }

  /** What a successful `cat` along a leading axis has built. */
  predicate CatOk(ls: seq<Lora>, m: Lora) {
    && AllWellFormed(ls) && ls != [] && |ls[0].a.shape| > 2
    && Joinable(As(ls)) && Joinable(Bs(ls))
    && m.a == Cat(As(ls)) && m.b == Cat(Bs(ls))
  }

  lemma CatTails(ls: seq<Lora>, i: nat)
    requires AllWellFormed(ls) && ls != [] && Joinable(As(ls)) && Joinable(Bs(ls)) && i < |ls|
    ensures ls[i].a.shape[1..] == ls[0].a.shape[1..] && ls[i].b.shape[1..] == ls[0].b.shape[1..]
    ensures |ls[i].a.shape| == |ls[0].a.shape| && Rank(ls[i]) == Rank(ls[0])
    ensures |ls[0].a.shape| > 2 ==> ShapeOf(ls[i])[1..] == ShapeOf(ls[0])[1..]
  {
    assert As(ls)[i].shape[1..] == As(ls)[0].shape[1..] && Bs(ls)[i].shape[1..] == Bs(ls)[0].shape[1..];
    TailFacts(ls[i], ls[0]);
  }

  lemma TailFacts(l: Lora, h: Lora)
    requires WellFormed(l) && WellFormed(h) && l.a.shape[1..] == h.a.shape[1..] && l.b.shape[1..] == h.b.shape[1..]
    ensures |l.a.shape| == |h.a.shape| && Rank(l) == Rank(h)
    ensures |h.a.shape| > 2 ==> ShapeOf(l)[1..] == ShapeOf(h)[1..]
  {
    var n := |h.b.shape|;
    assert |l.a.shape[1..]| == |h.a.shape[1..]|;
    assert l.b.shape[n - 1] == l.b.shape[1..][n - 2] && h.b.shape[n - 1] == h.b.shape[1..][n - 2];
    assert l.a.shape[n - 1] == l.a.shape[1..][n - 2] && h.a.shape[n - 1] == h.a.shape[1..][n - 2];
    if n > 2 {
      assert ShapeOf(l)[1..] == l.b.shape[1..][..n - 2] + [l.a.shape[n - 1]];
      assert ShapeOf(h)[1..] == h.b.shape[1..][..n - 2] + [h.a.shape[n - 1]];
    }
  }

  lemma CatWellFormed(ls: seq<Lora>, m: Lora)
    requires CatOk(ls, m)
    ensures WellFormed(m) <==> || m.a.shape[0] == 1 || m.a.shape[0] == m.b.shape[0]
    ensures |m.a.shape| == |m.b.shape| == |ls[0].a.shape|
    ensures Rank(m) == Rank(ls[0]) && ShapeOf(m)[1..] == ShapeOf(ls[0])[1..] && ShapeOf(m)[0] == m.b.shape[0]
  {
    var h := ls[0];
    assert m.a.shape[1..] == h.a.shape[1..] && m.b.shape[1..] == h.b.shape[1..];
    HeadAndTail(m, h);
  }

  lemma HeadAndTail(m: Lora, h: Lora)
    requires WellFormed(h) && |h.a.shape| > 2 && m.a.shape != [] && m.b.shape != []
    requires m.a.shape[1..] == h.a.shape[1..] && m.b.shape[1..] == h.b.shape[1..]
    ensures |m.a.shape| == |m.b.shape| == |h.a.shape|
    ensures WellFormed(m) <==> m.a.shape[0] == 1 || m.a.shape[0] == m.b.shape[0]
    ensures Rank(m) == Rank(h) && ShapeOf(m)[1..] == ShapeOf(h)[1..] && ShapeOf(m)[0] == m.b.shape[0]
  {
    var n := |h.a.shape|;
    assert |m.a.shape[1..]| == n - 1 && |m.b.shape[1..]| == n - 1;
    forall i | 0 < i < n ensures m.a.shape[i] == h.a.shape[i] && m.b.shape[i] == h.b.shape[i] {
      assert m.a.shape[i] == m.a.shape[1..][i - 1] && m.b.shape[i] == m.b.shape[1..][i - 1];
    }
    assert ShapeOf(m)[1..] == m.b.shape[1..][..n - 2] + [m.a.shape[n - 1]];
    assert ShapeOf(h)[1..] == h.b.shape[1..][..n - 2] + [h.a.shape[n - 1]];
  }

  /** A single row in all: it belongs to the one operand that has rows. */
  lemma {:induction false} OnlyRow(ds: seq<nat>, w: nat)
    requires Total(ds) == 1 && w < |ds| && ds[w] >= 1
    ensures ds[w] == 1 && Locate(ds, 0) == (w, 0)
  {
    if w > 0 {
      TotalHolds(ds[1..], w - 1);
      OnlyRow(ds[1..], w - 1);
    }
  }

  lemma {:induction false} TotalHolds(ds: seq<nat>, w: nat)
    requires w < |ds|
    ensures Total(ds) >= ds[w]
  {
    if w > 0 {
      TotalHolds(ds[1..], w - 1);
    }
  }

  lemma ARowNumbers(ds: seq<nat>, es: seq<nat>, q: nat)
    requires |ds| == |es| && forall i | 0 <= i < |ds| :: ds[i] == 1 || ds[i] == es[i]
    requires (ds == es || Total(ds) == 1) && q < Total(es)
    ensures var (w, o) := Locate(es, q);
            var aq := if Total(ds) == 1 then 0 else q;
            aq < Total(ds) && Locate(ds, aq) == (w, if ds[w] == 1 then 0 else o)
  {
    var (w, o) := Locate(es, q);
    if ds != es {
      OnlyRow(ds, w);
    }
  }

  /** Which row of its operand's A a row of the joined product uses, and which row of the joined A. */
  lemma ARow(ls: seq<Lora>, m: Lora, q: nat) returns (aq: nat, ao: nat)
    requires CatOk(ls, m) && RowsKept(ls) && q < Total(Heads(Bs(ls)))
    ensures var (w, o) := Locate(Heads(Bs(ls)), q);
            && aq == (if m.a.shape[0] == 1 then 0 else q) && ao == (if ls[w].a.shape[0] == 1 then 0 else o)
            && aq < Total(Heads(As(ls))) && Locate(Heads(As(ls)), aq) == (w, ao)
  {
    hide Cat, Locate, Total;
    var ds, es := Heads(As(ls)), Heads(Bs(ls));
    forall i | 0 <= i < |ls|
      ensures ds[i] == 1 || ds[i] == es[i]
    {
      assert WellFormed(ls[i]);
      CatTails(ls, i);
    }
    if OwnHeads(ls) {
      assert ds == es;
    }
    ARowNumbers(ds, es, q);
    var (w, o) := Locate(es, q);
    aq, ao := if m.a.shape[0] == 1 then 0 else q, if ls[w].a.shape[0] == 1 then 0 else o;
  }

  lemma CatRow(ls: seq<Lora>, m: Lora, q: nat) returns (aq: nat, ao: nat)
    requires CatOk(ls, m) && RowsKept(ls) && WellFormed(m) && q < m.b.shape[0]
    ensures var (w, o) := Locate(Heads(Bs(ls)), q); RowIs(m, q, ls[w], o, aq, ao)
  {
    hide Cat;
    var (w, o) := Locate(Heads(Bs(ls)), q);
    var l := ls[w];
    aq, ao := ARow(ls, m, q);
    CatTails(ls, w);
    CatWellFormed(ls, m);
    forall y | Valid(l.b.shape[1..], y) ensures Get(m.b, [q] + y) == Get(l.b, [o] + y) {
      CatAt(Bs(ls), q, y);
    }
    forall y | Valid(l.a.shape[1..], y) ensures Get(m.a, [aq] + y) == Get(l.a, [ao] + y) {
      CatAt(As(ls), aq, y);
    }
  }

  lemma ProductsJoinable(ls: seq<Lora>)
    requires AllWellFormed(ls) && ls != [] && |ls[0].a.shape| > 2 && Joinable(As(ls)) && Joinable(Bs(ls))
    ensures Joinable(Products(ls)) && Heads(Products(ls)) == Heads(Bs(ls))
  {
    forall i | 0 <= i < |ls|
      ensures Products(ls)[i].shape[1..] == Products(ls)[0].shape[1..] && Products(ls)[i].shape[0] == ls[i].b.shape[0]
    {
      CatTails(ls, i);
      assert Products(ls)[i].shape == ShapeOf(ls[i]);
    }
  }

  lemma CatJoined(ls: seq<Lora>, m: Lora)
    requires CatOk(ls, m) && RowsKept(ls)
    ensures WellFormed(m) && ShapeOf(m) == [m.b.shape[0]] + ShapeOf(ls[0])[1..]
    ensures m.b.shape[0] == Total(Heads(Bs(ls)))
  {
    hide Cat;
    if OwnHeads(ls) {
      assert Heads(As(ls)) == Heads(Bs(ls));
    }
    CatWellFormed(ls, m);
    assert ShapeOf(m) == [ShapeOf(m)[0]] + ShapeOf(m)[1..];
  }

  lemma CatProducts(ls: seq<Lora>)
    requires AllWellFormed(ls) && ls != [] && |ls[0].a.shape| > 2 && Joinable(As(ls)) && Joinable(Bs(ls))
    ensures Joinable(Products(ls)) && Heads(Products(ls)) == Heads(Bs(ls))
    ensures Products(ls)[0].shape == ShapeOf(ls[0])
    ensures Cat(Products(ls)).shape == [Total(Heads(Bs(ls)))] + ShapeOf(ls[0])[1..]
  {
    ProductsJoinable(ls);
  }

  lemma CatShapes(ls: seq<Lora>, m: Lora)
    requires CatOk(ls, m) && RowsKept(ls)
    ensures WellFormed(m) && Multipliable(m.b, m.a) && Joinable(Products(ls))
    ensures Product(m).shape == Cat(Products(ls)).shape == [m.b.shape[0]] + ShapeOf(ls[0])[1..]
  {
    CatJoined(ls, m);
    WellFormedMultipliable(m);
    CatProducts(ls);
  }

  lemma CatKept(ls: seq<Lora>, m: Lora)
    requires CatOk(ls, m) && RowsKept(ls)
    ensures WellFormed(m) && JoinsProducts(ls, m)
  {
    CatShapes(ls, m);
    var p, t := Product(m), Cat(Products(ls));
    forall x | Valid(p.shape, x) ensures Get(p, x) == Get(t, x) {
      CatElementAt(ls, m, x);
    }
    TensorExt(p, t);
  }

  /**
   * Joining along a leading axis joins the products, if no operand broadcasts A along it or A has a single row
   * in all.
   */
  lemma CatCommutes(ls: seq<Lora>)
    requires AllWellFormed(ls) && LoraCat(ls).Ok? && |ShapeOf(ls[0])| > 2 && RowsKept(ls)
    ensures WellFormed(LoraCat(ls).value) && JoinsProducts(ls, LoraCat(ls).value)
  {
    CatChecks(ls);
    CatKept(ls, LoraCat(ls).value);
  }

  lemma CatChecks(ls: seq<Lora>)
    requires AllWellFormed(ls) && LoraCat(ls).Ok? && |ShapeOf(ls[0])| > 2
    ensures CatOk(ls, LoraCat(ls).value)
  {
  }

  lemma CatElementAt(ls: seq<Lora>, m: Lora, x: Index)
    requires CatOk(ls, m) && RowsKept(ls) && Valid([m.b.shape[0]] + ShapeOf(ls[0])[1..], x)
    ensures Multipliable(m.b, m.a) && Joinable(Products(ls))
    ensures Get(Product(m), x) == Get(Cat(Products(ls)), x)
  {
    hide Cat;
    var q, z := x[0], x[1..];
    assert x == [q] + z;
    ValidHead(m.b.shape[0], ShapeOf(ls[0])[1..], q, z);
    CatElement(ls, m, q, z);
  }

  lemma CatElement(ls: seq<Lora>, m: Lora, q: nat, z: Index)
    requires CatOk(ls, m) && RowsKept(ls) && q < m.b.shape[0] && Valid(ShapeOf(ls[0])[1..], z)
    ensures Multipliable(m.b, m.a) && Joinable(Products(ls))
    ensures Get(Product(m), [q] + z) == Get(Cat(Products(ls)), [q] + z)
  {
    var (w, o) := Locate(Heads(Bs(ls)), q);
    CatJoined(ls, m);
    var aq, ao := CatRow(ls, m, q);
    CatTails(ls, w);
    RowElement(m, q, ls[w], o, aq, ao, z);
    CatProducts(ls);
    CatAt(Products(ls), q, z);
  }

  // ---------- cat of matrices ----------

  predicate CatRowsOk(ls: seq<Lora>, m: Lora) {
    && AllWellFormed(ls) && ls != [] && |ls[0].a.shape| == 2
    && (forall i | 0 <= i < |ls| :: ls[i].a == ls[0].a)
    && Joinable(Bs(ls)) && m.a == ls[0].a && m.b == Cat(Bs(ls))
  }

  lemma CatRowsChecks(ls: seq<Lora>)
    requires AllWellFormed(ls) && LoraCat(ls).Ok? && |ShapeOf(ls[0])| == 2
    ensures CatRowsOk(ls, LoraCat(ls).value)
  {
  }

  lemma CatRowsShapes(ls: seq<Lora>, m: Lora, w: nat)
    requires CatRowsOk(ls, m) && w < |ls|
    ensures WellFormed(m) && |m.a.shape| == 2 && Rank(m) == Rank(ls[w])
    ensures ls[w].b.shape[1..] == ls[0].b.shape[1..] == [Rank(m)]
    ensures ShapeOf(m) == [m.b.shape[0], m.a.shape[1]] && ShapeOf(ls[w]) == [ls[w].b.shape[0], m.a.shape[1]]
  {
    hide Cat;
    assert Bs(ls)[w].shape[1..] == Bs(ls)[0].shape[1..];
    assert ls[w].b.shape == [ls[w].b.shape[0], Rank(ls[w])] && ls[0].b.shape == [ls[0].b.shape[0], Rank(ls[0])];
    assert m.b.shape == [Total(Heads(Bs(ls)))] + ls[0].b.shape[1..];
    assert ls[w].b.shape[1..][0] == ls[0].b.shape[1..][0];
  }

  lemma CatRowsFactor(ls: seq<Lora>, m: Lora, q: nat, k: nat)
    requires CatRowsOk(ls, m) && q < Total(Heads(Bs(ls))) && ls[0].b.shape[1..] == [Rank(ls[0])] && k < Rank(ls[0])
    ensures var (w, o) := Locate(Heads(Bs(ls)), q); Get(m.b, [q, k]) == Get(ls[w].b, [o, k])
  {
    hide Cat;
    var (w, o) := Locate(Heads(Bs(ls)), q);
    CatAt(Bs(ls), q, [k]);
    assert [q] + [k] == [q, k] && [o] + [k] == [o, k];
  }

  lemma MatrixSame(m: Lora, q: nat, l: Lora, o: nat, j: nat, k: nat)
    requires |m.a.shape| == 2 && m.a == l.a && Get(m.b, [q, k]) == Get(l.b, [o, k])
    ensures Summand(m, [q, j], k) == Summand(l, [o, j], k)
  {
    MatrixSummand(m, q, j, k);
    MatrixSummand(l, o, j, k);
  }

  lemma CatRowsElement(ls: seq<Lora>, m: Lora, q: nat, j: nat, w: nat, o: nat)
    requires CatRowsOk(ls, m) && q < Total(Heads(Bs(ls))) && j < m.a.shape[1] && (w, o) == Locate(Heads(Bs(ls)), q)
    ensures WellFormed(m) && Multipliable(m.b, m.a) && Multipliable(ls[w].b, ls[w].a)
    ensures Get(Product(m), [q, j]) == Get(Product(ls[w]), [o, j])
  {
    hide Cat, Product, WellFormed;
    var l := ls[w];
    CatRowsShapes(ls, m, w);
    CatRowsShapes(ls, m, 0);
    forall k: nat | k < Rank(m) ensures |m.a.shape| == 2 && Summand(m, [q, j], k) == Summand(l, [o, j], k) {
      CatRowsFactor(ls, m, q, k);
      MatrixSame(m, q, l, o, j, k);
    }
    SameElement(m, [q, j], l, [o, j]);
  }

  lemma MatrixProducts(ls: seq<Lora>)
    requires AllWellFormed(ls) && ls != [] && |ls[0].a.shape| == 2 && forall i | 0 <= i < |ls| :: ls[i].a == ls[0].a
    ensures Joinable(Products(ls)) && Heads(Products(ls)) == Heads(Bs(ls))
    ensures Products(ls)[0].shape[1..] == [ls[0].a.shape[1]]
  {
    forall i | 0 <= i < |ls|
      ensures Products(ls)[i].shape[1..] == [ls[0].a.shape[1]] && Products(ls)[i].shape[0] == ls[i].b.shape[0]
    {
      assert Products(ls)[i].shape == ShapeOf(ls[i]);
    }
  }

  lemma CatPair(ts: seq<Tensor>, q: nat, j: nat, w: nat, o: nat, d: nat)
    requires Joinable(ts) && q < Total(Heads(ts)) && (w, o) == Locate(Heads(ts), q)
    requires ts[0].shape[1..] == [d] && j < d
    ensures Get(Cat(ts), [q, j]) == Get(ts[w], [o, j])
  {
    CatAt(ts, q, [j]);
    assert [q] + [j] == [q, j] && [o] + [j] == [o, j];
  }

  lemma CatRowsElementAt(ls: seq<Lora>, m: Lora, ps: seq<Tensor>, q: nat, j: nat)
    requires CatRowsOk(ls, m) && ps == Products(ls) && q < Total(Heads(Bs(ls))) && j < m.a.shape[1]
    ensures Multipliable(m.b, m.a) && Joinable(ps)
    ensures Get(Product(m), [q, j]) == Get(Cat(ps), [q, j])
  {
    hide Product;
    var (w, o) := Locate(Heads(Bs(ls)), q);
    MatrixProducts(ls);
    CatRowsElement(ls, m, q, j, w, o);
    CatPair(ps, q, j, w, o, m.a.shape[1]);
  }

  lemma CatRowsJoined(ls: seq<Lora>, m: Lora, ps: seq<Tensor>)
    requires CatRowsOk(ls, m) && ps == Products(ls)
    ensures WellFormed(m) && Multipliable(m.b, m.a) && Joinable(ps)
    ensures Product(m).shape == Cat(ps).shape == [Total(Heads(Bs(ls))), m.a.shape[1]]
  {
    hide Cat;
    MatrixProducts(ls);
    CatRowsShapes(ls, m, 0);
    WellFormedMultipliable(m);
  }

  lemma CatRowsJoin(ls: seq<Lora>, m: Lora)
    requires CatRowsOk(ls, m)
    ensures WellFormed(m) && JoinsProducts(ls, m)
  {
    var ps := Products(ls);
    CatRowsJoined(ls, m, ps);
    var p, t := Product(m), Cat(ps);
    forall x | Valid(p.shape, x) ensures Get(p, x) == Get(t, x) {
      CatRowsAt(ls, m, ps, x);
    }
    TensorExt(p, t);
    assert CatTo(ps) == Some(t);
  }

  /** Joining matrices, which succeeds only when they share A, joins the rows of the products. */
  lemma CatRowsCommutes(ls: seq<Lora>)
    requires AllWellFormed(ls) && LoraCat(ls).Ok? && |ShapeOf(ls[0])| == 2
    ensures WellFormed(LoraCat(ls).value) && JoinsProducts(ls, LoraCat(ls).value)
  {
    CatRowsChecks(ls);
    CatRowsJoin(ls, LoraCat(ls).value);
  }

  lemma CatRowsAt(ls: seq<Lora>, m: Lora, ps: seq<Tensor>, x: Index)
    requires CatRowsOk(ls, m) && ps == Products(ls) && Valid([Total(Heads(Bs(ls))), m.a.shape[1]], x)
    ensures Multipliable(m.b, m.a) && Joinable(ps) && Get(Product(m), x) == Get(Cat(ps), x)
  {
    hide CatRowsOk;
    assert x == [x[0], x[1]];
    CatRowsElementAt(ls, m, ps, x[0], x[1]);
  }

  // ---------- stack ----------

  predicate StackOk(ls: seq<Lora>, m: Lora) {
    && AllWellFormed(ls) && SameShape(As(ls)) && SameShape(Bs(ls))
    && m.a == Stack(As(ls)) && m.b == Stack(Bs(ls))
  }

  lemma StackShapes(ls: seq<Lora>, m: Lora, q: nat)
    requires StackOk(ls, m) && q < |ls|
    ensures ls[q].a.shape == ls[0].a.shape && ls[q].b.shape == ls[0].b.shape
    ensures m.a.shape == [|ls|] + ls[0].a.shape && m.b.shape == [|ls|] + ls[0].b.shape
    ensures WellFormed(m) && Rank(m) == Rank(ls[0]) && ShapeOf(m) == [|ls|] + ShapeOf(ls[0])
  {
    hide Stack;
    assert As(ls)[q].shape == As(ls)[0].shape && Bs(ls)[q].shape == Bs(ls)[0].shape;
    var n := |ls[0].a.shape|;
    forall i | 0 <= i < n - 1 ensures m.a.shape[i] == 1 || m.a.shape[i] == m.b.shape[i] {
      if i > 0 {
        assert m.a.shape[i] == ls[0].a.shape[i - 1] && m.b.shape[i] == ls[0].b.shape[i - 1];
      }
    }
    assert ([|ls|] + ls[0].b.shape)[..n] == [|ls|] + ls[0].b.shape[..n - 1];
  }

  lemma StackIndexB(l: Lora, lead: Index, i: nat, j: nat, k: nat)
    requires WellFormed(l) && Valid(ShapeOf(l), lead + [i, j]) && k < Rank(l)
    ensures Valid(l.b.shape, lead + [i, k])
  {
    var x := lead + [i, j];
    forall d | 0 <= d < |x| - 1 ensures (lead + [i, k])[d] < l.b.shape[d] {
      assert x[d] < ShapeOf(l)[d];
    }
  }

  lemma StackIndexA(l: Lora, lead: Index, i: nat, j: nat, k: nat)
    requires WellFormed(l) && Valid(ShapeOf(l), lead + [i, j]) && k < Rank(l)
    ensures |Lead(l.a.shape)| == |lead| && Valid(l.a.shape, Clamp(Lead(l.a.shape), lead) + [k, j])
  {
    var x, c := lead + [i, j], Clamp(Lead(l.a.shape), lead);
    forall d | 0 <= d < |x| ensures (c + [k, j])[d] < l.a.shape[d] {
      assert x[d] < ShapeOf(l)[d];
    }
  }

  lemma StackFactors(ls: seq<Lora>, m: Lora, q: nat, lead: Index, i: nat, j: nat, k: nat)
    requires StackOk(ls, m) && q < |ls| && Valid(ShapeOf(ls[q]), lead + [i, j]) && k < Rank(ls[q])
    ensures |m.a.shape| == |lead| + 3 && |ls[q].a.shape| == |lead| + 2
    ensures Get(m.b, [q] + lead + [i, k]) == Get(ls[q].b, lead + [i, k])
    ensures Get(m.a, Clamp(Lead(m.a.shape), [q] + lead) + [k, j]) ==
            Get(ls[q].a, Clamp(Lead(ls[q].a.shape), lead) + [k, j])
  {
    hide Stack;
    var l := ls[q];
    StackShapes(ls, m, q);
    StackIndexB(l, lead, i, j, k);
    StackIndexA(l, lead, i, j, k);
    var la := Lead(l.a.shape);
    assert Lead(m.a.shape) == [|ls|] + la;
    ClampHead(|ls|, la, q, lead);
    StackAt(Bs(ls), q, lead + [i, k]);
    StackAt(As(ls), q, Clamp(la, lead) + [k, j]);
    assert [q] + lead + [i, k] == [q] + (lead + [i, k]);
    assert [q] + Clamp(la, lead) + [k, j] == [q] + (Clamp(la, lead) + [k, j]);
  }

  lemma EqualSummands(m: Lora, x: Index, l: Lora, y: Index, i: nat, j: nat, k: nat)
    requires |m.a.shape| == |x| + 2 && |l.a.shape| == |y| + 2
    requires Get(m.b, x + [i, k]) == Get(l.b, y + [i, k])
    requires Get(m.a, Clamp(Lead(m.a.shape), x) + [k, j]) == Get(l.a, Clamp(Lead(l.a.shape), y) + [k, j])
    ensures Summand(m, x + [i, j], k) == Summand(l, y + [i, j], k)
  {
    SummandTwo(m, x, i, j, k);
    SummandTwo(l, y, i, j, k);
  }

  lemma StackSummand(ls: seq<Lora>, m: Lora, q: nat, lead: Index, i: nat, j: nat, k: nat)
    requires StackOk(ls, m) && q < |ls| && Valid(ShapeOf(ls[q]), lead + [i, j]) && k < Rank(ls[q])
    ensures |m.a.shape| == |lead| + 3 && |ls[q].a.shape| == |lead| + 2
    ensures Summand(m, [q] + lead + [i, j], k) == Summand(ls[q], lead + [i, j], k)
  {
    StackFactors(ls, m, q, lead, i, j, k);
    EqualSummands(m, [q] + lead, ls[q], lead, i, j, k);
  }

  lemma StackSummandAt(ls: seq<Lora>, m: Lora, q: nat, z: Index, k: nat)
    requires StackOk(ls, m) && q < |ls| && Valid(ShapeOf(ls[q]), z) && k < Rank(ls[q])
    ensures |m.a.shape| == |[q] + z| && |ls[q].a.shape| == |z| && Summand(m, [q] + z, k) == Summand(ls[q], z, k)
  {
    hide Stack;
    var n := |z|;
    var lead, i, j := z[..n - 2], z[n - 2], z[n - 1];
    assert z == lead + [i, j] && [q] + z == [q] + lead + [i, j];
    StackSummand(ls, m, q, lead, i, j, k);
  }

  lemma StackElement(ls: seq<Lora>, m: Lora, q: nat, z: Index)
    requires StackOk(ls, m) && q < |ls| && Valid(ShapeOf(ls[q]), z)
    ensures Multipliable(m.b, m.a) && Multipliable(ls[q].b, ls[q].a)
    ensures Get(Product(m), [q] + z) == Get(Product(ls[q]), z)
  {
    StackWellFormed(ls, m, q, z);
    forall k: nat | k < Rank(m)
      ensures |m.a.shape| == |[q] + z| && |ls[q].a.shape| == |z| && Summand(m, [q] + z, k) == Summand(ls[q], z, k)
    {
      StackSummandAt(ls, m, q, z, k);
    }
    SameElement(m, [q] + z, ls[q], z);
  }

  lemma StackWellFormed(ls: seq<Lora>, m: Lora, q: nat, z: Index)
    requires StackOk(ls, m) && q < |ls| && Valid(ShapeOf(ls[q]), z)
    ensures WellFormed(m) && Rank(m) == Rank(ls[q]) && Valid(ShapeOf(m), [q] + z)
  {
    hide Stack;
    StackShapes(ls, m, q);
    assert ShapeOf(ls[q]) == ShapeOf(ls[0]);
    ValidHead(|ls|, ShapeOf(ls[q]), q, z);
  }

  lemma StackProducts(ls: seq<Lora>, m: Lora)
    requires StackOk(ls, m)
    ensures WellFormed(m) && Multipliable(m.b, m.a) && SameShape(Products(ls))
    ensures Products(ls)[0].shape == ShapeOf(ls[0])
    ensures Product(m).shape == Stack(Products(ls)).shape == [|ls|] + ShapeOf(ls[0])
  {
    hide Products, ShapeOf, Stack;
    StackShapes(ls, m, 0);
    WellFormedMultipliable(m);
    forall i | 0 <= i < |ls| ensures Products(ls)[i].shape == ShapeOf(ls[0]) {
      StackShapes(ls, m, i);
    }
  }

  lemma StackElementAt(ls: seq<Lora>, m: Lora, x: Index)
    requires StackOk(ls, m) && Valid([|ls|] + ShapeOf(ls[0]), x)
    ensures Multipliable(m.b, m.a) && SameShape(Products(ls))
    ensures Get(Product(m), x) == Get(Stack(Products(ls)), x)
  {
    hide As, At, Broadcast, Bs, Build, Get, Prod, Product, Stack;
    var q, z := x[0], x[1..];
    assert x == [q] + z;
    ValidHead(|ls|, ShapeOf(ls[0]), q, z);
    StackShapes(ls, m, q);
    assert ShapeOf(ls[q]) == ShapeOf(ls[0]);
    StackElement(ls, m, q, z);
    StackProducts(ls, m);
    StackAt(Products(ls), q, z);
  }

  lemma StackChecks(ls: seq<Lora>)
    requires AllWellFormed(ls) && LoraStack(ls).Ok?
    ensures StackOk(ls, LoraStack(ls).value)
  {
  }

  /** Stacking pairs of equal shapes stacks the products. */
  lemma StackCommutes(ls: seq<Lora>)
    requires AllWellFormed(ls) && LoraStack(ls).Ok?
    ensures var m := LoraStack(ls).value;
            WellFormed(m) && Multipliable(m.b, m.a) && StackTo(Products(ls)) == Some(Product(m))
  {
    StackChecks(ls);
    StackProduct(ls, LoraStack(ls).value);
  }

  lemma StackProduct(ls: seq<Lora>, m: Lora)
    requires StackOk(ls, m)
    ensures WellFormed(m) && Multipliable(m.b, m.a) && StackTo(Products(ls)) == Some(Product(m))
  {
    StackProducts(ls, m);
    var p, t := Product(m), Stack(Products(ls));
    forall x | Valid(p.shape, x) ensures Get(p, x) == Get(t, x) {
      StackElementAt(ls, m, x);
    }
    TensorExt(p, t);
  }

  // ---------- what is accepted ----------

  /** Pairs of equal rank whose A's agree before the rank. */
  predicate SameInner(ls: seq<Lora>)
    requires AllWellFormed(ls)
  {
    forall i | 0 <= i < |ls| :: Rank(ls[i]) == Rank(ls[0]) && Lead(ls[i].a.shape) == Lead(ls[0].a.shape)
  }

  /** Two pairs with products of one shape have factors of one shape if rank and leading dimensions agree. */
  lemma FactorShapes(l: Lora, h: Lora)
    requires WellFormed(l) && WellFormed(h)
    ensures l.a.shape == h.a.shape && l.b.shape == h.b.shape <==>
            ShapeOf(l) == ShapeOf(h) && Rank(l) == Rank(h) && Lead(l.a.shape) == Lead(h.a.shape)
  {
    ShapeParts(l);
    ShapeParts(h);
    if ShapeOf(l) == ShapeOf(h) && Rank(l) == Rank(h) && Lead(l.a.shape) == Lead(h.a.shape) {
      var n := |l.b.shape|;
      assert ShapeOf(l)[..n - 1] == l.b.shape[..n - 1] && ShapeOf(h)[..n - 1] == h.b.shape[..n - 1];
      assert ShapeOf(l)[n - 1] == l.a.shape[n - 1] && ShapeOf(h)[n - 1] == h.a.shape[n - 1];
    }
  }

  lemma ShapeParts(l: Lora)
    requires WellFormed(l)
    ensures |ShapeOf(l)| == |l.b.shape| == |l.a.shape| && l.b.shape == l.b.shape[..|l.b.shape| - 1] + [Rank(l)]
    ensures l.a.shape == Lead(l.a.shape) + [Rank(l), l.a.shape[|l.a.shape| - 1]]
  {
  }

  lemma StackTaken(ls: seq<Lora>)
    requires AllWellFormed(ls)
    ensures LoraStack(ls).Ok? <==> SameShape(As(ls)) && SameShape(Bs(ls))
  {
    if SameShape(As(ls)) && SameShape(Bs(ls)) {
      StackFits(ls);
    }
  }

  lemma StackFits(ls: seq<Lora>)
    requires AllWellFormed(ls) && SameShape(As(ls)) && SameShape(Bs(ls))
    ensures New(Stack(As(ls)), Stack(Bs(ls))).Ok?
  {
    hide Stack;
    StackShapes(ls, Lora(Stack(As(ls)), Stack(Bs(ls))), 0);
  }

  /** Stacking is accepted exactly where the products can be stacked and the pairs agree in what these do not show. */
  lemma StackAccepted(ls: seq<Lora>)
    requires AllWellFormed(ls)
    ensures LoraStack(ls).Ok? <==> StackTo(Products(ls)).Some? && SameInner(ls)
  {
    hide LoraStack, Stack, ShapeOf, Rank, Lead;
    StackTaken(ls);
    forall i | 0 <= i < |ls|
      ensures As(ls)[i].shape == As(ls)[0].shape && Bs(ls)[i].shape == Bs(ls)[0].shape <==>
              Products(ls)[i].shape == Products(ls)[0].shape && Rank(ls[i]) == Rank(ls[0]) &&
              Lead(ls[i].a.shape) == Lead(ls[0].a.shape)
    {
      FactorShapes(ls[i], ls[0]);
    }
  }

  /** The same behind the first axis. */
  predicate SameTail(l: Lora, h: Lora)
    requires WellFormed(l) && WellFormed(h)
  {
    && |l.a.shape| > 2 && |h.a.shape| > 2 && Rank(l) == Rank(h)
    && l.a.shape[1..|l.a.shape| - 2] == h.a.shape[1..|h.a.shape| - 2]
  }

  lemma FactorTails(l: Lora, h: Lora)
    requires WellFormed(l) && WellFormed(h) && |h.a.shape| > 2
    ensures l.a.shape[1..] == h.a.shape[1..] && l.b.shape[1..] == h.b.shape[1..] <==>
            ShapeOf(l)[1..] == ShapeOf(h)[1..] && SameTail(l, h)
  {
    if l.a.shape[1..] == h.a.shape[1..] && l.b.shape[1..] == h.b.shape[1..] {
      TailFacts(l, h);
      var n := |h.a.shape|;
      assert l.a.shape[1..n - 2] == l.a.shape[1..][..n - 3] && h.a.shape[1..n - 2] == h.a.shape[1..][..n - 3];
    } else if |l.a.shape| > 2 && ShapeOf(l)[1..] == ShapeOf(h)[1..] && Rank(l) == Rank(h) {
      assert |ShapeOf(l)[1..]| == |l.a.shape| - 1 && |ShapeOf(h)[1..]| == |h.a.shape| - 1;
      if l.a.shape[1..|l.a.shape| - 2] == h.a.shape[1..|h.a.shape| - 2] {
        TailsFrom(l, h);
      }
    }
  }

  lemma TailsFrom(l: Lora, h: Lora)
    requires WellFormed(l) && WellFormed(h) && |l.a.shape| == |h.a.shape| > 2
    requires ShapeOf(l)[1..] == ShapeOf(h)[1..] && Rank(l) == Rank(h)
    requires l.a.shape[1..|l.a.shape| - 2] == h.a.shape[1..|h.a.shape| - 2]
    ensures l.a.shape[1..] == h.a.shape[1..] && l.b.shape[1..] == h.b.shape[1..]
  {
    var n := |h.a.shape|;
    forall i | 0 < i < n
      ensures l.a.shape[i] == h.a.shape[i] && l.b.shape[i] == h.b.shape[i]
    {
      assert ShapeOf(l)[1..][i - 1] == ShapeOf(h)[1..][i - 1];
      if i < n - 2 {
        assert l.a.shape[1..n - 2][i - 1] == h.a.shape[1..n - 2][i - 1];
      }
    }
  }

  lemma CatTaken(ls: seq<Lora>)
    requires AllWellFormed(ls) && ls != [] && |ls[0].a.shape| > 2
    ensures LoraCat(ls).Ok? <==> Joinable(As(ls)) && Joinable(Bs(ls))
  {
    hide Cat;
    if Joinable(As(ls)) && Joinable(Bs(ls)) {
      CatWellFormed(ls, Lora(Cat(As(ls)), Cat(Bs(ls))));
    }
  }

  lemma TailsOf(ls: seq<Lora>, i: nat)
    requires AllWellFormed(ls) && i < |ls| && |ls[0].a.shape| > 2
    ensures As(ls)[i].shape != [] && Bs(ls)[i].shape != [] && Products(ls)[i].shape != []
    ensures As(ls)[0].shape != [] && Bs(ls)[0].shape != [] && Products(ls)[0].shape != []
    ensures As(ls)[i].shape[1..] == As(ls)[0].shape[1..] && Bs(ls)[i].shape[1..] == Bs(ls)[0].shape[1..] <==>
            Products(ls)[i].shape[1..] == Products(ls)[0].shape[1..] && SameTail(ls[i], ls[0])
  {
    hide SameTail, Product;
    FactorTails(ls[i], ls[0]);
  }

  /** Joining along a leading axis is accepted exactly where the products join and the pairs agree behind it. */
  lemma CatAccepted(ls: seq<Lora>)
    requires AllWellFormed(ls) && ls != [] && |ShapeOf(ls[0])| > 2
    ensures LoraCat(ls).Ok? <==> CatTo(Products(ls)).Some? && forall i | 0 <= i < |ls| :: SameTail(ls[i], ls[0])
  {
    hide LoraCat, Cat, SameTail, As, Bs, Products;
    CatTaken(ls);
    forall i | 0 <= i < |ls|
      ensures As(ls)[i].shape != [] && Bs(ls)[i].shape != [] && Products(ls)[i].shape != []
      ensures As(ls)[i].shape[1..] == As(ls)[0].shape[1..] && Bs(ls)[i].shape[1..] == Bs(ls)[0].shape[1..] <==>
              Products(ls)[i].shape[1..] == Products(ls)[0].shape[1..] && SameTail(ls[i], ls[0])
    {
      TailsOf(ls, i);
    }
  }

  /** Matrices are joined exactly when they share A; their products would join if they had as many columns. */
  lemma CatRowsAccepted(ls: seq<Lora>)
    requires AllWellFormed(ls) && ls != [] && |ShapeOf(ls[0])| == 2
    ensures LoraCat(ls).Ok? <==> forall i | 0 <= i < |ls| :: ls[i].a == ls[0].a
    ensures CatTo(Products(ls)).Some? <==>
            forall i | 0 <= i < |ls| :: |ls[i].a.shape| == 2 && ls[i].a.shape[1] == ls[0].a.shape[1]
  {
    hide Cat, Product;
    if forall i | 0 <= i < |ls| :: ls[i].a == ls[0].a {
      RowsFit(ls);
    }
    forall i | 0 <= i < |ls|
      ensures Products(ls)[i].shape != []
      ensures Products(ls)[i].shape[1..] == Products(ls)[0].shape[1..] <==>
              |ls[i].a.shape| == 2 && ls[i].a.shape[1] == ls[0].a.shape[1]
    {
      ColumnsOnly(ls[i], ls[0]);
    }
  }

  lemma ColumnsOnly(l: Lora, h: Lora)
    requires WellFormed(l) && WellFormed(h) && |h.a.shape| == 2
    ensures ShapeOf(l)[1..] == ShapeOf(h)[1..] <==> |l.a.shape| == 2 && l.a.shape[1] == h.a.shape[1]
  {
    assert ShapeOf(h)[1..] == [h.a.shape[1]];
    if |l.a.shape| == 2 {
      assert ShapeOf(l)[1..] == [l.a.shape[1]];
    } else {
      assert |ShapeOf(l)[1..]| > 1;
    }
  }

  lemma RowsFit(ls: seq<Lora>)
    requires AllWellFormed(ls) && ls != [] && |ls[0].a.shape| == 2 && forall i | 0 <= i < |ls| :: ls[i].a == ls[0].a
    ensures Joinable(Bs(ls)) && New(ls[0].a, Cat(Bs(ls))).Ok?
  {
    hide Cat, New;
    forall i | 0 <= i < |ls|
      ensures Bs(ls)[i].shape != [] && Bs(ls)[i].shape[1..] == [Rank(ls[0])]
    {
      RowsTail(ls[i], ls[0]);
    }
    assert Cat(Bs(ls)).shape == [Total(Heads(Bs(ls)))] + [Rank(ls[0])];
    MatrixNew(ls[0], Cat(Bs(ls)));
  }

  lemma RowsTail(l: Lora, h: Lora)
    requires WellFormed(l) && WellFormed(h) && |h.a.shape| == 2 && l.a == h.a
    ensures l.b.shape != [] && l.b.shape[1..] == [Rank(h)]
  {
  }

  lemma MatrixNew(l: Lora, b: Tensor)
    requires WellFormed(l) && |l.a.shape| == 2 && |b.shape| == 2 && b.shape[1] == Rank(l)
    ensures New(l.a, b).Ok?
  {
  }
}
