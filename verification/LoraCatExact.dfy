/** Exactly when joining low-rank pairs along a leading axis is right, whatever their entries are. */
module LoraCatExact {
  import opened Common
  import opened TensorAlgebra
  import opened LoraTensor
  import opened LoraJoining

  predicate SameShapes(ls: seq<Lora>, ls': seq<Lora>) {
    |ls| == |ls'| && forall i | 0 <= i < |ls| :: ls[i].a.shape == ls'[i].a.shape && ls[i].b.shape == ls'[i].b.shape
  }

  /** The pair that joining the factors gives. */
  function Joined(ls: seq<Lora>): Lora
    requires Joinable(As(ls)) && Joinable(Bs(ls))
  {
    Lora(Cat(As(ls)), Cat(Bs(ls)))
  }

  /** Operands that can be joined along a leading axis. */
  predicate Operands(ls: seq<Lora>) {
    AllWellFormed(ls) && ls != [] && |ls[0].a.shape| > 2 && Joinable(As(ls)) && Joinable(Bs(ls))
  }

  /** The products have elements to tell apart. */
  predicate HasEntries(ls: seq<Lora>)
    requires Operands(ls)
  {
    Rank(ls[0]) > 0 && forall i | 0 < i < |ShapeOf(ls[0])| :: ShapeOf(ls[0])[i] > 0
  }

  function ATotal(ls: seq<Lora>): nat
    requires Operands(ls)
  {
    Total(Heads(As(ls)))
  }

  function BTotal(ls: seq<Lora>): nat
    requires Operands(ls)
  {
    Total(Heads(Bs(ls)))
  }

  // ---------- shapes alone ----------

  lemma JoinedWellFormed(ls: seq<Lora>)
    requires Operands(ls)
    ensures WellFormed(Joined(ls)) <==> ATotal(ls) == 1 || ATotal(ls) == BTotal(ls)
    ensures Joined(ls).a.shape[1..] == ls[0].a.shape[1..] && |Joined(ls).a.shape| == |ls[0].a.shape|
    ensures ShapeOf(Joined(ls)) == [BTotal(ls)] + ShapeOf(ls[0])[1..]
  {
    hide Cat;
    CatWellFormed(ls, Joined(ls));
    var s := ShapeOf(Joined(ls));
    assert s == [s[0]] + s[1..];
  }

  /** An ill-formed result never stands for the joined products: already its shape is another. */
  lemma IllFormedFails(ls: seq<Lora>)
    requires Operands(ls) && JoinsProducts(ls, Joined(ls))
    ensures WellFormed(Joined(ls))
  {
    hide Cat, MatMul;
    JoinedWellFormed(ls);
    CatProducts(ls);
    ShapeExact(Joined(ls));
  }

  lemma SameOperands(ls: seq<Lora>, ls': seq<Lora>)
    requires Operands(ls) && SameShapes(ls, ls')
    ensures Operands(ls') && Heads(As(ls')) == Heads(As(ls)) && Heads(Bs(ls')) == Heads(Bs(ls))
    ensures RowsKept(ls') <==> RowsKept(ls)
  {
    hide As, Bs, Heads, Total;
    forall i | 0 <= i < |ls|
      ensures WellFormed(ls'[i]) && ls'[i].a.shape != [] && ls'[i].b.shape != []
      ensures As(ls')[i].shape[1..] == As(ls')[0].shape[1..] && Bs(ls')[i].shape[1..] == Bs(ls')[0].shape[1..]
    {
      assert WellFormed(ls[i]);
      assert As(ls)[i].shape[1..] == As(ls)[0].shape[1..] && Bs(ls)[i].shape[1..] == Bs(ls)[0].shape[1..];
    }
    assert OwnHeads(ls') <==> OwnHeads(ls);
  }

  // ---------- no entries ----------

  /** A sum over no rank is zero. */
  lemma NoRank(l: Lora, x: Index)
    requires WellFormed(l) && Rank(l) == 0 && Valid(ShapeOf(l), x)
    ensures Multipliable(l.b, l.a) && Get(Product(l), x) == 0.0
  {
    hide MatMul;
    ProductAt(l, x);
  }

  lemma JoinedElementZero(ls: seq<Lora>, x: Index)
    requires Operands(ls) && WellFormed(Joined(ls)) && Rank(ls[0]) == 0
    requires Valid([BTotal(ls)] + ShapeOf(ls[0])[1..], x)
    ensures Multipliable(Joined(ls).b, Joined(ls).a) && Joinable(Products(ls))
    ensures Get(Product(Joined(ls)), x) == 0.0 == Get(Cat(Products(ls)), x)
  {
    hide Cat, MatMul, Valid;
    ValidLength([BTotal(ls)] + ShapeOf(ls[0])[1..], x);
    var q, z := x[0], x[1..];
    assert x == [q] + z;
    ValidHead(BTotal(ls), ShapeOf(ls[0])[1..], q, z);
    CatWellFormed(ls, Joined(ls));
    JoinedWellFormed(ls);
    NoRank(Joined(ls), x);
    CatProducts(ls);
    CatAt(Products(ls), q, z);
    var (w, o) := Locate(Heads(Bs(ls)), q);
    CatTails(ls, w);
    RowValid(ls[w], o, z);
    NoRank(ls[w], [o] + z);
  }

  lemma ValidLength(s: Shape, x: Index)
    requires Valid(s, x)
    ensures |x| == |s|
  {
  }

  lemma NoIndex(s: Shape, x: Index, i: nat)
    requires i < |s| && s[i] == 0
    ensures !Valid(s, x)
  {
  }

  lemma EmptyJoins(ls: seq<Lora>)
    requires Operands(ls) && !HasEntries(ls) && WellFormed(Joined(ls))
    ensures JoinsProducts(ls, Joined(ls))
  {
    hide Cat, Valid;
    JoinedWellFormed(ls);
    WellFormedMultipliable(Joined(ls));
    CatProducts(ls);
    var p, t := Product(Joined(ls)), Cat(Products(ls));
    forall x | Valid(p.shape, x)
      ensures Get(p, x) == Get(t, x)
    {
      if Rank(ls[0]) == 0 {
        JoinedElementZero(ls, x);
      } else {
        var i :| 0 < i < |ShapeOf(ls[0])| && ShapeOf(ls[0])[i] == 0;
        assert p.shape[i] == 0;
        NoIndex(p.shape, x, i);
      }
    }
    TensorExt(p, t);
  }

  // ---------- rows that meet another operand's A ----------

  /** If the heads differ but add up, some row of B is joined to a row of another operand's A. */
  lemma {:induction false} Misaligned(ds: seq<nat>, es: seq<nat>) returns (q: nat)
    requires |ds| == |es| && ds != es && Total(ds) == Total(es)
    requires forall i | 0 <= i < |ds| :: ds[i] == 1 || ds[i] == es[i]
    ensures q < Total(es) && Locate(ds, q).0 != Locate(es, q).0
  {
    if ds[0] == es[0] {
      assert ds == [ds[0]] + ds[1..] && es == [es[0]] + es[1..];
      var q' := Misaligned(ds[1..], es[1..]);
      q := q' + ds[0];
    } else {
      q := if es[0] == 0 then 0 else 1;
    }
  }

  function Fill(s: Shape, c: real): Tensor {
    Storage(s, seq(Prod(s), _ => c))
  }

  lemma FillAt(s: Shape, c: real, x: Index)
    requires Valid(s, x)
    ensures Get(Fill(s, c), x) == c
  {
    RavelBelow(s, x);
  }

  /** Operand `i` with every entry of B one and every entry of A its own number. */
  function Marked(ls: seq<Lora>): (r: seq<Lora>)
    ensures SameShapes(ls, r)
  {
    seq(|ls|, i requires 0 <= i < |ls| => Mark(ls[i], i))
  }

  function Mark(l: Lora, i: nat): Lora {
    Lora(Fill(l.a.shape, i as real), Fill(l.b.shape, 1.0))
  }

  /** One row of the `i`th marked operand. */
  function RowOf(l: Lora, i: nat): (r: Lora)
    requires |l.a.shape| == |l.b.shape| >= 2
  {
    Lora(Fill([1] + l.a.shape[1..], i as real), Fill([1] + l.b.shape[1..], 1.0))
  }

  lemma RowOfShapes(l: Lora, i: nat)
    requires WellFormed(l) && |l.a.shape| > 2
    ensures var r := RowOf(l, i);
            && WellFormed(r) && Rank(r) == Rank(l) && |r.a.shape| == |l.a.shape|
            && ShapeOf(r) == [1] + ShapeOf(l)[1..] && r.a.shape[1..] == l.a.shape[1..]
            && r.b.shape[1..] == l.b.shape[1..] && r.a.shape == [1] + l.a.shape[1..] && |r.b.shape| == |l.b.shape|
  {
    hide Fill;
    var r, n := RowOf(l, i), |l.a.shape|;
    FillShape([1] + l.a.shape[1..], i as real);
    FillShape([1] + l.b.shape[1..], 1.0);
    forall j | 0 < j < n
      ensures r.a.shape[j] == l.a.shape[j] && r.b.shape[j] == l.b.shape[j]
    {
    }
    assert ShapeOf(r) == [1] + ShapeOf(l)[1..];
  }

  lemma FillShape(s: Shape, c: real)
    ensures Fill(s, c).shape == s
  {
  }

  /** The element of a product of rank `r` whose rows of A all hold `u` and whose rows of B hold one. */
  function Weight(r: nat, u: nat): real {
    r as real * u as real
  }

  /** Rows of the marked operands, wherever they stand, have the product of their mark. */
  lemma MarkedRow(m: Lora, q: nat, aq: nat, l: Lora, i: nat, z: Index)
    requires WellFormed(l) && |l.a.shape| > 2 && WellFormed(m) && |m.a.shape| == |l.a.shape| && Rank(m) == Rank(l)
    requires ShapeOf(m)[1..] == ShapeOf(l)[1..] && m.a.shape[1..] == l.a.shape[1..] && q < ShapeOf(m)[0]
    requires aq == if m.a.shape[0] == 1 then 0 else q
    requires forall y | Valid(l.b.shape[1..], y) :: Get(m.b, [q] + y) == 1.0
    requires forall y | Valid(l.a.shape[1..], y) :: Get(m.a, [aq] + y) == i as real
    requires Valid(ShapeOf(l)[1..], z)
    ensures Multipliable(m.b, m.a) && Get(Product(m), [q] + z) == Weight(Rank(l), i)
  {
    hide Fill, MatMul, Valid, Get;
    var r := RowOf(l, i);
    RowOfShapes(l, i);
    forall y | Valid(r.b.shape[1..], y)
      ensures Get(m.b, [q] + y) == Get(r.b, [0] + y)
    {
      RowFill([1] + l.b.shape[1..], 1.0, l.b.shape[1..], y);
    }
    forall y | Valid(r.a.shape[1..], y)
      ensures Get(m.a, [aq] + y) == Get(r.a, [0] + y)
    {
      RowFill([1] + l.a.shape[1..], i as real, l.a.shape[1..], y);
    }
    assert RowIs(m, q, r, 0, aq, 0);
    RowElement(m, q, r, 0, aq, 0, z);
    RowOfElement(l, i, z);
  }

  lemma RowFill(s: Shape, c: real, tail: Shape, y: Index)
    requires s == [1] + tail && Valid(tail, y)
    ensures Get(Fill(s, c), [0] + y) == c
  {
    hide Fill;
    ValidHead(1, tail, 0, y);
    FillAt(s, c, [0] + y);
  }

  lemma {:induction false} SumConstant(n: nat, f: nat -> real, c: real)
    requires forall k: nat | k < n :: f(k) == c
    ensures Sum(n, f) == n as real * c
  {
    if n > 0 {
      SumConstant(n - 1, f, c);
    }
  }

  lemma RowOfElement(l: Lora, i: nat, z: Index)
    requires WellFormed(l) && |l.a.shape| > 2 && Valid(ShapeOf(l)[1..], z)
    ensures Multipliable(RowOf(l, i).b, RowOf(l, i).a)
    ensures Get(Product(RowOf(l, i)), [0] + z) == Weight(Rank(l), i)
  {
    hide Fill, MatMul, Valid, Get, RowOf, Summand;
    var r := RowOf(l, i);
    RowOfShapes(l, i);
    ValidLength(ShapeOf(l)[1..], z);
    ValidHead(1, ShapeOf(l)[1..], 0, z);
    ProductAt(r, [0] + z);
    var f := (k: nat) => Summand(r, [0] + z, k);
    forall k: nat | k < Rank(r)
      ensures f(k) == i as real
    {
      RowOfSummand(l, i, z, k);
    }
    SumConstant(Rank(r), f, i as real);
  }

  lemma RowOfSummand(l: Lora, i: nat, z: Index, k: nat)
    requires WellFormed(l) && |l.a.shape| > 2 && Valid(ShapeOf(l)[1..], z) && k < Rank(l)
    ensures |RowOf(l, i).a.shape| == |z| + 1 >= 2 && Summand(RowOf(l, i), [0] + z, k) == i as real
  {
    hide Fill, MatMul, Get;
    var r, n := RowOf(l, i), |z|;
    RowOfShapes(l, i);
    ValidLength(ShapeOf(l)[1..], z);
    var lead, p, j := z[..n - 2], z[n - 2], z[n - 1];
    assert z == lead + [p, j];
    RowIndexB(l, lead, p, j, k);
    RowIndexA(l, lead, p, j, k);
    RowFill([1] + l.b.shape[1..], 1.0, l.b.shape[1..], lead + [p, k]);
    var la := Lead(l.a.shape)[1..];
    var c := Clamp(la, lead) + [k, j];
    RowFill([1] + l.a.shape[1..], i as real, l.a.shape[1..], c);
    RowOfFactors(l, r, lead, p, j, k);
  }

  lemma RowOfFactors(l: Lora, r: Lora, lead: Index, p: nat, j: nat, k: nat)
    requires |l.a.shape| == |l.b.shape| > 2 && r.a.shape == [1] + l.a.shape[1..] && |r.b.shape| == |r.a.shape|
    requires |lead| + 3 == |l.a.shape|
    ensures Summand(r, [0] + (lead + [p, j]), k) ==
            Get(r.b, [0] + (lead + [p, k])) * Get(r.a, [0] + (Clamp(Lead(l.a.shape)[1..], lead) + [k, j]))
  {
    hide Get;
    var la := Lead(l.a.shape)[1..];
    assert Lead(r.a.shape) == [1] + la;
    ClampHead(1, la, 0, lead);
    assert [0] + (lead + [p, j]) == ([0] + lead) + [p, j] && [0] + (lead + [p, k]) == ([0] + lead) + [p, k];
    assert ([0] + Clamp(la, lead)) + [k, j] == [0] + (Clamp(la, lead) + [k, j]);
    SummandTwo(r, [0] + lead, p, j, k);
  }

  lemma MarkedEntry(s: Shape, c: real, o: nat, y: Index)
    requires s != [] && o < s[0] && Valid(s[1..], y)
    ensures Get(Fill(s, c), [o] + y) == c
  {
    hide Fill;
    assert s == [s[0]] + s[1..];
    ValidHead(s[0], s[1..], o, y);
    FillAt(s, c, [o] + y);
  }

  /** The marked operands are joined as the operands they were made from. */
  predicate MarkedToo(ls: seq<Lora>) {
    && Operands(ls) && Operands(Marked(ls))
    && Heads(As(Marked(ls))) == Heads(As(ls)) && Heads(Bs(Marked(ls))) == Heads(Bs(ls))
  }

  lemma JoinedMarkB(ls: seq<Lora>, q: nat, y: Index)
    requires MarkedToo(ls) && q < BTotal(ls) && Valid(ls[0].b.shape[1..], y)
    ensures Get(Joined(Marked(ls)).b, [q] + y) == 1.0
  {
    hide Fill, Cat, Valid, Total, Locate, Get, Marked;
    var (w, o) := Locate(Heads(Bs(ls)), q);
    MarkShape(ls, 0);
    CatAt(Bs(Marked(ls)), q, y);
    MarkTail(ls, w);
    MarkedEntry(ls[w].b.shape, 1.0, o, y);
  }

  lemma JoinedMarkA(ls: seq<Lora>, q: nat, y: Index)
    requires MarkedToo(ls) && q < ATotal(ls) && Valid(ls[0].a.shape[1..], y)
    ensures Get(Joined(Marked(ls)).a, [q] + y) == Locate(Heads(As(ls)), q).0 as real
  {
    hide Fill, Cat, Valid, Total, Locate, Get, Marked;
    var (u, o) := Locate(Heads(As(ls)), q);
    MarkShape(ls, 0);
    CatAt(As(Marked(ls)), q, y);
    MarkTail(ls, u);
    MarkedEntry(ls[u].a.shape, u as real, o, y);
  }

  lemma JoinedMarkShape(ls: seq<Lora>)
    requires MarkedToo(ls)
    ensures var l, m := ls[0], Joined(Marked(ls));
            && |m.a.shape| == |m.b.shape| == |l.a.shape| && Rank(m) == Rank(l) && m.a.shape[1..] == l.a.shape[1..]
            && ShapeOf(m)[1..] == ShapeOf(l)[1..] && m.a.shape[0] == ATotal(ls) && ShapeOf(m)[0] == BTotal(ls)
  {
    hide Fill, Cat, Total, Locate, Marked, Valid;
    MarkShape(ls, 0);
    CatWellFormed(Marked(ls), Joined(Marked(ls)));
  }

  /** Row `q` of the joined marked operands takes its mark from the operand whose row of A it meets. */
  lemma JoinedMark(ls: seq<Lora>, q: nat, z: Index)
    requires MarkedToo(ls) && WellFormed(Joined(Marked(ls)))
    requires q < ATotal(ls) == BTotal(ls) && ATotal(ls) != 1 && Valid(ShapeOf(ls[0])[1..], z)
    ensures var m := Joined(Marked(ls));
            Multipliable(m.b, m.a) &&
            Get(Product(m), [q] + z) == Weight(Rank(ls[0]), Locate(Heads(As(ls)), q).0)
  {
    hide Get, Valid, Locate, Total, Marked, Product, Multipliable, WellFormed, ShapeOf, AllWellFormed, As, Bs, Heads;
    hide Joined, Rank;
    JoinedMarkShape(ls);
    JoinedMarkRows(ls, q);
    MarkedToFirst(ls);
    MarkedRow(Joined(Marked(ls)), q, q, ls[0], Locate(Heads(As(ls)), q).0, z);
  }

  lemma MarkedToFirst(ls: seq<Lora>)
    requires MarkedToo(ls)
    ensures ls != [] && WellFormed(ls[0]) && |ls[0].a.shape| > 2 && |ls[0].b.shape| > 2
  {
  }

  lemma JoinedMarkRows(ls: seq<Lora>, q: nat)
    requires MarkedToo(ls) && q < ATotal(ls) == BTotal(ls)
    ensures forall y | Valid(ls[0].b.shape[1..], y) :: Get(Joined(Marked(ls)).b, [q] + y) == 1.0
    ensures forall y | Valid(ls[0].a.shape[1..], y) ::
              Get(Joined(Marked(ls)).a, [q] + y) == Locate(Heads(As(ls)), q).0 as real
  {
    hide Fill, Joined, Valid, Total, Locate, Get, Marked;
    forall y | Valid(ls[0].b.shape[1..], y)
      ensures Get(Joined(Marked(ls)).b, [q] + y) == 1.0
    {
      JoinedMarkB(ls, q, y);
    }
    forall y | Valid(ls[0].a.shape[1..], y)
      ensures Get(Joined(Marked(ls)).a, [q] + y) == Locate(Heads(As(ls)), q).0 as real
    {
      JoinedMarkA(ls, q, y);
    }
  }

  lemma MarkShape(ls: seq<Lora>, i: nat)
    requires i < |ls|
    ensures Marked(ls)[i].a.shape == ls[i].a.shape && Marked(ls)[i].b.shape == ls[i].b.shape
  {
  }

  lemma MarkTail(ls: seq<Lora>, i: nat)
    requires Operands(ls) && i < |ls|
    ensures Marked(ls)[i] == Mark(ls[i], i)
    ensures ls[i].a.shape[1..] == ls[0].a.shape[1..] && ls[i].b.shape[1..] == ls[0].b.shape[1..]
    ensures ls[i].a.shape != [] && ls[i].b.shape != []
    ensures Heads(As(ls))[i] == ls[i].a.shape[0] && Heads(Bs(ls))[i] == ls[i].b.shape[0]
  {
    hide Fill;
    assert WellFormed(ls[i]);
    CatTails(ls, i);
  }

  /** A row of a marked operand by itself. */
  lemma OwnMark(ls: seq<Lora>, w: nat, o: nat, z: Index)
    requires Operands(ls) && Operands(Marked(ls)) && w < |ls| && o < ls[w].b.shape[0]
    requires Valid(ShapeOf(ls[0])[1..], z)
    ensures var l := Marked(ls)[w];
            Multipliable(l.b, l.a) && Get(Product(l), [o] + z) == Weight(Rank(ls[0]), w)
  {
    hide Fill, MatMul, Cat, Valid, Total, Locate, Get;
    var l, m := ls[0], Marked(ls)[w];
    MarkShape(ls, w);
    MarkTail(ls, w);
    CatTails(ls, w);
    assert WellFormed(m) && WellFormed(ls[w]);
    var ao := if m.a.shape[0] == 1 then 0 else o;
    forall y | Valid(l.b.shape[1..], y)
      ensures Get(m.b, [o] + y) == 1.0
    {
      MarkedEntry(ls[w].b.shape, 1.0, o, y);
    }
    forall y | Valid(l.a.shape[1..], y)
      ensures Get(m.a, [ao] + y) == w as real
    {
      MarkedEntry(ls[w].a.shape, w as real, ao, y);
    }
    MarkedRow(m, o, ao, l, w, z);
  }

  /** A pair that stands for the joined products has their rows. */
  lemma JoinedRow(ls: seq<Lora>, m: Lora, q: nat, z: Index)
    requires Operands(ls) && JoinsProducts(ls, m) && q < BTotal(ls) && Valid(ShapeOf(ls[0])[1..], z)
    ensures var (w, o) := Locate(Heads(Bs(ls)), q);
            Multipliable(m.b, m.a) && Multipliable(ls[w].b, ls[w].a) &&
            Get(Product(m), [q] + z) == Get(Product(ls[w]), [o] + z)
  {
    hide MatMul, Cat, Get, Valid, Locate, Total;
    CatProducts(ls);
    CatAt(Products(ls), q, z);
  }

  /** The marks show, in a row of the product, whose row of A it met and whose row of B it is. */
  lemma BothMarks(ls: seq<Lora>, q: nat, w: nat, o: nat, z: Index)
    requires MarkedToo(ls) && WellFormed(Joined(Marked(ls)))
    requires q < ATotal(ls) == BTotal(ls) && ATotal(ls) != 1 && Valid(ShapeOf(ls[0])[1..], z)
    requires (w, o) == Locate(Heads(Bs(ls)), q)
    ensures var m, l := Joined(Marked(ls)), Marked(ls)[w];
            && Multipliable(m.b, m.a) && Multipliable(l.b, l.a)
            && Get(Product(m), [q] + z) == Weight(Rank(ls[0]), Locate(Heads(As(ls)), q).0)
            && Get(Product(l), [o] + z) == Weight(Rank(ls[0]), w)
  {
    hide Product, Joined, Mark, Marked, Locate, Total, Get, Valid, ShapeOf, Multipliable, WellFormed;
    JoinedMark(ls, q, z);
    MarkTail(ls, w);
    OwnMark(ls, w, o, z);
  }

  /** If the marked operands joined their products, a row would meet its own operand's A. */
  lemma MarksAgree(ls: seq<Lora>, q: nat, z: Index)
    requires MarkedToo(ls) && WellFormed(Joined(Marked(ls))) && Rank(ls[0]) > 0
    requires q < ATotal(ls) == BTotal(ls) && ATotal(ls) != 1 && Valid(ShapeOf(ls[0])[1..], z)
    requires JoinsProducts(Marked(ls), Joined(Marked(ls)))
    ensures Locate(Heads(As(ls)), q).0 == Locate(Heads(Bs(ls)), q).0
  {
    hide Get, Valid, Locate, Total, Marked, Product, Multipliable, ShapeOf, AllWellFormed, As, Bs, Heads, JoinsProducts,
         WellFormed, Rank, Weight, Joined;
    MarkedRest(ls);
    var (w, o) := Locate(Heads(Bs(ls)), q);
    JoinedRow(Marked(ls), Joined(Marked(ls)), q, z);
    BothMarks(ls, q, w, o, z);
    SameMark(Rank(ls[0]), Locate(Heads(As(ls)), q).0, w);
  }

  lemma MarkedRest(ls: seq<Lora>)
    requires MarkedToo(ls)
    ensures Operands(ls) && Operands(Marked(ls)) && ls != [] && |ls[0].b.shape| >= 1
    ensures Heads(Bs(Marked(ls))) == Heads(Bs(ls)) && BTotal(Marked(ls)) == BTotal(ls)
    ensures ShapeOf(Marked(ls)[0]) == ShapeOf(ls[0])
  {
    hide Fill, Total, Valid;
    MarkShape(ls, 0);
  }

  lemma ZeroIndexValid(ls: seq<Lora>) returns (z: Index)
    requires Operands(ls) && HasEntries(ls)
    ensures Valid(ShapeOf(ls[0])[1..], z)
  {
    z := seq(|ShapeOf(ls[0])| - 1, _ => 0);
  }

  lemma MarkedFails(ls: seq<Lora>)
    requires Operands(ls) && HasEntries(ls) && ATotal(ls) == BTotal(ls) != 1 && !OwnHeads(ls)
    ensures Operands(Marked(ls)) && !JoinsProducts(Marked(ls), Joined(Marked(ls)))
  {
    hide Fill, MatMul, Cat, Get, Marked, JoinsProducts, Valid;
    SameOperands(ls, Marked(ls));
    JoinedWellFormed(Marked(ls));
    HeadsDiffer(ls);
    var q := Misaligned(Heads(As(ls)), Heads(Bs(ls)));
    var z := ZeroIndexValid(ls);
    if JoinsProducts(Marked(ls), Joined(Marked(ls))) {
      MarksAgree(ls, q, z);
    }
  }

  lemma SameMark(r: nat, u: nat, w: nat)
    requires r > 0 && Weight(r, u) == Weight(r, w)
    ensures u == w
  {
  }

  lemma HeadsDiffer(ls: seq<Lora>)
    requires Operands(ls) && !OwnHeads(ls)
    ensures Heads(As(ls)) != Heads(Bs(ls))
    ensures forall i | 0 <= i < |ls| :: Heads(As(ls))[i] == 1 || Heads(As(ls))[i] == Heads(Bs(ls))[i]
  {
    hide Cat;
    forall i | 0 <= i < |ls|
      ensures Heads(As(ls))[i] == 1 || Heads(As(ls))[i] == Heads(Bs(ls))[i]
    {
      assert WellFormed(ls[i]);
      CatTails(ls, i);
    }
    var i :| 0 <= i < |ls| && ls[i].a.shape[0] != ls[i].b.shape[0];
    assert Heads(As(ls))[i] != Heads(Bs(ls))[i];
  }

  // ---------- the condition ----------

  /** Joining operands of these shapes joins the products, whatever the entries are. */
  ghost predicate AlwaysJoins(ls: seq<Lora>) {
    forall ls' | SameShapes(ls, ls') && Operands(ls') :: JoinsProducts(ls', Joined(ls'))
  }

  /**
   * Joining along a leading axis is right for all entries exactly when every row of B keeps its own row of A, or
   * there are no entries to tell apart and the heads of A are one or those of B in all.
   */
  lemma CatExact(ls: seq<Lora>)
    requires Operands(ls)
    ensures AlwaysJoins(ls) <==> RowsKept(ls) || (!HasEntries(ls) && ATotal(ls) == BTotal(ls))
  {
    hide Cat, MatMul, Marked, JoinsProducts, RowsKept, HasEntries;
    if RowsKept(ls) || (!HasEntries(ls) && ATotal(ls) == BTotal(ls)) {
      forall ls' | SameShapes(ls, ls') && Operands(ls')
        ensures JoinsProducts(ls', Joined(ls'))
      {
        SameOperands(ls, ls');
        if RowsKept(ls) {
          CatKept(ls', Joined(ls'));
        } else {
          SameEntries(ls, ls');
          JoinedWellFormed(ls');
          EmptyJoins(ls');
        }
      }
    } else {
      NotKept(ls);
      SameOperands(ls, ls);
      if ATotal(ls) == BTotal(ls) {
        MarkedFails(ls);
      } else {
        JoinedWellFormed(ls);
        if JoinsProducts(ls, Joined(ls)) {
          IllFormedFails(ls);
        }
      }
    }
  }

  lemma NotKept(ls: seq<Lora>)
    requires Operands(ls) && !RowsKept(ls)
    ensures !OwnHeads(ls) && ATotal(ls) != 1
  {
  }

  lemma SameEntries(ls: seq<Lora>, ls': seq<Lora>)
    requires Operands(ls) && Operands(ls') && SameShapes(ls, ls')
    ensures HasEntries(ls') <==> HasEntries(ls)
  {
    assert ls[0].a.shape == ls'[0].a.shape && ls[0].b.shape == ls'[0].b.shape;
    assert ShapeOf(ls'[0]) == ShapeOf(ls[0]) && Rank(ls'[0]) == Rank(ls[0]);
  }

  /** Of one result: an ill-formed pair stands for nothing that `torch.cat` of the products gives. */
  lemma BroadcastCatFails(ls: seq<Lora>)
    requires Operands(ls) && ATotal(ls) != 1 && ATotal(ls) != BTotal(ls)
    ensures !JoinsProducts(ls, Joined(ls))
  {
    hide Cat, MatMul, JoinsProducts;
    JoinedWellFormed(ls);
    if JoinsProducts(ls, Joined(ls)) {
      IllFormedFails(ls);
    }
  }
}
