/**
 * The marker-aware comparison of two template outputs: a loop closing in from both ends on whole segments,
 * a fix-up for the last segment of the side that ran out, and a refinement of the text in between.
 */
module MarkerDiff {
  import opened Common
  import opened MarkerSegments

  datatype DiffSplit = DiffSplit(prefix: string, suffix: string, left: string, right: string)

  /** The four iterators (both ends inclusive), the two flags and the text consumed so far. */
  datatype Cursors = Cursors(ls: nat, le: nat, rs: nat, re: nat, lf: bool, rf: bool, prefix: string, suffix: string)

  predicate InRange(l: seq<Segment>, r: seq<Segment>, c: Cursors) {
    c.ls <= c.le < |l| && c.rs <= c.re < |r|
  }

  // ---------- the loop ----------

  function TakePrefix(l: seq<Segment>, r: seq<Segment>, c: Cursors): Cursors
    requires InRange(l, r, c) && c.ls != c.le && c.rs != c.re
  {
    if l[c.ls] == r[c.rs] then c.(prefix := c.prefix + l[c.ls].value, ls := c.ls + 1, rs := c.rs + 1) else c
  }

  function TakeSuffix(l: seq<Segment>, r: seq<Segment>, c: Cursors): Cursors
    requires InRange(l, r, c)
  {
    if l[c.le] == r[c.re] then
      c.(suffix := l[c.le].value + c.suffix,
         le := if c.ls != c.le then c.le - 1 else c.le, lf := c.lf || c.ls == c.le,
         re := if c.rs != c.re then c.re - 1 else c.re, rf := c.rf || c.rs == c.re)
    else c
  }

  function Loop(l: seq<Segment>, r: seq<Segment>, c: Cursors): Cursors
    requires InRange(l, r, c)
    decreases c.le - c.ls + c.re - c.rs
  {
    if c.ls == c.le || c.rs == c.re then c
    else
      var m := TakePrefix(l, r, c);
      if l[c.ls] == r[c.rs] || l[m.le] == r[m.re] then Loop(l, r, TakeSuffix(l, r, m)) else c
  }

  // ---------- the fix-up ----------

  datatype Fix = NoFix | LeftIsSuffix | LeftIsPrefix | RightIsSuffix | RightIsPrefix | BothEqual

  function FixOf(l: seq<Segment>, r: seq<Segment>, c: Cursors): Fix
    requires InRange(l, r, c)
  {
    if c.ls == c.le && c.rs != c.re then
      if l[c.ls] == r[c.re] then LeftIsSuffix else if l[c.ls] == r[c.rs] then LeftIsPrefix else NoFix
    else if c.rs == c.re && c.ls != c.le then
      if l[c.le] == r[c.rs] then RightIsSuffix else if l[c.ls] == r[c.rs] then RightIsPrefix else NoFix
    else if c.ls == c.le && c.rs == c.re && l[c.ls] == r[c.rs] && l[c.ls].kind == Marker then BothEqual
    else NoFix
  }

  function FixUp(l: seq<Segment>, r: seq<Segment>, c: Cursors): (d: Cursors)
    requires InRange(l, r, c)
    ensures InRange(l, r, d)
  {
    match FixOf(l, r, c)
    case NoFix => c
    case LeftIsSuffix => c.(suffix := r[c.re].value + c.suffix, re := c.re - 1, lf := true)
    case LeftIsPrefix => c.(prefix := c.prefix + r[c.rs].value, rs := c.rs + 1, lf := true)
    case RightIsSuffix => c.(suffix := l[c.le].value + c.suffix, le := c.le - 1, rf := true)
    case RightIsPrefix => c.(prefix := c.prefix + l[c.ls].value, ls := c.ls + 1, rf := true)
    case BothEqual => c.(prefix := c.prefix + r[c.rs].value, lf := true, rf := true)
  }

  // ---------- the refinement ----------

  function CommonPrefix<T(==)>(a: seq<T>, b: seq<T>): (n: nat)
    ensures n <= |a| && n <= |b|
  {
    if a == [] || b == [] || a[0] != b[0] then 0 else CommonPrefix(a[1..], b[1..]) + 1
  }

  lemma HeadCons<T>(a: seq<T>, n: nat)
    requires n < |a|
    ensures a[..n + 1] == [a[0]] + a[1..][..n]
  {
  }

  lemma {:induction false} CommonPrefixEqual<T>(a: seq<T>, b: seq<T>)
    ensures a[..CommonPrefix(a, b)] == b[..CommonPrefix(a, b)]
  {
    if a != [] && b != [] && a[0] == b[0] {
      var n := CommonPrefix(a[1..], b[1..]);
      CommonPrefixEqual(a[1..], b[1..]);
      HeadCons(a, n);
      HeadCons(b, n);
    }
  }

  /** The common prefix is as long as the elements agree. */
  lemma {:induction false} PrefixIs<T>(a: seq<T>, b: seq<T>, n: nat)
    requires n <= |a| && n <= |b| && (forall k | 0 <= k < n :: a[k] == b[k]) && (n < |a| && n < |b| ==> a[n] != b[n])
    ensures CommonPrefix(a, b) == n
    decreases n
  {
    if n > 0 {
      assert a[0] == b[0];
      assert forall k | 0 <= k < n - 1 :: a[1..][k] == a[k + 1] && b[1..][k] == b[k + 1];
      PrefixIs(a[1..], b[1..], n - 1);
    }
  }

  function CommonSuffix<T(==)>(a: seq<T>, b: seq<T>): (n: nat)
    ensures n <= |a| && n <= |b|
  {
    if a == [] || b == [] || a[|a| - 1] != b[|b| - 1] then 0
    else CommonSuffix(a[..|a| - 1], b[..|b| - 1]) + 1
  }

  function Tail<T>(a: seq<T>, n: nat): seq<T>
    requires n <= |a|
  {
    a[|a| - n..]
  }

  lemma TailSnoc<T>(a: seq<T>, n: nat)
    requires n < |a|
    ensures Tail(a, n + 1) == Tail(a[..|a| - 1], n) + [a[|a| - 1]]
  {
  }

  lemma {:induction false} CommonSuffixEqual<T>(a: seq<T>, b: seq<T>)
    ensures Tail(a, CommonSuffix(a, b)) == Tail(b, CommonSuffix(a, b))
  {
    if a != [] && b != [] && a[|a| - 1] == b[|b| - 1] {
      var n := CommonSuffix(a[..|a| - 1], b[..|b| - 1]);
      CommonSuffixEqual(a[..|a| - 1], b[..|b| - 1]);
      TailSnoc(a, n);
      TailSnoc(b, n);
    }
  }

  /** The same from the end, where `Back(a, k)` is the element `k` places before the last one. */
  function Back<T>(a: seq<T>, k: nat): T
    requires k < |a|
  {
    a[|a| - 1 - k]
  }

  lemma {:induction false} SuffixIs<T>(a: seq<T>, b: seq<T>, n: nat)
    requires n <= |a| && n <= |b| && (forall k: nat | k < n :: Back(a, k) == Back(b, k))
    requires n < |a| && n < |b| ==> Back(a, n) != Back(b, n)
    ensures CommonSuffix(a, b) == n
    decreases n
  {
    if n > 0 {
      assert Back(a, 0) == Back(b, 0);
      var x, y := a[..|a| - 1], b[..|b| - 1];
      assert forall k: nat | k < n - 1 :: Back(x, k) == Back(a, k + 1) && Back(y, k) == Back(b, k + 1);
      SuffixIs(x, y, n - 1);
    }
  }

  method CommonPrefixLen(left: string, right: string) returns (prefixLen: nat)
    ensures prefixLen == CommonPrefix(left, right)
  {
    prefixLen := 0;
    var minLen := if |left| <= |right| then |left| else |right|;
    while prefixLen < minLen && left[prefixLen] == right[prefixLen]
      invariant prefixLen <= minLen && forall k | 0 <= k < prefixLen :: left[k] == right[k]
    {
      prefixLen := prefixLen + 1;
    }
    PrefixIs(left, right, prefixLen);
  }

  method CommonSuffixLen(left: string, right: string) returns (suffixLen: nat)
    ensures suffixLen == CommonSuffix(left, right)
  {
    suffixLen := 0;
    var minLen := if |left| <= |right| then |left| else |right|;
    while suffixLen < minLen && left[|left| - 1 - suffixLen] == right[|right| - 1 - suffixLen]
      invariant suffixLen <= minLen && forall k: nat | k < suffixLen :: Back(left, k) == Back(right, k)
    {
      suffixLen := suffixLen + 1;
    }
    SuffixIs(left, right, suffixLen);
  }

  /** One past the last segment of each side that is not yet consumed. */
  function LeftStop(c: Cursors): nat { if c.lf then c.le else c.le + 1 }
  function RightStop(c: Cursors): nat { if c.rf then c.re else c.re + 1 }

  function LeftRest(l: seq<Segment>, c: Cursors): string
    requires c.ls <= c.le < |l|
  {
    Join(l[c.ls..LeftStop(c)])
  }

  function RightRest(r: seq<Segment>, c: Cursors): string
    requires c.rs <= c.re < |r|
  {
    Join(r[c.rs..RightStop(c)])
  }

  function SuffixLen(a: string, b: string, textSuffix: bool): (n: nat)
    ensures n <= |a| && n <= |b|
  {
    if textSuffix then CommonSuffix(a, b) else 0
  }

  function PrefixLen(a: string, b: string, sl: nat, textPrefix: bool): (n: nat)
    requires sl <= |a| && sl <= |b|
    ensures n <= |a| - sl && n <= |b| - sl
  {
    if textPrefix then CommonPrefix(a[..|a| - sl], b[..|b| - sl]) else 0
  }

  /** Moves `pl` characters into the prefix and `sl` into the suffix. */
  function Move(prefix: string, suffix: string, a: string, b: string, pl: nat, sl: nat): DiffSplit
    requires pl + sl <= |a| && pl + sl <= |b|
  {
    DiffSplit(prefix + a[..pl], a[|a| - sl..] + suffix, a[pl..|a| - sl], b[pl..|b| - sl])
  }

  /** Moves common text at the ends of the remainders into prefix and suffix. */
  function Refine(prefix: string, suffix: string, a: string, b: string, textPrefix: bool, textSuffix: bool): DiffSplit {
    var sl := SuffixLen(a, b, textSuffix);
    Move(prefix, suffix, a, b, PrefixLen(a, b, sl, textPrefix), sl)
  }

  function Represent(left: string, d: DiffSplit): DiffSplit {
    if d.left == "" && d.right == "" then d.(prefix := left, suffix := "") else d
  }

  function Finish(left: string, l: seq<Segment>, r: seq<Segment>, c: Cursors): DiffSplit
    requires InRange(l, r, c)
  {
    Represent(left, Refine(c.prefix, c.suffix, LeftRest(l, c), RightRest(r, c),
                           r[c.rs].kind == Text && l[c.ls].kind == Text, l[c.le].kind == Text && r[c.re].kind == Text))
  }

  function Start(l: seq<Segment>, r: seq<Segment>): Cursors
    requires l != [] && r != []
  {
    Cursors(0, |l| - 1, 0, |r| - 1, false, false, "", "")
  }

  /** `Loop` stays in range. */
  lemma {:induction false} LoopInRange(l: seq<Segment>, r: seq<Segment>, c: Cursors)
    requires InRange(l, r, c)
    ensures InRange(l, r, Loop(l, r, c))
    decreases c.le - c.ls + c.re - c.rs
  {
    if c.ls != c.le && c.rs != c.re {
      var m := TakePrefix(l, r, c);
      if l[c.ls] == r[c.rs] || l[m.le] == r[m.re] {
        LoopInRange(l, r, TakeSuffix(l, r, m));
      }
    }
  }

  function DiffOf(left: string, right: string): DiffSplit {
    var l, r := Segments(left), Segments(right);
    if l == [] then DiffSplit("", "", "", right)
    else if r == [] then DiffSplit("", "", left, "")
    else
      LoopInRange(l, r, Start(l, r));
      Finish(left, l, r, FixUp(l, r, Loop(l, r, Start(l, r))))
  }

  // ---------- the procedure ----------

  /** `std::accumulate` with string concatenation. */
  method Accumulate(segs: seq<Segment>, first: nat, stop: nat) returns (s: string)
    requires first <= stop <= |segs|
    ensures s == Join(segs[first..stop])
  {
    s := "";
    assert segs[first..first] == [];
    for i := first to stop
      invariant s == Join(segs[first..i])
    {
      assert segs[first..i + 1] == segs[first..i] + [segs[i]];
      JoinConcat(segs[first..i], [segs[i]]);
      JoinOne(segs[i], []);
      assert [segs[i]] + [] == [segs[i]];
      s := s + segs[i].value;
    }
  }

  method ClosingLoop(l: seq<Segment>, r: seq<Segment>) returns (c: Cursors)
    requires l != [] && r != []
    ensures c == Loop(l, r, Start(l, r)) && InRange(l, r, c)
  {
    var ls: nat, le: nat, rs: nat, re: nat := 0, |l| - 1, 0, |r| - 1;
    var lf, rf, prefix, suffix := false, false, "", "";
    while ls != le && rs != re
      invariant InRange(l, r, Cursors(ls, le, rs, re, lf, rf, prefix, suffix))
      invariant Loop(l, r, Start(l, r)) == Loop(l, r, Cursors(ls, le, rs, re, lf, rf, prefix, suffix))
      decreases le - ls + re - rs
    {
      ghost var before := Cursors(ls, le, rs, re, lf, rf, prefix, suffix);
      var advanced := false;
      if l[ls] == r[rs] {
        prefix := prefix + l[ls].value;
        ls := ls + 1;
        rs := rs + 1;
        advanced := true;
      }
      ghost var middle := Cursors(ls, le, rs, re, lf, rf, prefix, suffix);
      assert middle == TakePrefix(l, r, before);
      if l[le] == r[re] {
        suffix := l[le].value + suffix;
        if ls != le {
          le := le - 1;
        } else {
          lf := true;
        }
        if rs != re {
          re := re - 1;
        } else {
          rf := true;
        }
        advanced := true;
      }
      assert Cursors(ls, le, rs, re, lf, rf, prefix, suffix) == TakeSuffix(l, r, middle);
      if !advanced {
        break;
      }
    }
    c := Cursors(ls, le, rs, re, lf, rf, prefix, suffix);
  }

  method FixUpEnds(l: seq<Segment>, r: seq<Segment>, given: Cursors) returns (c: Cursors)
    requires InRange(l, r, given)
    ensures c == FixUp(l, r, given) && InRange(l, r, c)
  {
    c := given;
    if c.ls == c.le && c.rs != c.re {
      if l[c.ls] == r[c.re] {
        c := c.(suffix := r[c.re].value + c.suffix, re := c.re - 1, lf := true);
      } else if l[c.ls] == r[c.rs] {
        c := c.(prefix := c.prefix + r[c.rs].value, rs := c.rs + 1, lf := true);
      }
    } else if c.rs == c.re && c.ls != c.le {
      if l[c.le] == r[c.rs] {
        c := c.(suffix := l[c.le].value + c.suffix, le := c.le - 1, rf := true);
      } else if l[c.ls] == r[c.rs] {
        c := c.(prefix := c.prefix + l[c.ls].value, ls := c.ls + 1, rf := true);
      }
    } else if c.ls == c.le && c.rs == c.re && l[c.ls] == r[c.rs] && l[c.ls].kind == Marker {
      c := c.(prefix := c.prefix + r[c.rs].value, lf := true, rf := true);
    }
  }

  method LeftRemainder(l: seq<Segment>, c: Cursors) returns (s: string)
    requires c.ls <= c.le < |l|
    ensures s == LeftRest(l, c)
  {
    s := Accumulate(l, c.ls, if c.lf then c.le else c.le + 1);
  }

  method RightRemainder(r: seq<Segment>, c: Cursors) returns (s: string)
    requires c.rs <= c.re < |r|
    ensures s == RightRest(r, c)
  {
    s := Accumulate(r, c.rs, if c.rf then c.re else c.re + 1);
  }

  method FinishSplit(left: string, l: seq<Segment>, r: seq<Segment>, c: Cursors) returns (result: DiffSplit)
    requires InRange(l, r, c)
    ensures result == Finish(left, l, r, c)
  {
    var canHaveTextSuffix := l[c.le].kind == Text && r[c.re].kind == Text;
    var canHaveTextPrefix := r[c.rs].kind == Text && l[c.ls].kind == Text;
    var remainderLeft := LeftRemainder(l, c);
    var remainderRight := RightRemainder(r, c);
    result := RefineText(c.prefix, c.suffix, remainderLeft, remainderRight, canHaveTextPrefix, canHaveTextSuffix);
    if result.left == "" && result.right == "" {
      result := result.(prefix := left, suffix := "");
    }
  }

  method RefineText(prefix: string, suffix: string, remainderLeft: string, remainderRight: string,
                    canHaveTextPrefix: bool, canHaveTextSuffix: bool) returns (result: DiffSplit)
    ensures result == Refine(prefix, suffix, remainderLeft, remainderRight, canHaveTextPrefix, canHaveTextSuffix)
  {
    var suffixLen, prefixLen := 0, 0;
    if canHaveTextSuffix {
      suffixLen := CommonSuffixLen(remainderLeft, remainderRight);
    }
    if canHaveTextPrefix {
      prefixLen := CommonPrefixLen(remainderLeft[..|remainderLeft| - suffixLen],
                                   remainderRight[..|remainderRight| - suffixLen]);
    }
    result := DiffSplit(prefix + remainderLeft[..prefixLen],
                        remainderLeft[|remainderLeft| - suffixLen..] + suffix,
                        remainderLeft[prefixLen..|remainderLeft| - suffixLen],
                        remainderRight[prefixLen..|remainderRight| - suffixLen]);
  }

  method CalculateDiffSplit(left: string, right: string) returns (result: DiffSplit)
    ensures result == DiffOf(left, right)
  {
    result := DiffSplit("", "", "", "");
    var l := SegmentizeMarkers(left);
    var r := SegmentizeMarkers(right);
    if l == [] {
      return result.(right := right);
    }
    if r == [] {
      return result.(left := left);
    }
    var c := ClosingLoop(l, r);
    c := FixUpEnds(l, r, c);
    result := FinishSplit(left, l, r, c);
  }

  // ---------- nothing is lost, and exactly when ----------

  /** Prefix, difference and suffix rebuild both inputs. */
  predicate Lossless(left: string, right: string, d: DiffSplit) {
    d.prefix + d.left + d.suffix == left && d.prefix + d.right + d.suffix == right
  }

  /** The remainders fit between the prefix and the suffix. */
  predicate Fits(left: string, right: string, prefix: string, suffix: string, a: string, b: string) {
    prefix + a + suffix == left && prefix + b + suffix == right
  }

  /** What every iteration of the loop keeps. */
  predicate Inv(l: seq<Segment>, r: seq<Segment>, c: Cursors) {
    && InRange(l, r, c)
    && (c.lf ==> c.ls == c.le) && (c.rf ==> c.rs == c.re)
    && c.prefix == Join(l[..c.ls]) && c.prefix == Join(r[..c.rs])
    && c.suffix == Join(l[LeftStop(c)..]) && c.suffix == Join(r[RightStop(c)..])
  }

  lemma JoinUpTo(s: seq<Segment>, i: nat)
    requires i < |s|
    ensures Join(s[..i + 1]) == Join(s[..i]) + s[i].value
  {
    assert s[..i + 1] == s[..i] + [s[i]];
    JoinConcat(s[..i], [s[i]]);
    JoinOne(s[i], []);
    assert [s[i]] + [] == [s[i]];
  }

  lemma JoinFrom(s: seq<Segment>, i: nat)
    requires i < |s|
    ensures Join(s[i..]) == s[i].value + Join(s[i + 1..])
  {
    assert s[i..] == [s[i]] + s[i + 1..];
    JoinOne(s[i], s[i + 1..]);
  }

  lemma TakePrefixKeeps(l: seq<Segment>, r: seq<Segment>, c: Cursors)
    requires Inv(l, r, c) && c.ls != c.le && c.rs != c.re
    ensures Inv(l, r, TakePrefix(l, r, c)) && !c.lf && !c.rf
  {
    JoinUpTo(l, c.ls);
    JoinUpTo(r, c.rs);
  }

  lemma TakeSuffixKeeps(l: seq<Segment>, r: seq<Segment>, c: Cursors)
    requires Inv(l, r, c) && !c.lf && !c.rf
    ensures Inv(l, r, TakeSuffix(l, r, c))
  {
    hide Join;
    JoinFrom(l, c.le);
    JoinFrom(r, c.re);
  }

  lemma {:induction false} LoopKeeps(l: seq<Segment>, r: seq<Segment>, c: Cursors)
    requires Inv(l, r, c)
    ensures Inv(l, r, Loop(l, r, c))
    decreases c.le - c.ls + c.re - c.rs
  {
    if c.ls != c.le && c.rs != c.re {
      var m := TakePrefix(l, r, c);
      TakePrefixKeeps(l, r, c);
      TakeSuffixKeeps(l, r, m);
      if l[c.ls] == r[c.rs] || l[m.le] == r[m.re] {
        LoopKeeps(l, r, TakeSuffix(l, r, m));
      }
    }
  }

  lemma Cut(s: seq<Segment>, i: nat, j: nat)
    requires i <= j <= |s|
    ensures Join(s) == Join(s[..i]) + Join(s[i..j]) + Join(s[j..])
  {
    hide *;
    CutSegments(s, i, j);
    JoinConcat(s[..i] + s[i..j], s[j..]);
    JoinConcat(s[..i], s[i..j]);
  }

  lemma CutSegments(s: seq<Segment>, i: nat, j: nat)
    requires i <= j <= |s|
    ensures s == s[..i] + s[i..j] + s[j..]
  {
  }

  lemma InvFits(l: seq<Segment>, r: seq<Segment>, c: Cursors)
    requires Inv(l, r, c)
    ensures Fits(Join(l), Join(r), c.prefix, c.suffix, LeftRest(l, c), RightRest(r, c))
  {
    Cut(l, c.ls, LeftStop(c));
    Cut(r, c.rs, RightStop(c));
  }

  /** A single segment is its own text. */
  lemma JoinSingle(s: seq<Segment>, i: nat)
    requires i < |s|
    ensures Join(s[i..i + 1]) == s[i].value && Join(s[i..i]) == ""
  {
    assert s[i..i + 1] == [s[i]] + [];
    JoinOne(s[i], []);
    assert s[i..i] == [];
  }

  /** A range without its first or last segment. */
  lemma JoinEnds(s: seq<Segment>, i: nat, j: nat)
    requires i <= j < |s|
    ensures Join(s[i..j + 1]) == s[i].value + Join(s[i + 1..j + 1])
    ensures Join(s[i..j + 1]) == Join(s[i..j]) + s[j].value
  {
    assert s[i..j + 1] == [s[i]] + s[i + 1..j + 1];
    JoinOne(s[i], s[i + 1..j + 1]);
    assert s[i..j + 1] == s[i..j] + [s[j]];
    JoinConcat(s[i..j], [s[j]]);
    JoinSingle(s, j);
    assert s[j..j + 1] == [s[j]];
  }

  /** The loop has consumed exactly one side and the fix-up matches that side's segment again. */
  predicate Rematches(l: seq<Segment>, r: seq<Segment>, c: Cursors)
    requires InRange(l, r, c)
  {
    c.lf != c.rf && FixOf(l, r, c) != NoFix
  }

  predicate Rematched(left: string, right: string) {
    var l, r := Segments(left), Segments(right);
    l != [] && r != [] && (LoopInRange(l, r, Start(l, r)); Rematches(l, r, Loop(l, r, Start(l, r))))
  }

  /** The texts the fix-up leaves, by case. */
  predicate FixLeaves(l: seq<Segment>, r: seq<Segment>, c: Cursors)
    requires InRange(l, r, c)
  {
    var d := FixUp(l, r, c);
    var a, b, x, y := LeftRest(l, c), RightRest(r, c), LeftRest(l, d), RightRest(r, d);
    var lv, rv := l[c.ls].value, r[c.rs].value;
    match FixOf(l, r, c)
    case NoFix => true
    case LeftIsSuffix =>
      d.prefix == c.prefix && d.suffix == lv + c.suffix && x == "" && a == (if c.lf then "" else lv) && b == y + lv
    case LeftIsPrefix =>
      d.prefix == c.prefix + lv && d.suffix == c.suffix && x == "" && a == (if c.lf then "" else lv) && b == lv + y
    case RightIsSuffix =>
      d.prefix == c.prefix && d.suffix == rv + c.suffix && y == "" && b == (if c.rf then "" else rv) && a == x + rv
    case RightIsPrefix =>
      d.prefix == c.prefix + rv && d.suffix == c.suffix && y == "" && b == (if c.rf then "" else rv) && a == rv + x
    case BothEqual =>
      && d.prefix == c.prefix + lv && d.suffix == c.suffix && x == "" && y == "" && lv == rv
      && a == (if c.lf then "" else lv) && b == (if c.rf then "" else lv)
  }

  lemma FixTextsLeft(l: seq<Segment>, r: seq<Segment>, c: Cursors)
    requires Inv(l, r, c) && FixOf(l, r, c) in {LeftIsSuffix, LeftIsPrefix}
    ensures !c.rf && FixLeaves(l, r, c)
  {
    hide Join;
    JoinSingle(l, c.ls);
    JoinEnds(r, c.rs, c.re);
  }

  lemma FixTextsRight(l: seq<Segment>, r: seq<Segment>, c: Cursors)
    requires Inv(l, r, c) && FixOf(l, r, c) in {RightIsSuffix, RightIsPrefix}
    ensures !c.lf && FixLeaves(l, r, c)
  {
    hide Join;
    JoinSingle(r, c.rs);
    JoinEnds(l, c.ls, c.le);
  }

  lemma FixTexts(l: seq<Segment>, r: seq<Segment>, c: Cursors)
    requires Inv(l, r, c)
    ensures FixOf(l, r, c) in {LeftIsSuffix, LeftIsPrefix} ==> !c.rf
    ensures FixOf(l, r, c) in {RightIsSuffix, RightIsPrefix} ==> !c.lf
    ensures FixLeaves(l, r, c)
    ensures (c.lf ==> LeftRest(l, c) == "") && (c.rf ==> RightRest(r, c) == "")
  {
    JoinSingle(l, c.ls);
    JoinSingle(r, c.rs);
    match FixOf(l, r, c) {
      case LeftIsSuffix => FixTextsLeft(l, r, c);
      case LeftIsPrefix => FixTextsLeft(l, r, c);
      case RightIsSuffix => FixTextsRight(l, r, c);
      case RightIsPrefix => FixTextsRight(l, r, c);
      case _ =>
    }
  }

  /** Text moved from the remainders to the prefix or suffix. */
  lemma MoveText(prefix: string, v: string, rest: string, suffix: string)
    ensures prefix + (v + rest) + suffix == (prefix + v) + rest + suffix
    ensures prefix + (rest + v) + suffix == prefix + rest + (v + suffix)
    ensures prefix + v + suffix == (prefix + v) + "" + suffix == prefix + "" + (v + suffix)
  {
  }

  /** Without a rematch the fix-up leaves remainders that fit. */
  lemma FixUpFits(l: seq<Segment>, r: seq<Segment>, c: Cursors)
    requires Inv(l, r, c) && !Rematches(l, r, c) && !(c.lf && c.rf)
    ensures var d := FixUp(l, r, c);
            Fits(Join(l), Join(r), d.prefix, d.suffix, LeftRest(l, d), RightRest(r, d))
  {
    var d := FixUp(l, r, c);
    InvFits(l, r, c);
    FixTexts(l, r, c);
    MoveText(c.prefix, l[c.ls].value, LeftRest(l, d), c.suffix);
    MoveText(c.prefix, l[c.ls].value, RightRest(r, d), c.suffix);
    MoveText(c.prefix, r[c.rs].value, LeftRest(l, d), c.suffix);
    MoveText(c.prefix, r[c.rs].value, RightRest(r, d), c.suffix);
  }

  lemma Rebuild(prefix: string, a: string, i: nat, j: nat, suffix: string)
    requires i <= j <= |a|
    ensures (prefix + a[..i]) + a[i..j] + (a[j..] + suffix) == prefix + a + suffix
  {
    assert a == a[..i] + a[i..j] + a[j..];
  }

  lemma MoveFits(left: string, right: string, prefix: string, suffix: string, a: string, b: string, pl: nat, sl: nat)
    requires Fits(left, right, prefix, suffix, a, b)
    requires pl + sl <= |a| && pl + sl <= |b| && a[..pl] == b[..pl] && Tail(a, sl) == Tail(b, sl)
    ensures Lossless(left, right, Move(prefix, suffix, a, b, pl, sl))
  {
    Rebuild(prefix, a, pl, |a| - sl, suffix);
    Rebuild(prefix, b, pl, |b| - sl, suffix);
  }

  lemma PrefixOfRest(a: string, b: string, sl: nat, tp: bool)
    requires sl <= |a| && sl <= |b|
    ensures a[..PrefixLen(a, b, sl, tp)] == b[..PrefixLen(a, b, sl, tp)]
  {
    var x, y, pl := a[..|a| - sl], b[..|b| - sl], PrefixLen(a, b, sl, tp);
    CommonPrefixEqual(x, y);
    assert a[..pl] == x[..pl] && b[..pl] == y[..pl];
  }

  /** The refinement moves text without losing any. */
  lemma RefineFits(
      left: string, right: string, prefix: string, suffix: string, a: string, b: string, tp: bool, ts: bool)
    requires Fits(left, right, prefix, suffix, a, b)
    ensures Lossless(left, right, Refine(prefix, suffix, a, b, tp, ts))
  {
    var sl := SuffixLen(a, b, ts);
    CommonSuffixEqual(a, b);
    PrefixOfRest(a, b, sl, tp);
    MoveFits(left, right, prefix, suffix, a, b, PrefixLen(a, b, sl, tp), sl);
  }

  lemma RefineEmpty(prefix: string, suffix: string, a: string, b: string, tp: bool, ts: bool)
    requires a == "" || b == ""
    ensures Refine(prefix, suffix, a, b, tp, ts) == DiffSplit(prefix, suffix, a, b)
  {
    assert CommonSuffix(a, b) == 0;
    assert a[..|a| - 0] == a && b[..|b| - 0] == b;
    assert CommonPrefix(a, b) == 0;
    assert prefix + a[..0] == prefix && a[|a| - 0..] + suffix == suffix;
    assert a[0..|a| - 0] == a && b[0..|b| - 0] == b;
  }

  lemma FinishLossless(left: string, right: string, l: seq<Segment>, r: seq<Segment>, c: Cursors)
    requires InRange(l, r, c) && Fits(left, right, c.prefix, c.suffix, LeftRest(l, c), RightRest(r, c))
    ensures Lossless(left, right, Finish(left, l, r, c))
  {
    var a, b := LeftRest(l, c), RightRest(r, c);
    var tp, ts := r[c.rs].kind == Text && l[c.ls].kind == Text, l[c.le].kind == Text && r[c.re].kind == Text;
    RefineFits(left, right, c.prefix, c.suffix, a, b, tp, ts);
    EmptyDifference(left, right, Refine(c.prefix, c.suffix, a, b, tp, ts));
  }

  /** An empty difference means equal inputs, which the left one then represents. */
  lemma EmptyDifference(left: string, right: string, d: DiffSplit)
    requires Lossless(left, right, d)
    ensures d.left == "" && d.right == "" ==> left == right && Lossless(left, right, d.(prefix := left, suffix := ""))
  {
    assert left + "" + "" == left;
  }

  /** An empty remainder leaves nothing to move. */
  lemma FinishEmptySide(left: string, l: seq<Segment>, r: seq<Segment>, c: Cursors)
    requires InRange(l, r, c)
    ensures LeftRest(l, c) == "" && RightRest(r, c) != "" ==>
              Finish(left, l, r, c) == DiffSplit(c.prefix, c.suffix, "", RightRest(r, c))
    ensures LeftRest(l, c) != "" && RightRest(r, c) == "" ==>
              Finish(left, l, r, c) == DiffSplit(c.prefix, c.suffix, LeftRest(l, c), "")
    ensures LeftRest(l, c) == "" && RightRest(r, c) == "" ==> Finish(left, l, r, c) == DiffSplit(left, "", "", "")
  {
    var a, b := LeftRest(l, c), RightRest(r, c);
    if a == "" || b == "" {
      RefineEmpty(c.prefix, c.suffix, a, b,
                  r[c.rs].kind == Text && l[c.ls].kind == Text, l[c.le].kind == Text && r[c.re].kind == Text);
    }
  }

  /** Both sides consumed by the loop: the inputs were equal, and the result says so. */
  lemma BothConsumed(left: string, right: string, l: seq<Segment>, r: seq<Segment>, c: Cursors)
    requires Inv(l, r, c) && c.lf && c.rf && left == Join(l) && right == Join(r)
    ensures Lossless(left, right, Finish(left, l, r, FixUp(l, r, c)))
  {
    InvFits(l, r, c);
    FixTexts(l, r, c);
    FinishEmptySide(left, l, r, FixUp(l, r, c));
    assert c.prefix + "" + c.suffix == left == right;
  }

  /** The left side was consumed and its segment is matched once more: its text is then counted twice or lost. */
  lemma LeftRematchLoses(left: string, right: string, l: seq<Segment>, r: seq<Segment>, c: Cursors)
    requires Inv(l, r, c) && c.lf && !c.rf && FixOf(l, r, c) != NoFix
    requires left == Join(l) && right == Join(r) && l[c.ls].value != "" && forall i | 0 <= i < |r| :: r[i].value != ""
    ensures !Lossless(left, right, Finish(left, l, r, FixUp(l, r, c)))
  {
    InvFits(l, r, c);
    FixTexts(l, r, c);
    var d := FixUp(l, r, c);
    FinishEmptySide(left, l, r, d);
    if FixOf(l, r, c) == BothEqual {
      assert |right| > |left|;
    } else {
      RestNonEmpty(r, d.rs, d.re);
      assert |d.prefix + "" + d.suffix| > |left|;
    }
  }

  lemma RightRematchLoses(left: string, right: string, l: seq<Segment>, r: seq<Segment>, c: Cursors)
    requires Inv(l, r, c) && !c.lf && c.rf && FixOf(l, r, c) != NoFix
    requires left == Join(l) && right == Join(r) && r[c.rs].value != "" && forall i | 0 <= i < |l| :: l[i].value != ""
    ensures !Lossless(left, right, Finish(left, l, r, FixUp(l, r, c)))
  {
    InvFits(l, r, c);
    FixTexts(l, r, c);
    var d := FixUp(l, r, c);
    FinishEmptySide(left, l, r, d);
    if FixOf(l, r, c) == BothEqual {
      assert |left| > |right|;
    } else {
      RestNonEmpty(l, d.ls, d.le);
      assert |d.prefix + "" + d.suffix| > |right|;
    }
  }

  lemma RestNonEmpty(s: seq<Segment>, i: nat, j: nat)
    requires i <= j < |s| && s[i].value != ""
    ensures Join(s[i..j + 1]) != ""
  {
    JoinEnds(s, i, j);
  }

  lemma StartInv(l: seq<Segment>, r: seq<Segment>)
    requires l != [] && r != []
    ensures Inv(l, r, Start(l, r))
  {
  }

  /**
   * The split rebuilds both inputs exactly when the fix-up does not match a second time the segment of the
   * one side that the loop has already consumed.
   */
  lemma DiffExact(left: string, right: string)
    ensures Lossless(left, right, DiffOf(left, right)) <==> !Rematched(left, right)
  {
    var l, r := Segments(left), Segments(right);
    SegmentsSound(left);
    SegmentsSound(right);
    if l != [] && r != [] {
      StartInv(l, r);
      LoopKeeps(l, r, Start(l, r));
      var c := Loop(l, r, Start(l, r));
      if c.lf && c.rf {
        BothConsumed(left, right, l, r, c);
      } else if Rematches(l, r, c) {
        forall i | 0 <= i < |l| ensures l[i].value != "" { CanonicalNonEmpty(l, i); }
        forall i | 0 <= i < |r| ensures r[i].value != "" { CanonicalNonEmpty(r, i); }
        if c.lf {
          LeftRematchLoses(left, right, l, r, c);
        } else {
          RightRematchLoses(left, right, l, r, c);
        }
      } else {
        FixUpFits(l, r, c);
        FinishLossless(left, right, l, r, FixUp(l, r, c));
      }
    }
  }

  // ---------- rematched inputs, without running the loop ----------

  /** The segments `i` places from the cursors agree at both ends. */
  predicate EndsAgree(x: seq<Segment>, y: seq<Segment>, xs: nat, xe: nat, ys: nat, ye: nat, i: nat) {
    && xs + i <= xe < |x| && ys + i <= ye < |y|
    && x[xs + i] == y[ys + i] && x[xe - i] == y[ye - i]
  }

  /** Halving `x` between its cursors, the halves start and end a longer `y`. */
  predicate HalfMatch(x: seq<Segment>, y: seq<Segment>, xs: nat, xe: nat, ys: nat, ye: nat)
    requires xs <= xe < |x| && ys <= ye < |y|
  {
    var w := xe - xs + 1;
    && w % 2 == 0 && w < ye - ys + 1
    && forall i | 0 <= i < w / 2 :: EndsAgree(x, y, xs, xe, ys, ye, i)
  }

  /** After the first mismatch at the front no side is ever consumed. */
  lemma {:induction false} FrontMismatch(l: seq<Segment>, r: seq<Segment>, c: Cursors)
    requires InRange(l, r, c) && !c.lf && !c.rf && l[c.ls] != r[c.rs]
    ensures !Loop(l, r, c).lf && !Loop(l, r, c).rf
    decreases c.le - c.ls + c.re - c.rs
  {
    if c.ls != c.le && c.rs != c.re && l[c.le] == r[c.re] {
      FrontMismatch(l, r, TakeSuffix(l, r, c));
    }
  }

  lemma {:induction false} BackMismatch(l: seq<Segment>, r: seq<Segment>, c: Cursors)
    requires InRange(l, r, c) && !c.lf && !c.rf && l[c.le] != r[c.re]
    ensures !Loop(l, r, c).lf && !Loop(l, r, c).rf
    decreases c.le - c.ls + c.re - c.rs
  {
    if c.ls != c.le && c.rs != c.re && l[c.ls] == r[c.rs] {
      BackMismatch(l, r, TakePrefix(l, r, c));
    }
  }

  lemma HalfMatchInner(x: seq<Segment>, y: seq<Segment>, xs: nat, xe: nat, ys: nat, ye: nat)
    requires xs + 2 <= xe < |x| && ys + 2 <= ye < |y| && x[xs] == y[ys] && x[xe] == y[ye]
    ensures HalfMatch(x, y, xs, xe, ys, ye) <==> HalfMatch(x, y, xs + 1, xe - 1, ys + 1, ye - 1)
  {
    var w, xs', xe', ys', ye' := xe - xs + 1, xs + 1, xe - 1, ys + 1, ye - 1;
    if HalfMatch(x, y, xs', xe', ys', ye') {
      forall i | 0 <= i < w / 2
        ensures EndsAgree(x, y, xs, xe, ys, ye, i)
      {
        assert i > 0 ==> EndsAgree(x, y, xs', xe', ys', ye', i - 1);
      }
    }
    if HalfMatch(x, y, xs, xe, ys, ye) {
      forall i | 0 <= i < (w - 2) / 2
        ensures EndsAgree(x, y, xs', xe', ys', ye', i)
      {
        assert EndsAgree(x, y, xs, xe, ys, ye, i + 1);
      }
    }
  }

  lemma HalfMatchEnds(x: seq<Segment>, y: seq<Segment>, xs: nat, xe: nat, ys: nat, ye: nat)
    requires xs <= xe < |x| && ys <= ye < |y| && HalfMatch(x, y, xs, xe, ys, ye)
    ensures xs < xe && ys < ye && x[xs] == y[ys] && x[xe] == y[ye]
  {
    assert EndsAgree(x, y, xs, xe, ys, ye, 0);
  }

  /** The loop consumes one side alone exactly when it halves; both cursors then stand in the middle. */
  lemma {:induction false} LoopExit(l: seq<Segment>, r: seq<Segment>, c: Cursors)
    requires InRange(l, r, c) && !c.lf && !c.rf
    ensures var d := Loop(l, r, c);
            && (d.lf && !d.rf <==> HalfMatch(l, r, c.ls, c.le, c.rs, c.re))
            && (d.rf && !d.lf <==> HalfMatch(r, l, c.rs, c.re, c.ls, c.le))
            && (d.lf != d.rf ==>
                var n := (if d.lf then c.le - c.ls + 1 else c.re - c.rs + 1) / 2;
                d.ls == c.ls + n && d.rs == c.rs + n && d.le == c.le - (if d.lf then n - 1 else n) &&
                d.re == c.re - (if d.rf then n - 1 else n))
    decreases c.le - c.ls + c.re - c.rs
  {
    if HalfMatch(l, r, c.ls, c.le, c.rs, c.re) {
      HalfMatchEnds(l, r, c.ls, c.le, c.rs, c.re);
    }
    if HalfMatch(r, l, c.rs, c.re, c.ls, c.le) {
      HalfMatchEnds(r, l, c.rs, c.re, c.ls, c.le);
    }
    if c.ls != c.le && c.rs != c.re {
      if l[c.ls] != r[c.rs] {
        FrontMismatch(l, r, c);
      } else if l[c.le] != r[c.re] {
        BackMismatch(l, r, c);
      } else {
        LoopBoth(l, r, c);
      }
    }
  }

  lemma {:induction false} LoopBoth(l: seq<Segment>, r: seq<Segment>, c: Cursors)
    requires InRange(l, r, c) && !c.lf && !c.rf && c.ls != c.le && c.rs != c.re
    requires l[c.ls] == r[c.rs] && l[c.le] == r[c.re]
    ensures var d := Loop(l, r, c);
            && (d.lf && !d.rf <==> HalfMatch(l, r, c.ls, c.le, c.rs, c.re))
            && (d.rf && !d.lf <==> HalfMatch(r, l, c.rs, c.re, c.ls, c.le))
            && (d.lf != d.rf ==>
                var n := (if d.lf then c.le - c.ls + 1 else c.re - c.rs + 1) / 2;
                d.ls == c.ls + n && d.rs == c.rs + n && d.le == c.le - (if d.lf then n - 1 else n) &&
                d.re == c.re - (if d.rf then n - 1 else n))
    decreases c.le - c.ls + c.re - c.rs, 0
  {
    hide Loop, HalfMatch;
    var s := TakeSuffix(l, r, TakePrefix(l, r, c));
    LoopOnce(l, r, c);
    if c.le - c.ls > 1 && c.re - c.rs > 1 {
      HalfMatchInner(l, r, c.ls, c.le, c.rs, c.re);
      HalfMatchInner(r, l, c.rs, c.re, c.ls, c.le);
      LoopExit(l, r, s);
    } else {
      LoopStops(l, r, s);
      TwoLeft(l, r, c.ls, c.le, c.rs, c.re);
      TwoLeft(r, l, c.rs, c.re, c.ls, c.le);
    }
  }

  lemma LoopOnce(l: seq<Segment>, r: seq<Segment>, c: Cursors)
    requires InRange(l, r, c) && c.ls != c.le && c.rs != c.re && l[c.ls] == r[c.rs]
    ensures Loop(l, r, c) == Loop(l, r, TakeSuffix(l, r, TakePrefix(l, r, c)))
  {
  }

  lemma LoopStops(l: seq<Segment>, r: seq<Segment>, c: Cursors)
    requires InRange(l, r, c) && (c.ls == c.le || c.rs == c.re)
    ensures Loop(l, r, c) == c
  {
  }

  /** With two segments left on one side, and both ends alike, that side halves if the other is longer. */
  lemma TwoLeft(x: seq<Segment>, y: seq<Segment>, xs: nat, xe: nat, ys: nat, ye: nat)
    requires xs < xe < |x| && ys < ye < |y| && (xe == xs + 1 || ye == ys + 1) && x[xs] == y[ys] && x[xe] == y[ye]
    ensures HalfMatch(x, y, xs, xe, ys, ye) <==> xe == xs + 1 && ye > ys + 1
  {
    if xe == xs + 1 && ye > ys + 1 {
      assert EndsAgree(x, y, xs, xe, ys, ye, 0);
    }
  }

  /** `x` is two halves of which `y` starts with one and ends with the other. */
  predicate InHalves(x: seq<Segment>, y: seq<Segment>) {
    |x| % 2 == 0 && |x| < |y| && x[..|x| / 2] == y[..|x| / 2] && x[|x| / 2..] == y[|y| - |x| / 2..]
  }

  /**
   * `x` is two halves of the same number of segments; `y` is the same two with segments in between, whose first
   * or last is once more the first of `x`'s second half (if there is but one in between, a marker).
   */
  predicate Halves(x: seq<Segment>, y: seq<Segment>) {
    && |x| >= 2 && InHalves(x, y)
    && var n := |x| / 2;
    && (x[n] == y[n] || x[n] == y[|y| - n - 1]) && (|y| == |x| + 1 ==> x[n].kind == Marker)
  }

  lemma MatchHalves(x: seq<Segment>, y: seq<Segment>)
    requires x != [] && y != [] && HalfMatch(x, y, 0, |x| - 1, 0, |y| - 1)
    ensures InHalves(x, y)
  {
    var n, m := |x| / 2, |y|;
    forall i | 0 <= i < n
      ensures x[..n][i] == y[..n][i] && x[n..][i] == y[m - n..][i]
    {
      assert EndsAgree(x, y, 0, |x| - 1, 0, m - 1, i) && EndsAgree(x, y, 0, |x| - 1, 0, m - 1, n - 1 - i);
    }
  }

  lemma HalvesAgree(x: seq<Segment>, y: seq<Segment>, i: nat)
    requires InHalves(x, y) && i < |x| / 2
    ensures EndsAgree(x, y, 0, |x| - 1, 0, |y| - 1, i)
  {
    var n, m := |x| / 2, |y|;
    assert x[..n][i] == y[..n][i];
    assert x[n..][n - 1 - i] == y[m - n..][n - 1 - i];
  }

  lemma HalvesMatch(x: seq<Segment>, y: seq<Segment>)
    requires x != [] && y != []
    ensures HalfMatch(x, y, 0, |x| - 1, 0, |y| - 1) <==> InHalves(x, y)
  {
    hide EndsAgree;
    if HalfMatch(x, y, 0, |x| - 1, 0, |y| - 1) {
      MatchHalves(x, y);
    }
    if InHalves(x, y) {
      var xe, ye := |x| - 1, |y| - 1;
      forall i | 0 <= i < |x| / 2
        ensures EndsAgree(x, y, 0, xe, 0, ye, i)
      {
        HalvesAgree(x, y, i);
      }
    }
  }

  /** Which inputs are not rebuilt, read off their segments. */
  lemma RematchedExact(left: string, right: string)
    ensures Rematched(left, right) <==>
            Halves(Segments(left), Segments(right)) || Halves(Segments(right), Segments(left))
  {
    hide Segments;
    var l, r := Segments(left), Segments(right);
    if l != [] && r != [] {
      HalvesRematch(l, r);
    }
  }

  lemma HalvesRematch(l: seq<Segment>, r: seq<Segment>)
    requires l != [] && r != []
    ensures InRange(l, r, Loop(l, r, Start(l, r)))
    ensures Rematches(l, r, Loop(l, r, Start(l, r))) <==> Halves(l, r) || Halves(r, l)
  {
    hide Loop, HalfMatch;
    LoopInRange(l, r, Start(l, r));
    LoopExit(l, r, Start(l, r));
    HalvesMatch(l, r);
    HalvesMatch(r, l);
  }

  // ---------- the guarded fix-up ----------

  /** The fix-up with the test it lacks: nothing is matched when the loop has already consumed a side. */
  function GuardedFixUp(l: seq<Segment>, r: seq<Segment>, c: Cursors): Cursors
    requires InRange(l, r, c)
  {
    if c.lf || c.rf then c else FixUp(l, r, c)
  }

  function GuardedDiff(left: string, right: string): DiffSplit {
    var l, r := Segments(left), Segments(right);
    if l == [] then DiffSplit("", "", "", right)
    else if r == [] then DiffSplit("", "", left, "")
    else
      LoopInRange(l, r, Start(l, r));
      Finish(left, l, r, GuardedFixUp(l, r, Loop(l, r, Start(l, r))))
  }

  /** With that test every pair of inputs is rebuilt, and results that were right before stay as they are. */
  lemma GuardedLossless(left: string, right: string)
    ensures Lossless(left, right, GuardedDiff(left, right))
    ensures !Rematched(left, right) ==> GuardedDiff(left, right) == DiffOf(left, right)
  {
    var l, r := Segments(left), Segments(right);
    SegmentsSound(left);
    SegmentsSound(right);
    if l != [] && r != [] {
      StartInv(l, r);
      LoopKeeps(l, r, Start(l, r));
      var c := Loop(l, r, Start(l, r));
      InvFits(l, r, c);
      if c.lf || c.rf {
        FinishLossless(left, right, l, r, c);
        if c.lf && c.rf {
          BothConsumedFix(l, r, c);
        }
      } else {
        FixUpFits(l, r, c);
        FinishLossless(left, right, l, r, FixUp(l, r, c));
      }
    }
  }

  /** When both sides are consumed the fix-up changes nothing that is still looked at. */
  lemma BothConsumedFix(l: seq<Segment>, r: seq<Segment>, c: Cursors)
    requires Inv(l, r, c) && c.lf && c.rf
    ensures Finish(Join(l), l, r, FixUp(l, r, c)) == Finish(Join(l), l, r, c)
  {
    FixTexts(l, r, c);
    FinishEmptySide(Join(l), l, r, FixUp(l, r, c));
    FinishEmptySide(Join(l), l, r, c);
  }

  // ---------- equal inputs ----------

  /** Comparing segments with themselves moves both sides alike until nothing is left between the cursors. */
  lemma {:induction false} LoopOnEqual(l: seq<Segment>, c: Cursors)
    requires InRange(l, l, c) && c.ls == c.rs && c.le == c.re && c.lf == c.rf
    ensures var d := Loop(l, l, c); InRange(l, l, d) && d.ls == d.rs == d.le == d.re && d.lf == d.rf
    decreases c.le - c.ls
  {
    LoopInRange(l, l, c);
    if c.ls != c.le {
      LoopOnEqual(l, TakeSuffix(l, l, TakePrefix(l, l, c)));
    }
  }

  lemma {:induction false} CommonSuffixSame(a: string)
    ensures CommonSuffix(a, a) == |a|
  {
    if a != "" {
      CommonSuffixSame(a[..|a| - 1]);
    }
  }

  lemma RefineSame(prefix: string, suffix: string, a: string, tp: bool)
    ensures Refine(prefix, suffix, a, a, tp, true).left == "" && Refine(prefix, suffix, a, a, tp, true).right == ""
  {
    CommonSuffixSame(a);
  }

  lemma FinishOnEqual(t: string, l: seq<Segment>, c: Cursors)
    requires InRange(l, l, c) && c.ls == c.rs == c.le == c.re && c.lf == c.rf
    ensures Finish(t, l, l, FixUp(l, l, c)) == DiffSplit(t, "", "", "")
  {
    var d := FixUp(l, l, c);
    if d.lf {
      assert l[d.ls..d.le] == [];
      FinishEmptySide(t, l, l, d);
    } else {
      RefineSame(d.prefix, d.suffix, LeftRest(l, d), true);
    }
  }

  /** Equal inputs have an empty difference, and the first one represents them. */
  lemma EqualInputs(t: string)
    ensures DiffOf(t, t) == DiffSplit(t, "", "", "")
  {
    SegmentsSound(t);
    hide Finish, FixUp, Loop, Canonical, FirstOk;
    var l := Segments(t);
    if l != [] {
      LoopInRange(l, l, Start(l, l));
      LoopOnEqual(l, Start(l, l));
      FinishOnEqual(t, l, Loop(l, l, Start(l, l)));
    }
  }

  /** An empty difference is reported exactly for equal inputs, when nothing is rematched. */
  lemma NoDifferenceExact(left: string, right: string)
    requires !Rematched(left, right)
    ensures DiffOf(left, right).left == "" && DiffOf(left, right).right == "" <==> left == right
  {
    DiffExact(left, right);
    if left == right {
      EqualInputs(left);
    }
  }

  // ---------- the counterexample ----------

  /** The shortest kind of input that is not rebuilt: the result drops the second `<b>`. */
  lemma RematchWitness()
    ensures Rematched("<a><b>", "<a><b><b>")
    ensures DiffOf("<a><b>", "<a><b><b>") == DiffSplit("<a><b>", "", "", "")
  {
    var a, b := Segment(Marker, "<a>"), Segment(Marker, "<b>");
    var l, r := [a, b], [a, b, b];
    MarkerTexts();
    WitnessSegments(a, b);
    var c0, c1 := Start(l, r), Cursors(1, 1, 1, 1, true, false, "" + "<a>", "<b>" + "");
    assert TakeSuffix(l, r, TakePrefix(l, r, c0)) == c1;
    assert Loop(l, r, c1) == c1;
    assert Loop(l, r, c0) == c1;
    assert FixOf(l, r, c1) == BothEqual;
    JoinSingle(l, 1);
    JoinSingle(r, 1);
    FinishEmptySide("<a><b>", l, r, FixUp(l, r, c1));
  }

  lemma MarkerTexts()
    ensures IsMarkerText("<a>") && IsMarkerText("<b>")
  {
    CloserIs('<', "<a>", 1, 2);
    CloserIs('<', "<b>", 1, 2);
  }

  lemma WitnessTexts()
    ensures "<b>" + "" == "<b>" && "<a>" + "<b>" == "<a><b>"
    ensures "<b>" + "<b>" == "<b><b>" && "<a>" + "<b><b>" == "<a><b><b>"
  {
  }

  lemma WitnessSegments(a: Segment, b: Segment)
    requires a == Segment(Marker, "<a>") && b == Segment(Marker, "<b>") && IsMarkerText("<a>") && IsMarkerText("<b>")
    ensures Segments("<a><b>") == [a, b] && Segments("<a><b><b>") == [a, b, b]
  {
    assert Canonical([]) && Canonical([b]) && Canonical([b, b]);
    WitnessTexts();
    CanonicalMarker("<b>", []);
    assert [b] + [] == [b];
    CanonicalMarker("<a>", [b]);
    CanonicalMarker("<b>", [b]);
    assert [b] + [b] == [b, b] && [a] + [b] == [a, b] && [a] + [b, b] == [a, b, b];
    CanonicalMarker("<a>", [b, b]);
    JoinOne(b, []);
    JoinOne(a, [b]);
    JoinOne(b, [b]);
    JoinOne(a, [b, b]);
    SegmentsComplete([a, b]);
    SegmentsComplete([a, b, b]);
  }
}
