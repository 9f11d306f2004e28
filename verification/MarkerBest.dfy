/**
 * The difference of two texts without cursors, flags or fix-ups: how many whole segments go to either end, and how
 * much of the text between them.
 */
module MarkerBest {
  import opened Common
  import opened MarkerSegments
  import opened MarkerDiff

  function Min(a: nat, b: nat): nat {
    if a < b then a else b
  }

  // ---------- the split, read off the segments ----------

  /**
   * How many segments are shared at the front and at the back. Where the two overlap they meet in the middle, the
   * front giving way.
   */
  function Places(p: nat, s: nat, m: nat): (r: (nat, nat))
    requires p <= m && s <= m
    ensures r.0 <= p && r.1 <= s && r.0 + r.1 <= m && (r.0 + r.1 == m <==> p + s >= m)
  {
    if p + s < m then (p, s)
    else
      var j := Min(s, m - Min(p, m / 2));
      (m - j, j)
  }

  function Shared(l: seq<Segment>, r: seq<Segment>): (ij: (nat, nat))
    ensures ij.0 + ij.1 <= |l| && ij.0 + ij.1 <= |r|
  {
    Places(CommonPrefix(l, r), CommonSuffix(l, r), Min(|l|, |r|))
  }

  /** The longest common end of the texts if `ts`, then the longest common beginning of what is left if `tp`. */
  function Between(prefix: string, suffix: string, a: string, b: string, tp: bool, ts: bool): DiffSplit {
    var sl := if ts then CommonSuffix(a, b) else 0;
    var x, y := a[..|a| - sl], b[..|b| - sl];
    var pl := if tp then CommonPrefix(x, y) else 0;
    Cut(prefix, a[|a| - sl..] + suffix, x, y, pl)
  }

  function Cut(prefix: string, suffix: string, x: string, y: string, pl: nat): DiffSplit
    requires pl <= |x| && pl <= |y|
  {
    DiffSplit(prefix + x[..pl], suffix, x[pl..], y[pl..])
  }

  /** Both lists have a text segment at this place. */
  predicate BothText(l: seq<Segment>, a: nat, r: seq<Segment>, b: nat) {
    a < |l| && b < |r| && l[a].kind == Text && r[b].kind == Text
  }

  function BestOf(left: string, l: seq<Segment>, r: seq<Segment>): DiffSplit {
    var (i, j) := Shared(l, r);
    var more := i + j < Min(|l|, |r|);
    var d := Between(Join(l[..i]), Join(l[|l| - j..]), Join(l[i..|l| - j]), Join(r[i..|r| - j]),
                     more && BothText(l, i, r, i), more && BothText(l, |l| - 1 - j, r, |r| - 1 - j));
    if d.left == "" && d.right == "" then DiffSplit(left, "", "", "") else d
  }

  function BestSplit(left: string, right: string): DiffSplit {
    BestOf(left, Segments(left), Segments(right))
  }

  // ---------- where the cursors stand ----------

  /** `i` segments are consumed at the front and `j` at the back, and some are left on both sides. */
  predicate Standing(l: seq<Segment>, r: seq<Segment>, c: Cursors, i: nat, j: nat) {
    && Inv(l, r, c) && i + j < |l| && i + j < |r| && !c.lf && !c.rf
    && c.ls == c.rs == i && c.le == |l| - 1 - j && c.re == |r| - 1 - j
  }

  /** What the refinement is given once `i` and `j` segments are taken. */
  predicate Taken(l: seq<Segment>, r: seq<Segment>, c: Cursors, i: nat, j: nat) {
    && InRange(l, r, c) && i + j <= |l| && i + j <= |r|
    && c.prefix == Join(l[..i]) && c.suffix == Join(l[|l| - j..])
    && LeftRest(l, c) == Join(l[i..|l| - j]) && RightRest(r, c) == Join(r[i..|r| - j])
    && (i + j < Min(|l|, |r|) ==> c.ls == c.rs == i && c.le == |l| - 1 - j && c.re == |r| - 1 - j)
  }

  lemma {:induction false} FrontExact<T>(l: seq<T>, r: seq<T>, i: nat)
    requires i < |l| && i < |r|
    ensures i < CommonPrefix(l, r) ==> l[i] == r[i]
    ensures i == CommonPrefix(l, r) ==> l[i] != r[i]
    decreases i
  {
    if i > 0 && l[0] == r[0] {
      FrontExact(l[1..], r[1..], i - 1);
    }
  }

  lemma {:induction false} BackExact<T>(l: seq<T>, r: seq<T>, j: nat)
    requires j < |l| && j < |r|
    ensures j < CommonSuffix(l, r) ==> l[|l| - 1 - j] == r[|r| - 1 - j]
    ensures j == CommonSuffix(l, r) ==> l[|l| - 1 - j] != r[|r| - 1 - j]
    decreases j
  {
    if j > 0 && l[|l| - 1] == r[|r| - 1] {
      BackExact(l[..|l| - 1], r[..|r| - 1], j - 1);
    }
  }

  lemma StandingTaken(l: seq<Segment>, r: seq<Segment>, c: Cursors, i: nat, j: nat)
    requires Standing(l, r, c, i, j)
    ensures Taken(l, r, c, i, j)
  {
    assert l[c.le + 1..] == l[|l| - j..];
  }

  // ---------- how the loop ends ----------

  /** One side has a single segment left: the end of the other takes it, or the front. */
  lemma SingleLeft(l: seq<Segment>, r: seq<Segment>, c: Cursors, i: nat, j: nat)
    requires Standing(l, r, c, i, j) && |l| != |r| && i + j + 1 == Min(|l|, |r|)
    ensures var d := FixUp(l, r, c);
            && (l[|l| - 1 - j] == r[|r| - 1 - j] ==> Taken(l, r, d, i, j + 1))
            && (l[|l| - 1 - j] != r[|r| - 1 - j] && l[i] == r[i] ==> Taken(l, r, d, i + 1, j))
            && (l[|l| - 1 - j] != r[|r| - 1 - j] && l[i] != r[i] ==> Taken(l, r, d, i, j))
  {
    hide Join;
    StandingTaken(l, r, c, i, j);
    JoinUpTo(l, i);
    JoinUpTo(r, i);
    JoinFrom(l, |l| - 1 - j);
    JoinFrom(r, |r| - 1 - j);
    NothingJoined(l, i);
    NothingJoined(r, i);
    assert l[|l| - 1 - j + 1..] == l[|l| - j..] && r[|r| - 1 - j + 1..] == r[|r| - j..];
    assert l[|l| - (j + 1)..] == l[|l| - 1 - j..];
  }

  lemma NothingJoined(s: seq<Segment>, i: nat)
    requires i < |s|
    ensures Join(s[i..i]) == "" && Join(s[i + 1..i + 1]) == ""
  {
    assert s[i..i] == [] && s[i + 1..i + 1] == [];
  }

  /** The loop has taken the last two segments of one side at once. */
  lemma ConsumedTaken(l: seq<Segment>, r: seq<Segment>, c: Cursors, i: nat, j: nat)
    requires Inv(l, r, c) && |l| != |r| && i + j == Min(|l|, |r|) && i > 0 && j > 0
    requires c.ls == c.rs == i && c.lf == (|l| < |r|) && c.rf == (|r| < |l|)
    requires c.le == (if c.lf then |l| - j else |l| - 1 - j) && c.re == (if c.rf then |r| - j else |r| - 1 - j)
    ensures Taken(l, r, c, i, j)
  {
    hide Join;
    NothingJoined(l, i);
    NothingJoined(r, i);
  }

  /** The counts the rounds lead to, of which each takes one segment at either end while there is one. */
  lemma RoundsLead(p: nat, s: nat, m: nat, t: nat)
    requires p <= m && s <= m
    ensures var i, j := Min(p, t), Min(s, t);
            && (i + j + 1 == m && j < s ==> Places(p, s, m) == (i, j + 1))
            && (i + j + 1 == m && j == s && i < p ==> Places(p, s, m) == (i + 1, j))
            && (i + j < m && i == p && j == s ==> Places(p, s, m) == (i, j))
            && (i + j == m && i == j == t ==> Places(p, s, m) == (i, j))
  {
  }

  lemma NextCursors(l: seq<Segment>, r: seq<Segment>, c: Cursors, i: nat, j: nat)
    requires Standing(l, r, c, i, j) && c.ls != c.le && c.rs != c.re
    ensures var i' := if l[i] == r[i] then i + 1 else i;
            var j' := if l[|l| - 1 - j] == r[|r| - 1 - j] then j + 1 else j;
            var d := TakeSuffix(l, r, TakePrefix(l, r, c));
            && Inv(l, r, d)
            && (i' + j' < Min(|l|, |r|) ==> Standing(l, r, d, i', j'))
            && (i' + j' == Min(|l|, |r|) ==>
                && i' == i + 1 && j' == j + 1 && d.ls == d.rs == i'
                && d.lf == (i' + j' == |l|) && d.rf == (i' + j' == |r|)
                && d.le == (if d.lf then |l| - j' else |l| - 1 - j')
                && d.re == (if d.rf then |r| - j' else |r| - 1 - j'))
            && (i' == i && j' == j ==> Loop(l, r, c) == c)
            && (i' != i || j' != j ==> Loop(l, r, c) == Loop(l, r, d))
  {
    hide Join;
    TakePrefixKeeps(l, r, c);
    TakeSuffixKeeps(l, r, TakePrefix(l, r, c));
  }

  /** From the counts after `t` rounds the loop and the guarded fix-up reach the places of the segments. */
  lemma {:induction false} LoopPlaces(l: seq<Segment>, r: seq<Segment>, c: Cursors, t: nat)
    requires |l| != |r|
    requires Standing(l, r, c, Min(CommonPrefix(l, r), t), Min(CommonSuffix(l, r), t))
    ensures InRange(l, r, Loop(l, r, c))
    ensures var (i, j) := Shared(l, r); Taken(l, r, GuardedFixUp(l, r, Loop(l, r, c)), i, j)
    decreases c.le - c.ls + c.re - c.rs
  {
    hide CommonPrefix, CommonSuffix, FixUp, Join, Loop, Places, Taken;
    var p, s, m := CommonPrefix(l, r), CommonSuffix(l, r), Min(|l|, |r|);
    var i, j := Min(p, t), Min(s, t);
    LoopInRange(l, r, c);
    FrontExact(l, r, i);
    BackExact(l, r, j);
    RoundsLead(p, s, m, t);
    if c.ls == c.le || c.rs == c.re {
      LoopStops(l, r, c);
      SingleLeft(l, r, c, i, j);
    } else {
      NextCursors(l, r, c, i, j);
      RoundsLead(p, s, m, t + 1);
      if i == p && j == s {
        MismatchTaken(l, r, c, i, j);
      } else {
        NextRound(l, r, c, t);
      }
    }
  }

  lemma MismatchTaken(l: seq<Segment>, r: seq<Segment>, c: Cursors, i: nat, j: nat)
    requires Standing(l, r, c, i, j) && c.ls != c.le && c.rs != c.re
    ensures Taken(l, r, GuardedFixUp(l, r, c), i, j)
  {
    StandingTaken(l, r, c, i, j);
  }

  lemma {:induction false} NextRound(l: seq<Segment>, r: seq<Segment>, c: Cursors, t: nat)
    requires |l| != |r|
    requires Standing(l, r, c, Min(CommonPrefix(l, r), t), Min(CommonSuffix(l, r), t))
    requires c.ls != c.le && c.rs != c.re
    requires Min(CommonPrefix(l, r), t) < CommonPrefix(l, r) || Min(CommonSuffix(l, r), t) < CommonSuffix(l, r)
    ensures InRange(l, r, Loop(l, r, c))
    ensures var (i, j) := Shared(l, r); Taken(l, r, GuardedFixUp(l, r, Loop(l, r, c)), i, j)
    decreases c.le - c.ls + c.re - c.rs, 0
  {
    hide CommonPrefix, CommonSuffix, FixUp, Inv, Join, Loop, Places;
    var p, s, m := CommonPrefix(l, r), CommonSuffix(l, r), Min(|l|, |r|);
    var i, j := Min(p, t), Min(s, t);
    FrontExact(l, r, i);
    BackExact(l, r, j);
    NextCursors(l, r, c, i, j);
    var d := TakeSuffix(l, r, TakePrefix(l, r, c));
    assert Loop(l, r, c) == Loop(l, r, d);
    if Min(p, t + 1) + Min(s, t + 1) < m {
      LoopPlaces(l, r, d, t + 1);
    } else {
      LastRound(l, r, d, p, s, t);
    }
  }

  lemma LastRound(l: seq<Segment>, r: seq<Segment>, d: Cursors, p: nat, s: nat, t: nat)
    requires |l| != |r| && p == CommonPrefix(l, r) && s == CommonSuffix(l, r) && Inv(l, r, d)
    requires t + 1 <= p && t + 1 <= s && t + 1 + (t + 1) == Min(|l|, |r|)
    requires d.ls == d.rs == t + 1 && d.lf == (|l| < |r|) && d.rf == (|r| < |l|)
    requires d.le == (if d.lf then |l| - (t + 1) else |l| - 1 - (t + 1))
    requires d.re == (if d.rf then |r| - (t + 1) else |r| - 1 - (t + 1))
    ensures InRange(l, r, Loop(l, r, d))
    ensures var (i, j) := Shared(l, r); Taken(l, r, GuardedFixUp(l, r, Loop(l, r, d)), i, j)
  {
    hide Loop, Join, Places, CommonPrefix, CommonSuffix, FixUp, Inv, Taken;
    RoundsLead(p, s, Min(|l|, |r|), t + 1);
    CursorsInRange(l, r, d);
    LoopStops(l, r, d);
    ConsumedTaken(l, r, d, t + 1, t + 1);
  }

  lemma CursorsInRange(l: seq<Segment>, r: seq<Segment>, d: Cursors)
    requires Inv(l, r, d)
    ensures InRange(l, r, d)
  {
  }

  // ---------- the result ----------

  lemma RefineIsBetween(prefix: string, suffix: string, a: string, b: string, tp: bool, ts: bool)
    ensures Refine(prefix, suffix, a, b, tp, ts) == Between(prefix, suffix, a, b, tp, ts)
  {
    var sl := if ts then CommonSuffix(a, b) else 0;
    var x, y := a[..|a| - sl], b[..|b| - sl];
    var pl := if tp then CommonPrefix(x, y) else 0;
    assert x[..pl] == a[..pl] && x[pl..] == a[pl..|a| - sl] && y[pl..] == b[pl..|b| - sl];
  }

  lemma EmptyBetween(prefix: string, suffix: string, a: string, b: string, tp: bool, ts: bool)
    requires a == "" || b == ""
    ensures Between(prefix, suffix, a, b, tp, ts) == DiffSplit(prefix, suffix, a, b)
  {
    RefineEmpty(prefix, suffix, a, b, tp, ts);
    RefineIsBetween(prefix, suffix, a, b, tp, ts);
  }

  lemma FinishBest(left: string, l: seq<Segment>, r: seq<Segment>, d: Cursors)
    requires l != [] && r != [] && var (i, j) := Shared(l, r); Taken(l, r, d, i, j)
    ensures Finish(left, l, r, d) == BestOf(left, l, r)
  {
    hide Between, Refine, Join, Shared;
    var (i, j) := Shared(l, r);
    var tp, ts := r[d.rs].kind == Text && l[d.ls].kind == Text, l[d.le].kind == Text && r[d.re].kind == Text;
    var a, b := LeftRest(l, d), RightRest(r, d);
    RefineIsBetween(d.prefix, d.suffix, a, b, tp, ts);
    if i + j == Min(|l|, |r|) {
      NothingLeft(l, r, i, j);
      EmptyBetween(d.prefix, d.suffix, a, b, tp, ts);
      EmptyBetween(d.prefix, d.suffix, a, b, false, false);
    }
  }

  lemma NothingLeft(l: seq<Segment>, r: seq<Segment>, i: nat, j: nat)
    requires i + j == Min(|l|, |r|)
    ensures Join(l[i..|l| - j]) == "" || Join(r[i..|r| - j]) == ""
  {
    if |l| <= |r| {
      assert l[i..|l| - j] == [];
    } else {
      assert r[i..|r| - j] == [];
    }
  }

  lemma StartStands(l: seq<Segment>, r: seq<Segment>)
    requires l != [] && r != []
    ensures Standing(l, r, Start(l, r), 0, 0)
  {
    StartInv(l, r);
  }

  /** Segment lists of one length. */
  lemma EqualLengths(l: seq<Segment>, r: seq<Segment>, c: Cursors, t: nat)
    requires |l| == |r| && l != r
    requires Standing(l, r, c, Min(CommonPrefix(l, r), t), Min(CommonSuffix(l, r), t))
    ensures InRange(l, r, Loop(l, r, c))
    ensures var (i, j) := Shared(l, r); Taken(l, r, GuardedFixUp(l, r, Loop(l, r, c)), i, j)
    decreases c.le - c.ls + c.re - c.rs
  {
    hide Loop, Join, Places, CommonPrefix, CommonSuffix;
    var p, s, m := CommonPrefix(l, r), CommonSuffix(l, r), |l|;
    var i, j := Min(p, t), Min(s, t);
    SharedBelow(l, r);
    LoopInRange(l, r, c);
    FrontExact(l, r, i);
    BackExact(l, r, j);
    RoundsLead(p, s, m, t);
    if c.ls == c.le {
      LoopStops(l, r, c);
      StandingTaken(l, r, c, i, j);
    } else {
      NextCursors(l, r, c, i, j);
      if i == p && j == s {
        MismatchTaken(l, r, c, i, j);
      } else {
        EqualLengths(l, r, TakeSuffix(l, r, TakePrefix(l, r, c)), t + 1);
      }
    }
  }

  /** Different lists of one length share less than all at both ends together. */
  lemma SharedBelow(l: seq<Segment>, r: seq<Segment>)
    requires |l| == |r| && l != r
    ensures CommonPrefix(l, r) + CommonSuffix(l, r) < |l|
  {
    var k :| 0 <= k < |l| && l[k] != r[k];
    FrontBefore(l, r, k);
    BackBefore(l, r, |l| - 1 - k);
  }

  lemma {:induction false} FrontBefore<T>(l: seq<T>, r: seq<T>, k: nat)
    requires k < |l| && k < |r| && l[k] != r[k]
    ensures CommonPrefix(l, r) <= k
    decreases k
  {
    if k > 0 && l[0] == r[0] {
      FrontBefore(l[1..], r[1..], k - 1);
    }
  }

  lemma {:induction false} BackBefore<T>(l: seq<T>, r: seq<T>, k: nat)
    requires k < |l| && k < |r| && l[|l| - 1 - k] != r[|r| - 1 - k]
    ensures CommonSuffix(l, r) <= k
    decreases k
  {
    if k > 0 && l[|l| - 1] == r[|r| - 1] {
      BackBefore(l[..|l| - 1], r[..|r| - 1], k - 1);
    }
  }

  lemma BestOfLists(left: string, l: seq<Segment>, r: seq<Segment>)
    requires l != [] && r != [] && l != r
    ensures InRange(l, r, Loop(l, r, Start(l, r)))
    ensures Finish(left, l, r, GuardedFixUp(l, r, Loop(l, r, Start(l, r)))) == BestOf(left, l, r)
  {
    hide Loop, GuardedFixUp, Finish, BestOf, Taken, Shared, Standing;
    StartStands(l, r);
    if |l| == |r| {
      EqualLengths(l, r, Start(l, r), 0);
    } else {
      LoopPlaces(l, r, Start(l, r), 0);
    }
    FinishBest(left, l, r, GuardedFixUp(l, r, Loop(l, r, Start(l, r))));
  }

  lemma {:induction false} SharedAll<T>(l: seq<T>)
    ensures CommonPrefix(l, l) == |l| && CommonSuffix(l, l) == |l|
    decreases |l|
  {
    if l != [] {
      SharedAll(l[1..]);
      SharedAll(l[..|l| - 1]);
    }
  }

  lemma BestOfEqual(left: string, l: seq<Segment>)
    ensures BestOf(left, l, l) == DiffSplit(left, "", "", "")
  {
    hide Join, Between;
    SharedAll(l);
    var (i, j) := Shared(l, l);
    NothingLeft(l, l, i, j);
    EmptyBetween(Join(l[..i]), Join(l[|l| - j..]), "", "", false, false);
  }

  lemma BestOfNothing(left: string, l: seq<Segment>, r: seq<Segment>)
    requires (l == [] || r == []) && left == Join(l)
    ensures BestOf(left, l, r) == DiffSplit("", "", Join(l), Join(r))
  {
    hide Join, Between, Shared;
    NothingShared(l, r);
    JoinNothing();
    assert l[..0] == [] && l[|l| - 0..] == [] && l[0..|l| - 0] == l && r[0..|r| - 0] == r;
    EmptyBetween("", "", Join(l), Join(r), false, false);
  }

  lemma NothingShared(l: seq<Segment>, r: seq<Segment>)
    requires l == [] || r == []
    ensures Shared(l, r) == (0, 0)
  {
  }

  lemma JoinNothing()
    ensures Join([]) == ""
  {
  }

  /** The guarded difference is the split read off the segments, for all inputs. */
  lemma GuardedIsBest(left: string, right: string)
    ensures GuardedDiff(left, right) == BestSplit(left, right)
  {
    hide BestOf, Finish, Loop, GuardedFixUp, Canonical, FirstOk, Segments;
    SegmentsSound(left);
    SegmentsSound(right);
    var l, r := Segments(left), Segments(right);
    NoSegments(left);
    NoSegments(right);
    if l == [] || r == [] {
      BestOfNothing(left, l, r);
    } else if l == r {
      BestOfEqual(left, l);
      EqualGuarded(left);
    } else {
      BestOfLists(left, l, r);
      LoopInRange(l, r, Start(l, r));
    }
  }

  lemma NoSegments(t: string)
    ensures Segments(t) == [] <==> t == ""
  {
  }

  lemma EqualGuarded(t: string)
    ensures GuardedDiff(t, t) == DiffSplit(t, "", "", "")
  {
    hide DiffOf, GuardedDiff;
    EqualInputs(t);
    RematchedExact(t, t);
    GuardedLossless(t, t);
  }

  /** The difference is the split read off the segments, unless a consumed segment is matched again. */
  lemma DiffIsBest(left: string, right: string)
    requires !Rematched(left, right)
    ensures DiffOf(left, right) == BestSplit(left, right)
  {
    hide DiffOf, GuardedDiff, BestSplit, Rematched;
    GuardedLossless(left, right);
    GuardedIsBest(left, right);
  }

  // ---------- nothing more is shared ----------

  predicate Opens(c: char) {
    c == '<' || c == '['
  }

  predicate Shuts(c: char) {
    c == '>' || c == ']'
  }

  lemma {:induction false} MarkerEnds(l: seq<Segment>, k: nat)
    requires Canonical(l) && k < |l|
    ensures l[k].value != ""
    ensures l[k].kind == Marker ==> Opens(l[k].value[0]) && Shuts(l[k].value[|l[k].value| - 1])
    decreases |l|
  {
    if k > 0 {
      MarkerEnds(l[1..], k - 1);
    }
  }

  /** A range of segments begins with its first segment and ends with its last. */
  lemma RangeEnds(l: seq<Segment>, i: nat, n: nat)
    requires Canonical(l) && i < n <= |l|
    ensures Join(l[i..n]) != "" && l[i].value != "" && l[n - 1].value != ""
    ensures Join(l[i..n])[0] == l[i].value[0]
    ensures Join(l[i..n])[|Join(l[i..n])| - 1] == l[n - 1].value[|l[n - 1].value| - 1]
  {
    MarkerEnds(l, i);
    MarkerEnds(l, n - 1);
    JoinEnds(l, i, n - 1);
  }

  lemma BetweenFront(prefix: string, suffix: string, a: string, b: string, tp: bool, ts: bool)
    requires var d := Between(prefix, suffix, a, b, tp, ts); d.left != "" && d.right != ""
    ensures var d := Between(prefix, suffix, a, b, tp, ts);
            && (tp ==> d.left[0] != d.right[0])
            && (!tp ==> a != "" && b != "" && d.left[0] == a[0] && d.right[0] == b[0])
  {
    var sl := if ts then CommonSuffix(a, b) else 0;
    var x, y := a[..|a| - sl], b[..|b| - sl];
    if tp {
      FrontExact(x, y, CommonPrefix(x, y));
    }
  }

  lemma BetweenBack(prefix: string, suffix: string, a: string, b: string, tp: bool, ts: bool)
    requires var d := Between(prefix, suffix, a, b, tp, ts); d.left != "" && d.right != ""
    ensures var d := Between(prefix, suffix, a, b, tp, ts);
            && (ts ==> d.left[|d.left| - 1] != d.right[|d.right| - 1])
            && (!ts ==> && a != "" && b != "" && d.left[|d.left| - 1] == a[|a| - 1]
                        && d.right[|d.right| - 1] == b[|b| - 1])
  {
    if ts {
      BackExact(a, b, CommonSuffix(a, b));
    }
  }

  /** What is left between the shared segments, and the ends of it. */
  lemma RestEnds(l: seq<Segment>, r: seq<Segment>, i: nat, j: nat)
    requires Canonical(l) && Canonical(r) && (i, j) == Shared(l, r)
    ensures var a, b, more := Join(l[i..|l| - j]), Join(r[i..|r| - j]), i + j < Min(|l|, |r|);
            && (!more ==> a == "" || b == "")
            && (more ==> a != "" && b != "")
            && (more && !BothText(l, i, r, i) ==> Opens(a[0]) || Opens(b[0]))
            && (more && !BothText(l, |l| - 1 - j, r, |r| - 1 - j) ==> Shuts(a[|a| - 1]) || Shuts(b[|b| - 1]))
  {
    hide Join, Canonical;
    if i + j < Min(|l|, |r|) {
      RangeEnds(l, i, |l| - j);
      RangeEnds(r, i, |r| - j);
      MarkerEnds(l, i);
      MarkerEnds(r, i);
      MarkerEnds(l, |l| - 1 - j);
      MarkerEnds(r, |r| - 1 - j);
    } else {
      NothingLeft(l, r, i, j);
    }
  }

  lemma BestMinimal(left: string, l: seq<Segment>, r: seq<Segment>)
    requires Canonical(l) && Canonical(r)
    requires BestOf(left, l, r).left != "" && BestOf(left, l, r).right != ""
    ensures var d := BestOf(left, l, r);
            && (!Opens(d.left[0]) && !Opens(d.right[0]) ==> d.left[0] != d.right[0])
            && (!Shuts(d.left[|d.left| - 1]) && !Shuts(d.right[|d.right| - 1]) ==>
                d.left[|d.left| - 1] != d.right[|d.right| - 1])
  {
    hide Join, Canonical, Shared, Between, BothText;
    var (i, j) := Shared(l, r);
    var more := i + j < Min(|l|, |r|);
    var tp, ts := more && BothText(l, i, r, i), more && BothText(l, |l| - 1 - j, r, |r| - 1 - j);
    var prefix, suffix, a, b := Join(l[..i]), Join(l[|l| - j..]), Join(l[i..|l| - j]), Join(r[i..|r| - j]);
    RestEnds(l, r, i, j);
    if !more {
      EmptyBetween(prefix, suffix, a, b, tp, ts);
    }
    BetweenFront(prefix, suffix, a, b, tp, ts);
    BetweenBack(prefix, suffix, a, b, tp, ts);
  }

  /**
   * What is left on both sides differs in its first character, unless one begins with an opening bracket, and in
   * its last, unless one ends with a closing bracket: only whole markers are moved.
   */
  lemma DifferenceMinimal(left: string, right: string)
    requires !Rematched(left, right) && DiffOf(left, right).left != "" && DiffOf(left, right).right != ""
    ensures var d := DiffOf(left, right);
            && (!Opens(d.left[0]) && !Opens(d.right[0]) ==> d.left[0] != d.right[0])
            && (!Shuts(d.left[|d.left| - 1]) && !Shuts(d.right[|d.right| - 1]) ==>
                d.left[|d.left| - 1] != d.right[|d.right| - 1])
  {
    hide DiffOf, BestOf, Rematched, Canonical, FirstOk, Segments;
    DiffIsBest(left, right);
    SegmentsSound(left);
    SegmentsSound(right);
    BestMinimal(left, Segments(left), Segments(right));
  }

  // ---------- texts without markers ----------

  predicate NoOpener(t: string) {
    '<' !in t && '[' !in t
  }

  lemma OneSegment(t: string)
    requires t != "" && NoOpener(t)
    ensures Segments(t) == [Segment(Text, t)]
  {
    TextIsText(t, "");
    assert t + "" == t && Segments("") == [] && [Segment(Text, t)] + [] == [Segment(Text, t)];
  }

  lemma OneEach(left: string, x: Segment, y: Segment)
    requires x != y && x.kind == y.kind == Text && (x.value != "" || y.value != "")
    ensures BestOf(left, [x], [y]) == Represent(left, Between("", "", x.value, y.value, true, true))
  {
    hide Between;
    assert CommonPrefix([x], [y]) == 0 && CommonSuffix([x], [y]) == 0;
    assert Shared([x], [y]) == (0, 0);
    assert [x][..0] == [] && [x][1..] == [] && [x][0..1] == [x] && [y][0..1] == [y];
    JoinNothing();
    JoinSingle([x], 0);
    JoinSingle([y], 0);
  }

  lemma NotRematched(left: string, right: string, x: Segment, y: Segment)
    requires Segments(left) == [x] && Segments(right) == [y]
    ensures !Rematched(left, right)
  {
    RematchedExact(left, right);
  }

  /** The longest common end of two texts, and what comes before it in each. */
  function SharedEnd(a: string, b: string): string {
    a[|a| - CommonSuffix(a, b)..]
  }

  function BeforeEnd(a: string, b: string): (string, string) {
    (a[..|a| - CommonSuffix(a, b)], b[..|b| - CommonSuffix(a, b)])
  }

  lemma EmptySides(s: string)
    ensures "" + s == s && s + "" == s
  {
  }

  lemma BetweenIs(a: string, b: string)
    ensures var (x, y) := BeforeEnd(a, b);
            Between("", "", a, b, true, true) == Cut("", SharedEnd(a, b) + "", x, y, CommonPrefix(x, y))
  {
    hide CommonPrefix, CommonSuffix, Cut;
  }

  lemma CutIs(suffix: string, x: string, y: string, pl: nat)
    requires pl <= |x| && pl <= |y|
    ensures Cut("", suffix + "", x, y, pl) == DiffSplit(x[..pl], suffix, x[pl..], y[pl..])
  {
    EmptySides(x[..pl]);
    EmptySides(suffix);
  }

  lemma Kept(left: string, suffix: string, x: string, y: string, pl: nat)
    requires pl <= |x| && pl <= |y| && (pl < |x| || pl < |y|)
    ensures var d := DiffSplit(x[..pl], suffix, x[pl..], y[pl..]); Represent(left, d) == d
  {
  }

  lemma NotAllShared(left: string, right: string)
    requires left != right
    ensures var (x, y) := BeforeEnd(left, right); CommonPrefix(x, y) < |x| || CommonPrefix(x, y) < |y|
  {
    hide CommonPrefix, CommonSuffix;
    var (x, y) := BeforeEnd(left, right);
    if CommonPrefix(x, y) == |x| == |y| {
      AllShared(left, right, CommonSuffix(left, right), |x|);
    }
  }

  lemma AllShared(left: string, right: string, sl: nat, pl: nat)
    requires sl == CommonSuffix(left, right)
    requires pl == CommonPrefix(left[..|left| - sl], right[..|right| - sl])
    requires pl == |left| - sl == |right| - sl
    ensures left == right
  {
    hide CommonPrefix, CommonSuffix;
    var x, y := left[..|left| - sl], right[..|right| - sl];
    CommonPrefixEqual(x, y);
    CommonSuffixEqual(left, right);
    assert x[..pl] == x && y[..pl] == y;
    assert left == x + Tail(left, sl) && right == y + Tail(right, sl);
  }

  /** Two texts without brackets share their longest common end, and of the rest their longest common beginning. */
  lemma PlainDifference(left: string, right: string)
    requires left != "" && right != "" && left != right && NoOpener(left) && NoOpener(right)
    ensures var (x, y) := BeforeEnd(left, right);
            var pl := CommonPrefix(x, y);
            DiffOf(left, right) == DiffSplit(x[..pl], SharedEnd(left, right), x[pl..], y[pl..])
  {
    hide *;
    OneSegment(left);
    OneSegment(right);
    NotRematched(left, right, Segment(Text, left), Segment(Text, right));
    DiffIsBest(left, right);
    BestIs(left, right);
    OneEach(left, Segment(Text, left), Segment(Text, right));
    BetweenIs(left, right);
    var (x, y) := BeforeEnd(left, right);
    CutIs(SharedEnd(left, right), x, y, CommonPrefix(x, y));
    NotAllShared(left, right);
    Kept(left, SharedEnd(left, right), x, y, CommonPrefix(x, y));
  }

  lemma BestIs(left: string, right: string)
    ensures BestSplit(left, right) == BestOf(left, Segments(left), Segments(right))
  {
  }

  /** The longest: nothing longer is a common beginning. */
  lemma LongestFront<T>(a: seq<T>, b: seq<T>, n: nat)
    requires n <= |a| && n <= |b|
    ensures a[..n] == b[..n] <==> n <= CommonPrefix(a, b)
  {
    hide CommonPrefix;
    var p := CommonPrefix(a, b);
    if n <= p {
      CommonPrefixEqual(a, b);
      assert a[..n] == a[..p][..n] && b[..n] == b[..p][..n];
    } else {
      FrontExact(a, b, p);
      assert a[..n][p] == a[p] && b[..n][p] == b[p];
    }
  }

  /** And nothing longer is a common end. */
  lemma LongestBack<T>(a: seq<T>, b: seq<T>, n: nat)
    requires n <= |a| && n <= |b|
    ensures a[|a| - n..] == b[|b| - n..] <==> n <= CommonSuffix(a, b)
  {
    hide CommonSuffix;
    var s := CommonSuffix(a, b);
    if n <= s {
      CommonSuffixEqual(a, b);
      TailOfTail(a, s, n);
      TailOfTail(b, s, n);
    } else {
      BackExact(a, b, s);
      var x, y := a[|a| - n..], b[|b| - n..];
      assert x[n - 1 - s] == a[|a| - 1 - s] && y[n - 1 - s] == b[|b| - 1 - s];
    }
  }

  lemma TailOfTail<T>(a: seq<T>, s: nat, n: nat)
    requires n <= s <= |a|
    ensures a[|a| - n..] == Tail(a, s)[s - n..]
  {
  }
}
