/**
 * Deltas between successive snapshots of a message, the client that folds them, and the cache that keeps
 * tool-call ids stable.
 */
module MessageDiff {
  import opened Common
  import opened ToolCallMapper

  /** `index` is `None` where the source stores `npos`. */
  datatype Diff = Diff(reasoning: string, content: string, index: Option<nat>, call: ToolCall)

  datatype DiffError = NotAtStart | FewerToolCalls | ToolCallMismatch

  function ReasoningDiff(t: string): Diff { Diff(t, "", None, EMPTY_CALL) }
  function ContentDiff(t: string): Diff { Diff("", t, None, EMPTY_CALL) }
  function CallDiff(i: nat, tc: ToolCall): Diff { Diff("", "", Some(i), tc) }

  // ---------- compute_diffs ----------

  function StringDiff(last: string, current: string): Result<string, DiffError> {
    if last == "" then Ok(current)
    else if last <= current then Ok(current[|last|..])
    else if current <= last then Ok("")
    else Err(NotAtStart)
  }

  predicate NameMismatch(p: ToolCall, n: ToolCall) {
    p.name != n.name && p.name != "" && n.name != "" && !(p.name <= n.name)
  }

  /** The delta for the last call of the previous message. */
  function LastCallDiff(i: nat, p: ToolCall, n: ToolCall): Result<seq<Diff>, DiffError> {
    if NameMismatch(p, n) then Err(ToolCallMismatch)
    else match StringDiff(p.arguments, n.arguments)
      case Err(e) => Err(e)
      case Ok(args) =>
        var renamed := p.id != n.id || p.name != n.name;
        if args == "" && !renamed then Ok([])
        else Ok([CallDiff(i, ToolCall(if renamed then n.name else "", args, if renamed then n.id else ""))])
  }

  function NewCallDiffs(calls: seq<ToolCall>, from: nat): seq<Diff>
    requires from <= |calls|
    decreases |calls| - from
  {
    if from == |calls| then [] else [CallDiff(from, calls[from])] + NewCallDiffs(calls, from + 1)
  }

  function TextDelta(prv: string, new_: string): Result<string, DiffError> {
    if prv == new_ then Ok("") else StringDiff(prv, new_)
  }

  function TextDiffs(prv: Message, new_: Message): Result<seq<Diff>, DiffError> {
    match TextDelta(prv.reasoning, new_.reasoning)
    case Err(e) => Err(e)
    case Ok(r) =>
      match TextDelta(prv.content, new_.content)
      case Err(e) => Err(e)
      case Ok(c) => Ok((if prv.reasoning == new_.reasoning then [] else [ReasoningDiff(r)])
                       + (if prv.content == new_.content then [] else [ContentDiff(c)]))
  }

  function CallDiffs(p: seq<ToolCall>, n: seq<ToolCall>): Result<seq<Diff>, DiffError> {
    if |n| < |p| then Err(FewerToolCalls)
    else if p == [] then Ok(NewCallDiffs(n, 0))
    else match LastCallDiff(|p| - 1, p[|p| - 1], n[|p| - 1])
      case Err(e) => Err(e)
      case Ok(last) => Ok(last + NewCallDiffs(n, |p|))
  }

  function Diffs(prv: Message, new_: Message): Result<seq<Diff>, DiffError> {
    match TextDiffs(prv, new_)
    case Err(e) => Err(e)
    case Ok(text) =>
      match CallDiffs(prv.toolCalls, new_.toolCalls)
      case Err(e) => Err(e)
      case Ok(calls) => Ok(text + calls)
  }

  method ComputeDiffs(prv: Message, new_: Message) returns (r: Result<seq<Diff>, DiffError>)
    ensures r == Diffs(prv, new_)
  {
    var diffs: seq<Diff> := [];
    if prv.reasoning != new_.reasoning {
      match StringDiff(prv.reasoning, new_.reasoning) {
        case Err(e) => return Err(e);
        case Ok(t) => diffs := [ReasoningDiff(t)];
      }
    }
    ghost var reasoning := diffs;
    if prv.content != new_.content {
      match StringDiff(prv.content, new_.content) {
        case Err(e) => return Err(e);
        case Ok(t) => diffs := diffs + [ContentDiff(t)];
      }
    } else {
      assert diffs == reasoning + [];
    }
    assert TextDiffs(prv, new_).Ok? && TextDiffs(prv, new_).value == diffs;
    r := AddCallDiffs(diffs, prv.toolCalls, new_.toolCalls);
  }

  /** The part of `compute_diffs` about the last call of the previous message. */
  method AddLastCall(idx: nat, pref: ToolCall, newf: ToolCall) returns (r: Result<seq<Diff>, DiffError>)
    ensures r == LastCallDiff(idx, pref, newf)
  {
    hide StringDiff;
    if pref.name != newf.name && pref.name != "" && newf.name != "" {
      var isPrefix := pref.name <= newf.name;
      if !isPrefix {
        return Err(ToolCallMismatch);
      }
    }
    match StringDiff(pref.arguments, newf.arguments) {
      case Err(e) => return Err(e);
      case Ok(argsDiff) =>
        r := Ok([]);
        if argsDiff != "" || pref.id != newf.id || pref.name != newf.name {
          var delta := EMPTY_CALL;
          if pref.id != newf.id || pref.name != newf.name {
            delta := delta.(id := newf.id, name := newf.name);
          }
          delta := delta.(arguments := argsDiff);
          r := Ok([CallDiff(idx, delta)]);
        }
    }
  }

  /** The part about tool calls: first the last known call, then the new ones. */
  method AddCallDiffs(before: seq<Diff>, prv: seq<ToolCall>, new_: seq<ToolCall>)
    returns (r: Result<seq<Diff>, DiffError>)
    ensures r == match CallDiffs(prv, new_) case Err(e) => Err(e) case Ok(calls) => Ok(before + calls)
  {
    hide CallDiff, LastCallDiff;
    if |new_| < |prv| {
      return Err(FewerToolCalls);
    }
    var diffs: seq<Diff> := [];
    if prv != [] {
      var told := AddLastCall(|prv| - 1, prv[|prv| - 1], new_[|prv| - 1]);
      match told {
        case Err(e) => return Err(e);
        case Ok(ds) => diffs := ds;
      }
    }
    ghost var last := diffs;
    var idx := |prv|;
    while idx < |new_|
      invariant |prv| <= idx <= |new_|
      invariant diffs + NewCallDiffs(new_, idx) == last + NewCallDiffs(new_, |prv|)
    {
      diffs := diffs + [CallDiff(idx, new_[idx])];
      idx := idx + 1;
    }
    assert diffs == diffs + NewCallDiffs(new_, idx);
    assert prv == [] ==> diffs == NewCallDiffs(new_, 0);
    r := Ok(before + diffs);
  }

  // ---------- the client ----------

  function PadCalls(calls: seq<ToolCall>, n: nat): seq<ToolCall>
    decreases n - |calls|
  {
    if |calls| >= n then calls else PadCalls(calls + [EMPTY_CALL], n)
  }

  function MergeCall(tc: ToolCall, d: ToolCall): ToolCall {
    ToolCall(if d.name != "" then d.name else tc.name,
             tc.arguments + d.arguments,
             if d.id != "" then d.id else tc.id)
  }

  lemma {:induction false} PadCallsLength(calls: seq<ToolCall>, n: nat)
    ensures calls <= PadCalls(calls, n)
    ensures |PadCalls(calls, n)| == if |calls| >= n then |calls| else n
    decreases n - |calls|
  {
    if |calls| < n {
      PadCallsLength(calls + [EMPTY_CALL], n);
    }
  }

  /** A delta as the client of the OpenAI-compatible stream applies it: empty fields are not sent. */
  function Apply(m: Message, d: Diff): Message {
    var m1 := m.(reasoning := m.reasoning + d.reasoning, content := m.content + d.content);
    match d.index
    case None => m1
    case Some(i) =>
      PadCallsLength(m.toolCalls, i + 1);
      var calls := PadCalls(m.toolCalls, i + 1);
      m1.(toolCalls := calls[i := MergeCall(calls[i], d.call)])
  }

  function ApplyAll(m: Message, ds: seq<Diff>): Message
    decreases |ds|
  {
    if ds == [] then m else ApplyAll(Apply(m, ds[0]), ds[1..])
  }

  lemma {:induction false} ApplyConcat(m: Message, a: seq<Diff>, b: seq<Diff>)
    ensures ApplyAll(m, a + b) == ApplyAll(ApplyAll(m, a), b)
    decreases |a|
  {
    if a == [] {
      assert a + b == b;
    } else {
      assert (a + b)[0] == a[0] && (a + b)[1..] == a[1..] + b;
      ApplyConcat(Apply(m, a[0]), a[1..], b);
    }
  }

  lemma ApplyOne(m: Message, d: Diff)
    ensures ApplyAll(m, [d]) == Apply(m, d)
  {
    assert [d][1..] == [];
    assert ApplyAll(Apply(m, d), []) == Apply(m, d);
  }

  // ---------- exactly when the deltas rebuild the message ----------

  /** What a call already sent may turn into without the client missing anything. */
  predicate CallFollows(p: ToolCall, n: ToolCall) {
    && p.arguments <= n.arguments
    && p.name <= n.name
    && (n.id == p.id || n.id != "")
  }

  /** Of the calls already sent, only the last may still change. */
  predicate CallsFollow(p: seq<ToolCall>, n: seq<ToolCall>) {
    && |p| <= |n|
    && (forall i | 0 <= i < |p| - 1 :: p[i] == n[i])
    && (p != [] ==> CallFollows(p[|p| - 1], n[|p| - 1]))
  }

  predicate Follows(prv: Message, new_: Message) {
    && prv.content <= new_.content
    && prv.reasoning <= new_.reasoning
    && CallsFollow(prv.toolCalls, new_.toolCalls)
  }

  lemma {:induction false} ApplyNewCalls(m: Message, calls: seq<ToolCall>, from: nat)
    requires from <= |calls| && |m.toolCalls| == from
    ensures ApplyAll(m, NewCallDiffs(calls, from)) == m.(toolCalls := m.toolCalls + calls[from..])
    decreases |calls| - from
  {
    if from == |calls| {
      assert m.toolCalls + calls[from..] == m.toolCalls;
    } else {
      var d := CallDiff(from, calls[from]);
      var m1 := Apply(m, d);
      assert PadCalls(m.toolCalls, from + 1) == PadCalls(m.toolCalls + [EMPTY_CALL], from + 1);
      assert MergeCall(EMPTY_CALL, calls[from]) == calls[from];
      assert m1.toolCalls == m.toolCalls + [calls[from]];
      assert NewCallDiffs(calls, from)[1..] == NewCallDiffs(calls, from + 1);
      ApplyNewCalls(m1, calls, from + 1);
      assert m1.toolCalls + calls[from + 1..] == m.toolCalls + calls[from..];
    }
  }

  /** Folding the text deltas appends, so it reaches the new text exactly when the text has grown. */
  lemma ApplyTextDiffs(prv: Message, new_: Message)
    ensures prv.content <= new_.content && prv.reasoning <= new_.reasoning ==> TextDiffs(prv, new_).Ok?
    ensures TextDiffs(prv, new_).Ok? ==>
              var m := ApplyAll(prv, TextDiffs(prv, new_).value);
              && m.toolCalls == prv.toolCalls
              && (m.content == new_.content <==> prv.content <= new_.content)
              && (m.reasoning == new_.reasoning <==> prv.reasoning <= new_.reasoning)
  {
    if TextDiffs(prv, new_).Ok? {
      var ds := TextDiffs(prv, new_).value;
      var r := if prv.reasoning == new_.reasoning then []
               else [ReasoningDiff(StringDiff(prv.reasoning, new_.reasoning).value)];
      var c := if prv.content == new_.content then []
               else [ContentDiff(StringDiff(prv.content, new_.content).value)];
      assert ds == r + c;
      ApplyConcat(prv, r, c);
      var m1 := ApplyAll(prv, r);
      if r != [] { ApplyOne(prv, r[0]); }
      if c != [] { ApplyOne(m1, c[0]); }
    }
  }

  /** The delta of the last call turns it into some call that is the new one exactly when that follows. */
  lemma ApplyLastCall(m: Message, p: ToolCall, n: ToolCall) returns (tc: ToolCall)
    requires m.toolCalls != [] && m.toolCalls[|m.toolCalls| - 1] == p
    ensures CallFollows(p, n) ==> LastCallDiff(|m.toolCalls| - 1, p, n).Ok?
    ensures var i := |m.toolCalls| - 1;
            LastCallDiff(i, p, n).Ok? ==>
              && ApplyAll(m, LastCallDiff(i, p, n).value) == m.(toolCalls := m.toolCalls[i := tc])
              && (tc == n <==> CallFollows(p, n))
  {
    tc := p;
    var i := |m.toolCalls| - 1;
    if LastCallDiff(i, p, n).Ok? {
      var ds := LastCallDiff(i, p, n).value;
      if ds == [] {
        assert ApplyAll(m, ds) == m.(toolCalls := m.toolCalls[i := p]);
        assert p == n <==> CallFollows(p, n);
      } else {
        ApplyOne(m, ds[0]);
        assert PadCalls(m.toolCalls, i + 1) == m.toolCalls;
        tc := MergeCall(p, ds[0].call);
        assert tc == n <==> CallFollows(p, n);
      }
    }
  }

  lemma ApplyCallDiffs(m: Message, p: seq<ToolCall>, n: seq<ToolCall>)
    requires m.toolCalls == p && CallDiffs(p, n).Ok?
    ensures var r := ApplyAll(m, CallDiffs(p, n).value);
            && r.content == m.content && r.reasoning == m.reasoning
            && (r.toolCalls == n <==> CallsFollow(p, n))
  {
    if p == [] {
      ApplyNewCalls(m, n, 0);
    } else {
      var i := |p| - 1;
      var last := LastCallDiff(i, p[i], n[i]).value;
      var tc := ApplyLastCall(m, p[i], n[i]);
      ApplyConcat(m, last, NewCallDiffs(n, |p|));
      ApplyNewCalls(m.(toolCalls := p[i := tc]), n, |p|);
      ReplacedLast(p, n, tc);
    }
  }

  lemma ReplacedLast(p: seq<ToolCall>, n: seq<ToolCall>, tc: ToolCall)
    requires 0 < |p| <= |n|
    ensures p[|p| - 1 := tc] + n[|p|..] == n <==>
            tc == n[|p| - 1] && forall i | 0 <= i < |p| - 1 :: p[i] == n[i]
  {
    var r := p[|p| - 1 := tc] + n[|p|..];
    assert r[|p| - 1] == tc && forall j | 0 <= j < |p| - 1 :: r[j] == p[j];
    if tc == n[|p| - 1] && forall i | 0 <= i < |p| - 1 :: p[i] == n[i] {
      assert forall j | 0 <= j < |n| :: r[j] == n[j];
    }
  }

  /** The deltas exist and rebuild the new message from the old one exactly when it follows the old one. */
  lemma DiffsLossless(prv: Message, new_: Message)
    ensures Follows(prv, new_) <==> Diffs(prv, new_).Ok? && ApplyAll(prv, Diffs(prv, new_).value) == new_
  {
    ApplyTextDiffs(prv, new_);
    var p, n := prv.toolCalls, new_.toolCalls;
    if Follows(prv, new_) && p != [] {
      var _ := ApplyLastCall(prv, p[|p| - 1], n[|p| - 1]);
    }
    if Diffs(prv, new_).Ok? {
      var text, calls := TextDiffs(prv, new_).value, CallDiffs(p, n).value;
      ApplyConcat(prv, text, calls);
      ApplyCallDiffs(ApplyAll(prv, text), p, n);
    }
  }

  // ---------- which deltas are sent ----------

  /** A delta that tells the client nothing. */
  predicate SaysNothing(d: Diff) {
    d.reasoning == "" && d.content == "" && d.call == EMPTY_CALL
  }

  /** Nothing is sent for a message that did not change. */
  lemma NothingNew(m: Message)
    ensures Diffs(m, m) == Ok([])
  {
    assert TextDiffs(m, m) == Ok([]) by {
      assert TextDiffs(m, m).Ok? && TextDiffs(m, m).value == [];
    }
    var calls := m.toolCalls;
    if calls != [] {
      var c := calls[|calls| - 1];
      assert c.arguments[|c.arguments|..] == "";
      assert LastCallDiff(|calls| - 1, c, c) == Ok([]);
    }
    assert CallDiffs(calls, calls).Ok? && CallDiffs(calls, calls).value == [];
    assert Diffs(m, m).Ok? && Diffs(m, m).value == [];
  }

  /** What changed about a call already sent. */
  predicate Changed(p: ToolCall, n: ToolCall) {
    |n.arguments| > |p.arguments| || n.name != p.name || n.id != p.id
  }

  function One(told: bool): nat {
    if told then 1 else 0
  }

  lemma StringDiffLength(last: string, current: string)
    requires StringDiff(last, current).Ok?
    ensures StringDiff(last, current).value == "" <==> |current| <= |last|
    ensures |current| <= |last| ==> current <= last
  {
  }

  lemma LastCallTold(i: nat, p: ToolCall, n: ToolCall)
    requires LastCallDiff(i, p, n).Ok?
    ensures var ds := LastCallDiff(i, p, n).value;
            && |ds| == One(Changed(p, n)) && (forall d | d in ds :: d.index == Some(i))
            && ((exists d | d in ds :: SaysNothing(d)) <==>
                Changed(p, n) && n.name == "" && n.id == "" && |n.arguments| <= |p.arguments|)
  {
    StringDiffLength(p.arguments, n.arguments);
    var ds := LastCallDiff(i, p, n).value;
    if ds != [] {
      assert SaysNothing(ds[0]) <==> n.name == "" && n.id == "" && |n.arguments| <= |p.arguments|;
    }
  }

  lemma {:induction false} NewCallsTold(calls: seq<ToolCall>, from: nat)
    requires from <= |calls|
    ensures var ds := NewCallDiffs(calls, from);
            && |ds| == |calls| - from && (forall k | 0 <= k < |ds| :: ds[k] == CallDiff(from + k, calls[from + k]))
    decreases |calls| - from
  {
    hide CallDiff;
    if from < |calls| {
      NewCallsTold(calls, from + 1);
      var ds, rest := NewCallDiffs(calls, from), NewCallDiffs(calls, from + 1);
      forall k | 0 <= k < |ds|
        ensures ds[k] == CallDiff(from + k, calls[from + k])
      {
        if k > 0 {
          var j := k - 1;
          assert ds[k] == rest[j] == CallDiff(from + 1 + j, calls[from + 1 + j]) && from + 1 + j == from + k;
        }
      }
    }
  }

  lemma NewCallsSilent(calls: seq<ToolCall>, from: nat)
    requires from <= |calls|
    ensures (exists d | d in NewCallDiffs(calls, from) :: SaysNothing(d)) <==>
            exists k | from <= k < |calls| :: calls[k] == EMPTY_CALL
  {
    NewCallsTold(calls, from);
    var ds := NewCallDiffs(calls, from);
    if k :| from <= k < |calls| && calls[k] == EMPTY_CALL {
      var j := k - from;
      var d := ds[j];
      assert d == CallDiff(from + j, calls[from + j]) && from + j == k;
      assert d in ds && SaysNothing(d);
    }
    if d :| d in ds && SaysNothing(d) {
      var j :| 0 <= j < |ds| && ds[j] == d;
      var k := from + j;
      assert d == CallDiff(k, calls[k]) && from <= k < |calls| && calls[k] == EMPTY_CALL;
    }
  }

  lemma TextsTold(prv: Message, new_: Message)
    requires TextDiffs(prv, new_).Ok?
    ensures var ds := TextDiffs(prv, new_).value;
            && |ds| == One(prv.reasoning != new_.reasoning) + One(prv.content != new_.content)
            && (forall d | d in ds :: d.index == None)
            && ((exists d | d in ds :: SaysNothing(d)) <==>
                |new_.reasoning| < |prv.reasoning| || |new_.content| < |prv.content|)
  {
    var r := if prv.reasoning == new_.reasoning then []
             else [ReasoningDiff(StringDiff(prv.reasoning, new_.reasoning).value)];
    var c := if prv.content == new_.content then []
             else [ContentDiff(StringDiff(prv.content, new_.content).value)];
    assert TextDiffs(prv, new_).value == r + c;
    if r != [] {
      StringDiffLength(prv.reasoning, new_.reasoning);
      assert r[0] in r + c;
    }
    if c != [] {
      StringDiffLength(prv.content, new_.content);
      assert c[0] in r + c;
    }
  }

  /** The deltas of an update, part by part. */
  lemma DiffsParts(prv: Message, new_: Message) returns (text: seq<Diff>, last: seq<Diff>, calls: seq<Diff>)
    requires Diffs(prv, new_).Ok?
    ensures |prv.toolCalls| <= |new_.toolCalls| && Diffs(prv, new_).value == text + last + calls
    ensures TextDiffs(prv, new_) == Ok(text) && calls == NewCallDiffs(new_.toolCalls, |prv.toolCalls|)
    ensures var p, n := prv.toolCalls, new_.toolCalls;
            if p == [] then last == [] else LastCallDiff(|p| - 1, p[|p| - 1], n[|p| - 1]) == Ok(last)
  {
    var p, n := prv.toolCalls, new_.toolCalls;
    text, calls := TextDiffs(prv, new_).value, NewCallDiffs(n, |p|);
    last := if p == [] then [] else LastCallDiff(|p| - 1, p[|p| - 1], n[|p| - 1]).value;
    assert CallDiffs(p, n).value == last + calls;
    assert text + (last + calls) == text + last + calls;
  }

  /** Was the last call that had been sent changed? */
  predicate LastChanged(p: seq<ToolCall>, n: seq<ToolCall>)
    requires |p| <= |n|
  {
    p != [] && Changed(p[|p| - 1], n[|p| - 1])
  }

  /**
   * One delta is sent for each text that changed, one for the last call already sent exactly if that changed, and
   * one for each new call.
   */
  lemma DiffsCount(prv: Message, new_: Message)
    requires Diffs(prv, new_).Ok?
    ensures var p, n, ds := prv.toolCalls, new_.toolCalls, Diffs(prv, new_).value;
            && |p| <= |n|
            && |ds| == One(prv.reasoning != new_.reasoning) + One(prv.content != new_.content)
                       + One(LastChanged(p, n)) + (|n| - |p|)
            && (p != [] ==> ((exists d | d in ds :: d.index == Some(|p| - 1)) <==> LastChanged(p, n)))
  {
    hide TextDiffs, LastCallDiff, NewCallDiffs, Changed, Diffs, SaysNothing;
    var p, n := prv.toolCalls, new_.toolCalls;
    var text, last, calls := DiffsParts(prv, new_);
    TextsTold(prv, new_);
    NewCallsTold(n, |p|);
    if p != [] {
      LastCallTold(|p| - 1, p[|p| - 1], n[|p| - 1]);
      if last != [] {
        assert last[0] in text + last + calls;
      }
    }
  }

  /**
   * A delta that says nothing is sent exactly when a text became shorter, the last call lost its name and id, or a
   * new call is empty.
   */
  lemma EmptyDeltaExact(prv: Message, new_: Message)
    requires Diffs(prv, new_).Ok?
    ensures var p, n := prv.toolCalls, new_.toolCalls;
            && |p| <= |n|
            && ((exists d | d in Diffs(prv, new_).value :: SaysNothing(d)) <==>
                || |new_.reasoning| < |prv.reasoning| || |new_.content| < |prv.content|
                || (LastChanged(p, n) && n[|p| - 1].name == "" && n[|p| - 1].id == "" &&
                    |n[|p| - 1].arguments| <= |p[|p| - 1].arguments|)
                || exists k | |p| <= k < |n| :: n[k] == EMPTY_CALL)
  {
    hide TextDiffs, LastCallDiff, NewCallDiffs, Changed, Diffs, SaysNothing;
    var p, n := prv.toolCalls, new_.toolCalls;
    var text, last, calls := DiffsParts(prv, new_);
    TextsTold(prv, new_);
    NewCallsSilent(n, |p|);
    if p != [] {
      LastCallTold(|p| - 1, p[|p| - 1], n[|p| - 1]);
    }
    assert forall d :: d in text + last + calls <==> d in text || d in last || d in calls;
  }

  /** Where the new message follows the old one, only a new call without any text is told by an empty delta. */
  lemma NoEmptyDelta(prv: Message, new_: Message)
    requires Follows(prv, new_)
    ensures Diffs(prv, new_).Ok? && |prv.toolCalls| <= |new_.toolCalls|
    ensures (exists d | d in Diffs(prv, new_).value :: SaysNothing(d)) <==>
            exists k | |prv.toolCalls| <= k < |new_.toolCalls| :: new_.toolCalls[k] == EMPTY_CALL
  {
    hide Diffs, SaysNothing;
    DiffsLossless(prv, new_);
    EmptyDeltaExact(prv, new_);
  }

  // ---------- which updates are refused ----------

  /** One text is the beginning of the other. */
  predicate Comparable(a: string, b: string) {
    a <= b || b <= a
  }

  /** What an update may do to the last call already sent: lengthen or cut its texts, but not exchange its name. */
  predicate CallComparable(p: ToolCall, n: ToolCall) {
    Comparable(p.arguments, n.arguments) && (p.name <= n.name || n.name == "")
  }

  /** An update is refused exactly when a text is exchanged, a call is missing, or the last call is another one. */
  lemma RefusedExact(prv: Message, new_: Message)
    ensures var p, n := prv.toolCalls, new_.toolCalls;
            Diffs(prv, new_).Ok? <==>
            && Comparable(prv.reasoning, new_.reasoning) && Comparable(prv.content, new_.content) && |p| <= |n|
            && (p != [] ==> CallComparable(p[|p| - 1], n[|p| - 1]))
  {
  }

  // ---------- set_tool_call_ids ----------

  /** The generator of fresh ids, seen as the stream of its answers. */
  type IdStream = nat -> string

  /** The cache after seeing `calls`, and how many ids the generator has then handed out. */
  function CacheIds(calls: seq<ToolCall>, cache: seq<string>, gen: IdStream, used: nat): (seq<string>, nat)
    decreases |calls| - |cache|
  {
    if |cache| >= |calls| then (cache, used)
    else
      var id := calls[|cache|].id;
      if id != "" then CacheIds(calls, cache + [id], gen, used)
      else CacheIds(calls, cache + [gen(used)], gen, used + 1)
  }

  function WithIds(calls: seq<ToolCall>, ids: seq<string>): (r: seq<ToolCall>)
    requires |calls| <= |ids|
    ensures |r| == |calls|
    ensures forall i | 0 <= i < |calls| :: r[i] == calls[i].(id := ids[i])
  {
    seq(|calls|, i requires 0 <= i < |calls| => calls[i].(id := ids[i]))
  }

  /** The cache only grows, keeps the ids it had, and covers every call. */
  lemma {:induction false} CacheGrows(calls: seq<ToolCall>, cache: seq<string>, gen: IdStream, used: nat)
    ensures var (ids, used') := CacheIds(calls, cache, gen, used);
            cache <= ids && |calls| <= |ids| && used <= used'
    decreases |calls| - |cache|
  {
    if |cache| < |calls| {
      var id := calls[|cache|].id;
      if id != "" {
        CacheGrows(calls, cache + [id], gen, used);
      } else {
        CacheGrows(calls, cache + [gen(used)], gen, used + 1);
      }
    }
  }

  /** How many of the calls bring no id of their own. */
  function Nameless(calls: seq<ToolCall>): nat {
    if calls == [] then 0 else Nameless(calls[..|calls| - 1]) + One(calls[|calls| - 1].id == "")
  }

  lemma {:induction false} NamelessFirst(c: ToolCall, calls: seq<ToolCall>)
    ensures Nameless([c] + calls) == One(c.id == "") + Nameless(calls)
  {
    if calls == [] {
      assert [c] + calls == [c] && [c][..0] == [];
      assert Nameless([]) == 0 && Nameless([c]) == Nameless([c][..0]) + One(c.id == "");
    } else {
      var n := |calls| - 1;
      assert ([c] + calls)[..n + 1] == [c] + calls[..n];
      NamelessFirst(c, calls[..n]);
    }
  }

  /** A call first met now keeps its own id; the others get the generator's answers, in order. */
  lemma {:induction false} FirstMet(calls: seq<ToolCall>, cache: seq<string>, gen: IdStream, used: nat, i: nat)
    requires |cache| <= i < |calls|
    ensures var (ids, used') := CacheIds(calls, cache, gen, used);
            && |ids| == |calls| && used' == used + Nameless(calls[|cache|..])
            && ids[i] == if calls[i].id != "" then calls[i].id else gen(used + Nameless(calls[|cache|..i]))
    decreases |calls| - |cache|
  {
    hide Nameless;
    var c := |cache|;
    var own := calls[c].id != "";
    var cache' := cache + [if own then calls[c].id else gen(used)];
    var used' := if own then used else used + 1;
    NamelessFrom(calls, c, |calls|);
    NamelessFrom(calls, c, i);
    CacheGrows(calls, cache', gen, used');
    assert calls[c..] == calls[c..|calls|] && calls[c + 1..] == calls[c + 1..|calls|];
    if i > c {
      FirstMet(calls, cache', gen, used', i);
    } else if c + 1 < |calls| {
      FirstMet(calls, cache', gen, used', c + 1);
    } else {
      NamelessFrom(calls, c + 1, |calls|);
      assert CacheIds(calls, cache', gen, used') == (cache', used');
    }
  }

  lemma NamelessFrom(calls: seq<ToolCall>, c: nat, i: nat)
    requires c <= i <= |calls|
    ensures c < i ==> Nameless(calls[c..i]) == One(calls[c].id == "") + Nameless(calls[c + 1..i])
    ensures c == i ==> Nameless(calls[c..i]) == 0
  {
    if c < i {
      assert calls[c..i] == [calls[c]] + calls[c + 1..i];
      NamelessFirst(calls[c], calls[c + 1..i]);
    }
  }

  class IdCache {
    const gen: IdStream
    var ids: seq<string>
    var used: nat

    constructor (gen: IdStream)
      ensures this.gen == gen && ids == [] && used == 0
    {
      this.gen := gen;
      ids := [];
      used := 0;
    }

    method GenToolCallId() returns (id: string)
      modifies this`used
      ensures id == gen(old(used)) && used == old(used) + 1
    {
      id := gen(used);
      used := used + 1;
    }

    method SetToolCallIds(calls: seq<ToolCall>) returns (r: seq<ToolCall>)
      modifies this
      ensures (ids, used) == CacheIds(calls, old(ids), gen, old(used))
      ensures |calls| <= |ids| && r == WithIds(calls, ids)
    {
      r := calls;
      for i := 0 to |calls|
        invariant |r| == |calls| && i <= |ids|
        invariant |ids| > |old(ids)| ==> |ids| <= i
        invariant CacheIds(calls, old(ids), gen, old(used)) == CacheIds(calls, ids, gen, used)
        invariant forall j | 0 <= j < i :: r[j] == calls[j].(id := ids[j])
        invariant forall j | i <= j < |calls| :: r[j] == calls[j]
      {
        if |ids| <= i {
          var id := r[i].id;
          if id == "" {
            id := GenToolCallId();
          }
          ids := ids + [id];
        }
        r := r[i := r[i].(id := ids[i])];
      }
      assert r == WithIds(calls, ids);
    }
  }
}
