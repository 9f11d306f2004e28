/**
 * Collecting arguments in a buffer until the tool name arrives is invisible: the name may come at any
 * point between the opening and the closing of the call.
 */
module NameTiming {
  import opened Common
  import opened JsonText
  import opened ToolCallMapper

  predicate IsValue(e: Event) {
    e.tag == ArgValue || e.tag == ArgStringValue
  }

  /** Events that may stand inside one call, besides its name. */
  predicate InBody(e: Event) {
    e.tag !in {ToolOpen, ToolClose, ToolName}
  }

  predicate IsName(n: Event) {
    n.tag == ToolName && TrimEnd(n.text, -1) != ""
  }

  /** A call that has been opened but not named. */
  predicate Unnamed(s: State) {
    && Inv(s) && s.current == PendingTool && s.pending.Some?
    && (s.quotePending ==> s.buffer != "")
  }

  /** A value written while nothing else has been: only then does the buffer lack the opening brace. */
  predicate ValueFirst(parse: JsonParser, s: State, e: Event) {
    IsValue(e) && s.buffer == "" && ValuePiece(parse, e, s.quotePending).0 != ""
  }

  lemma BodyKeepsUnnamed(parse: JsonParser, s: State, e: Event)
    requires Unnamed(s) && InBody(e)
    ensures Unnamed(Step(parse, s, e))
    ensures s.buffer != "" ==> Step(parse, s, e).buffer != ""
  {
  }

  /** The state in which an unnamed call has just become visible. */
  function Shown(s: State, name: string, args: string): State
    requires s.pending.Some?
  {
    s.(result := s.result.(toolCalls := s.result.toolCalls + [ToolCall(name, args, s.pending.value.id)]),
       pending := None, current := LastCall, buffer := "")
  }

  function Collected(s: State): string {
    if s.buffer == "" then "{" else s.buffer
  }

  lemma NameShows(parse: JsonParser, s: State, n: Event)
    requires Unnamed(s) && IsName(n)
    ensures Step(parse, s, n) == Shown(s, TrimEnd(n.text, -1), Collected(s))
  {
  }

  /** Once shown, argument text goes into the call where it went into the buffer before. */
  lemma ShownArgs(s: State, name: string, args: string, more: string)
    requires Unnamed(s) && name != ""
    ensures var t := Shown(s, name, args);
            Live(t) && Args(t) == args && WithArgs(t, more) == Shown(s, name, more)
    ensures Args(s) == s.buffer && WithArgs(s, more) == s.(buffer := more)
  {
    var t := Shown(s, name, args);
    assert t.result.toolCalls[|t.result.toolCalls| - 1 := ToolCall(name, more, s.pending.value.id)] ==
           s.result.toolCalls + [ToolCall(name, more, s.pending.value.id)];
  }

  /** Writing `more` after the name or before it, when the buffer does not stay empty. */
  lemma SwapWrite(parse: JsonParser, s: State, n: Event, args: string, more: string, count: nat, q: bool)
    requires Unnamed(s) && IsName(n) && (q ==> more != "")
    ensures Step(parse, s.(buffer := more, argCount := count, quotePending := q), n) ==
            Shown(s, TrimEnd(n.text, -1), if more == "" then "{" else more).(argCount := count, quotePending := q)
    ensures WithArgs(Shown(s, TrimEnd(n.text, -1), args), more) == Shown(s, TrimEnd(n.text, -1), more)
  {
    NameShows(parse, s.(buffer := more, argCount := count, quotePending := q), n);
    ShownArgs(s, TrimEnd(n.text, -1), args, more);
  }

  lemma SwapValue(parse: JsonParser, s: State, n: Event, e: Event)
    requires Unnamed(s) && IsName(n) && IsValue(e)
    ensures Step(parse, Step(parse, s, n), e) == Step(parse, Step(parse, s, e), n) <==> !ValueFirst(parse, s, e)
  {
    hide ClosedArgs, Current, Live, StepName, TrimEnd;
    var (piece, q) := ValuePiece(parse, e, s.quotePending);
    var name := TrimEnd(n.text, -1);
    var early, late := Collected(s) + piece, s.buffer + piece;
    NameShows(parse, s, n);
    ShownArgs(s, name, Collected(s), early);
    ShownArgs(s, name, Collected(s), late);
    SwapWrite(parse, s, n, Collected(s), late, s.argCount, q);
    var a := Shown(s, name, early).(quotePending := q);
    var b := Shown(s, name, if late == "" then "{" else late).(quotePending := q);
    assert Step(parse, Step(parse, s, n), e) == a && Step(parse, Step(parse, s, e), n) == b;
    var k := |s.result.toolCalls|;
    assert a.result.toolCalls[k].arguments == early;
    assert b.result.toolCalls[k].arguments == if late == "" then "{" else late;
    if ValueFirst(parse, s, e) {
      assert |early| == |piece| + 1 && |late| == |piece|;
    } else {
      assert early == if late == "" then "{" else late;
    }
  }

  lemma SwapArgName(parse: JsonParser, s: State, n: Event, e: Event)
    requires Unnamed(s) && IsName(n) && e.tag == ArgName
    ensures Step(parse, Step(parse, s, n), e) == Step(parse, Step(parse, s, e), n)
  {
    var entry := (if s.argCount > 0 then "," else "") + Quote(KeyText(e.text)) + ":";
    NameShows(parse, s, n);
    ShownArgs(s, TrimEnd(n.text, -1), Collected(s), Collected(s) + entry);
    SwapWrite(parse, s, n, Collected(s), Collected(s) + entry, s.argCount + 1, s.quotePending);
  }

  lemma SwapToolArgs(parse: JsonParser, s: State, n: Event, e: Event)
    requires Unnamed(s) && IsName(n) && e.tag == ToolArgs
    ensures Step(parse, Step(parse, s, n), e) == Step(parse, Step(parse, s, e), n)
  {
    var text := TrimEnd(e.text, -1);
    NameShows(parse, s, n);
    if text != "" && text[0] == '{' {
      ShownArgs(s, TrimEnd(n.text, -1), Collected(s), text);
      SwapWrite(parse, s, n, Collected(s), text, s.argCount, s.quotePending);
    }
  }

  lemma SwapArgClose(parse: JsonParser, s: State, n: Event, e: Event)
    requires Unnamed(s) && IsName(n) && e.tag == ArgClose
    ensures Step(parse, Step(parse, s, n), e) == Step(parse, Step(parse, s, e), n)
  {
    NameShows(parse, s, n);
    if s.quotePending {
      ShownArgs(s, TrimEnd(n.text, -1), Collected(s), Collected(s) + "\"");
      SwapWrite(parse, s, n, Collected(s), Collected(s) + "\"", s.argCount, false);
    }
  }

  lemma SwapToolId(parse: JsonParser, s: State, n: Event, e: Event)
    requires Unnamed(s) && IsName(n) && e.tag == ToolId
    ensures Step(parse, Step(parse, s, n), e) == Step(parse, Step(parse, s, e), n)
  {
    NameShows(parse, s, n);
    NameShows(parse, Step(parse, s, e), n);
    var t := Shown(s, TrimEnd(n.text, -1), Collected(s));
    var tc := Current(t).(id := IdText(e.text));
    assert t.result.toolCalls[|t.result.toolCalls| - 1 := tc] == s.result.toolCalls + [tc];
  }

  /** Naming the call and any other event commute, except exactly when that event is a value written first. */
  lemma SwapName(parse: JsonParser, s: State, n: Event, e: Event)
    requires Unnamed(s) && IsName(n) && InBody(e)
    ensures Step(parse, Step(parse, s, n), e) == Step(parse, Step(parse, s, e), n) <==> !ValueFirst(parse, s, e)
  {
    match e.tag {
      case ArgValue => SwapValue(parse, s, n, e);
      case ArgStringValue => SwapValue(parse, s, n, e);
      case ArgName => SwapArgName(parse, s, n, e);
      case ToolArgs => SwapToolArgs(parse, s, n, e);
      case ArgClose => SwapArgClose(parse, s, n, e);
      case ToolId => SwapToolId(parse, s, n, e);
      case _ =>
        NameShows(parse, s, n);
        NameShows(parse, Step(parse, s, e), n);
    }
  }

  /** Every value comes after some argument name or JSON object. */
  predicate NamedValues(body: seq<Event>, started: bool)
    decreases |body|
  {
    body == [] ||
    (&& (IsValue(body[0]) ==> started)
     && NamedValues(body[1..], started || body[0].tag == ArgName || IsJsonArgs(body[0])))
  }

  predicate Body(body: seq<Event>) {
    forall e | e in body :: InBody(e)
  }

  lemma {:induction false} NameMoves(parse: JsonParser, s: State, n: Event, body: seq<Event>, k: nat)
    requires Unnamed(s) && IsName(n) && Body(body) && NamedValues(body, s.buffer != "") && k <= |body|
    ensures Run(parse, s, body[..k] + [n] + body[k..]) == Run(parse, s, [n] + body)
    decreases |body|
  {
    hide ClosedArgs, IsName;
    if k == 0 {
      assert body[..k] + [n] + body[k..] == [n] + body;
    } else {
      var e, rest := body[0], body[1..];
      var t, s1 := body[..k] + [n] + body[k..], Step(parse, s, e);
      assert InBody(e);
      assert t[0] == e && t[1..] == rest[..k - 1] + [n] + rest[k - 1..];
      BodyKeepsUnnamed(parse, s, e);
      assert NamedValues(rest, s1.buffer != "") by {
        NamedValuesWeaken(rest, s1.buffer != "");
      }
      NameMoves(parse, s1, n, rest, k - 1);
      assert ([n] + rest)[1..] == rest;
      SwapName(parse, s, n, e);
      assert ([n] + body)[1..] == body;
      assert Run(parse, Step(parse, s, n), body) == Run(parse, Step(parse, Step(parse, s, n), e), rest);
    }
  }

  lemma {:induction false} NamedValuesWeaken(body: seq<Event>, started: bool)
    requires NamedValues(body, false) || (started && NamedValues(body, true))
    ensures NamedValues(body, started)
    decreases |body|
  {
    if body != [] && started && NamedValues(body, false) {
      NamedValuesWeaken(body[1..], true);
    }
  }

  /**
   * For one tool call whose values each follow an argument name, the whole run, whatever comes before and
   * after the call, is the same wherever the name stands, and whatever nodes without effect lie between.
   */
  lemma NameTimingInvisible(
      parse: JsonParser, s: State, open: Event, n: Event, body: seq<Event>, rest: seq<Event>, j: nat, k: nat,
      es: seq<Event>, fs: seq<Event>)
    requires Inv(s) && open.tag == ToolOpen && IsName(n)
    requires Body(body) && NamedValues(body, false) && j <= |body| && k <= |body|
    requires Heard(es) == Heard([open] + (body[..j] + [n] + body[j..]) + rest)
    requires Heard(fs) == Heard([open] + (body[..k] + [n] + body[k..]) + rest)
    ensures Run(parse, s, es) == Run(parse, s, fs)
  {
    hide Heard, Run, Step;
    RunHeard(parse, s, es);
    RunHeard(parse, s, fs);
    RunHeard(parse, s, [open] + (body[..j] + [n] + body[j..]) + rest);
    RunHeard(parse, s, [open] + (body[..k] + [n] + body[k..]) + rest);
    OpenedUnnamed(parse, s, open);
    NameMoves(parse, Step(parse, s, open), n, body, j);
    NameMoves(parse, Step(parse, s, open), n, body, k);
    RunCall(parse, s, open, body[..j] + [n] + body[j..], rest);
    RunCall(parse, s, open, body[..k] + [n] + body[k..], rest);
  }

  lemma OpenedUnnamed(parse: JsonParser, s: State, open: Event)
    requires Inv(s) && open.tag == ToolOpen
    ensures Unnamed(Step(parse, s, open)) && Step(parse, s, open).buffer == ""
  {
  }

  lemma RunCall(parse: JsonParser, s: State, open: Event, body: seq<Event>, rest: seq<Event>)
    ensures Run(parse, s, [open] + body + rest) == Run(parse, Run(parse, Step(parse, s, open), body), rest)
  {
    var es := [open] + body + rest;
    assert es[0] == open && es[1..] == body + rest;
    RunConcat(parse, Step(parse, s, open), body, rest);
  }
}
