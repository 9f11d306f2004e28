/**
 * The mapper that turns tagged parse events into a chat message, building the JSON arguments of each
 * tool call piece by piece. `Step` is its transition function; class `Mapper` is the object itself.
 */
module ToolCallMapper {
  import opened Common
  import opened JsonText
  import opened QuoteLexers

  datatype ToolCall = ToolCall(name: string, arguments: string, id: string)

  datatype Message = Message(content: string, reasoning: string, toolCalls: seq<ToolCall>)

  const EMPTY_CALL := ToolCall("", "", "")
  const EMPTY_MESSAGE := Message("", "", [])

  /** `Other` stands for every tag the mapper ignores (tool, tool-arg, reasoning-block, untagged rules). */
  datatype Tag =
    | Reasoning | Content
    | ToolOpen | ToolClose | ToolName | ToolId | ToolArgs
    | ArgOpen | ArgClose | ArgName | ArgValue | ArgStringValue
    | Other

  datatype Event = Event(tag: Tag, text: string, isPartial: bool)

  /** What the JSON library makes of a text; a string is represented by its contents. */
  datatype Parsed = NotJson | JsonString(content: string) | JsonOther
  type JsonParser = string -> Parsed

  /** Where `current_tool` points: nowhere, into `pending_tool_call`, or at the last call of the result. */
  datatype Target = NoTool | PendingTool | LastCall

  datatype State = State(
    result: Message,
    pending: Option<ToolCall>,
    current: Target,
    argCount: nat,
    quotePending: bool,
    buffer: string)

  const INITIAL := State(EMPTY_MESSAGE, None, NoTool, 0, false, "")

  // ---------- the transition function ----------

  /** `current_tool` points at a live tool call. */
  predicate Live(s: State) {
    match s.current
    case NoTool => false
    case PendingTool => s.pending.Some?
    case LastCall => s.result.toolCalls != []
  }

  function Current(s: State): ToolCall
    requires Live(s)
  {
    if s.current == PendingTool then s.pending.value
    else s.result.toolCalls[|s.result.toolCalls| - 1]
  }

  function WithCurrent(s: State, tc: ToolCall): State
    requires Live(s)
  {
    if s.current == PendingTool then s.(pending := Some(tc))
    else s.(result := s.result.(toolCalls := s.result.toolCalls[|s.result.toolCalls| - 1 := tc]))
  }

  /** The active argument text: the call's own once its name is known, the buffer before that. */
  function Args(s: State): string
    requires Live(s)
  {
    if Current(s).name != "" then Current(s).arguments else s.buffer
  }

  function WithArgs(s: State, args: string): State
    requires Live(s)
  {
    if Current(s).name != "" then WithCurrent(s, Current(s).(arguments := args)) else s.(buffer := args)
  }

  function IdText(text: string): string {
    var t := TrimEnd(text, -1);
    if |t| >= 2 && t[0] == '"' && t[|t| - 1] == '"' then t[1..|t| - 1] else t
  }

  /** A tool-args event that carries a JSON object. */
  predicate IsJsonArgs(e: Event) {
    e.tag == ToolArgs && TrimEnd(e.text, -1) != "" && TrimEnd(e.text, -1)[0] == '{'
  }

  /** Enclosing nodes, and argument nodes without a JSON object: the mapper does nothing with them. */
  predicate Inert(e: Event) {
    e.tag == Other || (e.tag == ToolArgs && !IsJsonArgs(e))
  }

  function KeyText(text: string): string {
    TrimEnd(TrimStart(text, 1), -1)
  }

  predicate IsContainer(v: string) {
    v != "" && (v[0] == '[' || v[0] == '{')
  }

  /** The contents of a string value, with its opening quote unless one is already pending. */
  function StringPiece(v: string, quotePending: bool): (string, bool) {
    ((if quotePending then "" else "\"") + Escape(v), true)
  }

  /** The text a value event appends, and whether a closing quote is then pending. */
  function ValuePiece(parse: JsonParser, e: Event, quotePending: bool): (string, bool) {
    var v := TrimOne(e.text);
    if v == "" then
      if e.tag == ArgStringValue then ("\"", true) else ("", quotePending)
    else if e.tag == ArgStringValue then StringPiece(v, quotePending)
    else
      var w := if IsContainer(v) then NormalizeQuotes(v) else v;
      match parse(w)
      case JsonString(content) => ("\"" + Escape(content), true)
      case JsonOther => (w, quotePending)
      case NotJson => if e.isPartial && IsContainer(v) then (w, quotePending) else StringPiece(w, quotePending)
  }

  function Braces(n: int): string {
    if n <= 0 then "" else Braces(n - 1) + "}"
  }

  lemma BracesMore(quoted: string, n: nat)
    ensures quoted + Braces(n) + "}" == quoted + Braces(n + 1)
  {
  }

  /** Arguments once the call is closed: the pending quote, then one brace for each one still open. */
  function ClosedArgs(args: string, quotePending: bool): string {
    var a := args + (if quotePending then "\"" else "");
    a + Braces(BraceDepth(a))
  }

  function StepName(s: State, text: string): State
    requires Live(s)
  {
    var tc := Current(s).(name := TrimEnd(text, -1));
    var named := if s.buffer != "" then tc.(arguments := s.buffer)
                 else if tc.arguments == "" then tc.(arguments := "{")
                 else tc;
    var s1 := WithCurrent(s, named).(buffer := "");
    if s1.pending.Some? then
      s1.(result := s1.result.(toolCalls := s1.result.toolCalls + [s1.pending.value]),
          pending := None, current := LastCall)
    else s1
  }

  function StepClose(s: State): State
    requires Live(s)
  {
    var tc := Current(s);
    var flush := tc.name == "" && s.buffer != "";
    var closed := tc.(arguments := ClosedArgs(if flush then s.buffer else tc.arguments, s.quotePending));
    var s1 := WithCurrent(s, closed).(buffer := if flush then "" else s.buffer, quotePending := false);
    if s1.pending.Some? then
      s1.(result := if closed.name != ""
                    then s1.result.(toolCalls := s1.result.toolCalls + [s1.pending.value])
                    else s1.result,
          pending := None)
    else s1
  }

  function StepLive(parse: JsonParser, s: State, e: Event): State
    requires Live(s)
  {
    match e.tag
    case ToolId => WithCurrent(s, Current(s).(id := IdText(e.text)))
    case ToolName => StepName(s, e.text)
    case ToolArgs =>
      if IsJsonArgs(e) then WithArgs(s, TrimEnd(e.text, -1)) else s
    case ArgName =>
      var entry := (if s.argCount > 0 then "," else "") + Quote(KeyText(e.text)) + ":";
      WithArgs(s, (if Args(s) == "" then "{" else Args(s)) + entry).(argCount := s.argCount + 1)
    case ArgValue =>
      var (piece, q) := ValuePiece(parse, e, s.quotePending);
      WithArgs(s, Args(s) + piece).(quotePending := q)
    case ArgStringValue =>
      var (piece, q) := ValuePiece(parse, e, s.quotePending);
      WithArgs(s, Args(s) + piece).(quotePending := q)
    case ArgClose =>
      if s.quotePending then WithArgs(s, Args(s) + "\"").(quotePending := false) else s
    case ToolClose => StepClose(s)
    case _ => s
  }

  function Step(parse: JsonParser, s: State, e: Event): State {
    match e.tag
    case Reasoning => s.(result := s.result.(reasoning := s.result.reasoning + e.text))
    case Content => s.(result := s.result.(content := s.result.content + e.text))
    case ToolOpen =>
      s.(pending := Some(EMPTY_CALL), current := PendingTool, argCount := 0, buffer := "", quotePending := false)
    case ArgOpen => s.(quotePending := false)
    case Other => s
    case _ => if Live(s) then StepLive(parse, s, e) else s
  }

  function Run(parse: JsonParser, s: State, es: seq<Event>): State
    decreases |es|
  {
    if es == [] then s else Run(parse, Step(parse, s, es[0]), es[1..])
  }

  lemma {:induction false} RunConcat(parse: JsonParser, s: State, a: seq<Event>, b: seq<Event>)
    ensures Run(parse, s, a + b) == Run(parse, Run(parse, s, a), b)
    decreases |a|
  {
    if a == [] {
      assert a + b == b;
    } else {
      RunConcat(parse, Step(parse, s, a[0]), a[1..], b);
      assert (a + b)[1..] == a[1..] + b;
    }
  }

  lemma RunOne(parse: JsonParser, s: State, e: Event)
    ensures Run(parse, s, [e]) == Step(parse, s, e)
  {
    assert [e][1..] == [];
    assert Run(parse, Step(parse, s, e), []) == Step(parse, s, e);
  }

  // ---------- the events that count ----------

  /** A parse without the nodes that the mapper does nothing with. */
  function Heard(es: seq<Event>): seq<Event>
    decreases |es|
  {
    if es == [] then [] else (if Inert(es[0]) then [] else [es[0]]) + Heard(es[1..])
  }

  lemma {:induction false} RunHeard(parse: JsonParser, s: State, es: seq<Event>)
    ensures Run(parse, s, Heard(es)) == Run(parse, s, es)
    decreases |es|
  {
    if es != [] {
      var e, rest := es[0], es[1..];
      RunHeard(parse, Step(parse, s, e), rest);
      if Inert(e) {
        assert Step(parse, s, e) == s;
        assert Heard(es) == Heard(rest);
      } else {
        assert Heard(es)[0] == e && Heard(es)[1..] == Heard(rest);
      }
    }
  }

  lemma {:induction false} HeardConcat(a: seq<Event>, b: seq<Event>)
    ensures Heard(a + b) == Heard(a) + Heard(b)
    decreases |a|
  {
    if a == [] {
      assert a + b == b;
    } else {
      HeardConcat(a[1..], b);
      assert (a + b)[1..] == a[1..] + b;
    }
  }

  /** The flush after the last event, meant for a named call that is still pending. */
  function Finish(s: State): State {
    if s.pending.Some? && s.pending.value.name != "" then
      var tc := s.pending.value;
      var filled := if s.buffer != "" then tc.(arguments := s.buffer) else tc;
      var quoted := if s.quotePending && filled.arguments != ""
                    then filled.(arguments := filled.arguments + "\"") else filled;
      s.(result := s.result.(toolCalls := s.result.toolCalls + [quoted]), pending := None)
    else s
  }

  /** The message seen after the events of one parse. */
  function Snapshot(parse: JsonParser, es: seq<Event>): Message {
    Finish(Run(parse, INITIAL, es)).result
  }

  // ---------- the invariant of every run ----------

  /** A pending call has neither name nor arguments; the pointer to the last call is never stale. */
  predicate Inv(s: State) {
    && (s.current == LastCall ==> s.result.toolCalls != [] && s.pending.None?)
    && (s.current == NoTool ==> s.pending.None?)
    && (s.pending.Some? ==> s.pending.value.name == "" && s.pending.value.arguments == "")
  }

  lemma StepKeepsInv(parse: JsonParser, s: State, e: Event)
    requires Inv(s)
    ensures Inv(Step(parse, s, e))
  {
  }

  lemma {:induction false} RunKeepsInv(parse: JsonParser, s: State, es: seq<Event>)
    requires Inv(s)
    ensures Inv(Run(parse, s, es))
    decreases |es|
  {
    if es != [] {
      StepKeepsInv(parse, s, es[0]);
      RunKeepsInv(parse, Step(parse, s, es[0]), es[1..]);
    }
  }

  /** No run ever reaches the final flush with something to flush. */
  lemma FlushIsDead(parse: JsonParser, es: seq<Event>)
    ensures Finish(Run(parse, INITIAL, es)) == Run(parse, INITIAL, es)
  {
    RunKeepsInv(parse, INITIAL, es);
  }

  // ---------- the state a use of `current_tool` needs ----------

  /** Events the mapper handles only while there is a current tool call. */
  predicate UsesTool(tag: Tag) {
    tag !in {Reasoning, Content, ToolOpen, ArgOpen, Other}
  }

  /** Those of them that get as far as dereferencing `current_tool`. */
  predicate Dereferences(s: State, e: Event) {
    UsesTool(e.tag) && !Inert(e) && (e.tag == ArgClose ==> s.quotePending)
  }

  /** Not the state after an unnamed call was closed, where `current_tool` points at a dead object. */
  predicate Defined(s: State, e: Event) {
    Dereferences(s, e) && s.current != NoTool ==> Live(s)
  }

  predicate DefinedRun(parse: JsonParser, s: State, es: seq<Event>)
    decreases |es|
  {
    es == [] || (Defined(s, es[0]) && DefinedRun(parse, Step(parse, s, es[0]), es[1..]))
  }

  // ---------- when a run is defined ----------

  /** What the tags alone say about `current_tool`. */
  datatype Phase = NoCall | Opened | Named | Discarded

  function NextPhase(p: Phase, tag: Tag): Phase {
    match tag
    case ToolOpen => Opened
    case ToolName => if p == Opened then Named else p
    case ToolClose => if p == Opened then Discarded else p
    case _ => p
  }

  /** Between the end of a call that was never named and the next call's opening, no event needs a call. */
  predicate NoDiscardedUse(p: Phase, es: seq<Event>)
    decreases |es|
  {
    es == [] ||
    (&& (p == Discarded && UsesTool(es[0].tag) ==> Inert(es[0]) || es[0].tag == ArgClose)
     && NoDiscardedUse(NextPhase(p, es[0].tag), es[1..]))
  }

  function PhaseOf(s: State): Phase {
    match s.current
    case NoTool => NoCall
    case PendingTool => if s.pending.Some? then Opened else Discarded
    case LastCall => Named
  }

  /** No closing quote is pending once a call has been discarded. */
  predicate NothingPending(s: State) {
    PhaseOf(s) == Discarded ==> !s.quotePending
  }

  lemma StepPhase(parse: JsonParser, s: State, e: Event)
    requires Inv(s) && NothingPending(s) && Defined(s, e)
    ensures PhaseOf(Step(parse, s, e)) == NextPhase(PhaseOf(s), e.tag) && NothingPending(Step(parse, s, e))
  {
    hide ValuePiece, ClosedArgs, TrimEnd, IdText, KeyText;
  }

  /** Whether a run ever uses a discarded call can be read off its events in order, without running the mapper. */
  lemma {:induction false} DefinedExact(parse: JsonParser, s: State, es: seq<Event>)
    requires Inv(s) && NothingPending(s)
    ensures DefinedRun(parse, s, es) <==> NoDiscardedUse(PhaseOf(s), es)
    decreases |es|
  {
    hide Step;
    if es != [] && Defined(s, es[0]) {
      StepPhase(parse, s, es[0]);
      StepKeepsInv(parse, s, es[0]);
      DefinedExact(parse, Step(parse, s, es[0]), es[1..]);
    }
  }

  /** Nodes that the mapper does nothing with use no call. */
  lemma {:induction false} DiscardedHeard(p: Phase, es: seq<Event>)
    ensures NoDiscardedUse(p, Heard(es)) <==> NoDiscardedUse(p, es)
    decreases |es|
  {
    if es != [] {
      DiscardedHeard(NextPhase(p, es[0].tag), es[1..]);
      if Inert(es[0]) {
        assert Heard(es) == Heard(es[1..]);
      } else {
        assert Heard(es)[0] == es[0] && Heard(es)[1..] == Heard(es[1..]);
      }
    }
  }

  // ---------- the object itself ----------

  class Mapper {
    const parse: JsonParser
    var result: Message
    var pendingToolCall: Option<ToolCall>
    var currentTool: Target
    var argCount: nat
    var closingQuotePending: bool
    var argsBuffer: string

    ghost function Abs(): State
      reads this
    {
      State(result, pendingToolCall, currentTool, argCount, closingQuotePending, argsBuffer)
    }

    constructor (parse: JsonParser)
      ensures Abs() == INITIAL && this.parse == parse
    {
      this.parse := parse;
      result := EMPTY_MESSAGE;
      pendingToolCall := None;
      currentTool := NoTool;
      argCount := 0;
      closingQuotePending := false;
      argsBuffer := "";
    }

    /** Reads the tool call behind `current_tool`. */
    method GetTool() returns (tc: ToolCall)
      requires Live(Abs())
      ensures tc == Current(Abs())
    {
      if currentTool == PendingTool {
        tc := pendingToolCall.value;
      } else {
        tc := result.toolCalls[|result.toolCalls| - 1];
      }
    }

    /** Writes the tool call behind `current_tool`. */
    method SetTool(tc: ToolCall)
      requires Live(Abs())
      modifies this
      ensures Abs() == WithCurrent(old(Abs()), tc)
    {
      if currentTool == PendingTool {
        pendingToolCall := Some(tc);
      } else {
        result := result.(toolCalls := result.toolCalls[|result.toolCalls| - 1 := tc]);
      }
    }

    method AppendArgs(text: string)
      requires Live(Abs())
      modifies this
      ensures Abs() == WithArgs(old(Abs()), Args(old(Abs())) + text)
    {
      var tc := GetTool();
      if tc.name != "" {
        SetTool(tc.(arguments := tc.arguments + text));
      } else {
        argsBuffer := argsBuffer + text;
      }
    }

    method SetArgs(text: string)
      requires Live(Abs())
      modifies this
      ensures Abs() == WithArgs(old(Abs()), text)
    {
      var tc := GetTool();
      if tc.name != "" {
        SetTool(tc.(arguments := text));
      } else {
        argsBuffer := text;
      }
    }

    method MapName(text: string)
      requires Live(Abs())
      modifies this
      ensures Abs() == StepName(old(Abs()), text)
    {
      var name := TrimTrailingSpace(text);
      var tc := GetTool();
      tc := tc.(name := name);
      if argsBuffer != "" {
        tc := tc.(arguments := argsBuffer);
        argsBuffer := "";
      } else if tc.arguments == "" {
        tc := tc.(arguments := "{");
      }
      SetTool(tc);
      if pendingToolCall.Some? {
        result := result.(toolCalls := result.toolCalls + [pendingToolCall.value]);
        pendingToolCall := None;
        currentTool := LastCall;
      }
    }

    method MapArgName(text: string)
      requires Live(Abs())
      modifies this
      ensures Abs() == StepLive(parse, old(Abs()), Event(ArgName, text, false))
    {
      hide StepName, ValuePiece;
      var entry := "";
      if argCount > 0 {
        entry := ",";
      }
      var lead := TrimLeadingSpace(text, 1);
      var key := TrimTrailingSpace(lead);
      entry := entry + Quote(key) + ":";
      argCount := argCount + 1;
      var tc := GetTool();
      var target := if tc.name != "" then tc.arguments else argsBuffer;
      if target == "" {
        SetArgs("{");
      }
      AppendArgs(entry);
    }

    method ValueText(node: Event) returns (valueToAdd: string)
      requires node.tag == ArgValue || node.tag == ArgStringValue
      modifies this`closingQuotePending
      ensures (valueToAdd, closingQuotePending) == ValuePiece(parse, node, old(closingQuotePending))
    {
      var lead := TrimLeadingSpace(node.text, 1);
      var value := TrimTrailingSpace(lead, 1);
      valueToAdd := "";
      if value == "" && node.tag == ArgStringValue {
        valueToAdd := "\"";
        closingQuotePending := true;
      } else if value != "" && node.tag == ArgStringValue {
        if !closingQuotePending {
          valueToAdd := "\"";
          closingQuotePending := true;
        }
        valueToAdd := valueToAdd + Escape(value);
      } else if value != "" {
        var isPotentialContainer := value[0] == '[' || value[0] == '{';
        if isPotentialContainer {
          value := NormalizeQuotesToJson(value);
        }
        match parse(value) {
          case JsonString(content) =>
            valueToAdd := "\"" + Escape(content);
            closingQuotePending := true;
          case JsonOther =>
            valueToAdd := value;
          case NotJson =>
            if node.isPartial && isPotentialContainer {
              valueToAdd := value;
            } else {
              if !closingQuotePending {
                valueToAdd := "\"";
                closingQuotePending := true;
              }
              valueToAdd := valueToAdd + Escape(value);
            }
        }
      }
    }

    /** The pending quote, then one brace for every level still open. */
    static method CloseArguments(args: string, quotePending: bool) returns (s: string)
      ensures s == ClosedArgs(args, quotePending)
    {
      s := args + (if quotePending then "\"" else "");
      ghost var quoted := s;
      var d := JsonBraceDepth(s);
      ghost var open := d;
      assert s + Braces(0) == s;
      while d > 0
        invariant if open > 0 then 0 <= d <= open else d == open
        invariant s == quoted + Braces(open - d)
        decreases d
      {
        s := s + "}";
        d := d - 1;
        BracesMore(quoted, open - d - 1);
      }
    }

    method MapClose()
      requires Live(Abs())
      modifies this
      ensures Abs() == StepClose(old(Abs()))
    {
      hide ClosedArgs;
      var tc := GetTool();
      if tc.name == "" && argsBuffer != "" {
        tc := tc.(arguments := argsBuffer);
        argsBuffer := "";
      }
      var closed := CloseArguments(tc.arguments, closingQuotePending);
      tc := tc.(arguments := closed);
      closingQuotePending := false;
      SetTool(tc);
      if pendingToolCall.Some? {
        if tc.name != "" {
          result := result.(toolCalls := result.toolCalls + [pendingToolCall.value]);
        }
        pendingToolCall := None;
      }
    }

    method MapId(node: Event)
      requires Live(Abs()) && node.tag == ToolId
      modifies this
      ensures Abs() == StepLive(parse, old(Abs()), node)
    {
      var text := TrimTrailingSpace(node.text);
      if |text| >= 2 && text[0] == '"' && text[|text| - 1] == '"' {
        text := text[1..|text| - 1];
      }
      var tc := GetTool();
      SetTool(tc.(id := text));
    }

    method MapArgs(node: Event)
      requires node.tag == ToolArgs && (IsJsonArgs(node) ==> Live(Abs()))
      modifies this
      ensures Abs() == if Live(old(Abs())) then StepLive(parse, old(Abs()), node) else old(Abs())
    {
      var text := TrimTrailingSpace(node.text);
      if text != "" && text[0] == '{' {
        SetArgs(text);
      }
    }

    method MapValue(node: Event)
      requires Live(Abs()) && (node.tag == ArgValue || node.tag == ArgStringValue)
      modifies this
      ensures Abs() == StepLive(parse, old(Abs()), node)
    {
      hide ValuePiece;
      var piece := ValueText(node);
      AppendArgs(piece);
    }

    method MapArgClose(node: Event)
      requires node.tag == ArgClose && (closingQuotePending ==> Live(Abs()))
      modifies this
      ensures Abs() == if Live(old(Abs())) then StepLive(parse, old(Abs()), node) else old(Abs())
    {
      if closingQuotePending {
        AppendArgs("\"");
        closingQuotePending := false;
      }
    }

    /** The branches that need a current tool call, each guarded by its tag. */
    method MapTool(node: Event)
      requires UsesTool(node.tag) && (Dereferences(Abs(), node) ==> Live(Abs()))
      modifies this
      ensures Abs() == if Live(old(Abs())) then StepLive(parse, old(Abs()), node) else old(Abs())
    {
      if node.tag == ToolId {
        MapId(node);
      } else if node.tag == ToolName {
        MapName(node.text);
      } else if node.tag == ToolArgs {
        MapArgs(node);
      } else if node.tag == ArgName {
        MapArgName(node.text);
      } else if node.tag == ArgValue || node.tag == ArgStringValue {
        MapValue(node);
      } else if node.tag == ArgClose {
        MapArgClose(node);
      } else if node.tag == ToolClose {
        MapClose();
      }
    }

    method Map(node: Event)
      requires Defined(Abs(), node) && (currentTool == LastCall ==> result.toolCalls != [])
      modifies this
      ensures Abs() == Step(parse, old(Abs()), node)
    {
      hide StepLive;
      if node.tag == Reasoning {
        result := result.(reasoning := result.reasoning + node.text);
      }
      if node.tag == Content {
        result := result.(content := result.content + node.text);
      }
      if node.tag == ToolOpen {
        pendingToolCall := Some(EMPTY_CALL);
        currentTool := PendingTool;
        argCount := 0;
        argsBuffer := "";
        closingQuotePending := false;
      }
      if node.tag == ArgOpen {
        closingQuotePending := false;
      }
      if UsesTool(node.tag) && currentTool != NoTool {
        MapTool(node);
      }
    }

    method Flush()
      modifies this
      ensures Abs() == Finish(old(Abs()))
    {
      if pendingToolCall.Some? && pendingToolCall.value.name != "" {
        var tc := pendingToolCall.value;
        if argsBuffer != "" {
          tc := tc.(arguments := argsBuffer);
        }
        if closingQuotePending && tc.arguments != "" {
          tc := tc.(arguments := tc.arguments + "\"");
        }
        result := result.(toolCalls := result.toolCalls + [tc]);
        pendingToolCall := None;
      }
    }

    method FromAst(nodes: seq<Event>)
      requires Abs() == INITIAL && NoDiscardedUse(NoCall, nodes)
      modifies this
      ensures result == Snapshot(parse, nodes)
    {
      DefinedExact(parse, INITIAL, nodes);
      for i := 0 to |nodes|
        invariant Inv(Abs()) && DefinedRun(parse, Abs(), nodes[i..])
        invariant Run(parse, INITIAL, nodes) == Run(parse, Abs(), nodes[i..])
      {
        assert nodes[i..][1..] == nodes[i + 1..];
        StepKeepsInv(parse, Abs(), nodes[i]);
        Map(nodes[i]);
      }
      Flush();
    }
  }
}
