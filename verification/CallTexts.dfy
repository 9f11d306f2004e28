/** Which texts of a parse end up where: content, reasoning, and the parts of a call with JSON arguments. */
module CallTexts {
  import opened Common
  import opened JsonText
  import opened QuoteLexers
  import opened ToolCallMapper
  import opened NameTiming
  import opened TaggedCallJson

  // ---------- content and reasoning ----------

  /** The texts of all events with this tag, one after the other. */
  function TextsOf(tag: Tag, es: seq<Event>): string {
    FlatMap((e: Event) => if e.tag == tag then e.text else "", es)
  }

  lemma StepTexts(parse: JsonParser, s: State, e: Event)
    ensures Step(parse, s, e).result.content == s.result.content + (if e.tag == Content then e.text else "")
    ensures Step(parse, s, e).result.reasoning == s.result.reasoning + (if e.tag == Reasoning then e.text else "")
  {
    hide ValuePiece, ClosedArgs, TrimEnd, IdText, KeyText;
  }

  lemma {:induction false} RunTexts(parse: JsonParser, s: State, es: seq<Event>)
    ensures Run(parse, s, es).result.content == s.result.content + TextsOf(Content, es)
    ensures Run(parse, s, es).result.reasoning == s.result.reasoning + TextsOf(Reasoning, es)
    decreases |es|
  {
    hide Step;
    if es != [] {
      var s1 := Step(parse, s, es[0]);
      StepTexts(parse, s, es[0]);
      RunTexts(parse, s1, es[1..]);
    }
  }

  /** Content is the text of all content events in order, reasoning that of all reasoning events. */
  lemma MessageTexts(parse: JsonParser, es: seq<Event>)
    ensures Snapshot(parse, es).content == TextsOf(Content, es)
    ensures Snapshot(parse, es).reasoning == TextsOf(Reasoning, es)
  {
    hide TextsOf, Run;
    FlushIsDead(parse, es);
    RunTexts(parse, INITIAL, es);
    assert "" + TextsOf(Content, es) == TextsOf(Content, es) && "" + TextsOf(Reasoning, es) == TextsOf(Reasoning, es);
  }

  // ---------- what the texts of a call mean ----------

  /** A text with nothing but spaces behind. */
  predicate Carries(text: string, t: string) {
    t <= text && AllSpaces(text[|t|..]) && (t == "" || !IsSpace(t[|t| - 1]))
  }

  lemma TextRead(text: string, t: string)
    requires Carries(text, t)
    ensures TrimEnd(text, -1) == t
  {
    TrimEndDrops(t, text[|t|..], -1);
    assert t + text[|t|..] == text;
  }

  /** A text as an id event may carry it: in quotes or not. */
  predicate CarriesId(text: string, id: string) {
    Carries(text, "\"" + id + "\"") || (Carries(text, id) && (id == "" || id[0] != '"'))
  }

  lemma IdRead(text: string, id: string)
    requires CarriesId(text, id)
    ensures IdText(text) == id
  {
    var quoted := "\"" + id + "\"";
    if Carries(text, quoted) {
      TextRead(text, quoted);
      assert quoted[1..|quoted| - 1] == id;
    } else {
      TextRead(text, id);
    }
  }

  /** A key may have one space in front. */
  predicate CarriesKey(text: string, key: string) {
    Carries(if text != "" && IsSpace(text[0]) then text[1..] else text, key)
  }

  lemma KeyRead(text: string, key: string)
    requires CarriesKey(text, key)
    ensures KeyText(text) == key
  {
    if text != "" && IsSpace(text[0]) {
      assert TrimStart(text, 1) == TrimStart(text[1..], 0) == text[1..];
      TextRead(text[1..], key);
    } else {
      TextRead(text, key);
    }
  }

  /** A value may have one space at either end; further ones belong to it. */
  predicate CarriesValue(text: string, v: string) {
    if |text| < 2 then v == (if AllSpaces(text) then "" else text)
    else v == text[if IsSpace(text[0]) then 1 else 0..if IsSpace(text[|text| - 1]) then |text| - 1 else |text|]
  }

  lemma ValueRead(text: string, v: string)
    requires CarriesValue(text, v)
    ensures TrimOne(text) == v
  {
    if AllSpaces(text) {
      TrimOneBlank(text);
    } else {
      var before, after := |text| > 1 && IsSpace(text[0]), |text| > 1 && IsSpace(text[|text| - 1]);
      var i, j := if before then 1 else 0, if after then |text| - 1 else |text|;
      assert text == text[..i] + v + text[j..];
      TrimOneDrops(text[..i], v, text[j..]);
    }
  }

  // ---------- a call with tagged arguments ----------

  /** The members that the texts of the arguments carry. */
  predicate CarriesMembers(args: seq<Arg>, ms: seq<Member>) {
    && |args| == |ms|
    && forall i | 0 <= i < |ms| :: CarriesKey(args[i].key, ms[i].0) && CarriesValue(args[i].value, ms[i].1)
  }

  /**
   * Name, keys and values may have spaces around them, and the name may come at any point: the result gains one call
   * with that name, whose arguments are a JSON object that reads back as exactly the keys and values, in order.
   */
  lemma TaggedCallRead(
      parse: JsonParser, s: State, open: Event, n: Event, close: Event, args: seq<Arg>, k: nat, es: seq<Event>,
      name: string, ms: seq<Member>)
    requires Inv(s) && open.tag == ToolOpen && n.tag == ToolName && close.tag == ToolClose
    requires name != "" && Carries(n.text, name) && CarriesMembers(args, ms)
    requires k <= |AllArgEvents(args)|
    requires var body := AllArgEvents(args); Heard(es) == [open] + (body[..k] + [n] + body[k..]) + [close]
    ensures Run(parse, s, es).result ==
            s.result.(toolCalls := s.result.toolCalls + [ToolCall(name, ObjectText(ms), "")])
    ensures ReadObject(ObjectText(ms)) == Some(ms)
  {
    hide AllArgEvents, Carries, CarriesKey, CarriesValue, Heard, KeyText, ObjectText, ReadObject, Run, TrimEnd, TrimOne;
    TextRead(n.text, name);
    forall i | 0 <= i < |ms|
      ensures MembersOf(args)[i] == ms[i]
    {
      KeyRead(args[i].key, ms[i].0);
      ValueRead(args[i].value, ms[i].1);
    }
    assert MembersOf(args) == ms;
    TaggedCallPrintsJson(parse, s, open, n, close, args, k, es);
  }

  // ---------- a call with JSON arguments ----------

  /** The text of a JSON object, all its braces closed outside strings. */
  predicate CarriesObject(text: string, obj: string) {
    Carries(text, obj) && obj != "" && obj[0] == '{' && Lex(START, obj) == START
  }

  lemma ObjectRead(e: Event, obj: string)
    requires e.tag == ToolArgs && CarriesObject(e.text, obj)
    ensures IsJsonArgs(e) && TrimEnd(e.text, -1) == obj && ClosedArgs(obj, false) == obj
  {
    TextRead(e.text, obj);
    assert obj + "" == obj && Braces(0) == "";
  }

  lemma {:induction false} LexBraces(d: nat, n: nat)
    ensures Lex(Lexer(d + n, false, false), Braces(n)) == Lexer(d, false, false)
    decreases n
  {
    if n > 0 {
      LexConcat(Lexer(d + n, false, false), Braces(n - 1), "}");
      LexBraces(d + 1, n - 1);
      LexOne(Lexer(d + 1, false, false), '}');
    }
  }

  /** Closing adds the quote that is still pending and as many braces as are open, so that all are closed. */
  lemma ClosingBalances(args: string, pending: bool, d: nat)
    requires Lex(START, args) == Lexer(d, pending, false)
    ensures args <= ClosedArgs(args, pending) && Lex(START, ClosedArgs(args, pending)) == START
    ensures |ClosedArgs(args, pending)| == |args| + (if pending then 1 else 0) + d
  {
    var quote := if pending then "\"" else "";
    LexConcat(START, args, quote);
    if pending {
      LexOne(Lexer(d, true, false), '"');
    }
    LexConcat(START, args + quote, Braces(d));
    LexBraces(0, d);
    BracesLength(d);
    assert args + quote + Braces(d) == args + (quote + Braces(d));
  }

  lemma {:induction false} BracesLength(n: nat)
    ensures |Braces(n)| == n
  {
    if n > 0 {
      BracesLength(n - 1);
    }
  }

  /** The state of a call with its id, after its name and after its arguments. */
  lemma JsonSteps(parse: JsonParser, s: State, open: Event, i: Event, n: Event, a: Event, id: string, obj: string)
    requires Inv(s) && open.tag == ToolOpen && i.tag == ToolId && IdText(i.text) == id && IsName(n)
    requires a.tag == ToolArgs && IsJsonArgs(a) && TrimEnd(a.text, -1) == obj
    ensures var t := Step(parse, Step(parse, Step(parse, Step(parse, s, open), i), n), a);
            && t.current == LastCall && !t.quotePending && t.pending.None?
            && t.result == s.result.(toolCalls := s.result.toolCalls + [ToolCall(TrimEnd(n.text, -1), obj, id)])
  {
    hide TrimEnd, IdText;
    var s2 := Step(parse, Step(parse, s, open), i);
    assert s2.pending == Some(ToolCall("", "", id)) && s2.buffer == "" && !s2.quotePending && s2.result == s.result;
    var s3 := Step(parse, s2, n);
    var calls := s.result.toolCalls;
    assert s3.result.toolCalls == calls + [ToolCall(TrimEnd(n.text, -1), "{", id)];
    ReplaceLast(calls, ToolCall(TrimEnd(n.text, -1), "{", id), ToolCall(TrimEnd(n.text, -1), obj, id));
  }

  /** Closing a call whose braces are closed leaves it as it is. */
  lemma ClosedAlready(parse: JsonParser, t: State, close: Event)
    requires t.current == LastCall && !t.quotePending && t.pending.None? && t.result.toolCalls != []
    requires var tc := t.result.toolCalls[|t.result.toolCalls| - 1];
             tc.name != "" && ClosedArgs(tc.arguments, false) == tc.arguments
    requires close.tag == ToolClose
    ensures Step(parse, t, close).result == t.result
  {
    hide ClosedArgs;
    var calls := t.result.toolCalls;
    assert calls[|calls| - 1 := calls[|calls| - 1]] == calls;
  }

  /**
   * A call with JSON arguments, whatever nodes without effect lie between: the result gains one call with the name,
   * the id without its quotes, and the arguments as they stand.
   */
  lemma JsonCallRead(
      parse: JsonParser, s: State, open: Event, i: Event, n: Event, a: Event, close: Event, es: seq<Event>,
      id: string, name: string, obj: string)
    requires Inv(s) && open.tag == ToolOpen && close.tag == ToolClose && Heard(es) == [open, i, n, a, close]
    requires i.tag == ToolId && CarriesId(i.text, id)
    requires n.tag == ToolName && Carries(n.text, name) && name != ""
    requires a.tag == ToolArgs && CarriesObject(a.text, obj)
    ensures Run(parse, s, es).result == s.result.(toolCalls := s.result.toolCalls + [ToolCall(name, obj, id)])
  {
    hide TrimEnd, IdText, Step, ClosedArgs, Carries, CarriesId, CarriesObject, Heard;
    IdRead(i.text, id);
    TextRead(n.text, name);
    ObjectRead(a, obj);
    JsonSteps(parse, s, open, i, n, a, id, obj);
    var t := Step(parse, Step(parse, Step(parse, Step(parse, s, open), i), n), a);
    ClosedAlready(parse, t, close);
    RunHeard(parse, s, es);
    RunFour(parse, s, open, i, n, a);
    assert [open, i, n, a, close] == [open, i, n, a] + [close];
    RunConcat(parse, s, [open, i, n, a], [close]);
    RunOne(parse, t, close);
  }
}
