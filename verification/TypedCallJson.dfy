/** Calls whose arguments are values of any type: what each value is printed as, and the whole text of the call. */
module TypedCallJson {
  import opened Common
  import opened JsonText
  import opened QuoteLexers
  import opened ToolCallMapper
  import opened NameTiming
  import opened TaggedCallJson

  /** The texts of the four events of one argument, whose type may be declared to be a string. */
  datatype Field = Field(open: string, key: string, value: string, close: string, isString: bool)

  function ValueEvent(f: Field): Event {
    Event(if f.isString then ArgStringValue else ArgValue, f.value, false)
  }

  function FieldEvents(f: Field): seq<Event> {
    [Event(ArgOpen, f.open, false), Event(ArgName, f.key, false), ValueEvent(f), Event(ArgClose, f.close, false)]
  }

  function AllFieldEvents(fs: seq<Field>): seq<Event> {
    FlatMap(FieldEvents, fs)
  }

  /** The text of an undeclared value with its quotes rewritten, if it is a list or an object. */
  function Rewritten(f: Field): string {
    var v := TrimOne(f.value);
    if IsContainer(v) then NormalizeQuotes(v) else v
  }

  /**
   * What a value is printed as: a declared string as a string; any other as it stands if that is JSON, and as a
   * string if it is not.
   */
  function Printed(parse: JsonParser, f: Field): string {
    var v := TrimOne(f.value);
    if f.isString then Quote(v)
    else if v == "" then ""
    else match parse(Rewritten(f))
      case JsonString(content) => Quote(content)
      case JsonOther => Rewritten(f)
      case NotJson => Quote(Rewritten(f))
  }

  function FieldText(parse: JsonParser, f: Field): string {
    Quote(KeyText(f.key)) + ":" + Printed(parse, f)
  }

  function FieldsText(parse: JsonParser, fs: seq<Field>, first: bool): string {
    if fs == [] then ""
    else (if first then "" else ",") + FieldText(parse, fs[0]) + FieldsText(parse, fs[1..], false)
  }

  /** A value printed as it stands closes all strings and braces it opens. */
  predicate Balanced(parse: JsonParser, f: Field) {
    !f.isString && TrimOne(f.value) != "" && parse(Rewritten(f)) == JsonOther ==> Lex(START, Rewritten(f)) == START
  }

  // ---------- one argument ----------

  lemma PieceIsPrinted(parse: JsonParser, f: Field)
    ensures var (piece, q) := ValuePiece(parse, ValueEvent(f), false);
            Printed(parse, f) == piece + (if q then "\"" else "")
  {
    hide TrimOne, NormalizeQuotes;
    assert Escape("") == "";
  }

  lemma AnyValueStep(parse: JsonParser, s: State, f: Field)
    requires Visible(s) && !s.quotePending
    ensures var (piece, q) := ValuePiece(parse, ValueEvent(f), false);
            Step(parse, s, ValueEvent(f)) == Wrote(s, piece, s.argCount, q)
  {
    hide ValuePiece;
  }

  lemma AnyCloseStep(parse: JsonParser, s: State, e: Event)
    requires Visible(s) && e.tag == ArgClose
    ensures Step(parse, s, e) == Wrote(s, if s.quotePending then "\"" else "", s.argCount, false)
  {
    if !s.quotePending {
      assert Args(s) + "" == Args(s);
      var calls := s.result.toolCalls;
      assert calls[|calls| - 1 := calls[|calls| - 1]] == calls;
    }
  }

  lemma FieldSteps(parse: JsonParser, s: State, f: Field)
    requires Writing(s)
    ensures Run(parse, s, FieldEvents(f)) == Wrote(s, Comma(s) + FieldText(parse, f), s.argCount + 1, false)
  {
    hide Step, ValuePiece, Printed, KeyText, Wrote, Visible, Quote;
    var open, key := Event(ArgOpen, f.open, false), Event(ArgName, f.key, false);
    var value, close := ValueEvent(f), Event(ArgClose, f.close, false);
    var k, n := Comma(s) + Quote(KeyText(f.key)) + ":", s.argCount + 1;
    var (piece, q) := ValuePiece(parse, value, false);
    OpenStep(parse, s, open);
    KeyStep(parse, s, key);
    VisibleLive(s);
    var s2 := Wrote(s, k, n, false);
    WroteTwice(s, k, piece, n, n, false, q);
    WroteCounts(s, k, n, false);
    AnyValueStep(parse, s2, f);
    VisibleLive(s2);
    var s3 := Wrote(s2, piece, n, q);
    WroteCounts(s, k + piece, n, q);
    WroteTwice(s, k + piece, if q then "\"" else "", n, n, q, false);
    AnyCloseStep(parse, s3, close);
    RunFour(parse, s, open, key, value, close);
    PieceIsPrinted(parse, f);
    Regrouped(Comma(s), Quote(KeyText(f.key)), ":", piece, if q then "\"" else "");
  }

  lemma OpenStep(parse: JsonParser, s: State, e: Event)
    requires Writing(s) && e.tag == ArgOpen
    ensures Step(parse, s, e) == s && Visible(s) && !s.quotePending
  {
  }

  lemma VisibleLive(s: State)
    requires Visible(s)
    ensures Live(s)
  {
  }

  lemma WroteCounts(s: State, text: string, n: nat, q: bool)
    requires Visible(s)
    ensures Wrote(s, text, n, q).argCount == n && Wrote(s, text, n, q).quotePending == q
  {
  }

  lemma Regrouped(comma: string, key: string, colon: string, piece: string, quote: string)
    ensures comma + key + colon + piece + quote == comma + (key + colon + (piece + quote))
  {
  }

  lemma {:induction false} AllFields(parse: JsonParser, s: State, fs: seq<Field>)
    requires Writing(s)
    ensures Run(parse, s, AllFieldEvents(fs)) ==
            Wrote(s, FieldsText(parse, fs, s.argCount == 0), s.argCount + |fs|, false)
    decreases |fs|
  {
    hide FieldText;
    if fs == [] {
      assert Args(s) + FieldsText(parse, fs, s.argCount == 0) == Args(s);
    } else {
      var head := Comma(s) + FieldText(parse, fs[0]);
      var s1 := Wrote(s, head, s.argCount + 1, false);
      FieldSteps(parse, s, fs[0]);
      RunConcat(parse, s, FieldEvents(fs[0]), AllFieldEvents(fs[1..]));
      WroteTwice(s, head, FieldsText(parse, fs[1..], false), s.argCount + 1, s.argCount + |fs|, false, false);
      AllFields(parse, s1, fs[1..]);
      assert head + FieldsText(parse, fs[1..], false) == FieldsText(parse, fs, s.argCount == 0);
    }
  }

  // ---------- the whole call ----------

  lemma {:induction false} FieldsAreBody(fs: seq<Field>, started: bool)
    ensures Body(AllFieldEvents(fs)) && NamedValues(AllFieldEvents(fs), started)
    decreases |fs|
  {
    if fs != [] {
      var es, tail := FieldEvents(fs[0]), AllFieldEvents(fs[1..]);
      FieldsAreBody(fs[1..], true);
      var all := es + tail;
      assert all[1..][1..][1..][1..] == tail;
      assert all[0] == es[0] && all[1] == es[1] && all[2] == es[2] && all[3] == es[3];
      assert NamedValues(all[1..][1..][1..], true);
      assert NamedValues(all[1..][1..], true);
    }
  }

  lemma LexPrinted(parse: JsonParser, f: Field, d: int)
    requires Balanced(parse, f)
    ensures Lex(Lexer(d, false, false), Printed(parse, f)) == Lexer(d, false, false)
  {
    hide TrimOne, NormalizeQuotes, Quote;
    if f.isString {
      LexQuote(d, TrimOne(f.value));
    } else if TrimOne(f.value) != "" {
      match parse(Rewritten(f)) {
        case JsonString(content) => LexQuote(d, content);
        case JsonOther => LexShift(START, d, Rewritten(f));
        case NotJson => LexQuote(d, Rewritten(f));
      }
    }
  }

  lemma {:induction false} LexFields(parse: JsonParser, d: int, fs: seq<Field>, first: bool)
    requires forall f | f in fs :: Balanced(parse, f)
    ensures Lex(Lexer(d, false, false), FieldsText(parse, fs, first)) == Lexer(d, false, false)
    decreases |fs|
  {
    hide Quote, Balanced, Printed, KeyText;
    if fs != [] {
      var l, comma := Lexer(d, false, false), if first then "" else ",";
      var k, v, tail := Quote(KeyText(fs[0].key)), Printed(parse, fs[0]), FieldsText(parse, fs[1..], false);
      assert FieldsText(parse, fs, first) == comma + (k + (":" + (v + tail)));
      if !first { LexOne(l, ','); }
      LexConcat(l, comma, k + (":" + (v + tail)));
      LexConcat(l, k, ":" + (v + tail));
      LexConcat(l, ":", v + tail);
      LexConcat(l, v, tail);
      LexOne(l, ':');
      LexQuote(d, KeyText(fs[0].key));
      LexPrinted(parse, fs[0], d);
      LexFields(parse, d, fs[1..], false);
    }
  }

  lemma ClosedFields(parse: JsonParser, fs: seq<Field>)
    requires forall f | f in fs :: Balanced(parse, f)
    ensures ClosedArgs("{" + FieldsText(parse, fs, true), false) == "{" + FieldsText(parse, fs, true) + "}"
  {
    var a := "{" + FieldsText(parse, fs, true);
    LexOne(START, '{');
    LexConcat(START, "{", FieldsText(parse, fs, true));
    LexFields(parse, 1, fs, true);
    assert a + "" == a;
    assert Braces(1) == Braces(0) + "}" == "}";
  }

  lemma ShownWriting(s: State, name: string)
    requires Unnamed(s) && name != "" && !s.quotePending
    ensures Writing(Shown(s, name, "{")) && Live(Shown(s, name, "{"))
  {
  }

  lemma ShownWrote(s: State, name: string, text: string, count: nat)
    requires Unnamed(s) && name != "" && !s.quotePending
    ensures Live(Shown(s, name, "{"))
    ensures Wrote(Shown(s, name, "{"), text, count, false) == Shown(s, name, "{" + text).(argCount := count)
  {
    ShownArgs(s, name, "{", "{" + text);
  }

  lemma FieldsBodyRun(parse: JsonParser, s: State, n: Event, fs: seq<Field>)
    requires Unnamed(s) && IsName(n) && s.buffer == "" && s.argCount == 0 && !s.quotePending
    ensures Run(parse, s, [n] + AllFieldEvents(fs)) ==
            Shown(s, TrimEnd(n.text, -1), "{" + FieldsText(parse, fs, true)).(argCount := |fs|)
  {
    hide FieldsText, Step, AllFieldEvents, TrimEnd, Writing, Wrote, Run, Live, Shown;
    var name, body := TrimEnd(n.text, -1), AllFieldEvents(fs);
    RunFirst(parse, s, n, body);
    NameShows(parse, s, n);
    ShownWriting(s, name);
    ShownArgsBegin(s, name);
    AllFields(parse, Shown(s, name, "{"), fs);
    ShownWrote(s, name, FieldsText(parse, fs, true), |fs|);
  }

  lemma ShownArgsBegin(s: State, name: string)
    requires Unnamed(s) && s.buffer == ""
    ensures Collected(s) == "{" && Shown(s, name, "{").argCount == s.argCount
  {
  }

  lemma RunFirst(parse: JsonParser, s: State, e: Event, rest: seq<Event>)
    ensures Run(parse, s, [e] + rest) == Run(parse, Step(parse, s, e), rest)
  {
    assert ([e] + rest)[0] == e && ([e] + rest)[1..] == rest;
  }

  lemma CloseShown(s: State, name: string, args: string)
    requires Inv(s) && s.current == LastCall && name != "" && !s.quotePending
    requires Current(s) == ToolCall(name, args, "")
    ensures StepClose(s).result == WithCurrent(s, ToolCall(name, ClosedArgs(args, false), "")).result
  {
    hide ClosedArgs;
  }

  /**
   * A call with values of any type, named at any position and with any nodes without effect between: the result
   * gains one call whose arguments are all values, each as it is printed, in order between one pair of braces.
   */
  lemma TypedCallPrints(
      parse: JsonParser, s: State, open: Event, n: Event, close: Event, fs: seq<Field>, k: nat, es: seq<Event>)
    requires Inv(s) && open.tag == ToolOpen && IsName(n) && close.tag == ToolClose
    requires forall f | f in fs :: Balanced(parse, f)
    requires k <= |AllFieldEvents(fs)|
    requires var body := AllFieldEvents(fs); Heard(es) == [open] + (body[..k] + [n] + body[k..]) + [close]
    ensures Run(parse, s, es).result ==
            s.result.(toolCalls := s.result.toolCalls +
                                   [ToolCall(TrimEnd(n.text, -1), "{" + FieldsText(parse, fs, true) + "}", "")])
  {
    hide AllFieldEvents, BraceDepth, Braces, Lex, FieldsText, Run, ValuePiece, Heard, Balanced, ClosedArgs;
    var body, text := AllFieldEvents(fs), "{" + FieldsText(parse, fs, true);
    FieldsAreBody(fs, false);
    var here := [open] + (body[..k] + [n] + body[k..]) + [close];
    RunHeard(parse, s, es);
    assert body[..0] + [n] + body[0..] == [n] + body;
    NameTimingInvisible(parse, s, open, n, body, [close], k, 0, here, [open] + ([n] + body) + [close]);
    RunCall(parse, s, open, [n] + body, [close]);
    var s1 := Step(parse, s, open);
    FieldsBodyRun(parse, s1, n, fs);
    var s3 := Shown(s1, TrimEnd(n.text, -1), text).(argCount := |fs|);
    RunOne(parse, s3, close);
    CloseShown(s3, TrimEnd(n.text, -1), text);
    ReplaceLast(s.result.toolCalls, Current(s3), ToolCall(TrimEnd(n.text, -1), ClosedArgs(text, false), ""));
    ClosedFields(parse, fs);
  }
}
