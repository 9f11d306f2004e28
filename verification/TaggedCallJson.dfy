/** Calls with tagged string arguments print exactly the JSON object of those arguments. */
module TaggedCallJson {
  import opened Common
  import opened JsonText
  import opened QuoteLexers
  import opened ToolCallMapper
  import opened NameTiming

  /** The texts of the four events of one argument. */
  datatype Arg = Arg(open: string, key: string, value: string, close: string)

  function ArgEvents(a: Arg): seq<Event> {
    [Event(ArgOpen, a.open, false), Event(ArgName, a.key, false),
     Event(ArgStringValue, a.value, false), Event(ArgClose, a.close, false)]
  }

  function AllArgEvents(args: seq<Arg>): seq<Event> {
    FlatMap(ArgEvents, args)
  }

  function MemberOf(a: Arg): Member {
    (KeyText(a.key), TrimOne(a.value))
  }

  function MembersOf(args: seq<Arg>): (ms: seq<Member>)
    ensures |ms| == |args|
  {
    seq(|args|, i requires 0 <= i < |args| => MemberOf(args[i]))
  }

  // ---------- the text of an object ----------

  function Pair(m: Member): string {
    Quote(m.0) + ":" + Quote(m.1)
  }

  /** Members separated by commas; a comma comes first too unless these are the first members. */
  function MembersText(ms: seq<Member>, first: bool): string {
    if ms == [] then "" else (if first then "" else ",") + Pair(ms[0]) + MembersText(ms[1..], false)
  }

  function ObjectText(ms: seq<Member>): string {
    "{" + MembersText(ms, true) + "}"
  }

  lemma ReadMemberPair(m: Member, rest: string)
    ensures ReadMember(Pair(m) + rest) == Some((m, rest))
  {
    var k, v := Quote(m.0), Quote(m.1);
    assert Pair(m) + rest == k + (":" + (v + rest));
    ReadStringQuote(m.0, ":" + (v + rest));
    assert (":" + (v + rest))[1..] == v + rest;
    ReadStringQuote(m.1, rest);
  }

  lemma CommaFirst(ms: seq<Member>)
    requires ms != []
    ensures MembersText(ms, false) == "," + MembersText(ms, true)
  {
    Regroup3("", Pair(ms[0]), MembersText(ms[1..], false));
    Regroup3(",", Pair(ms[0]), MembersText(ms[1..], false));
  }

  lemma Regroup3(a: string, b: string, c: string)
    ensures a + b + c == a + (b + c)
    ensures a == "" ==> a + b + c == b + c
  {
  }

  lemma ReadLastMember(m: Member, rest: string)
    ensures ReadMembers(Pair(m) + ("}" + rest)) == Some(([m], rest))
  {
    ReadMemberPair(m, "}" + rest);
    assert ("}" + rest)[1..] == rest;
  }

  lemma ReadNextMember(m: Member, more: string)
    ensures ReadMembers(Pair(m) + ("," + more)) ==
            match ReadMembers(more) case None => None case Some((ms, rest)) => Some(([m] + ms, rest))
  {
    ReadMemberPair(m, "," + more);
    assert ("," + more)[1..] == more;
  }

  lemma {:induction false} ReadMembersText(ms: seq<Member>, rest: string)
    requires ms != []
    ensures ReadMembers(MembersText(ms, true) + ("}" + rest)) == Some((ms, rest))
    decreases |ms|
  {
    hide ReadMembers;
    var pair, end := Pair(ms[0]), "}" + rest;
    var more := MembersText(ms[1..], false);
    Regroup3("", pair, more);
    Regroup3(pair, more, end);
    if |ms| == 1 {
      assert pair + more == pair;
      ReadLastMember(ms[0], rest);
      assert ms == [ms[0]];
    } else {
      CommaFirst(ms[1..]);
      Regroup3(",", MembersText(ms[1..], true), end);
      ReadNextMember(ms[0], MembersText(ms[1..], true) + end);
      ReadMembersText(ms[1..], rest);
      assert ms == [ms[0]] + ms[1..];
    }
  }

  /** The printed object is valid JSON and reads back as the same members in the same order. */
  lemma ObjectReadsBack(ms: seq<Member>)
    ensures ReadObject(ObjectText(ms)) == Some(ms)
  {
    if ms != [] {
      var s := ObjectText(ms);
      assert s[1..] == MembersText(ms, true) + ("}" + "");
      ReadMembersText(ms, "");
      assert s != "{}" by {
        assert s[1] == Pair(ms[0])[0] == '"';
      }
    } else {
      assert ObjectText(ms) == "{}";
    }
  }

  // ---------- the brace counter on that text ----------

  lemma LexEscapeChar(d: int, c: char)
    ensures Lex(Lexer(d, true, false), EscapeChar(c)) == Lexer(d, true, false)
  {
    var e, l := EscapeChar(c), Lexer(d, true, false);
    if |e| == 1 {
      LexOne(l, e[0]);
    } else if |e| == 2 {
      LexTwo(l, e[0], e[1]);
    } else {
      assert e == [e[0], e[1]] + ([e[2], e[3]] + [e[4], e[5]]);
      LexConcat(l, [e[0], e[1]], [e[2], e[3]] + [e[4], e[5]]);
      LexConcat(l, [e[2], e[3]], [e[4], e[5]]);
      LexTwo(l, e[0], e[1]);
      LexTwo(l, e[2], e[3]);
      HexPlain(c as int / 16);
      HexPlain(c as int % 16);
      LexTwo(l, e[4], e[5]);
    }
  }

  lemma HexPlain(n: int)
    requires 0 <= n < 16
    ensures HexDigit(n) != '"' && HexDigit(n) != '\\'
  {
  }

  lemma {:induction false} LexEscape(d: int, s: string)
    ensures Lex(Lexer(d, true, false), Escape(s)) == Lexer(d, true, false)
  {
    if s != "" {
      LexEscapeChar(d, s[0]);
      LexConcat(Lexer(d, true, false), EscapeChar(s[0]), Escape(s[1..]));
      LexEscape(d, s[1..]);
    }
  }

  lemma LexQuote(d: int, s: string)
    ensures Lex(Lexer(d, false, false), Quote(s)) == Lexer(d, false, false)
  {
    var l, m := Lexer(d, false, false), Lexer(d, true, false);
    LexOne(l, '"');
    LexConcat(l, "\"", Escape(s));
    LexEscape(d, s);
    LexConcat(l, "\"" + Escape(s), "\"");
    LexOne(m, '"');
  }

  lemma {:induction false} LexMembers(d: int, ms: seq<Member>, first: bool)
    ensures Lex(Lexer(d, false, false), MembersText(ms, first)) == Lexer(d, false, false)
    decreases |ms|
  {
    hide Quote;
    if ms != [] {
      var l, comma := Lexer(d, false, false), if first then "" else ",";
      var k, v, tail := Quote(ms[0].0), Quote(ms[0].1), MembersText(ms[1..], false);
      assert MembersText(ms, first) == comma + (k + (":" + (v + tail)));
      if !first { LexOne(l, ','); }
      LexConcat(l, comma, k + (":" + (v + tail)));
      LexConcat(l, k, ":" + (v + tail));
      LexConcat(l, ":", v + tail);
      LexConcat(l, v, tail);
      LexOne(l, ':');
      LexQuote(d, ms[0].0);
      LexQuote(d, ms[0].1);
      LexMembers(d, ms[1..], false);
    }
  }

  /** Before closing one brace is open and no string is; closing adds exactly that one brace. */
  lemma ClosingAddsOneBrace(ms: seq<Member>)
    ensures Lex(START, "{" + MembersText(ms, true)) == Lexer(1, false, false)
    ensures ClosedArgs("{" + MembersText(ms, true), false) == ObjectText(ms)
    ensures Lex(START, ObjectText(ms)) == START
  {
    var a := "{" + MembersText(ms, true);
    LexOne(START, '{');
    LexConcat(START, "{", MembersText(ms, true));
    LexMembers(1, ms, true);
    assert a + "" == a;
    assert Braces(1) == Braces(0) + "}" == "}";
    LexConcat(START, a, "}");
    LexOne(Lexer(1, false, false), '}');
  }

  // ---------- the run ----------

  /** A named call with no string open. */
  predicate Writing(s: State) {
    Visible(s) && !s.quotePending
  }

  /** The state after appending argument text. */
  function Wrote(s: State, text: string, count: nat, q: bool): State
    requires Live(s)
  {
    WithArgs(s, Args(s) + text).(argCount := count, quotePending := q)
  }

  /** A named call at the end of the result. */
  predicate Visible(s: State) {
    Inv(s) && s.current == LastCall && Current(s).name != "" && Current(s).arguments != ""
  }

  lemma WroteTwice(s: State, a: string, b: string, m: nat, n: nat, p: bool, q: bool)
    requires Visible(s)
    ensures Visible(Wrote(s, a, m, p)) && Wrote(Wrote(s, a, m, p), b, n, q) == Wrote(s, a + b, n, q)
    ensures Args(Wrote(s, a, m, p)) == Args(s) + a
  {
    assert Args(s) + a + b == Args(s) + (a + b);
  }

  function Comma(s: State): string {
    if s.argCount > 0 then "," else ""
  }

  lemma KeyStep(parse: JsonParser, s: State, e: Event)
    requires Visible(s) && e.tag == ArgName
    ensures Step(parse, s, e) ==
            Wrote(s, Comma(s) + Quote(KeyText(e.text)) + ":", s.argCount + 1, s.quotePending)
  {
  }

  lemma ValueStep(parse: JsonParser, s: State, e: Event)
    requires Visible(s) && e.tag == ArgStringValue && !s.quotePending
    ensures Step(parse, s, e) == Wrote(s, "\"" + Escape(TrimOne(e.text)), s.argCount, true)
  {
    assert Escape("") == "" && "\"" + "" == "\"";
  }

  lemma CloseStep(parse: JsonParser, s: State, e: Event)
    requires Visible(s) && e.tag == ArgClose && s.quotePending
    ensures Step(parse, s, e) == Wrote(s, "\"", s.argCount, false)
  {
  }

  lemma RegroupPair(comma: string, key: string, colon: string, quote: string, value: string)
    ensures (comma + key + colon) + (quote + value) + quote == comma + (key + colon + (quote + value + quote))
  {
  }

  lemma ArgSteps(parse: JsonParser, s: State, a: Event, b: Event, c: Event, d: Event)
    requires Writing(s) && a.tag == ArgOpen && b.tag == ArgName && c.tag == ArgStringValue && d.tag == ArgClose
    ensures var key, value := Comma(s) + Quote(KeyText(b.text)) + ":", "\"" + Escape(TrimOne(c.text));
            Step(parse, Step(parse, Step(parse, Step(parse, s, a), b), c), d) ==
            Wrote(s, key + value + "\"", s.argCount + 1, false)
  {
    var key, value, n := Comma(s) + Quote(KeyText(b.text)) + ":", "\"" + Escape(TrimOne(c.text)), s.argCount + 1;
    var s2 := Wrote(s, key, n, false);
    var s3 := Wrote(s2, value, n, true);
    assert Step(parse, s, a) == s;
    KeyStep(parse, s, b);
    WroteTwice(s, key, value, n, n, false, true);
    ValueStep(parse, s2, c);
    WroteTwice(s, key + value, "\"", n, n, true, false);
    CloseStep(parse, s3, d);
  }

  lemma OneArg(parse: JsonParser, s: State, a: Arg)
    requires Writing(s)
    ensures Run(parse, s, ArgEvents(a)) == Wrote(s, Comma(s) + Pair(MemberOf(a)), s.argCount + 1, false)
  {
    var e0, e1 := Event(ArgOpen, a.open, false), Event(ArgName, a.key, false);
    var e2, e3 := Event(ArgStringValue, a.value, false), Event(ArgClose, a.close, false);
    ArgSteps(parse, s, e0, e1, e2, e3);
    RunFour(parse, s, e0, e1, e2, e3);
    RegroupPair(Comma(s), Quote(KeyText(a.key)), ":", "\"", Escape(TrimOne(a.value)));
  }

  lemma RunFour(parse: JsonParser, s: State, a: Event, b: Event, c: Event, d: Event)
    ensures Run(parse, s, [a, b, c, d]) == Step(parse, Step(parse, Step(parse, Step(parse, s, a), b), c), d)
  {
    var s1 := Step(parse, s, a);
    var s2 := Step(parse, s1, b);
    var s3 := Step(parse, s2, c);
    assert [a, b, c, d][1..] == [b, c, d] && [b, c, d][1..] == [c, d] && [c, d][1..] == [d];
    RunOne(parse, s3, d);
    assert Run(parse, s2, [c, d]) == Run(parse, s3, [d]);
    assert Run(parse, s1, [b, c, d]) == Run(parse, s2, [c, d]);
  }

  lemma {:induction false} AllArgs(parse: JsonParser, s: State, args: seq<Arg>)
    requires Writing(s)
    ensures Run(parse, s, AllArgEvents(args)) ==
            Wrote(s, MembersText(MembersOf(args), s.argCount == 0), s.argCount + |args|, false)
    decreases |args|
  {
    var ms := MembersOf(args);
    if args == [] {
      assert Args(s) + MembersText(ms, s.argCount == 0) == Args(s);
    } else {
      var head := Comma(s) + Pair(ms[0]);
      var s1 := Wrote(s, head, s.argCount + 1, false);
      OneArg(parse, s, args[0]);
      RunConcat(parse, s, ArgEvents(args[0]), AllArgEvents(args[1..]));
      WroteTwice(s, head, MembersText(ms[1..], false), s.argCount + 1, s.argCount + |args|, false, false);
      AllArgs(parse, s1, args[1..]);
      assert ms[1..] == MembersOf(args[1..]);
      assert head + MembersText(ms[1..], false) == MembersText(ms, s.argCount == 0);
    }
  }

  lemma CloseCall(s: State, name: string, ms: seq<Member>)
    requires Inv(s) && s.current == LastCall && name != "" && !s.quotePending
    requires Current(s) == ToolCall(name, "{" + MembersText(ms, true), "")
    ensures StepClose(s).result == WithCurrent(s, ToolCall(name, ObjectText(ms), "")).result
  {
    ClosingAddsOneBrace(ms);
  }

  lemma {:induction false} ArgsAreBody(args: seq<Arg>, started: bool)
    ensures Body(AllArgEvents(args)) && NamedValues(AllArgEvents(args), started)
    decreases |args|
  {
    if args != [] {
      var es, tail := ArgEvents(args[0]), AllArgEvents(args[1..]);
      ArgsAreBody(args[1..], true);
      var all := es + tail;
      assert all[1..][1..][1..][1..] == tail;
      assert all[0] == es[0] && all[1] == es[1] && all[2] == es[2] && all[3] == es[3];
      assert NamedValues(all[1..][1..][1..], true);
      assert NamedValues(all[1..][1..], true);
    }
  }

  /**
   * A call with string arguments, named at any position and with any nodes without effect between: the result
   * gains one call whose arguments are the JSON object of the arguments in order, and reading that text gives them
   * back.
   */
  lemma TaggedCallPrintsJson(
      parse: JsonParser, s: State, open: Event, n: Event, close: Event, args: seq<Arg>, k: nat, es: seq<Event>)
    requires Inv(s) && open.tag == ToolOpen && IsName(n) && close.tag == ToolClose
    requires k <= |AllArgEvents(args)|
    requires var body := AllArgEvents(args); Heard(es) == [open] + (body[..k] + [n] + body[k..]) + [close]
    ensures var body, ms := AllArgEvents(args), MembersOf(args);
            && Run(parse, s, es).result ==
               s.result.(toolCalls := s.result.toolCalls + [ToolCall(TrimEnd(n.text, -1), ObjectText(ms), "")])
            && ReadObject(ObjectText(ms)) == Some(ms)
            && Lex(START, ObjectText(ms)) == START
  {
    hide AllArgEvents, BraceDepth, Braces, Lex, MembersOf, Run, ValuePiece, Heard;
    var body, ms := AllArgEvents(args), MembersOf(args);
    ArgsAreBody(args, false);
    var here := [open] + (body[..k] + [n] + body[k..]) + [close];
    RunHeard(parse, s, es);
    assert body[..0] + [n] + body[0..] == [n] + body;
    NameTimingInvisible(parse, s, open, n, body, [close], k, 0, here, [open] + ([n] + body) + [close]);
    RunCall(parse, s, open, [n] + body, [close]);
    var s1 := Step(parse, s, open);
    CallBodyRun(parse, s1, n, args);
    var s3 := Shown(s1, TrimEnd(n.text, -1), "{" + MembersText(ms, true)).(argCount := |args|);
    RunOne(parse, s3, close);
    CloseCall(s3, TrimEnd(n.text, -1), ms);
    ReplaceLast(s.result.toolCalls, Current(s3), ToolCall(TrimEnd(n.text, -1), ObjectText(ms), ""));
    ObjectReadsBack(ms);
    ClosingAddsOneBrace(ms);
  }

  lemma ReplaceLast<T>(xs: seq<T>, a: T, b: T)
    ensures (xs + [a])[|xs| := b] == xs + [b]
  {
  }

  lemma CallBodyRun(parse: JsonParser, s: State, n: Event, args: seq<Arg>)
    requires Unnamed(s) && IsName(n) && s.buffer == "" && s.argCount == 0 && !s.quotePending
    ensures Run(parse, s, [n] + AllArgEvents(args)) ==
            Shown(s, TrimEnd(n.text, -1), "{" + MembersText(MembersOf(args), true)).(argCount := |args|)
  {
    var name, body := TrimEnd(n.text, -1), AllArgEvents(args);
    NameShows(parse, s, n);
    var s2 := Shown(s, name, "{");
    assert ([n] + body)[0] == n && ([n] + body)[1..] == body;
    AllArgs(parse, s2, args);
    ShownArgs(s, name, "{", "{" + MembersText(MembersOf(args), true));
  }
}
