/**
 * Streaming monotonicity: when the events of one parse grow into those of the next, everything the
 * first snapshot showed is a prefix of what the second one shows.
 */
module StreamGrowth {
  import opened Common
  import opened JsonText
  import opened QuoteLexers
  import opened ToolCallMapper

  // ---------- when one message extends another ----------

  predicate CallExtends(a: ToolCall, b: ToolCall) {
    a.name <= b.name && a.arguments <= b.arguments
  }

  /** Text grows at its end, new calls come last, and of the old ones only the last may still grow. */
  predicate Extends(a: Message, b: Message) {
    && a.content <= b.content
    && a.reasoning <= b.reasoning
    && |a.toolCalls| <= |b.toolCalls|
    && (forall i | 0 <= i < |a.toolCalls| - 1 :: a.toolCalls[i] == b.toolCalls[i])
    && (a.toolCalls != [] ==> CallExtends(a.toolCalls[|a.toolCalls| - 1], b.toolCalls[|a.toolCalls| - 1]))
  }

  lemma ExtendsTransitive(a: Message, b: Message, c: Message)
    requires Extends(a, b) && Extends(b, c)
    ensures Extends(a, c)
  {
    var n := |a.toolCalls| - 1;
    if n >= 0 {
      assert n < |b.toolCalls| - 1 ==> b.toolCalls[n] == c.toolCalls[n];
    }
  }

  // ---------- well-ordered events ----------

  /** What has happened since the last tool-open event. */
  datatype Scan = Scan(named: bool, written: bool, quoteOpen: bool)

  const FRESH := Scan(false, false, false)

  function ScanStep(sc: Scan, e: Event): Scan {
    match e.tag
    case ToolOpen => FRESH
    case ToolName => sc.(named := true)
    case ToolArgs => if IsJsonArgs(e) then sc.(written := true) else sc
    case ArgName => sc.(written := true)
    case ArgValue => sc.(written := true, quoteOpen := true)
    case ArgStringValue => sc.(written := true, quoteOpen := true)
    case ArgOpen => sc.(quoteOpen := false)
    case ArgClose => sc.(quoteOpen := false)
    case ToolClose => sc.(written := true, quoteOpen := false)
    case _ => sc
  }

  /**
   * A call is named at most once and not with blanks, a JSON object comes before any other argument
   * text, and an argument boundary separates a string value from the value before it.
   */
  predicate ScanOk(sc: Scan, e: Event) {
    match e.tag
    case ToolName => !sc.named && TrimEnd(e.text, -1) != ""
    case ToolArgs => IsJsonArgs(e) ==> !sc.written
    case ArgStringValue => !sc.quoteOpen
    case _ => true
  }

  predicate WellOrdered(sc: Scan, es: seq<Event>)
    decreases |es|
  {
    es == [] || (ScanOk(sc, es[0]) && WellOrdered(ScanStep(sc, es[0]), es[1..]))
  }

  function ScanRun(sc: Scan, es: seq<Event>): Scan
    decreases |es|
  {
    if es == [] then sc else ScanRun(ScanStep(sc, es[0]), es[1..])
  }

  /** What the scan knows about the mapper's state. */
  predicate Tracks(sc: Scan, s: State) {
    && Inv(s)
    && (sc.quoteOpen ==> sc.written)
    && (s.quotePending ==> sc.quoteOpen && Live(s))
    && (s.current == LastCall ==> sc.named && Current(s).name != "")
    && (s.current == LastCall && !sc.written ==> Current(s).arguments == "{")
    && (s.current == PendingTool && !sc.written ==> s.buffer == "")
  }

  // ---------- one more event ----------

  lemma WithArgsExtends(s: State, args: string)
    requires Inv(s) && Live(s) && Args(s) <= args
    ensures Extends(s.result, WithArgs(s, args).result)
  {
  }

  /** Argument text only ever grows at its end. */
  lemma WriteExtends(sc: Scan, s: State, args: string, n: nat, q: bool, sc': Scan)
    requires Tracks(sc, s) && Live(s) && Args(s) <= args
    requires sc'.written && sc'.named == sc.named && (q ==> sc'.quoteOpen)
    ensures var s' := WithArgs(s, args).(argCount := n, quotePending := q);
            Tracks(sc', s') && Extends(s.result, s'.result)
  {
  }

  /** Naming the call makes it visible with the arguments collected so far. */
  lemma NameExtends(sc: Scan, s: State, text: string)
    requires Tracks(sc, s) && Live(s) && !sc.named && TrimEnd(text, -1) != ""
    ensures Tracks(sc.(named := true), StepName(s, text)) && Extends(s.result, StepName(s, text).result)
  {
  }

  lemma ArgsTextExtends(parse: JsonParser, sc: Scan, s: State, e: Event)
    requires Tracks(sc, s) && Live(s) && ScanOk(sc, e)
    requires e.tag in {ToolArgs, ArgName, ArgValue, ArgStringValue, ArgClose}
    ensures Tracks(ScanStep(sc, e), StepLive(parse, s, e)) && Extends(s.result, StepLive(parse, s, e).result)
  {
    var sc' := ScanStep(sc, e);
    if e.tag == ToolArgs {
      if IsJsonArgs(e) {
        WriteExtends(sc, s, TrimEnd(e.text, -1), s.argCount, s.quotePending, sc');
      }
    } else if e.tag == ArgName {
      var entry := (if s.argCount > 0 then "," else "") + Quote(KeyText(e.text)) + ":";
      WriteExtends(sc, s, (if Args(s) == "" then "{" else Args(s)) + entry, s.argCount + 1, s.quotePending, sc');
    } else if e.tag == ArgClose {
      if s.quotePending {
        WriteExtends(sc, s, Args(s) + "\"", s.argCount, false, sc');
      }
    } else {
      var (piece, q) := ValuePiece(parse, e, s.quotePending);
      WriteExtends(sc, s, Args(s) + piece, s.argCount, q, sc');
    }
  }

  /** An allowed event keeps the scan in step with the mapper and retracts nothing shown. */
  lemma StepExtends(parse: JsonParser, sc: Scan, s: State, e: Event)
    requires Tracks(sc, s) && ScanOk(sc, e)
    ensures Tracks(ScanStep(sc, e), Step(parse, s, e))
    ensures Extends(s.result, Step(parse, s, e).result)
  {
    hide StepName;
    if Live(s) && e.tag == ToolClose {
      StepCloseExtends(sc, s);
    } else if Live(s) && e.tag == ToolName {
      NameExtends(sc, s, e.text);
    } else if Live(s) && e.tag in {ToolArgs, ArgName, ArgValue, ArgStringValue, ArgClose} {
      ArgsTextExtends(parse, sc, s, e);
    }
  }

  lemma StepCloseExtends(sc: Scan, s: State)
    requires Tracks(sc, s) && Live(s)
    ensures Tracks(sc.(written := true, quoteOpen := false), StepClose(s))
    ensures Extends(s.result, StepClose(s).result)
  {
    if s.current == LastCall {
      var args := Current(s).arguments;
      var a := args + (if s.quotePending then "\"" else "");
      assert args <= a <= ClosedArgs(args, s.quotePending);
    }
  }

  lemma {:induction false} RunExtends(parse: JsonParser, sc: Scan, s: State, es: seq<Event>)
    requires Tracks(sc, s) && WellOrdered(sc, es)
    ensures Extends(s.result, Run(parse, s, es).result)
    decreases |es|
  {
    if es != [] {
      var s1 := Step(parse, s, es[0]);
      StepExtends(parse, sc, s, es[0]);
      RunExtends(parse, ScanStep(sc, es[0]), s1, es[1..]);
      ExtendsTransitive(s.result, s1.result, Run(parse, s1, es[1..]).result);
    }
  }

  // ---------- one event growing ----------

  /** A container value whose text is passed through as it stands. */
  predicate RawContainer(parse: JsonParser, e: Event) {
    e.tag == ArgValue && IsContainer(TrimOne(e.text)) &&
    match parse(NormalizeQuotes(TrimOne(e.text)))
    case JsonOther => true
    case NotJson => e.isPartial
    case JsonString(_) => false
  }

  /** How a value of an undeclared type is shown: not at all, as it stands, quoted, or as the string it denotes. */
  datatype Mode = Silent | Raw | Quoted | Decoded

  function ModeOf(parse: JsonParser, e: Event): Mode {
    var v := TrimOne(e.text);
    if v == "" then Silent
    else match parse(if IsContainer(v) then NormalizeQuotes(v) else v)
      case JsonString(_) => Decoded
      case JsonOther => Raw
      case NotJson => if e.isPartial && IsContainer(v) then Raw else Quoted
  }

  /** The two container texts do not meet in the middle of an escaped single quote. */
  predicate NoCutQuote(v: string, w: string)
    requires v <= w
  {
    v == w || !CutEscape(v, Outside) || w[|v|] != '\''
  }

  /** Both values append the same text, whether or not an earlier one is still quoted. */
  predicate SamePiece(parse: JsonParser, e: Event, f: Event) {
    forall q :: ValuePiece(parse, e, q) == ValuePiece(parse, f, q)
  }

  /** The mapper cannot tell the two events apart. */
  predicate SameEffect(parse: JsonParser, e: Event, f: Event) {
    && e.tag == f.tag
    && match e.tag
       case Reasoning => e.text == f.text
       case Content => e.text == f.text
       case ToolId => IdText(e.text) == IdText(f.text)
       case ToolName => TrimEnd(e.text, -1) == TrimEnd(f.text, -1)
       case ToolArgs => TrimEnd(e.text, -1) == TrimEnd(f.text, -1)
       case ArgName => KeyText(e.text) == KeyText(f.text)
       case ArgValue => SamePiece(parse, e, f)
       case ArgStringValue => SamePiece(parse, e, f)
       case _ => true
  }

  lemma SameStep(parse: JsonParser, s: State, e: Event, f: Event)
    requires SameEffect(parse, e, f)
    ensures Step(parse, s, e) == Step(parse, s, f)
  {
    hide ValuePiece, TrimEnd, IdText, KeyText, StepClose;
    assert SamePiece(parse, e, f) ==> ValuePiece(parse, e, s.quotePending) == ValuePiece(parse, f, s.quotePending);
  }

  /** Text that is shown as it grows; a value as long as it is shown in one way. */
  predicate Lengthens(parse: JsonParser, e: Event, f: Event) {
    && e.text <= f.text
    && match e.tag
       case Reasoning => true
       case Content => true
       case ToolName => true
       case ToolArgs => true
       case ArgStringValue => true
       case ArgValue =>
         ModeOf(parse, e) == Silent ||
         (&& ModeOf(parse, e) == ModeOf(parse, f) != Decoded
          && (TrimOneMonotone(e.text, f.text);
              IsContainer(TrimOne(e.text)) ==> NoCutQuote(TrimOne(e.text), TrimOne(f.text))))
       case _ => false
  }

  /** How the last event of a parse may differ from the same event of the next parse. */
  predicate GrowsTo(parse: JsonParser, e: Event, f: Event) {
    e.tag == f.tag && (SameEffect(parse, e, f) || Lengthens(parse, e, f))
  }

  lemma AnyPieceGrows(parse: JsonParser, e: Event, f: Event, q: bool)
    requires e.tag == f.tag == ArgValue && Lengthens(parse, e, f)
    ensures ValuePiece(parse, e, q).0 <= ValuePiece(parse, f, q).0
  {
    hide TrimOne, Escape, NormalizeQuotes;
    TrimOneMonotone(e.text, f.text);
    var v, w := TrimOne(e.text), TrimOne(f.text);
    if v != "" {
      var a, b := if IsContainer(v) then NormalizeQuotes(v) else v, if IsContainer(w) then NormalizeQuotes(w) else w;
      assert IsContainer(v) == IsContainer(w);
      if IsContainer(v) {
        NormalizedGrows(v, w);
      }
      EscapeMonotone(a, b);
    }
  }

  lemma NormalizedGrows(v: string, w: string)
    requires v <= w && NoCutQuote(v, w)
    ensures NormalizeQuotes(v) <= NormalizeQuotes(w)
  {
    assert w == v + w[|v|..];
    NormMonotone(v, w[|v|..], Outside);
  }

  lemma StringPieceGrows(parse: JsonParser, e: Event, f: Event)
    requires e.tag == f.tag == ArgStringValue && e.text <= f.text
    ensures ValuePiece(parse, e, false).0 <= ValuePiece(parse, f, false).0
  {
    TrimOneMonotone(e.text, f.text);
    EscapeMonotone(TrimOne(e.text), TrimOne(f.text));
  }

  lemma ValueGrows(parse: JsonParser, s: State, e: Event, f: Event)
    requires Inv(s) && Live(s) && e.tag == f.tag && Lengthens(parse, e, f) && e.tag in {ArgValue, ArgStringValue}
    requires e.tag == ArgStringValue ==> !s.quotePending
    ensures Extends(StepLive(parse, s, e).result, StepLive(parse, s, f).result)
  {
    if e.tag == ArgValue {
      AnyPieceGrows(parse, e, f, s.quotePending);
    } else {
      StringPieceGrows(parse, e, f);
    }
    var a, b := ValuePiece(parse, e, s.quotePending).0, ValuePiece(parse, f, s.quotePending).0;
    assert Args(s) + a <= Args(s) + b;
    WithArgsGrow(s, Args(s) + a, Args(s) + b);
  }

  lemma WithArgsGrow(s: State, a: string, b: string)
    requires Inv(s) && Live(s) && a <= b
    ensures Extends(WithArgs(s, a).result, WithArgs(s, b).result)
  {
  }

  lemma NameGrows(s: State, a: string, b: string)
    requires Inv(s) && Live(s) && s.current == PendingTool && a <= b
    ensures Extends(StepName(s, a).result, StepName(s, b).result)
  {
    TrimEndMonotone(a, b);
  }

  lemma JsonArgsGrow(parse: JsonParser, s: State, e: Event, f: Event)
    requires Inv(s) && Live(s) && e.tag == f.tag == ToolArgs && e.text <= f.text
    requires IsJsonArgs(f) ==> Args(s) == "" || Args(s) == "{"
    ensures Extends(StepLive(parse, s, e).result, StepLive(parse, s, f).result)
  {
    TrimEndMonotone(e.text, f.text);
    var t, u := TrimEnd(e.text, -1), TrimEnd(f.text, -1);
    if IsJsonArgs(e) {
      WithArgsGrow(s, t, u);
    } else if IsJsonArgs(f) {
      WithArgsExtends(s, u);
    }
  }

  lemma EventGrows(parse: JsonParser, sc: Scan, s: State, e: Event, f: Event)
    requires Tracks(sc, s) && ScanOk(sc, f) && GrowsTo(parse, e, f)
    ensures Extends(Step(parse, s, e).result, Step(parse, s, f).result)
  {
    if SameEffect(parse, e, f) {
      SameStep(parse, s, e, f);
    } else if Live(s) && e.tag == ToolName {
      NameGrows(s, e.text, f.text);
    } else if Live(s) && e.tag == ToolArgs {
      JsonArgsGrow(parse, s, e, f);
    } else if Live(s) && e.tag in {ArgValue, ArgStringValue} {
      ValueGrows(parse, s, e, f);
    } else if e.tag !in {Reasoning, Content} {
      assert Step(parse, s, e) == Step(parse, s, f);
    }
  }

  // ---------- exactly when a growing value retracts ----------

  lemma AppendExact(s: State, a: string, b: string)
    requires Inv(s) && s.current == LastCall && Current(s).name != ""
    ensures Extends(WithArgs(s, Args(s) + a).result, WithArgs(s, Args(s) + b).result) <==> a <= b
  {
    PlusPrefix(Args(s), a, b);
  }

  /**
   * For a call already shown, a growing string value keeps what was shown, except exactly when it
   * grows from empty while an earlier value's closing quote is still pending.
   */
  lemma StringGrowthExact(parse: JsonParser, s: State, e: Event, f: Event)
    requires Inv(s) && s.current == LastCall && Current(s).name != ""
    requires e.tag == f.tag == ArgStringValue && e.text <= f.text
    ensures Extends(Step(parse, s, e).result, Step(parse, s, f).result) <==>
            !(s.quotePending && TrimOne(e.text) == "" && TrimOne(f.text) != "")
  {
    hide Current, ValuePiece, TrimOne, StepClose, Extends;
    var q := s.quotePending;
    StringPieces(parse, e, f, q);
    AppendExact(s, ValuePiece(parse, e, q).0, ValuePiece(parse, f, q).0);
    ValueStep(parse, s, e);
    ValueStep(parse, s, f);
  }

  lemma ValueStep(parse: JsonParser, s: State, e: Event)
    requires Inv(s) && Live(s) && e.tag in {ArgValue, ArgStringValue}
    ensures Step(parse, s, e).result == WithArgs(s, Args(s) + ValuePiece(parse, e, s.quotePending).0).result
  {
    hide ValuePiece;
  }

  /** The text of a growing string grows, unless its first character takes the place of an opening quote. */
  lemma StringPieces(parse: JsonParser, e: Event, f: Event, q: bool)
    requires e.tag == f.tag == ArgStringValue && e.text <= f.text
    ensures ValuePiece(parse, e, q).0 <= ValuePiece(parse, f, q).0 <==>
            !(q && TrimOne(e.text) == "" && TrimOne(f.text) != "")
  {
    hide TrimOne, IsSpace;
    var v, w := TrimOne(e.text), TrimOne(f.text);
    TrimOneMonotone(e.text, f.text);
    EscapeMonotone(v, w);
    var a, b := ValuePiece(parse, e, q).0, ValuePiece(parse, f, q).0;
    if q && v == "" && w != "" {
      assert b == Escape(w) == EscapeChar(w[0]) + Escape(w[1..]);
      assert b[0] == EscapeChar(w[0])[0] != '"';
    } else {
      assert a <= b;
    }
  }

  /** A growing container value keeps what was shown exactly when it is not cut at an escaped quote. */
  lemma ContainerGrowthExact(parse: JsonParser, s: State, e: Event, f: Event)
    requires Inv(s) && s.current == LastCall && Current(s).name != ""
    requires e.text <= f.text && RawContainer(parse, e) && RawContainer(parse, f)
    ensures TrimOne(e.text) <= TrimOne(f.text)
    ensures Extends(Step(parse, s, e).result, Step(parse, s, f).result) <==>
            NoCutQuote(TrimOne(e.text), TrimOne(f.text))
  {
    TrimOneMonotone(e.text, f.text);
    var v, w := TrimOne(e.text), TrimOne(f.text);
    assert w == v + w[|v|..];
    NormMonotone(v, w[|v|..], Outside);
    AppendExact(s, ValuePiece(parse, e, s.quotePending).0, ValuePiece(parse, f, s.quotePending).0);
  }

  lemma TruText()
    ensures TrimOne("tru") == "tru" && TrimOne("true") == "true"
    ensures Escape("tru") == "tru"
  {
    assert "tru"[1..] == "ru" && "ru"[1..] == "u" && "u"[1..] == "";
  }

  /** A value that is not a string or container may be taken back: `tru` is shown as text, `true` is not. */
  lemma PartialLiteralRetracts(parse: JsonParser, s: State)
    requires Inv(s) && s.current == LastCall && Current(s).name != "" && !s.quotePending
    requires parse("tru") == NotJson && parse("true") == JsonOther
    ensures !Extends(Step(parse, s, Event(ArgValue, "tru", true)).result,
                     Step(parse, s, Event(ArgValue, "true", true)).result)
  {
    hide Escape;
    TruText();
    var a, b := "\"tru", "true";
    AppendExact(s, a, b);
    assert a[0] != b[0];
  }

  const CUT := "['\\"

  lemma CutText()
    ensures TrimOne(CUT) == CUT && TrimOne(CUT + "'") == CUT + "'"
    ensures CutEscape(CUT, Outside)
  {
    assert CUT[1..] == "'\\" && "'\\"[1..] == "\\";
    assert CutEscape("\\", Single);
    assert CutEscape("'\\", Outside);
  }

  /** The one bad cut: a list whose string was cut between a backslash and the single quote it escapes. */
  lemma CutQuoteRetracts(parse: JsonParser, s: State)
    requires Inv(s) && s.current == LastCall && Current(s).name != ""
    requires parse(NormalizeQuotes(CUT)) == NotJson && parse(NormalizeQuotes(CUT + "'")) == NotJson
    ensures !Extends(Step(parse, s, Event(ArgValue, CUT, true)).result,
                     Step(parse, s, Event(ArgValue, CUT + "'", true)).result)
  {
    hide TrimOne, CutEscape, NormalizeQuotes, Step, Extends;
    CutText();
    ContainerGrowthExact(parse, s, Event(ArgValue, CUT, true), Event(ArgValue, CUT + "'", true));
  }

  // ---------- one parse growing into the next ----------

  /** The last event may lengthen, the ones before stay as they are for the mapper, and more may follow. */
  predicate Grows(parse: JsonParser, es: seq<Event>, fs: seq<Event>) {
    && |es| <= |fs|
    && (forall i | 0 <= i < |es| - 1 :: SameEffect(parse, es[i], fs[i]))
    && (es != [] ==> GrowsTo(parse, es[|es| - 1], fs[|es| - 1]))
  }

  lemma {:induction false} RunSameEffect(parse: JsonParser, s: State, es: seq<Event>, fs: seq<Event>)
    requires |es| == |fs| && forall i | 0 <= i < |es| :: SameEffect(parse, es[i], fs[i])
    ensures Run(parse, s, es) == Run(parse, s, fs)
    decreases |es|
  {
    hide SameEffect, Step;
    if es != [] {
      SameStep(parse, s, es[0], fs[0]);
      RunSameEffect(parse, Step(parse, s, es[0]), es[1..], fs[1..]);
    }
  }

  /** A well-ordered prefix leaves the scan in step with the mapper, and the rest well-ordered. */
  lemma {:induction false} TracksRun(parse: JsonParser, sc: Scan, s: State, es: seq<Event>, rest: seq<Event>)
    requires Tracks(sc, s) && WellOrdered(sc, es + rest)
    ensures Tracks(ScanRun(sc, es), Run(parse, s, es)) && WellOrdered(ScanRun(sc, es), rest)
    decreases |es|
  {
    if es == [] {
      assert es + rest == rest;
    } else {
      StepExtends(parse, sc, s, es[0]);
      assert (es + rest)[0] == es[0] && (es + rest)[1..] == es[1..] + rest;
      TracksRun(parse, ScanStep(sc, es[0]), Step(parse, s, es[0]), es[1..], rest);
    }
  }

  /** Nodes the mapper does nothing with have no order to keep. */
  lemma {:induction false} WellOrderedHeard(sc: Scan, es: seq<Event>)
    ensures WellOrdered(sc, Heard(es)) <==> WellOrdered(sc, es)
    decreases |es|
  {
    if es != [] {
      var e, rest := es[0], es[1..];
      WellOrderedHeard(ScanStep(sc, e), rest);
      if Inert(e) {
        assert ScanStep(sc, e) == sc && ScanOk(sc, e);
        assert Heard(es) == Heard(rest);
      } else {
        assert Heard(es)[0] == e && Heard(es)[1..] == Heard(rest);
      }
    }
  }

  lemma GrownExtends(parse: JsonParser, es: seq<Event>, fs: seq<Event>)
    requires Grows(parse, es, fs) && WellOrdered(FRESH, fs)
    ensures Extends(Run(parse, INITIAL, es).result, Run(parse, INITIAL, fs).result)
  {
    hide SameEffect, GrowsTo;
    if es == [] {
      RunExtends(parse, FRESH, INITIAL, fs);
    } else {
      var n := |es| - 1;
      var e, f, more := es[n], fs[n], fs[n + 1..];
      RunSameEffect(parse, INITIAL, es[..n], fs[..n]);
      assert es == es[..n] + [e] && fs == fs[..n] + ([f] + more);
      var s, sc := Run(parse, INITIAL, fs[..n]), ScanRun(FRESH, fs[..n]);
      TracksRun(parse, FRESH, INITIAL, fs[..n], [f] + more);
      assert ([f] + more)[0] == f && ([f] + more)[1..] == more;
      RunConcat(parse, INITIAL, es[..n], [e]);
      RunOne(parse, s, e);
      RunConcat(parse, INITIAL, fs[..n], [f] + more);
      EventGrows(parse, sc, s, e, f);
      StepExtends(parse, sc, s, f);
      RunExtends(parse, ScanStep(sc, f), Step(parse, s, f), more);
      ExtendsTransitive(Step(parse, s, e).result, Step(parse, s, f).result, Run(parse, s, [f] + more).result);
    }
  }

  /** Each snapshot is extended by the next, if what the mapper hears of the one grows into the other. */
  lemma SnapshotsExtend(parse: JsonParser, es: seq<Event>, fs: seq<Event>)
    requires Grows(parse, Heard(es), Heard(fs)) && WellOrdered(FRESH, fs)
    ensures Extends(Snapshot(parse, es), Snapshot(parse, fs))
  {
    hide Grows, Step, Extends;
    FlushIsDead(parse, es);
    FlushIsDead(parse, fs);
    RunHeard(parse, INITIAL, es);
    RunHeard(parse, INITIAL, fs);
    WellOrderedHeard(FRESH, fs);
    GrownExtends(parse, Heard(es), Heard(fs));
  }

  // ---------- growing arguments as the parser visits them ----------

  lemma {:induction false} NothingHeard(es: seq<Event>)
    requires forall e | e in es :: Inert(e)
    ensures Heard(es) == []
    decreases |es|
  {
    if es != [] {
      NothingHeard(es[1..]);
    }
  }

  /**
   * A growing value followed by the nodes of its own parts, which the mapper does nothing with: only what the
   * mapper hears before it and the value itself have to fit.
   */
  lemma PartsIgnored(
      parse: JsonParser, before: seq<Event>, e: Event, f: Event, parts: seq<Event>, parts': seq<Event>,
      more: seq<Event>)
    requires !Inert(e) && !Inert(f) && GrowsTo(parse, e, f)
    requires (forall x | x in parts :: Inert(x)) && (forall x | x in parts' :: Inert(x))
    ensures Grows(parse, Heard(before + [e] + parts), Heard(before + [f] + parts' + more))
  {
    hide Inert, GrowsTo;
    HeardOne(before, e, parts);
    HeardOne(before, f, parts' + more);
    NothingHeard(parts);
    NothingHeard(parts');
    HeardConcat(parts', more);
    assert before + [f] + parts' + more == before + [f] + (parts' + more);
    var h, k := Heard(before), Heard(before) + [f] + Heard(more);
    assert Heard(before + [e] + parts) == h + [e];
    forall i | 0 <= i < |h|
      ensures SameEffect(parse, (h + [e])[i], k[i])
    {
      assert (h + [e])[i] == h[i] == k[i];
    }
  }

  lemma HeardOne(before: seq<Event>, e: Event, rest: seq<Event>)
    requires !Inert(e)
    ensures Heard(before + [e] + rest) == Heard(before) + [e] + Heard(rest)
  {
    hide Inert;
    HeardConcat(before + [e], rest);
    HeardConcat(before, [e]);
    assert [e][1..] == [];
    assert Heard([e]) == [e] + Heard([]);
  }
}
