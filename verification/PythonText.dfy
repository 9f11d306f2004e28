/**
 * What rewriting Python-style quotes means: literals keep the text they denote, and everything outside them stays as
 * it stands.
 */
module PythonText {
  import opened Common
  import opened JsonText
  import opened QuoteLexers

  /** How a string literal is written: in single quotes, with or without escaping double ones, or as JSON. */
  datatype Style = Bare | Escaped | AsJson

  /** One character of a literal in single quotes. */
  function PythonChar(c: char, style: Style): string {
    if c == '\'' then "\\'"
    else if c == '"' && style == Bare then "\""
    else EscapeChar(c)
  }

  function PythonBody(s: string, style: Style): string
    decreases |s|
  {
    if s == "" then "" else PythonChar(s[0], style) + PythonBody(s[1..], style)
  }

  /** A literal in the given style. */
  function Literal(s: string, style: Style): string {
    if style == AsJson then Quote(s) else "'" + PythonBody(s, style) + "'"
  }

  /** One character outside literals, or a whole literal. */
  datatype Token = Plain(c: char) | Text(s: string, style: Style)

  predicate GoodToken(t: Token) {
    t.Plain? ==> t.c != '"' && t.c != '\''
  }

  function PythonPrint(ts: seq<Token>): string {
    FlatMap((t: Token) => match t case Plain(c) => [c] case Text(s, style) => Literal(s, style), ts)
  }

  /** The same with every literal as JSON. */
  function JsonPrint(ts: seq<Token>): string {
    FlatMap((t: Token) => match t case Plain(c) => [c] case Text(s, _) => Quote(s), ts)
  }

  // ---------- one construct at a time ----------

  /** What the rewriter makes of `piece` in state `q`, whatever follows it. */
  ghost predicate Becomes(piece: string, q: Quotes, out: string, q': Quotes) {
    forall rest: string :: Norm(piece + rest, q) == (out + Norm(rest, q').0, Norm(rest, q').1)
  }

  lemma BecomesConcat(a: string, b: string, q: Quotes, x: string, q': Quotes, y: string, q'': Quotes)
    requires Becomes(a, q, x, q') && Becomes(b, q', y, q'')
    ensures Becomes(a + b, q, x + y, q'')
  {
    hide Norm;
    forall rest: string
      ensures Norm(a + b + rest, q) == (x + y + Norm(rest, q'').0, Norm(rest, q'').1)
    {
      assert a + b + rest == a + (b + rest);
      assert Norm(a + (b + rest), q) == (x + Norm(b + rest, q').0, Norm(b + rest, q').1);
      assert x + (y + Norm(rest, q'').0) == x + y + Norm(rest, q'').0;
    }
  }

  lemma BecomesNothing(q: Quotes)
    ensures Becomes("", q, "", q)
  {
    forall rest: string
      ensures Norm("" + rest, q) == ("" + Norm(rest, q).0, Norm(rest, q).1)
    {
      assert "" + rest == rest && "" + Norm(rest, q).0 == Norm(rest, q).0;
    }
  }

  /** A piece that is one step of the rewriter. */
  lemma OneStep(piece: string, q: Quotes, out: string, q': Quotes)
    requires piece != "" && forall rest: string :: NormStep(piece + rest, q) == (out, |piece|, q')
    ensures Becomes(piece, q, out, q')
  {
    forall rest: string
      ensures Norm(piece + rest, q) == (out + Norm(rest, q').0, Norm(rest, q').1)
    {
      assert NormStep(piece + rest, q) == (out, |piece|, q');
      assert (piece + rest)[|piece|..] == rest;
    }
  }

  lemma PlainStep(c: char)
    requires c != '"' && c != '\''
    ensures Becomes([c], Outside, [c], Outside)
  {
    forall rest: string
      ensures NormStep([c] + rest, Outside) == ([c], 1, Outside)
    {
      assert ([c] + rest)[0] == c;
    }
    OneStep([c], Outside, [c], Outside);
  }

  lemma QuoteStep(c: char, q: Quotes, q': Quotes)
    requires (c == '\'' && {q, q'} == {Outside, Single}) || (c == '"' && {q, q'} == {Outside, Double})
    ensures Becomes([c], q, "\"", q')
  {
    assert q != q' by {
      assert Outside in {q, q'};
    }
    forall rest: string
      ensures NormStep([c] + rest, q) == ("\"", 1, q')
    {
      assert ([c] + rest)[0] == c;
      assert q in {q, q'} && q' in {q, q'};
    }
    OneStep([c], q, "\"", q');
  }

  /** Two characters of which the first is a backslash, inside a literal. */
  lemma EscapeStep(d: char, q: Quotes)
    requires q != Outside
    ensures Becomes(['\\', d], q, if q == Single && d == '\'' then "'" else ['\\', d], q)
  {
    var out := if q == Single && d == '\'' then "'" else ['\\', d];
    forall rest: string
      ensures NormStep(['\\', d] + rest, q) == (out, 2, q)
    {
      assert (['\\', d] + rest)[0] == '\\' && (['\\', d] + rest)[1] == d;
    }
    OneStep(['\\', d], q, out, q);
  }

  /** Any other character inside a literal. */
  lemma InnerStep(c: char, q: Quotes)
    requires q != Outside && c != '\\' && (c == '"' ==> q == Single) && (c == '\'' ==> q == Double)
    ensures Becomes([c], q, if c == '"' then "\\\"" else [c], q)
  {
    var out := if c == '"' then "\\\"" else [c];
    forall rest: string
      ensures NormStep([c] + rest, q) == (out, 1, q)
    {
      assert ([c] + rest)[0] == c;
    }
    OneStep([c], q, out, q);
  }

  /** A JSON escape stands in both kinds of literal for itself. */
  lemma EscapeCharBecomes(c: char, q: Quotes)
    requires q != Outside && (c == '\'' ==> q == Double)
    ensures Becomes(EscapeChar(c), q, EscapeChar(c), q)
  {
    hide Becomes;
    var e := EscapeChar(c);
    if |e| == 1 {
      InnerStep(c, q);
    } else if |e| == 2 {
      EscapeStep(e[1], q);
      assert e == ['\\', e[1]];
    } else {
      SixBecome(c, q);
    }
  }

  predicate Ordinary(c: char) {
    c != '"' && c != '\'' && c != '\\'
  }

  lemma TwoInner(a: char, b: char, q: Quotes)
    requires q != Outside && Ordinary(a) && Ordinary(b)
    ensures Becomes([a, b], q, [a, b], q)
  {
    hide Becomes;
    InnerStep(a, q);
    InnerStep(b, q);
    BecomesConcat([a], [b], q, [a], q, [b], q);
    assert [a] + [b] == [a, b];
  }

  lemma SixBecome(c: char, q: Quotes)
    requires q != Outside && |EscapeChar(c)| == 6
    ensures Becomes(EscapeChar(c), q, EscapeChar(c), q)
  {
    hide *;
    var x, y := SixParts(c);
    EscapeStep('u', q);
    TwoInner('0', '0', q);
    TwoInner(x, y, q);
    BecomesConcat(['0', '0'], [x, y], q, ['0', '0'], q, [x, y], q);
    BecomesConcat(['\\', 'u'], ['0', '0'] + [x, y], q, ['\\', 'u'], q, ['0', '0'] + [x, y], q);
  }

  lemma SixParts(c: char) returns (x: char, y: char)
    requires |EscapeChar(c)| == 6
    ensures Ordinary(x) && Ordinary(y) && Ordinary('0')
    ensures EscapeChar(c) == ['\\', 'u'] + (['0', '0'] + [x, y])
  {
    x, y := HexDigit(c as int / 16), HexDigit(c as int % 16);
    HexInner(c as int / 16);
    HexInner(c as int % 16);
  }

  lemma HexInner(n: int)
    requires 0 <= n < 16
    ensures HexDigit(n) != '"' && HexDigit(n) != '\\' && HexDigit(n) != '\''
  {
  }

  lemma CharBecomes(c: char, style: Style)
    requires style != AsJson
    ensures Becomes(PythonChar(c, style), Single, EscapeChar(c), Single)
  {
    hide Becomes;
    if c == '\'' {
      EscapeStep('\'', Single);
      assert "\\'" == ['\\', '\''] && EscapeChar(c) == "'";
    } else if c == '"' && style == Bare {
      InnerStep('"', Single);
      assert "\"" == ['"'];
    } else {
      EscapeCharBecomes(c, Single);
    }
  }

  lemma {:induction false} BodyBecomes(s: string, style: Style)
    requires style != AsJson
    ensures Becomes(PythonBody(s, style), Single, Escape(s), Single)
    decreases |s|
  {
    hide Becomes, PythonChar, EscapeChar;
    if s == "" {
      BecomesNothing(Single);
    } else {
      CharBecomes(s[0], style);
      BodyBecomes(s[1..], style);
      BecomesConcat(PythonChar(s[0], style), PythonBody(s[1..], style), Single,
                    EscapeChar(s[0]), Single, Escape(s[1..]), Single);
      assert Escape(s) == EscapeChar(s[0]) + Escape(s[1..]);
    }
  }

  lemma {:induction false} EscapeBecomes(s: string)
    ensures Becomes(Escape(s), Double, Escape(s), Double)
    decreases |s|
  {
    hide Becomes, EscapeChar;
    if s == "" {
      BecomesNothing(Double);
    } else {
      EscapeCharBecomes(s[0], Double);
      EscapeBecomes(s[1..]);
      BecomesConcat(EscapeChar(s[0]), Escape(s[1..]), Double, EscapeChar(s[0]), Double, Escape(s[1..]), Double);
      assert Escape(s) == EscapeChar(s[0]) + Escape(s[1..]);
    }
  }

  /** A literal in any style becomes the JSON string with the same contents. */
  lemma LiteralBecomes(s: string, style: Style)
    ensures Becomes(Literal(s, style), Outside, Quote(s), Outside)
  {
    hide Becomes;
    if style == AsJson {
      QuoteStep('"', Outside, Double);
      EscapeBecomes(s);
      QuoteStep('"', Double, Outside);
      BecomesConcat("\"", Escape(s), Outside, "\"", Double, Escape(s), Double);
      BecomesConcat("\"" + Escape(s), "\"", Outside, "\"" + Escape(s), Double, "\"", Outside);
    } else {
      QuoteStep('\'', Outside, Single);
      BodyBecomes(s, style);
      QuoteStep('\'', Single, Outside);
      BecomesConcat("'", PythonBody(s, style), Outside, "\"", Single, Escape(s), Single);
      BecomesConcat("'" + PythonBody(s, style), "'", Outside, "\"" + Escape(s), Single, "\"", Outside);
    }
  }

  lemma {:induction false} PrintBecomes(ts: seq<Token>)
    requires forall t | t in ts :: GoodToken(t)
    ensures Becomes(PythonPrint(ts), Outside, JsonPrint(ts), Outside)
    decreases |ts|
  {
    hide Becomes, Literal, Quote;
    if ts == [] {
      BecomesNothing(Outside);
    } else {
      var head, rest := ts[0], ts[1..];
      assert GoodToken(head);
      PrintBecomes(rest);
      match head {
        case Plain(c) =>
          PlainStep(c);
          BecomesConcat([c], PythonPrint(rest), Outside, [c], Outside, JsonPrint(rest), Outside);
        case Text(s, style) =>
          LiteralBecomes(s, style);
          BecomesConcat(Literal(s, style), PythonPrint(rest), Outside, Quote(s), Outside, JsonPrint(rest), Outside);
      }
    }
  }

  /**
   * Rewriting turns every literal, in single or double quotes, into the JSON literal of the same text, which reads
   * back as that text, and leaves everything else as it stands.
   */
  lemma NormalizeKeepsTexts(ts: seq<Token>)
    requires forall t | t in ts :: GoodToken(t)
    ensures NormalizeQuotes(PythonPrint(ts)) == JsonPrint(ts)
  {
    hide PythonPrint, JsonPrint, Norm;
    PrintBecomes(ts);
    assert PythonPrint(ts) + "" == PythonPrint(ts);
    assert Norm("", Outside) == ("", Outside) by {
      NormNothing();
    }
    assert JsonPrint(ts) + "" == JsonPrint(ts);
  }

  lemma NormNothing()
    ensures Norm("", Outside) == ("", Outside)
  {
  }
}
