/**
 * The two character scanners behind tool-call arguments: the brace counter that skips JSON strings and
 * the rewriter of Python-style quotes. They must agree on what is inside a string.
 */
module QuoteLexers {
  import opened Common

  // ---------- json_brace_depth ----------

  datatype Lexer = Lexer(depth: int, inString: bool, escaped: bool)

  const START := Lexer(0, false, false)

  function LexStep(l: Lexer, c: char): Lexer {
    if l.escaped then l.(escaped := false)
    else if c == '\\' && l.inString then l.(escaped := true)
    else if c == '"' then l.(inString := !l.inString)
    else if l.inString then l
    else if c == '{' then l.(depth := l.depth + 1)
    else if c == '}' then l.(depth := l.depth - 1)
    else l
  }

  function Lex(l: Lexer, s: string): Lexer
    decreases |s|
  {
    if s == "" then l else Lex(LexStep(l, s[0]), s[1..])
  }

  function BraceDepth(s: string): int {
    Lex(START, s).depth
  }

  lemma {:induction false} LexConcat(l: Lexer, a: string, b: string)
    ensures Lex(l, a + b) == Lex(Lex(l, a), b)
    decreases |a|
  {
    if a == "" {
      assert a + b == b;
    } else {
      LexConcat(LexStep(l, a[0]), a[1..], b);
      assert (a + b)[1..] == a[1..] + b;
    }
  }

  /** The starting depth only shifts the final one. */
  lemma {:induction false} LexShift(l: Lexer, d: int, s: string)
    ensures Lex(l.(depth := l.depth + d), s) == Lex(l, s).(depth := Lex(l, s).depth + d)
    decreases |s|
  {
    if s != "" {
      assert LexStep(l.(depth := l.depth + d), s[0]) == LexStep(l, s[0]).(depth := LexStep(l, s[0]).depth + d);
      LexShift(LexStep(l, s[0]), d, s[1..]);
    }
  }

  method JsonBraceDepth(s: string) returns (depth: int)
    ensures depth == BraceDepth(s)
  {
    depth := 0;
    var inString, escaped := false, false;
    for i := 0 to |s|
      invariant Lex(START, s) == Lex(Lexer(depth, inString, escaped), s[i..])
    {
      var c := s[i];
      assert s[i..][1..] == s[i + 1..];
      if escaped {
        escaped := false;
      } else if c == '\\' && inString {
        escaped := true;
      } else if c == '"' {
        inString := !inString;
      } else if !inString {
        if c == '{' {
          depth := depth + 1;
        } else if c == '}' {
          depth := depth - 1;
        }
      }
    }
  }

  // ---------- normalize_quotes_to_json ----------

  datatype Quotes = Outside | Single | Double

  /** One loop iteration: the text written, the number of characters read (1 or 2) and the new state. */
  function NormStep(t: string, q: Quotes): (r: (string, nat, Quotes))
    requires t != ""
    ensures 1 <= r.1 <= 2 && r.1 <= |t|
  {
    var c := t[0];
    if c == '\\' && |t| > 1 then
      match q
      case Single =>
        if t[1] == '\'' then ("'", 2, q)
        else if t[1] == '"' then ("\\\"", 2, q)
        else ([c, t[1]], 2, q)
      case Double => ([c, t[1]], 2, q)
      case Outside => ([c], 1, q)
    else if c == '"' then
      match q
      case Single => ("\\\"", 1, q)
      case Double => ([c], 1, Outside)
      case Outside => ([c], 1, Double)
    else if c == '\'' then
      match q
      case Double => ([c], 1, q)
      case Single => ("\"", 1, Outside)
      case Outside => ("\"", 1, Single)
    else ([c], 1, q)
  }

  /** Everything written for `t` when starting in state `q`, and the state at its end. */
  function Norm(t: string, q: Quotes): (string, Quotes)
    decreases |t|
  {
    if t == "" then ("", q)
    else
      var (out, n, q') := NormStep(t, q);
      var (rest, last) := Norm(t[n..], q');
      (out + rest, last)
  }

  function NormalizeQuotes(input: string): string {
    Norm(input, Outside).0
  }

  method NormalizeQuotesToJson(input: string) returns (result: string)
    ensures result == NormalizeQuotes(input)
  {
    result := "";
    var inSingleQuoted, inDoubleQuoted := false, false;
    var i := 0;
    while i < |input|
      invariant 0 <= i <= |input|
      invariant !(inSingleQuoted && inDoubleQuoted)
      invariant NormalizeQuotes(input) == result + Norm(input[i..], State(inSingleQuoted, inDoubleQuoted)).0
    {
      var c := input[i];
      ghost var t, before := input[i..], result;
      ghost var step := NormStep(t, State(inSingleQuoted, inDoubleQuoted));
      ghost var start := i;
      if c == '\\' && i + 1 < |input| {
        var next := input[i + 1];
        if inSingleQuoted {
          if next == '\'' {
            result := result + "'";
          } else if next == '"' {
            result := result + "\\\"";
          } else {
            result := result + [c, next];
          }
          i := i + 1;
        } else if inDoubleQuoted {
          result := result + [c, next];
          i := i + 1;
        } else {
          result := result + [c];
        }
      } else if c == '"' {
        if inSingleQuoted {
          result := result + "\\\"";
        } else {
          inDoubleQuoted := !inDoubleQuoted;
          result := result + [c];
        }
      } else if c == '\'' {
        if inDoubleQuoted {
          result := result + [c];
        } else if inSingleQuoted {
          inSingleQuoted := false;
          result := result + "\"";
        } else {
          inSingleQuoted := true;
          result := result + "\"";
        }
      } else {
        result := result + [c];
      }
      i := i + 1;
      assert result == before + step.0;
      assert i == start + step.1 && input[i..] == t[step.1..];
      assert State(inSingleQuoted, inDoubleQuoted) == step.2;
      PlusAssoc(before, step.0, Norm(t[step.1..], step.2).0);
    }
    assert input[i..] == "";
  }

  ghost function State(inSingleQuoted: bool, inDoubleQuoted: bool): Quotes {
    if inSingleQuoted then Single else if inDoubleQuoted then Double else Outside
  }

  // ---------- the scanners agree ----------

  /** Braces of the input that stand outside every quoted string. */
  function OuterDepth(t: string, q: Quotes): int
    decreases |t|
  {
    if t == "" then 0
    else
      var (_, n, q') := NormStep(t, q);
      (if q == Outside && t[0] == '{' then 1 else if q == Outside && t[0] == '}' then -1 else 0)
      + OuterDepth(t[n..], q')
  }

  /** The text ends inside a string right after a backslash that escapes nothing yet. */
  function Dangling(t: string, q: Quotes): bool
    decreases |t|
  {
    t != "" &&
    if t == "\\" then q != Outside
    else var (_, n, q') := NormStep(t, q); Dangling(t[n..], q')
  }

  lemma LexOne(l: Lexer, c: char)
    ensures Lex(l, [c]) == LexStep(l, c)
  {
    assert [c][1..] == "";
    assert Lex(LexStep(l, c), "") == LexStep(l, c);
  }

  lemma LexTwo(l: Lexer, c: char, d: char)
    ensures Lex(l, [c, d]) == LexStep(LexStep(l, c), d)
  {
    assert [c, d][1..] == [d];
    LexOne(LexStep(l, c), d);
  }

  lemma StepsAgree(t: string, q: Quotes, depth: int)
    requires t != "" && t != "\\"
    ensures var (out, _, q') := NormStep(t, q);
            Lex(Lexer(depth, q != Outside, false), out) ==
            Lexer(depth + (if q != Outside then 0 else if t[0] == '{' then 1 else if t[0] == '}' then -1 else 0),
                  q' != Outside, false)
  {
    var (out, _, q') := NormStep(t, q);
    var l := Lexer(depth, q != Outside, false);
    if |out| == 1 {
      assert out == [out[0]];
      LexOne(l, out[0]);
    } else {
      assert out == [out[0], out[1]];
      LexTwo(l, out[0], out[1]);
    }
  }

  /**
   * On any input, the brace counter run over the rewritten text is inside a string exactly when the
   * rewriter is inside a single- or double-quoted string, and has counted exactly the outer braces.
   */
  lemma {:induction false} LexersAgreeFrom(t: string, q: Quotes, depth: int)
    ensures Lex(Lexer(depth, q != Outside, false), Norm(t, q).0) ==
            Lexer(depth + OuterDepth(t, q), Norm(t, q).1 != Outside, Dangling(t, q))
    decreases |t|
  {
    var l := Lexer(depth, q != Outside, false);
    if t == "" {
    } else if t == "\\" {
      assert t[1..] == "";
      assert Norm(t, q).0 == "\\" + "";
      assert Norm(t, q).0 == ['\\'];
      LexOne(l, '\\');
    } else {
      var (out, n, q') := NormStep(t, q);
      StepsAgree(t, q, depth);
      LexConcat(l, out, Norm(t[n..], q').0);
      LexersAgreeFrom(t[n..], q', Lex(l, out).depth);
    }
  }

  lemma LexersAgree(input: string)
    ensures var out := Lex(START, NormalizeQuotes(input));
            && (out.inString <==> Norm(input, Outside).1 != Outside)
            && (out.escaped <==> Dangling(input, Outside))
            && out.depth == OuterDepth(input, Outside)
  {
    LexersAgreeFrom(input, Outside, 0);
  }

  // ---------- rewriting twice ----------

  function JsonState(q: Quotes): Quotes {
    if q == Outside then Outside else Double
  }

  /** What one step wrote is read back unchanged, whatever text follows it. */
  lemma StepStable(t: string, q: Quotes, rest: string)
    requires t != "" && (t == "\\" ==> rest == "")
    ensures var (out, _, q') := NormStep(t, q);
            NormStep(out + rest, JsonState(q)) == (out, |out|, JsonState(q'))
  {
    var (out, _, q') := NormStep(t, q);
    assert (out + rest)[0] == out[0];
    if |out| == 2 {
      assert (out + rest)[1] == out[1];
    }
  }

  lemma {:induction false} NormTwice(t: string, q: Quotes)
    ensures Norm(Norm(t, q).0, JsonState(q)) == (Norm(t, q).0, JsonState(Norm(t, q).1))
    decreases |t|
  {
    if t != "" {
      var (out, n, q') := NormStep(t, q);
      var rest := Norm(t[n..], q').0;
      StepStable(t, q, rest);
      NormTwice(t[n..], q');
      assert (out + rest)[|out|..] == rest;
      assert out + rest != "";
    }
  }

  /** Normalising twice equals normalising once. */
  lemma NormalizeIdempotent(input: string)
    ensures NormalizeQuotes(NormalizeQuotes(input)) == NormalizeQuotes(input)
  {
    NormTwice(input, Outside);
  }

  // ---------- growing input ----------

  /** The text ends inside a single-quoted string right after a backslash that escapes nothing yet. */
  function CutEscape(t: string, q: Quotes): bool
    decreases |t|
  {
    t != "" &&
    if t == "\\" then q == Single
    else var (_, n, q') := NormStep(t, q); CutEscape(t[n..], q')
  }

  lemma StepLocal(t: string, u: string, q: Quotes)
    requires t != "" && t != "\\"
    ensures NormStep(t + u, q) == NormStep(t, q)
  {
    assert (t + u)[0] == t[0];
    if |t| > 1 {
      assert (t + u)[1] == t[1];
    } else {
      assert t == [t[0]];
    }
  }

  lemma PlusPrefix<T>(a: seq<T>, b: seq<T>, c: seq<T>)
    ensures a + b <= a + c <==> b <= c
  {
    if a + b <= a + c {
      assert forall i | 0 <= i < |b| :: b[i] == (a + b)[|a| + i] && c[i] == (a + c)[|a| + i];
    }
  }

  lemma PlusAssoc<T>(a: seq<T>, b: seq<T>, c: seq<T>)
    ensures a + b + c == a + (b + c)
  {
  }

  lemma CutAtBackslash(u: string, q: Quotes)
    requires u != ""
    ensures Norm("\\", q).0 == "\\"
    ensures "\\" <= Norm("\\" + u, q).0 <==> !(q == Single && u[0] == '\'')
  {
    assert "\\"[1..] == "";
    assert Norm("\\", q).0 == "\\" + "";
    var t := "\\" + u;
    var (out, n, q') := NormStep(t, q);
    assert t[0] == '\\' && t[1] == u[0];
    assert Norm(t, q).0 == out + Norm(t[n..], q').0;
    assert Norm(t, q).0[0] == out[0];
  }

  /**
   * Rewriting is monotone in the prefix order, except exactly when a backslash inside a single-quoted
   * string was the last character seen and a single quote follows it.
   */
  lemma {:induction false} NormMonotone(t: string, u: string, q: Quotes)
    ensures Norm(t, q).0 <= Norm(t + u, q).0 <==> !(u != "" && CutEscape(t, q) && u[0] == '\'')
    decreases |t|
  {
    if t == "" {
    } else if u == "" {
      assert t + u == t;
    } else if t == "\\" {
      CutAtBackslash(u, q);
    } else {
      var (out, n, q') := NormStep(t, q);
      StepLocal(t, u, q);
      assert (t + u)[n..] == t[n..] + u;
      NormMonotone(t[n..], u, q');
      PlusPrefix(out, Norm(t[n..], q').0, Norm(t[n..] + u, q').0);
    }
  }
}
