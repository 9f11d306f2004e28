/** One row of comma-separated values: the parser as a state machine, and the printers it undoes. */
module CsvRow {
  import opened Common

  /** The fields of the rest of a row, with `field` collected so far. */
  function Parse(s: string, field: string, quoted: bool): (r: seq<string>)
    ensures r != []
    decreases |s|
  {
    if s == "" then [field]
    else if s[0] == '\"' then
      if !quoted then (if field != "" then Parse(s[1..], field + "\"", false) else Parse(s[1..], field, true))
      else if |s| > 1 && s[1] == '\"' then Parse(s[2..], field + "\"", true)
      else Parse(s[1..], field, false)
    else if s[0] == ',' && !quoted then [field] + Parse(s[1..], "", false)
    else Parse(s[1..], field + [s[0]], quoted)
  }

  method ParseCsvRow(input: string) returns (fields: seq<string>)
    ensures fields == Parse(input, "", false)
  {
    fields := [];
    var field, inQuotes := "", false;
    var i := 0;
    assert input[0..] == input;
    while i < |input|
      invariant 0 <= i <= |input|
      invariant Parse(input, "", false) == fields + Parse(input[i..], field, inQuotes)
      decreases |input| - i
    {
      var ch := input[i];
      ghost var rest := input[i..];
      assert rest[1..] == input[i + 1..] && (|rest| > 1 ==> rest[2..] == input[i + 2..]);
      if ch == '\"' {
        if !inQuotes {
          if field != "" {
            field := field + "\"";
          } else {
            inQuotes := true;
          }
        } else if i + 1 < |input| && input[i + 1] == '\"' {
          field := field + "\"";
          i := i + 1;
        } else {
          inQuotes := false;
        }
      } else if ch == ',' {
        if inQuotes {
          field := field + ",";
        } else {
          fields := fields + [field];
          field := "";
        }
      } else {
        field := field + [ch];
      }
      i := i + 1;
    }
    assert input[i..] == "";
    fields := fields + [field];
  }

  // ---------- printing ----------

  function Doubled(f: string): string {
    if f == "" then "" else (if f[0] == '\"' then "\"\"" else [f[0]]) + Doubled(f[1..])
  }

  /** A field that reads back without quotes. */
  predicate Plain(f: string) {
    ',' !in f && (f == "" || f[0] != '\"')
  }

  function PrintField(f: string, quote: bool): string {
    if quote then "\"" + Doubled(f) + "\"" else f
  }

  /** A row whose printer quotes the chosen fields. */
  function PrintRow(fields: seq<string>, quote: seq<bool>): string
    requires |fields| == |quote| > 0
  {
    if |fields| == 1 then PrintField(fields[0], quote[0])
    else PrintField(fields[0], quote[0]) + ("," + PrintRow(fields[1..], quote[1..]))
  }

  predicate AtFieldEnd(rest: string) {
    rest == "" || rest[0] == ','
  }

  lemma {:induction false} ParseDoubled(f: string, rest: string, field: string)
    requires AtFieldEnd(rest)
    ensures Parse(Doubled(f) + ("\"" + rest), field, true) == Parse(rest, field + f, false)
    decreases |f|
  {
    var tail := "\"" + rest;
    if f == "" {
      assert Doubled(f) + tail == tail && tail[1..] == rest && field + f == field;
    } else {
      ParseDoubled(f[1..], rest, field + [f[0]]);
      var more := Doubled(f[1..]) + tail;
      assert Doubled(f) + tail == (if f[0] == '\"' then "\"\"" else [f[0]]) + more;
      assert field + [f[0]] + f[1..] == field + f;
      if f[0] == '\"' {
        assert ("\"\"" + more)[2..] == more;
      } else {
        assert ([f[0]] + more)[1..] == more;
      }
    }
  }

  lemma {:induction false} ParsePlain(f: string, rest: string, field: string)
    requires AtFieldEnd(rest) && ',' !in f && (f == "" || field != "" || f[0] != '\"')
    ensures Parse(f + rest, field, false) == Parse(rest, field + f, false)
    decreases |f|
  {
    if f == "" {
      assert f + rest == rest && field + f == field;
    } else {
      ParsePlain(f[1..], rest, field + [f[0]]);
      assert (f + rest)[1..] == f[1..] + rest && field + [f[0]] + f[1..] == field + f;
    }
  }

  lemma ParseField(f: string, quote: bool, rest: string)
    requires AtFieldEnd(rest) && (quote || Plain(f))
    ensures Parse(PrintField(f, quote) + rest, "", false) == Parse(rest, f, false)
  {
    assert "" + f == f;
    if quote {
      ParseDoubled(f, rest, "");
      var body := Doubled(f) + ("\"" + rest);
      assert PrintField(f, true) + rest == "\"" + body && ("\"" + body)[1..] == body;
    } else {
      ParsePlain(f, rest, "");
    }
  }

  /** Parsing undoes every printer that quotes at least the fields that need it. */
  lemma {:induction false} ParsePrint(fields: seq<string>, quote: seq<bool>)
    requires |fields| == |quote| > 0
    requires forall i | 0 <= i < |fields| :: quote[i] || Plain(fields[i])
    ensures Parse(PrintRow(fields, quote), "", false) == fields
    decreases |fields|
  {
    if |fields| == 1 {
      ParseField(fields[0], quote[0], "");
      assert PrintField(fields[0], quote[0]) + "" == PrintField(fields[0], quote[0]);
    } else {
      var tail := PrintRow(fields[1..], quote[1..]);
      ParseField(fields[0], quote[0], "," + tail);
      ParsePrint(fields[1..], quote[1..]);
      assert ("," + tail)[1..] == tail;
    }
  }

  function Total(fields: seq<string>): nat {
    if fields == [] then 0 else |fields[0]| + Total(fields[1..])
  }

  /** Fields hold no more characters than were read. */
  lemma {:induction false} ParseTotal(s: string, field: string, quoted: bool)
    ensures Total(Parse(s, field, quoted)) <= |field| + |s|
    decreases |s|
  {
    if s != "" {
      if s[0] == '\"' {
        ParseTotal(s[1..], field + "\"", false);
        ParseTotal(s[1..], field, true);
        ParseTotal(s[1..], field, false);
        if |s| > 1 {
          ParseTotal(s[2..], field + "\"", true);
        }
      } else if s[0] == ',' && !quoted {
        ParseTotal(s[1..], "", false);
        assert ([field] + Parse(s[1..], "", false))[1..] == Parse(s[1..], "", false);
      } else {
        ParseTotal(s[1..], field + [s[0]], quoted);
      }
    }
  }

  lemma {:induction false} CommaSplits(s: string, field: string)
    requires ',' in s && (field != "" || s[0] != '\"')
    ensures |Parse(s, field, false)| >= 2
    decreases |s|
  {
    if s[0] != ',' {
      assert ',' in s[1..];
      CommaSplits(s[1..], field + [s[0]]);
    }
  }

  /** A field needs no quotes exactly when it has no comma and does not start with a quote. */
  lemma PlainExact(f: string)
    ensures Parse(f, "", false) == [f] <==> Plain(f)
  {
    if Plain(f) {
      ParseField(f, false, "");
      assert f + "" == f;
    } else if f[0] == '\"' {
      ParseTotal(f[1..], "", true);
      assert Total([f]) == |f|;
    } else {
      CommaSplits(f, "");
    }
  }
}
