/** Splitting at a delimiter, joining and replacing. */
module SplitJoin {
  import opened Common

  predicate Occurs(s: string, d: string, at: nat) {
    at + |d| <= |s| && s[at..at + |d|] == d
  }

  /** `s.find(d, from)`. */
  function Find(s: string, d: string, from: nat): (r: Option<nat>)
    ensures r.None? ==> forall i | from <= i <= |s| :: !Occurs(s, d, i)
    ensures r.Some? ==> r.value + |d| <= |s|
    ensures r.Some? ==> from <= r.value && Occurs(s, d, r.value) && forall i | from <= i < r.value :: !Occurs(s, d, i)
    decreases |s| - from
  {
    if from + |d| > |s| then None else if Occurs(s, d, from) then Some(from) else Find(s, d, from + 1)
  }

  function Split(s: string, d: string): (parts: seq<string>)
    requires d != ""
    ensures parts != []
    decreases |s|
  {
    match Find(s, d, 0)
    case None => [s]
    case Some(at) => [s[..at]] + Split(s[at + |d|..], d)
  }

  function Join(parts: seq<string>, d: string): string {
    if parts == [] then "" else if |parts| == 1 then parts[0] else parts[0] + (d + Join(parts[1..], d))
  }

  lemma OccursShift(s: string, d: string, from: nat, i: nat)
    requires from <= i <= |s|
    ensures Occurs(s, d, i) <==> Occurs(s[from..], d, i - from)
  {
    if i + |d| <= |s| {
      assert s[from..][i - from..i - from + |d|] == s[i..i + |d|];
    }
  }

  /** Searching from a position is searching the rest. */
  lemma FindShift(s: string, d: string, from: nat)
    requires from <= |s|
    ensures match Find(s[from..], d, 0)
            case None => Find(s, d, from) == None
            case Some(at) => Find(s, d, from) == Some(from + at)
  {
    hide Occurs;
    forall i | from <= i <= |s|
      ensures Occurs(s, d, i) <==> Occurs(s[from..], d, i - from)
    {
      OccursShift(s, d, from, i);
    }
    FindFirst(s, d, from, Find(s[from..], d, 0));
  }

  lemma FindFirst(s: string, d: string, from: nat, near: Option<nat>)
    requires near.Some? ==> from + near.value <= |s| && Occurs(s, d, from + near.value)
    requires near.Some? ==> forall i | from <= i < from + near.value :: !Occurs(s, d, i)
    requires near.None? ==> forall i | from <= i <= |s| :: !Occurs(s, d, i)
    ensures Find(s, d, from) == if near.Some? then Some(from + near.value) else None
  {
  }

  lemma SplitStep(t: string, d: string)
    requires d != ""
    ensures match Find(t, d, 0)
            case None => Split(t, d) == [t]
            case Some(n) => Split(t, d) == [t[..n]] + Split(t[n + |d|..], d)
  {
    hide Find, Occurs;
  }

  lemma CutTail(s: string, from: nat, n: nat, k: nat)
    requires from + n + k <= |s|
    ensures s[from..][..n] == s[from..from + n] && s[from..][n + k..] == s[from + n + k..]
  {
  }

  /** Splitting what follows a position. */
  lemma SplitFrom(s: string, d: string, from: nat)
    requires d != "" && from <= |s|
    ensures Find(s, d, from).None? ==> Split(s[from..], d) == [s[from..]]
    ensures Find(s, d, from).Some? ==>
              var at := Find(s, d, from).value; Split(s[from..], d) == [s[from..at]] + Split(s[at + |d|..], d)
  {
    hide *;
    FindShift(s, d, from);
    SplitStep(s[from..], d);
    if Find(s[from..], d, 0).Some? {
      CutTail(s, from, Find(s[from..], d, 0).value, |d|);
    }
  }

  /** `string_split`, which ends because every delimiter found takes at least one character. */
  method StringSplit(str: string, delimiter: string) returns (parts: seq<string>)
    requires delimiter != ""
    ensures parts == Split(str, delimiter)
  {
    hide Find, Split;
    parts := [];
    var start := 0;
    assert str[0..] == str && [] + Split(str, delimiter) == Split(str, delimiter);
    var end := Find(str, delimiter, 0);
    while end.Some?
      invariant start <= |str| && end == Find(str, delimiter, start)
      invariant Split(str, delimiter) == parts + Split(str[start..], delimiter)
      decreases |str| - start
    {
      ghost var before := parts;
      SplitFrom(str, delimiter, start);
      parts := parts + [str[start..end.value]];
      start := end.value + |delimiter|;
      assert before + ([parts[|before|]] + Split(str[start..], delimiter)) == parts + Split(str[start..], delimiter);
      end := Find(str, delimiter, start);
    }
    SplitFrom(str, delimiter, start);
    parts := parts + [str[start..]];
  }

  method StringJoin(values: seq<string>, separator: string) returns (result: string)
    ensures result == Join(values, separator)
  {
    result := "";
    assert values[0..] == values;
    for i := 0 to |values|
      invariant i == 0 ==> result == ""
      invariant i == |values| ==> result == Join(values, separator)
      invariant 0 < i < |values| ==> Join(values, separator) == result + (separator + Join(values[i..], separator))
    {
      ghost var before := result;
      if i > 0 {
        result := result + separator;
      }
      result := result + values[i];
      assert values[i..][1..] == values[i + 1..];
      ghost var rest := separator + Join(values[i + 1..], separator);
      assert before + (separator + (values[i] + rest)) == before + separator + values[i] + rest;
      assert before + (separator + values[i]) == before + separator + values[i];
    }
  }

  /** Replacing is joining the split parts with the replacement; nothing is searched for an empty text. */
  method StringReplaceAll(s: string, search: string, replace: string) returns (builder: string)
    ensures builder == if search == "" then s else Join(Split(s, search), replace)
  {
    hide *;
    if search == "" {
      return s;
    }
    ghost var all := Join(Split(s, search), replace);
    builder := "";
    var lastPos := 0;
    assert s[0..] == s && [] + all == all;
    var pos := Find(s, search, 0);
    while pos.Some?
      invariant lastPos <= |s| && pos == Find(s, search, lastPos)
      invariant all == builder + Join(Split(s[lastPos..], search), replace)
      decreases |s| - lastPos
    {
      ReplaceNext(s, search, replace, builder, lastPos);
      builder := builder + s[lastPos..pos.value];
      builder := builder + replace;
      lastPos := pos.value + |search|;
      pos := Find(s, search, lastPos);
    }
    SplitFrom(s, search, lastPos);
    JoinOne(s[lastPos..], replace);
    builder := builder + s[lastPos..];
  }

  /** One turn of the loop. */
  lemma ReplaceNext(s: string, search: string, replace: string, builder: string, from: nat)
    requires search != "" && from <= |s| && Find(s, search, from).Some?
    ensures var at := Find(s, search, from).value;
            builder + Join(Split(s[from..], search), replace) ==
            builder + s[from..at] + replace + Join(Split(s[at + |search|..], search), replace)
  {
    hide *;
    SplitFrom(s, search, from);
    var at := Find(s, search, from).value;
    ReplaceOne(builder, s[from..at], Split(s[at + |search|..], search), replace);
  }

  lemma JoinFirst(part: string, rest: seq<string>, d: string)
    requires rest != []
    ensures Join([part] + rest, d) == part + (d + Join(rest, d))
  {
    assert ([part] + rest)[1..] == rest;
  }

  lemma JoinOne(part: string, d: string)
    ensures Join([part], d) == part
  {
  }

  /** One part more, with the replacement behind it. */
  lemma ReplaceOne(before: string, part: string, rest: seq<string>, replace: string)
    requires rest != []
    ensures before + Join([part] + rest, replace) == before + part + replace + Join(rest, replace)
  {
    JoinFirst(part, rest, replace);
    Regroup(before, part, replace, Join(rest, replace));
  }

  lemma Regroup(a: string, b: string, c: string, e: string)
    ensures a + (b + (c + e)) == a + b + c + e
  {
  }

  // ---------- the laws ----------

  /** Joining what was split gives the text back. */
  lemma {:induction false} JoinSplit(s: string, d: string)
    requires d != ""
    ensures Join(Split(s, d), d) == s
    decreases |s|
  {
    match Find(s, d, 0)
    case None =>
    case Some(at) =>
      JoinSplit(s[at + |d|..], d);
      JoinFirst(s[..at], Split(s[at + |d|..], d), d);
      assert s == s[..at] + (s[at..at + |d|] + s[at + |d|..]);
  }

  /** A part that ends at the first delimiter of what follows it. */
  ghost predicate Clean(part: string, d: string) {
    Find(part + d, d, 0) == Some(|part|)
  }

  /** The lists that splitting can return. */
  ghost predicate Canonical(parts: seq<string>, d: string) {
    parts != [] &&
    if |parts| == 1 then Find(parts[0], d, 0).None? else Clean(parts[0], d) && Canonical(parts[1..], d)
  }

  lemma SamePlaces(part: string, d: string, rest: string, i: nat)
    requires i <= |part|
    ensures Occurs(part + d, d, i) <==> Occurs(part + (d + rest), d, i)
  {
    assert (part + d)[i..i + |d|] == (part + (d + rest))[i..i + |d|];
  }

  /** What follows a delimiter does not change where it is first found. */
  lemma CleanInContext(part: string, d: string, rest: string)
    requires d != ""
    ensures Clean(part, d) <==> Find(part + (d + rest), d, 0) == Some(|part|)
  {
    var near, far := part + d, part + (d + rest);
    forall i | 0 <= i <= |part|
      ensures Occurs(near, d, i) <==> Occurs(far, d, i)
    {
      SamePlaces(part, d, rest, i);
    }
    assert near[|part|..|part| + |d|] == d;
    assert Occurs(near, d, |part|);
    hide Occurs;
    var m, n := Find(near, d, 0), Find(far, d, 0);
    assert m.Some? && n.Some? && m.value <= |part| && n.value <= |part|;
  }

  lemma CutAt(part: string, d: string, rest: string)
    ensures (part + (d + rest))[..|part|] == part && (part + (d + rest))[|part| + |d|..] == rest
  {
  }

  /** Splitting a text whose first delimiter ends its first part. */
  lemma SplitFirst(part: string, d: string, rest: string)
    requires d != "" && Clean(part, d)
    ensures Split(part + (d + rest), d) == [part] + Split(rest, d)
  {
    hide Occurs, Clean, Find;
    CleanInContext(part, d, rest);
    CutAt(part, d, rest);
  }

  lemma FirstIsClean(s: string, d: string)
    requires d != "" && Find(s, d, 0).Some?
    ensures var at := Find(s, d, 0).value;
            at + |d| <= |s| && s == s[..at] + (d + s[at + |d|..]) && Clean(s[..at], d)
  {
    var at := Find(s, d, 0).value;
    Cut(s, d, at);
    hide Occurs, Find;
    CleanInContext(s[..at], d, s[at + |d|..]);
  }

  lemma Cut(s: string, d: string, at: nat)
    requires Occurs(s, d, at)
    ensures s == s[..at] + (d + s[at + |d|..])
  {
    assert s == s[..at] + (s[at..at + |d|] + s[at + |d|..]);
  }

  lemma CanonicalFirst(part: string, d: string, parts: seq<string>)
    requires Clean(part, d) && Canonical(parts, d)
    ensures Canonical([part] + parts, d)
  {
    assert ([part] + parts)[1..] == parts;
  }

  lemma {:induction false} SplitCanonical(s: string, d: string)
    requires d != ""
    ensures Canonical(Split(s, d), d)
    decreases |s|
  {
    hide Clean, Occurs, Find;
    if Find(s, d, 0).Some? {
      var at := Find(s, d, 0).value;
      FirstIsClean(s, d);
      SplitCanonical(s[at + |d|..], d);
      CanonicalFirst(s[..at], d, Split(s[at + |d|..], d));
    }
  }

  lemma {:induction false} SplitJoinCanonical(parts: seq<string>, d: string)
    requires d != "" && Canonical(parts, d)
    ensures Split(Join(parts, d), d) == parts
    decreases |parts|
  {
    hide Clean, Occurs;
    if |parts| > 1 {
      SplitJoinCanonical(parts[1..], d);
      SplitFirst(parts[0], d, Join(parts[1..], d));
    }
  }

  /** Splitting what was joined gives the parts back exactly when no delimiter is found early. */
  lemma SplitJoinExact(parts: seq<string>, d: string)
    requires d != ""
    ensures Split(Join(parts, d), d) == parts <==> Canonical(parts, d)
  {
    SplitCanonical(Join(parts, d), d);
    if Canonical(parts, d) {
      SplitJoinCanonical(parts, d);
    }
  }
}
