/** Result types, bytes, division and the text helpers that several modules share. */
module Common {

  datatype Option<+T> = None | Some(value: T)

  datatype Result<+T, +E> = Ok(value: T) | Err(error: E) {
    predicate IsFailure() {
      Err?
    }

    function PropagateFailure<U>(): Result<U, E>
      requires Err?
    {
      Err(error)
    }

    function Extract(): T
      requires Ok?
    {
      value
    }
  }

  /** A byte by its code. */
  type byte = x: int | 0 <= x < 256

  // ---------- division ----------

  lemma MulMono(a: nat, b: nat, d: nat)
    ensures a <= b ==> a * d <= b * d
  {
  }

  lemma DivModOf(r: nat, d: nat, i: nat)
    requires i < d
    ensures (r * d + i) / d == r && (r * d + i) % d == i
  {
    var q := r * d + i;
    assert (q / d) * d + q % d == q;
    MulMono(q / d + 1, r, d);
    MulMono(r + 1, q / d, d);
  }

  // ---------- text ----------

  /** Concatenates the images of all elements. */
  function FlatMap<A, B>(f: A -> seq<B>, s: seq<A>): seq<B> {
    if s == [] then [] else f(s[0]) + FlatMap(f, s[1..])
  }

  lemma {:induction false} FlatMapConcat<A, B>(f: A -> seq<B>, a: seq<A>, b: seq<A>)
    ensures FlatMap(f, a + b) == FlatMap(f, a) + FlatMap(f, b)
  {
    if a == [] {
      assert a + b == b;
    } else {
      FlatMapConcat(f, a[1..], b);
      assert (a + b)[1..] == a[1..] + b;
    }
  }

  /** The characters `std::isspace` accepts in the "C" locale. */
  predicate IsSpace(c: char) {
    c == ' ' || c == '\t' || c == '\n' || c as int == 11 || c as int == 12 || c == '\r'
  }

  /** The value of a hexadecimal digit, or -1. */
  function DigitValue(c: char): (r: int)
    ensures -1 <= r < 16
  {
    if '0' <= c <= '9' then c as int - '0' as int
    else if 'a' <= c <= 'f' then c as int - 'a' as int + 10
    else if 'A' <= c <= 'F' then c as int - 'A' as int + 10
    else -1
  }

  /** Drops spaces from the end; at most `max` of them unless `max` is negative. */
  function TrimEnd(s: string, max: int): string {
    if s != "" && IsSpace(s[|s| - 1]) && max != 0 then TrimEnd(s[..|s| - 1], max - 1) else s
  }

  /** Drops spaces from the front; at most `max` of them unless `max` is negative. */
  function TrimStart(s: string, max: int): string {
    if s != "" && IsSpace(s[0]) && max != 0 then TrimStart(s[1..], max - 1) else s
  }

  /** Spaces are the characters with the codes 9 to 13 and 32. */
  lemma SpaceCodes(c: char)
    ensures IsSpace(c) <==> 9 <= c as int <= 13 || c as int == 32
  {
  }

  predicate AllSpaces(s: string) {
    forall i | 0 <= i < |s| :: IsSpace(s[i])
  }

  /** As many spaces as may be dropped, with no more of them before unless the bound is reached. */
  predicate Droppable(spaces: string, stays: bool, max: int) {
    AllSpaces(spaces) && (max < 0 || |spaces| <= max) && (stays || |spaces| == max)
  }

  /** Exactly the trailing spaces go, as far as the bound allows. */
  lemma {:induction false} TrimEndDrops(s: string, spaces: string, max: int)
    requires Droppable(spaces, s == "" || !IsSpace(s[|s| - 1]), max)
    ensures TrimEnd(s + spaces, max) == s
    decreases |spaces|
  {
    if spaces == "" {
      assert s + spaces == s;
    } else {
      var n := |spaces| - 1;
      assert (s + spaces)[..|s| + n] == s + spaces[..n];
      TrimEndDrops(s, spaces[..n], max - 1);
    }
  }

  /** And in front. */
  lemma {:induction false} TrimStartDrops(s: string, spaces: string, max: int)
    requires Droppable(spaces, s == "" || !IsSpace(s[0]), max)
    ensures TrimStart(spaces + s, max) == s
    decreases |spaces|
  {
    if spaces == "" {
      assert spaces + s == s;
    } else {
      assert (spaces + s)[1..] == spaces[1..] + s;
      TrimStartDrops(s, spaces[1..], max - 1);
    }
  }

  method TrimTrailingSpace(sv: string, max: int := -1) returns (r: string)
    requires max >= -1
    ensures r == TrimEnd(sv, max)
  {
    var count := 0;
    r := sv;
    while r != "" && IsSpace(r[|r| - 1])
      invariant 0 <= count && (max == -1 || count <= max)
      invariant TrimEnd(sv, max) == TrimEnd(r, if max == -1 then -1 - count else max - count)
      decreases |r|
    {
      if max != -1 && count >= max {
        break;
      }
      r := r[..|r| - 1];
      count := count + 1;
    }
  }

  method TrimLeadingSpace(sv: string, max: int := -1) returns (r: string)
    requires max >= -1
    ensures r == TrimStart(sv, max)
  {
    var count := 0;
    r := sv;
    while r != "" && IsSpace(r[0])
      invariant 0 <= count && (max == -1 || count <= max)
      invariant TrimStart(sv, max) == TrimStart(r, if max == -1 then -1 - count else max - count)
      decreases |r|
    {
      if max != -1 && count >= max {
        break;
      }
      r := r[1..];
      count := count + 1;
    }
  }

  /** Trimming keeps a prefix and what an unbounded trim leaves does not end in a space. */
  lemma {:induction false} TrimEndIsPrefix(s: string, max: int)
    ensures TrimEnd(s, max) <= s
    ensures max < 0 && TrimEnd(s, max) != "" ==> !IsSpace(TrimEnd(s, max)[|TrimEnd(s, max)| - 1])
    ensures max >= 0 ==> |s| - |TrimEnd(s, max)| <= max
    decreases |s|
  {
    if s != "" && IsSpace(s[|s| - 1]) && max != 0 {
      TrimEndIsPrefix(s[..|s| - 1], max - 1);
    }
  }

  /** An unbounded trim keeps everything up to the last character that is not a space. */
  lemma {:induction false} TrimEndKeeps(s: string, max: int, k: nat)
    requires max < 0 && k < |s| && !IsSpace(s[k])
    ensures k < |TrimEnd(s, max)|
    decreases |s|
  {
    if IsSpace(s[|s| - 1]) {
      TrimEndKeeps(s[..|s| - 1], max - 1, k);
    }
  }

  /** Unbounded trimming is monotone in the prefix order. */
  lemma TrimEndMonotone(s: string, t: string)
    requires s <= t
    ensures TrimEnd(s, -1) <= TrimEnd(t, -1)
  {
    TrimEndIsPrefix(s, -1);
    TrimEndIsPrefix(t, -1);
    var u := TrimEnd(s, -1);
    if u != "" {
      TrimEndKeeps(t, -1, |u| - 1);
    }
  }

  /** So is dropping at most one space on either side, as done to argument values. */
  function TrimOne(s: string): string {
    TrimEnd(TrimStart(s, 1), 1)
  }

  lemma TrimOneMonotone(s: string, t: string)
    requires s <= t
    ensures TrimOne(s) <= TrimOne(t)
  {
    var u, v := TrimStart(s, 1), TrimStart(t, 1);
    assert s != "" ==> s[0] == t[0];
    assert u <= v by {
      if s != "" && IsSpace(s[0]) {
        assert TrimStart(s[1..], 0) == s[1..] && TrimStart(t[1..], 0) == t[1..];
      } else if s == "" {
        assert u == "";
      }
    }
    TrimEndIsPrefix(u, 1);
    TrimEndIsPrefix(v, 1);
    if |u| < |v| {
      assert |v| - 1 <= |TrimOne(t)|;
    } else {
      assert u == v;
    }
  }

  /** One space at either end is dropped, and no more. */
  lemma TrimOneDrops(before: string, v: string, after: string)
    requires v != "" && Droppable(before, !IsSpace(v[0]), 1) && Droppable(after, !IsSpace(v[|v| - 1]), 1)
    ensures TrimOne(before + v + after) == v
  {
    assert before + v + after == before + (v + after);
    TrimStartDrops(v + after, before, 1);
    TrimEndDrops(v, after, 1);
  }

  /** Of nothing but spaces, too. */
  lemma TrimOneBlank(s: string)
    requires AllSpaces(s)
    ensures TrimOne(s) == if |s| < 2 then "" else s[1..|s| - 1]
  {
    if s != "" {
      assert TrimStart(s, 1) == TrimStart(s[1..], 0) == s[1..];
      if |s| > 1 {
        var t := s[1..];
        assert IsSpace(t[|t| - 1]) && TrimEnd(t, 1) == TrimEnd(t[..|t| - 1], 0) == t[..|t| - 1];
      }
    }
  }

  /** The digits in both cases, by their values; nothing else is one. */
  lemma DigitsOf(c: char, n: nat)
    requires n < 16
    ensures DigitValue(c) == n <==> c == "0123456789abcdef"[n] || c == "0123456789ABCDEF"[n]
  {
  }
}
