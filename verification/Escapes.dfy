/** Backslash escapes, processed in place. Characters have codes below 256. */
module Escapes {
  import opened Common

  /** `char(strtol(x, &end, 16))` for two characters, when all of them are read: a space or a sign may come first. */
  function HexPair(hi: char, lo: char): Option<char> {
    if DigitValue(lo) < 0 then None
    else if DigitValue(hi) >= 0 then Some((16 * DigitValue(hi) + DigitValue(lo)) as char)
    else if IsSpace(hi) || hi == '+' then Some(DigitValue(lo) as char)
    else if hi == '-' then Some((if DigitValue(lo) == 0 then 0 else 256 - DigitValue(lo)) as char)
    else None
  }

  /** What a backslash before `c` stands for, other than `\x`. */
  function Simple(c: char): Option<char> {
    match c
    case 'n' => Some('\n')
    case 'r' => Some('\r')
    case 't' => Some('\t')
    case '\'' => Some('\'')
    case '\"' => Some('\"')
    case '\\' => Some('\\')
    case _ => None
  }

  /** The text an escaped text stands for, read from the left; unknown escapes stay as they are. */
  function Unescape(s: string): string {
    if s == "" then ""
    else if s[0] == '\\' && |s| > 1 then
      if Simple(s[1]).Some? then [Simple(s[1]).value] + Unescape(s[2..])
      else if s[1] == 'x' && |s| > 3 && HexPair(s[2], s[3]).Some? then [HexPair(s[2], s[3]).value] + Unescape(s[4..])
      else ['\\', s[1]] + Unescape(s[2..])
    else [s[0]] + Unescape(s[1..])
  }

  // ---------- printing ----------

  predicate Special(c: char) {
    c in {'\\', '\'', '\"', '\n', '\r', '\t'}
  }

  function Letter(c: char): char
    requires Special(c)
  {
    match c
    case '\n' => 'n'
    case '\r' => 'r'
    case '\t' => 't'
    case _ => c
  }

  function EscapeText(s: string): string {
    if s == "" then "" else (if Special(s[0]) then ['\\', Letter(s[0])] else [s[0]]) + EscapeText(s[1..])
  }

  lemma {:induction false} UnescapeEscape(s: string)
    ensures Unescape(EscapeText(s)) == s
  {
    if s != "" {
      UnescapeEscape(s[1..]);
      var t := EscapeText(s[1..]);
      if Special(s[0]) {
        assert (['\\', Letter(s[0])] + t)[2..] == t;
      } else {
        assert ([s[0]] + t)[1..] == t;
      }
    }
  }

  /** Where an escape that stands for one character begins, reading from the left. */
  ghost predicate HasEscape(s: string)
    decreases |s|
  {
    s != "" &&
    if s[0] == '\\' && |s| > 1 then
      Simple(s[1]).Some? || (s[1] == 'x' && |s| > 3 && HexPair(s[2], s[3]).Some?) || HasEscape(s[2..])
    else HasEscape(s[1..])
  }

  /** Processing never lengthens a text, and leaves exactly the texts without escapes as they are. */
  lemma {:induction false} UnescapeLength(s: string)
    ensures |Unescape(s)| <= |s|
    ensures HasEscape(s) ==> |Unescape(s)| < |s|
    ensures !HasEscape(s) ==> Unescape(s) == s
    decreases |s|
  {
    if s != "" {
      if s[0] == '\\' && |s| > 1 {
        UnescapeLength(s[2..]);
        assert s == [s[0], s[1]] + s[2..];
        if |s| > 3 {
          UnescapeLength(s[4..]);
        }
      } else {
        UnescapeLength(s[1..]);
        assert s == [s[0]] + s[1..];
      }
    }
  }

  lemma UnescapeFixed(s: string)
    ensures Unescape(s) == s <==> !HasEscape(s)
  {
    UnescapeLength(s);
  }

  // ---------- in place ----------

  /** After reading `i` and writing `o` characters of `was`. */
  ghost predicate InPlace(was: string, now: string, i: nat, o: nat) {
    && o <= i <= |was| == |now| && now[i..] == was[i..]
    && Unescape(was) == now[..o] + Unescape(was[i..])
  }

  /** `now` with `out` written at `o`. */
  function Written(now: string, o: nat, out: string): (s: string)
    requires o + |out| <= |now|
    ensures |s| == |now|
  {
    now[..o] + out + now[o + |out|..]
  }

  lemma WrittenParts(was: string, now: string, i: nat, o: nat, k: nat, out: string)
    requires o <= i && i + k <= |was| == |now| && now[i..] == was[i..] && |out| <= k
    ensures Written(now, o, out)[..o + |out|] == now[..o] + out && Written(now, o, out)[i + k..] == was[i + k..]
  {
    assert now[i..][k..] == now[i + k..] && was[i..][k..] == was[i + k..];
  }

  /** Writing `out` for the next `k` characters: the write cursor stays behind the read cursor. */
  lemma Advance(was: string, now: string, i: nat, o: nat, k: nat, out: string)
    requires InPlace(was, now, i, o) && i + k <= |was| && |out| <= k
    requires Unescape(was[i..]) == out + Unescape(was[i + k..])
    ensures o + |out| <= i + k && InPlace(was, Written(now, o, out), i + k, o + |out|)
  {
    hide Written, Unescape;
    WrittenParts(was, now, i, o, k, out);
    assert now[..o] + (out + Unescape(was[i + k..])) == (now[..o] + out) + Unescape(was[i + k..]);
  }

  /** The characters still to be read have not been written. */
  lemma Unread(was: string, now: string, i: nat, o: nat)
    requires InPlace(was, now, i, o)
    ensures o <= i && |was| == |now| && forall j | i <= j < |was| :: now[j] == was[j]
  {
    forall j | i <= j < |was|
      ensures now[j] == was[j]
    {
      assert now[i..][j - i] == was[i..][j - i];
    }
  }

  /** The characters the next turn reads, and what they stand for. */
  lemma TailUnescape(was: string, i: nat)
    requires i < |was|
    ensures was[i] == '\\' && i + 1 < |was| ==>
              if Simple(was[i + 1]).Some? then Unescape(was[i..]) == [Simple(was[i + 1]).value] + Unescape(was[i + 2..])
              else if was[i + 1] == 'x' && i + 3 < |was| && HexPair(was[i + 2], was[i + 3]).Some? then
                Unescape(was[i..]) == [HexPair(was[i + 2], was[i + 3]).value] + Unescape(was[i + 4..])
              else Unescape(was[i..]) == ['\\', was[i + 1]] + Unescape(was[i + 2..])
    ensures was[i] != '\\' || i + 1 == |was| ==> Unescape(was[i..]) == [was[i]] + Unescape(was[i + 1..])
  {
    var t := was[i..];
    assert t[1..] == was[i + 1..] && (|t| > 1 ==> t[2..] == was[i + 2..]) && (|t| > 3 ==> t[4..] == was[i + 4..]);
  }

  /** `input[o++] = c`. */
  method Put(input: array<char>, o: nat, c: char) returns (o': nat)
    requires o < input.Length
    modifies input
    ensures o' == o + 1 && input[..] == Written(old(input[..]), o, [c])
  {
    input[o] := c;
    o' := o + 1;
  }

  /** The fall-through of an escape that is not known: two writes, with a read between them. */
  method PutUnknown(input: array<char>, o: nat, at: nat) returns (o': nat)
    requires o < at < input.Length
    modifies input
    ensures o' == o + 2 && input[..] == Written(old(input[..]), o, ['\\', old(input[at])])
  {
    input[o] := '\\';
    input[o + 1] := input[at];
    o' := o + 2;
  }

  /** A backslash that is not the last character: the new read and write positions. */
  method ProcessEscape(input: array<char>, i: nat, o: nat, ghost was: string) returns (i': nat, o': nat)
    requires InPlace(was, input[..], i, o) && i + 1 < input.Length && was[i] == '\\'
    modifies input
    ensures i < i' <= input.Length && InPlace(was, input[..], i', o')
  {
    ghost var now := input[..];
    Unread(was, now, i, o);
    TailUnescape(was, i);
    hide InPlace, Unescape, HexPair, Simple, Written;
    var c := input[i + 1];
    var single, k := Simple(c), 2;
    if single.None? && c == 'x' && i + 3 < input.Length {
      single := HexPair(input[i + 2], input[i + 3]);
      k := if single.Some? then 4 else 2;
    }
    i' := i + k;
    if single.Some? {
      Advance(was, now, i, o, k, [single.value]);
      o' := Put(input, o, single.value);
    } else {
      Advance(was, now, i, o, k, ['\\', c]);
      o' := PutUnknown(input, o, i + 1);
    }
  }

  /** One turn of the loop. */
  method ProcessOne(input: array<char>, i: nat, o: nat, ghost was: string) returns (i': nat, o': nat)
    requires InPlace(was, input[..], i, o) && i < input.Length
    modifies input
    ensures i < i' <= input.Length && InPlace(was, input[..], i', o')
  {
    ghost var now := input[..];
    Unread(was, now, i, o);
    hide InPlace, Written;
    if input[i] == '\\' && i + 1 < input.Length {
      i', o' := ProcessEscape(input, i, o, was);
    } else {
      TailUnescape(was, i);
      Advance(was, now, i, o, 1, [now[i]]);
      o' := Put(input, o, input[i]);
      i' := i + 1;
    }
  }

  lemma InPlaceStart(was: string)
    ensures InPlace(was, was, 0, 0)
  {
    assert was[0..] == was && was[..0] == "";
  }

  lemma InPlaceEnd(was: string, now: string, o: nat)
    requires InPlace(was, now, |was|, o)
    ensures o <= |now| && now[..o] == Unescape(was)
  {
    assert was[|was|..] == "";
  }

  method ProcessEscapes(input: array<char>) returns (n: nat)
    modifies input
    ensures n <= input.Length && input[..n] == Unescape(old(input[..]))
  {
    hide InPlace, Unescape;
    ghost var was := input[..];
    var i: nat, o: nat := 0, 0;
    InPlaceStart(was);
    while i < input.Length
      invariant InPlace(was, input[..], i, o) && i <= input.Length
      decreases input.Length - i
    {
      i, o := ProcessOne(input, i, o, was);
    }
    InPlaceEnd(was, input[..], o);
    assert input[..][..o] == input[..o];
    n := o;
  }

  // ---------- every escape ----------

  /** One character of a text: as it is, by its letter, or by two hexadecimal digits, or one behind a space or sign. */
  datatype Piece = Plain(c: char) | Short(k: nat) | Hex(hi: char, lo: char) | Signed(sign: char, lo: char)

  /** The letters behind a backslash, and the codes they stand for. */
  const LETTERS := "nrt\'\"\\"
  const CODES: seq<nat> := [10, 13, 9, 39, 34, 92]

  lemma LetterMeans(k: nat)
    requires k < 6
    ensures |LETTERS| == |CODES| == 6 && Simple(LETTERS[k]) == Some(CODES[k] as char)
  {
    assert k == 0 || k == 1 || k == 2 || k == 3 || k == 4 || k == 5;
  }

  predicate GoodPiece(p: Piece) {
    match p
    case Plain(c) => c != '\\'
    case Short(k) => k < 6
    case Hex(hi, lo) => DigitValue(hi) >= 0 && DigitValue(lo) >= 0
    case Signed(sign, lo) => (sign == '+' || sign == '-' || IsSpace(sign)) && DigitValue(lo) >= 0
  }

  function PrintPiece(p: Piece): string
    requires GoodPiece(p)
  {
    match p
    case Plain(c) => [c]
    case Short(k) => ['\\', LETTERS[k]]
    case Hex(hi, lo) => ['\\', 'x', hi, lo]
    case Signed(sign, lo) => ['\\', 'x', sign, lo]
  }

  /** The character meant: of two digits the first counts sixteen times, and below zero it is one of 256. */
  function MeaningOf(p: Piece): char
    requires GoodPiece(p)
  {
    match p
    case Plain(c) => c
    case Short(k) => CODES[k] as char
    case Hex(hi, lo) => (DigitValue(lo) + 16 * DigitValue(hi)) as char
    case Signed(sign, lo) => ((if sign == '-' then -DigitValue(lo) else DigitValue(lo)) % 256) as char
  }

  predicate GoodPieces(ps: seq<Piece>) {
    forall i | 0 <= i < |ps| :: GoodPiece(ps[i])
  }

  function Print(ps: seq<Piece>): string
    requires GoodPieces(ps)
  {
    if ps == [] then "" else PrintPiece(ps[0]) + Print(ps[1..])
  }

  function Meaning(ps: seq<Piece>): string
    requires GoodPieces(ps)
  {
    if ps == [] then "" else [MeaningOf(ps[0])] + Meaning(ps[1..])
  }

  lemma SignMeans(sign: char, lo: char)
    requires GoodPiece(Signed(sign, lo))
    ensures HexPair(sign, lo) == Some(MeaningOf(Signed(sign, lo)))
  {
  }

  /** One piece before any text. */
  lemma UnescapePiece(p: Piece, rest: string)
    requires GoodPiece(p)
    ensures Unescape(PrintPiece(p) + rest) == [MeaningOf(p)] + Unescape(rest)
  {
    hide DigitValue, IsSpace;
    match p {
      case Plain(c) =>
        assert ([c] + rest)[1..] == rest;
      case Short(k) =>
        LetterMeans(k);
        assert (['\\', LETTERS[k]] + rest)[2..] == rest;
      case Hex(hi, lo) =>
        assert (['\\', 'x', hi, lo] + rest)[4..] == rest;
      case Signed(sign, lo) =>
        SignMeans(sign, lo);
        assert (['\\', 'x', sign, lo] + rest)[4..] == rest;
    }
  }

  /** Processing undoes every way of printing a text, character by character. */
  lemma {:induction false} UnescapePrint(ps: seq<Piece>)
    requires GoodPieces(ps)
    ensures Unescape(Print(ps)) == Meaning(ps)
    decreases |ps|
  {
    hide Unescape, PrintPiece, MeaningOf;
    if ps == [] {
      UnescapeNothing();
    } else {
      UnescapePiece(ps[0], Print(ps[1..]));
      UnescapePrint(ps[1..]);
    }
  }

  lemma UnescapeNothing()
    ensures Unescape("") == ""
  {
  }
}
