/**
 * Base64 as the header implements it: two alphabets that differ in two symbols, detection of the alphabet
 * while decoding, padding, and decoding in place. Characters are their byte codes throughout, and shifts
 * and ors of disjoint bits are written as the arithmetic they compute.
 */
module Base64 {
  import opened Common

  datatype Alphabet = Auto | Standard | UrlSafe
  datatype Behavior = Moderate | Loose

  /** `base64_error`. */
  datatype Invalid = Invalid

  const PAD: byte := '=' as int

  // ---------- symbols ----------

  /** Entry `v` of the encoding table. */
  function Symbol(a: Alphabet, v: int): byte
    requires 0 <= v < 64
  {
    if v < 26 then 'A' as int + v
    else if v < 52 then 'a' as int + (v - 26)
    else if v < 62 then '0' as int + (v - 52)
    else if v == 62 then (if a == UrlSafe then '-' as int else '+' as int)
    else (if a == UrlSafe then '_' as int else '/' as int)
  }

  /** The value of a character, and the alphabet from then on. */
  function Value(a: Alphabet, c: byte): (r: Result<(int, Alphabet), Invalid>)
    ensures r.Ok? ==> 0 <= r.value.0 < 64 && c != PAD
  {
    if 'A' as int <= c <= 'Z' as int then Ok((c - 'A' as int, a))
    else if 'a' as int <= c <= 'z' as int then Ok((c - 'a' as int + 26, a))
    else if '0' as int <= c <= '9' as int then Ok((c - '0' as int + 52, a))
    else if a != UrlSafe && c == '+' as int then Ok((62, Standard))
    else if a != UrlSafe && c == '/' as int then Ok((63, Standard))
    else if a != Standard && c == '-' as int then Ok((62, UrlSafe))
    else if a != Standard && c == '_' as int then Ok((63, UrlSafe))
    else Err(Invalid)
  }

  /** Reading undoes printing, for the alphabet itself and while it is still being detected. */
  lemma ValueOfSymbol(a: Alphabet, d: Alphabet, v: int)
    requires 0 <= v < 64 && a != Auto && (d == a || d == Auto)
    ensures Value(d, Symbol(a, v)).Ok? && Value(d, Symbol(a, v)).value.0 == v
    ensures Value(d, Symbol(a, v)).value.1 == a || (d == Auto && Value(d, Symbol(a, v)).value.1 == Auto)
    ensures Symbol(a, v) != PAD
  {
  }

  lemma SymbolOfValue(a: Alphabet, c: byte)
    requires a != Auto && Value(a, c).Ok?
    ensures Symbol(a, Value(a, c).value.0) == c && Value(a, c).value.1 == a
  {
  }

  // ---------- encoding ----------

  function Encode(a: Alphabet, s: seq<byte>): seq<byte> {
    if |s| == 0 then []
    else if |s| == 1 then [Symbol(a, s[0] / 4), Symbol(a, s[0] % 4 * 16), PAD, PAD]
    else if |s| == 2 then
      [Symbol(a, s[0] / 4), Symbol(a, s[0] % 4 * 16 + s[1] / 16), Symbol(a, s[1] % 16 * 4), PAD]
    else
      [Symbol(a, s[0] / 4), Symbol(a, s[0] % 4 * 16 + s[1] / 16), Symbol(a, s[1] % 16 * 4 + s[2] / 64),
       Symbol(a, s[2] % 64)] + Encode(a, s[3..])
  }

  function RequiredEncodeSize(size: nat): nat {
    (size / 3 + (if size % 3 != 0 then 1 else 0)) * 4
  }

  function MaxDecodeSize(size: nat): nat {
    (size / 4 + (if size % 4 != 0 then 1 else 0)) * 3
  }

  /** The size formula is exact. */
  lemma {:induction false} EncodeSize(a: Alphabet, s: seq<byte>)
    ensures |Encode(a, s)| == RequiredEncodeSize(|s|)
    decreases |s|
  {
    hide Symbol;
    if |s| >= 3 {
      EncodeSize(a, s[3..]);
    }
  }

  method EncodeTo(a: Alphabet, s: seq<byte>) returns (out: seq<byte>)
    ensures out == Encode(a, s) && |out| == RequiredEncodeSize(|s|)
  {
    hide Symbol, Encode;
    EncodeSize(a, s);
    EncodeNothing(a);
    out := [];
    var i := 0;
    assert s[0..] == s && [] + Encode(a, s) == Encode(a, s);
    while i < |s|
      invariant 0 <= i <= |s|
      invariant Encode(a, s) == out + Encode(a, s[i..])
    {
      ghost var rest, done := s[i..], out;
      var i0 := s[i];
      i := i + 1;
      var block: seq<byte> := [Symbol(a, i0 / 4)];
      if i == |s| {
        block := block + [Symbol(a, i0 % 4 * 16), PAD, PAD];
        BlockDone(a, rest, [], block);
        out := out + block;
        break;
      }
      var i1 := s[i];
      i := i + 1;
      block := block + [Symbol(a, i0 % 4 * 16 + i1 / 16)];
      if i == |s| {
        block := block + [Symbol(a, i1 % 16 * 4), PAD];
        BlockDone(a, rest, [], block);
        out := out + block;
        break;
      }
      var i2 := s[i];
      i := i + 1;
      block := block + [Symbol(a, i1 % 16 * 4 + i2 / 64), Symbol(a, i2 % 64)];
      BlockDone(a, rest, s[i..], block);
      out := out + block;
      assert done + (block + Encode(a, s[i..])) == out + Encode(a, s[i..]);
    }
    assert s[i..] == [];
  }

  lemma EncodeNothing(a: Alphabet)
    ensures Encode(a, []) == []
  {
  }

  lemma BlockDone(a: Alphabet, rest: seq<byte>, tail: seq<byte>, block: seq<byte>)
    requires rest != [] && (|rest| >= 3 ==> tail == rest[3..]) && (|rest| < 3 ==> tail == [])
    requires |rest| == 1 ==> block == [Symbol(a, rest[0] / 4)] + [Symbol(a, rest[0] % 4 * 16), PAD, PAD]
    requires |rest| == 2 ==> block == [Symbol(a, rest[0] / 4)] + [Symbol(a, rest[0] % 4 * 16 + rest[1] / 16)]
                                      + [Symbol(a, rest[1] % 16 * 4), PAD]
    requires |rest| >= 3 ==> block == [Symbol(a, rest[0] / 4)] + [Symbol(a, rest[0] % 4 * 16 + rest[1] / 16)]
                                      + [Symbol(a, rest[1] % 16 * 4 + rest[2] / 64), Symbol(a, rest[2] % 64)]
    ensures Encode(a, rest) == block + Encode(a, tail)
  {
  }

  // ---------- decoding ----------

  /** The alphabet found so far, the previous value, and how many of its bits are not yet written. */
  datatype Decoder = Decoder(alphabet: Alphabet, last: byte, bits: nat)

  predicate Ready(d: Decoder) {
    d.bits in {0, 2, 4, 6} && d.last < 64
  }

  /** `(last << (8 - bits)) | (part >> (bits - 2))`, kept to eight bits. */
  function Merge(last: byte, bits: nat, part: byte): byte
    requires bits in {2, 4, 6} && part < 64
  {
    match bits
    case 2 => last * 64 % 256 + part
    case 4 => last * 16 % 256 + part / 4
    case 6 => last * 4 % 256 + part / 16
  }

  /** One character: the bytes written (none or one) and the new state. */
  function Step(d: Decoder, c: byte): (r: Result<(seq<byte>, Decoder), Invalid>)
    requires Ready(d)
    ensures r.Ok? ==> Ready(r.value.1) && |r.value.0| <= 1 && c != PAD
  {
    match Value(d.alphabet, c)
    case Err(e) => Err(e)
    case Ok((part, a)) =>
      if d.bits + 6 >= 8 then Ok(([Merge(d.last, d.bits, part)], Decoder(a, part, d.bits - 2)))
      else Ok(([], Decoder(a, part, d.bits + 6)))
  }

  /** A decoding whose first bytes have already been written. */
  function After(out: seq<byte>, r: Result<(seq<byte>, seq<byte>), Invalid>): Result<(seq<byte>, seq<byte>), Invalid> {
    match r
    case Err(e) => Err(e)
    case Ok((more, rest)) => Ok((out + more, rest))
  }

  /** Decodes up to the first padding character: the bytes and what follows that character. */
  function Body(d: Decoder, t: seq<byte>): (r: Result<(seq<byte>, seq<byte>), Invalid>)
    requires Ready(d)
    decreases |t|
  {
    if t == [] then Ok(([], []))
    else if t[0] == PAD then Ok(([], t[1..]))
    else match Step(d, t[0])
      case Err(e) => Err(e)
      case Ok((out, d')) => After(out, Body(d', t[1..]))
  }

  /** The bytes decoded up to the end, the first padding character or the first error. */
  function Partial(d: Decoder, t: seq<byte>): seq<byte>
    requires Ready(d)
    decreases |t|
  {
    if t == [] || t[0] == PAD then []
    else match Step(d, t[0])
      case Err(_) => []
      case Ok((out, d')) => out + Partial(d', t[1..])
  }

  function OnlyPadding(t: seq<byte>): bool {
    forall i | 0 <= i < |t| :: t[i] == PAD
  }

  function START(a: Alphabet): Decoder {
    Decoder(a, 0, 0)
  }

  function Decode(a: Alphabet, b: Behavior, t: seq<byte>): Result<seq<byte>, Invalid> {
    match Body(START(a), t)
    case Err(e) => Err(e)
    case Ok((out, rest)) => if b == Loose || OnlyPadding(rest) then Ok(out) else Err(Invalid)
  }

  /** The characters before the padding. */
  function Symbols(t: seq<byte>): nat {
    if t == [] || t[0] == PAD then 0 else 1 + Symbols(t[1..])
  }

  lemma {:induction false} SymbolsBound(t: seq<byte>)
    ensures Symbols(t) <= |t|
  {
    if t != [] && t[0] != PAD {
      SymbolsBound(t[1..]);
    }
  }

  /** How many bytes `n` characters complete, starting with `bits` pending bits. */
  lemma {:induction false} BodySize(d: Decoder, t: seq<byte>)
    requires Ready(d) && Body(d, t).Ok?
    ensures |Body(d, t).value.0| == (d.bits + 6 * Symbols(t)) / 8
    decreases |t|
  {
    if t != [] && t[0] != PAD {
      var (out, d') := Step(d, t[0]).value;
      BodySize(d', t[1..]);
    }
  }

  /** A successful decoding yields three bytes for every four characters, and the bound holds. */
  lemma DecodeSize(a: Alphabet, b: Behavior, t: seq<byte>)
    requires Decode(a, b, t).Ok?
    ensures |Decode(a, b, t).value| == 3 * Symbols(t) / 4
    ensures |Decode(a, b, t).value| <= MaxDecodeSize(|t|)
  {
    BodySize(START(a), t);
    SymbolsBound(t);
  }

  /** The loop shared by both forms of decoding, over a sequence. */
  method DecodeTo(a: Alphabet, b: Behavior, t: seq<byte>) returns (r: Result<seq<byte>, Invalid>)
    ensures r == Decode(a, b, t)
  {
    var alphabet, last: byte, bits: nat := a, 0, 0;
    var out: seq<byte> := [];
    var i := 0;
    AfterNothing(Body(START(a), t));
    assert t[0..] == t;
    while i < |t|
      invariant 0 <= i <= |t| && Ready(Decoder(alphabet, last, bits))
      invariant Body(START(a), t) == After(out, Body(Decoder(alphabet, last, bits), t[i..]))
      decreases |t| - i
    {
      ghost var tail, before := t[i..], out;
      assert tail[1..] == t[i + 1..];
      if t[i] != PAD {
        DecodeStep(out, Decoder(alphabet, last, bits), tail);
      }
      var c := t[i];
      i := i + 1;
      if c == PAD {
        assert out + [] == out;
        r := FinishDecoding(b, out, t, i);
        return;
      }
      var part;
      match Value(alphabet, c) {
        case Err(e) => return Err(e);
        case Ok((v, found)) =>
          part, alphabet := v, found;
      }
      if bits + 6 >= 8 {
        out := out + [Merge(last, bits, part)];
        bits := bits - 2;
      } else {
        bits := bits + 6;
      }
      last := part;
      assert before + [] == before;
    }
    assert t[i..] == [] && out + [] == out;
    r := FinishDecoding(b, out, t, i);
  }

  lemma AfterNothing(r: Result<(seq<byte>, seq<byte>), Invalid>)
    ensures After([], r) == r
  {
    if r.Ok? {
      assert [] + r.value.0 == r.value.0;
    }
  }

  lemma AfterAfter(out: seq<byte>, more: seq<byte>, r: Result<(seq<byte>, seq<byte>), Invalid>)
    ensures After(out, After(more, r)) == After(out + more, r)
  {
    if r.Ok? {
      assert out + (more + r.value.0) == (out + more) + r.value.0;
    }
  }

  /** One character that is not padding, with `out` already written. */
  lemma DecodeStep(out: seq<byte>, d: Decoder, tail: seq<byte>)
    requires Ready(d) && tail != [] && tail[0] != PAD
    ensures match Step(d, tail[0])
            case Err(_) => After(out, Body(d, tail)) == Err(Invalid)
            case Ok((more, d')) => After(out, Body(d, tail)) == After(out + more, Body(d', tail[1..]))
  {
    match Step(d, tail[0])
    case Err(_) =>
    case Ok((more, d')) => AfterAfter(out, more, Body(d', tail[1..]));
  }

  /** The check of what follows the first padding character. */
  method FinishDecoding(b: Behavior, out: seq<byte>, t: seq<byte>, first: nat) returns (r: Result<seq<byte>, Invalid>)
    requires first <= |t|
    ensures r == if b == Loose || OnlyPadding(t[first..]) then Ok(out) else Err(Invalid)
  {
    if b != Loose {
      for i := first to |t|
        invariant OnlyPadding(t[first..i])
      {
        if t[i] != PAD {
          assert t[first..][i - first] != PAD;
          return Err(Invalid);
        }
        assert t[first..i + 1] == t[first..i] + [t[i]];
      }
      assert t[first..|t|] == t[first..];
    }
    r := Ok(out);
  }

  // ---------- decoding undoes encoding ----------

  /** Decoder states met while reading text in alphabet `a`. */
  predicate Reading(a: Alphabet, d: Decoder) {
    Ready(d) && (d.alphabet == a || d.alphabet == Auto)
  }

  lemma StepSymbol(a: Alphabet, d: Decoder, v: int)
    requires a != Auto && Reading(a, d) && 0 <= v < 64
    ensures Step(d, Symbol(a, v)).Ok? && Symbol(a, v) != PAD
    ensures var (out, d') := Step(d, Symbol(a, v)).value;
            && Reading(a, d') && d'.last == v
            && (d.bits == 0 ==> out == [] && d'.bits == 6)
            && (d.bits != 0 ==> out == [Merge(d.last, d.bits, v)] && d'.bits == d.bits - 2)
  {
    ValueOfSymbol(a, d.alphabet, v);
  }

  lemma BodyCons(d: Decoder, c: byte, t: seq<byte>)
    requires Ready(d) && c != PAD && Step(d, c).Ok?
    ensures Body(d, [c] + t) == After(Step(d, c).value.0, Body(Step(d, c).value.1, t))
  {
    assert ([c] + t)[1..] == t;
  }

  /** Reading one whole block of four symbols. */
  lemma BodyBlock(a: Alphabet, d: Decoder, v0: int, v1: int, v2: int, v3: int, t: seq<byte>) returns (e: Decoder)
    requires a != Auto && Reading(a, d) && d.bits == 0 && 0 <= v0 < 64 && 0 <= v1 < 64 && 0 <= v2 < 64 && 0 <= v3 < 64
    ensures Reading(a, e) && e.bits == 0
    ensures Body(d, [Symbol(a, v0), Symbol(a, v1), Symbol(a, v2), Symbol(a, v3)] + t) ==
            After([Merge(v0, 6, v1), Merge(v1, 4, v2), Merge(v2, 2, v3)], Body(e, t))
  {
    var t3 := [Symbol(a, v3)] + t;
    var t2 := [Symbol(a, v2)] + t3;
    var t1 := [Symbol(a, v1)] + t2;
    StepSymbol(a, d, v0);
    var d1 := Step(d, Symbol(a, v0)).value.1;
    StepSymbol(a, d1, v1);
    var d2 := Step(d1, Symbol(a, v1)).value.1;
    StepSymbol(a, d2, v2);
    var d3 := Step(d2, Symbol(a, v2)).value.1;
    StepSymbol(a, d3, v3);
    e := Step(d3, Symbol(a, v3)).value.1;
    BodyCons(d, Symbol(a, v0), t1);
    BodyCons(d1, Symbol(a, v1), t2);
    BodyCons(d2, Symbol(a, v2), t3);
    BodyCons(d3, Symbol(a, v3), t);
    assert [Symbol(a, v0), Symbol(a, v1), Symbol(a, v2), Symbol(a, v3)] + t == [Symbol(a, v0)] + t1;
    AfterFour(Merge(v0, 6, v1), Merge(v1, 4, v2), Merge(v2, 2, v3), Body(e, t));
  }

  lemma AfterFour(x: byte, y: byte, z: byte, r: Result<(seq<byte>, seq<byte>), Invalid>)
    ensures After([], After([x], After([y], After([z], r)))) == After([x, y, z], r)
  {
    if r.Ok? {
      assert [] + ([x] + ([y] + ([z] + r.value.0))) == [x, y, z] + r.value.0;
    }
  }

  /** Reading two symbols before padding. */
  lemma BodyTwo(a: Alphabet, d: Decoder, v0: int, v1: int, t: seq<byte>)
    requires a != Auto && Reading(a, d) && d.bits == 0 && 0 <= v0 < 64 && 0 <= v1 < 64
    ensures Body(d, [Symbol(a, v0), Symbol(a, v1), PAD] + t) == Ok(([Merge(v0, 6, v1)], t))
  {
    var t2 := [PAD] + t;
    var t1 := [Symbol(a, v1)] + t2;
    StepSymbol(a, d, v0);
    var d1 := Step(d, Symbol(a, v0)).value.1;
    StepSymbol(a, d1, v1);
    BodyCons(d, Symbol(a, v0), t1);
    BodyCons(d1, Symbol(a, v1), t2);
    assert [Symbol(a, v0), Symbol(a, v1), PAD] + t == [Symbol(a, v0)] + t1;
    assert t2[1..] == t;
    assert [] + ([Merge(v0, 6, v1)] + []) == [Merge(v0, 6, v1)];
  }

  lemma BodyThree(a: Alphabet, d: Decoder, v0: int, v1: int, v2: int, t: seq<byte>)
    requires a != Auto && Reading(a, d) && d.bits == 0 && 0 <= v0 < 64 && 0 <= v1 < 64 && 0 <= v2 < 64
    ensures Body(d, [Symbol(a, v0), Symbol(a, v1), Symbol(a, v2), PAD] + t) ==
            Ok(([Merge(v0, 6, v1), Merge(v1, 4, v2)], t))
  {
    var t3 := [PAD] + t;
    var t2 := [Symbol(a, v2)] + t3;
    var t1 := [Symbol(a, v1)] + t2;
    StepSymbol(a, d, v0);
    var d1 := Step(d, Symbol(a, v0)).value.1;
    StepSymbol(a, d1, v1);
    var d2 := Step(d1, Symbol(a, v1)).value.1;
    StepSymbol(a, d2, v2);
    BodyCons(d, Symbol(a, v0), t1);
    BodyCons(d1, Symbol(a, v1), t2);
    BodyCons(d2, Symbol(a, v2), t3);
    assert [Symbol(a, v0), Symbol(a, v1), Symbol(a, v2), PAD] + t == [Symbol(a, v0)] + t1;
    assert t3[1..] == t;
    assert [] + ([Merge(v0, 6, v1)] + ([Merge(v1, 4, v2)] + [])) == [Merge(v0, 6, v1), Merge(v1, 4, v2)];
  }

  /** Bits shifted out of a byte are gone. */
  lemma Overflow(high: nat, low: nat)
    requires low < 256
    ensures (high * 256 + low) % 256 == low
  {
  }

  lemma FirstByte(i0: byte, high: int)
    requires 0 <= high < 16
    ensures Merge(i0 / 4, 6, i0 % 4 * 16 + high) == i0
  {
    assert (i0 % 4 * 16 + high) / 16 == i0 % 4;
  }

  lemma SecondByte(i1: byte, low: int, high: int)
    requires 0 <= low < 4 && 0 <= high < 4
    ensures Merge(low * 16 + i1 / 16, 4, i1 % 16 * 4 + high) == i1
  {
    assert (i1 % 16 * 4 + high) / 4 == i1 % 16;
    assert (low * 16 + i1 / 16) * 16 == low * 256 + i1 / 16 * 16;
    Overflow(low, i1 / 16 * 16);
  }

  lemma ThirdByte(i2: byte, low: int)
    requires 0 <= low < 16
    ensures Merge(low * 4 + i2 / 64, 2, i2 % 64) == i2
  {
    assert (low * 4 + i2 / 64) * 64 == low * 256 + i2 / 64 * 64;
    Overflow(low, i2 / 64 * 64);
  }

  /** The bits of three bytes survive the way through four values. */
  lemma BlockBits(i0: byte, i1: byte, i2: byte)
    ensures Merge(i0 / 4, 6, i0 % 4 * 16 + i1 / 16) == i0
    ensures Merge(i0 % 4 * 16 + i1 / 16, 4, i1 % 16 * 4 + i2 / 64) == i1
    ensures Merge(i1 % 16 * 4 + i2 / 64, 2, i2 % 64) == i2
  {
    hide Merge;
    FirstByte(i0, i1 / 16);
    SecondByte(i1, i0 % 4, i2 / 64);
    ThirdByte(i2, i1 % 16);
  }

  /** `Body` on `t` yields `s` and nothing but padding after it. */
  predicate Yields(d: Decoder, t: seq<byte>, s: seq<byte>)
    requires Ready(d)
  {
    Body(d, t).Ok? && Body(d, t).value.0 == s && OnlyPadding(Body(d, t).value.1)
  }

  lemma YieldsOne(a: Alphabet, d: Decoder, i0: byte)
    requires a != Auto && Reading(a, d) && d.bits == 0
    ensures Yields(d, Encode(a, [i0]), [i0])
  {
    BlockBits(i0, 0, 0);
    BodyTwo(a, d, i0 / 4, i0 % 4 * 16, [PAD]);
    assert Encode(a, [i0]) == [Symbol(a, i0 / 4), Symbol(a, i0 % 4 * 16), PAD] + [PAD];
  }

  lemma YieldsTwo(a: Alphabet, d: Decoder, i0: byte, i1: byte)
    requires a != Auto && Reading(a, d) && d.bits == 0
    ensures Yields(d, Encode(a, [i0, i1]), [i0, i1])
  {
    BlockBits(i0, i1, 0);
    BodyThree(a, d, i0 / 4, i0 % 4 * 16 + i1 / 16, i1 % 16 * 4, []);
    assert Encode(a, [i0, i1]) == Encode(a, [i0, i1]) + [];
  }

  lemma YieldsBlock(e: Decoder, d: Decoder, block: seq<byte>, bytes: seq<byte>, t: seq<byte>, s: seq<byte>)
    requires Ready(e) && Ready(d) && Body(d, block + t) == After(bytes, Body(e, t)) && Yields(e, t, s)
    ensures Yields(d, block + t, bytes + s)
  {
  }

  lemma {:induction false} BodyOfEncode(a: Alphabet, d: Decoder, s: seq<byte>)
    requires a != Auto && Reading(a, d) && d.bits == 0
    ensures Yields(d, Encode(a, s), s)
    decreases |s|
  {
    hide After, Merge, Symbol, Value;
    if |s| == 1 {
      YieldsOne(a, d, s[0]);
      assert s == [s[0]];
    } else if |s| == 2 {
      YieldsTwo(a, d, s[0], s[1]);
      assert s == [s[0], s[1]];
    } else if |s| >= 3 {
      var v0, v1, v2, v3 := s[0] / 4, s[0] % 4 * 16 + s[1] / 16, s[1] % 16 * 4 + s[2] / 64, s[2] % 64;
      BlockBits(s[0], s[1], s[2]);
      var t := Encode(a, s[3..]);
      var e := BodyBlock(a, d, v0, v1, v2, v3, t);
      BodyOfEncode(a, e, s[3..]);
      YieldsBlock(e, d, [Symbol(a, v0), Symbol(a, v1), Symbol(a, v2), Symbol(a, v3)], [s[0], s[1], s[2]], t, s[3..]);
      assert s == [s[0], s[1], s[2]] + s[3..];
    }
  }

  /** Decoding undoes encoding, whether the alphabet is given or detected. */
  lemma DecodeEncode(a: Alphabet, d: Alphabet, b: Behavior, s: seq<byte>)
    requires a != Auto && (d == a || d == Auto)
    ensures Decode(d, b, Encode(a, s)) == Ok(s)
  {
    BodyOfEncode(a, START(d), s);
  }

  // ---------- encoding undoes decoding ----------

  predicate IsSymbol(a: Alphabet, c: byte) {
    Value(a, c).Ok?
  }

  function ValueIn(a: Alphabet, c: byte): int
    requires IsSymbol(a, c)
  {
    Value(a, c).value.0
  }

  /** Whole blocks of four, the last one possibly padded with its spare bits zero. */
  predicate Canonical(a: Alphabet, t: seq<byte>)
    decreases |t|
  {
    t == [] ||
    (|t| >= 4 && IsSymbol(a, t[0]) && IsSymbol(a, t[1]) &&
     if t[2] == PAD then |t| == 4 && t[3] == PAD && ValueIn(a, t[1]) % 16 == 0
     else if t[3] == PAD then |t| == 4 && IsSymbol(a, t[2]) && ValueIn(a, t[2]) % 4 == 0
     else IsSymbol(a, t[2]) && IsSymbol(a, t[3]) && Canonical(a, t[4..]))
  }

  lemma Bits6(v0: int, v1: int)
    requires 0 <= v0 < 64 && 0 <= v1 < 64
    ensures Merge(v0, 6, v1) / 4 == v0 && Merge(v0, 6, v1) % 4 == v1 / 16
  {
    Overflow(0, v0 * 4);
    DivModOf(v0, 4, v1 / 16);
  }

  lemma Bits4(v1: int, v2: int)
    requires 0 <= v1 < 64 && 0 <= v2 < 64
    ensures Merge(v1, 4, v2) / 16 == v1 % 16 && Merge(v1, 4, v2) % 16 == v2 / 4
  {
    assert v1 * 16 == v1 / 16 * 256 + v1 % 16 * 16;
    Overflow(v1 / 16, v1 % 16 * 16);
  }

  lemma Bits2(v2: int, v3: int)
    requires 0 <= v2 < 64 && 0 <= v3 < 64
    ensures Merge(v2, 2, v3) / 64 == v2 % 4 && Merge(v2, 2, v3) % 64 == v3
  {
    assert v2 * 64 == v2 / 4 * 256 + v2 % 4 * 64;
    Overflow(v2 / 4, v2 % 4 * 64);
  }

  lemma ValueBits(v0: int, v1: int, v2: int, v3: int)
    requires 0 <= v0 < 64 && 0 <= v1 < 64 && 0 <= v2 < 64 && 0 <= v3 < 64
    ensures var i0, i1, i2 := Merge(v0, 6, v1), Merge(v1, 4, v2), Merge(v2, 2, v3);
            && i0 / 4 == v0 && i0 % 4 * 16 + i1 / 16 == v1 && i1 % 16 * 4 + i2 / 64 == v2 && i2 % 64 == v3
            && (v1 % 16 == 0 ==> i0 % 4 * 16 == v1) && (v2 % 4 == 0 ==> i1 % 16 * 4 == v2)
  {
    Bits6(v0, v1);
    Bits4(v1, v2);
    Bits2(v2, v3);
  }

  lemma SymbolsOf(a: Alphabet, c: byte)
    requires a != Auto && IsSymbol(a, c)
    ensures Symbol(a, ValueIn(a, c)) == c
  {
    SymbolOfValue(a, c);
  }

  lemma {:induction false} EncodeOfBody(a: Alphabet, d: Decoder, t: seq<byte>)
    requires a != Auto && Reading(a, d) && d.bits == 0 && Canonical(a, t)
    ensures Body(d, t).Ok? && Encode(a, Body(d, t).value.0) == t && OnlyPadding(Body(d, t).value.1)
    decreases |t|
  {
    hide Value;
    if t != [] {
      SymbolsOf(a, t[0]);
      SymbolsOf(a, t[1]);
      var v0, v1 := ValueIn(a, t[0]), ValueIn(a, t[1]);
      if t[2] == PAD {
        ValueBits(v0, v1, 0, 0);
        BodyTwo(a, d, v0, v1, [PAD]);
        assert t == [t[0], t[1], PAD] + [PAD];
      } else if t[3] == PAD {
        SymbolsOf(a, t[2]);
        ValueBits(v0, v1, ValueIn(a, t[2]), 0);
        BodyThree(a, d, v0, v1, ValueIn(a, t[2]), []);
        assert t == [t[0], t[1], t[2], PAD] + [];
      } else {
        EncodeOfBlock(a, d, t);
      }
    }
  }

  /** Encoding three bytes and the rest. */
  lemma EncodeBlock(a: Alphabet, i0: byte, i1: byte, i2: byte, s: seq<byte>, c: seq<byte>)
    requires |c| == 4 && c[0] == Symbol(a, i0 / 4) && c[1] == Symbol(a, i0 % 4 * 16 + i1 / 16)
    requires c[2] == Symbol(a, i1 % 16 * 4 + i2 / 64) && c[3] == Symbol(a, i2 % 64)
    ensures Encode(a, [i0, i1, i2] + s) == c + Encode(a, s)
  {
    assert ([i0, i1, i2] + s)[3..] == s;
  }

  lemma AfterOk(out: seq<byte>, r: Result<(seq<byte>, seq<byte>), Invalid>)
    requires r.Ok?
    ensures After(out, r).Ok? && After(out, r).value == (out + r.value.0, r.value.1)
  {
  }

  lemma {:induction false} EncodeOfBlock(a: Alphabet, d: Decoder, t: seq<byte>)
    requires a != Auto && Reading(a, d) && d.bits == 0 && |t| >= 4
    requires IsSymbol(a, t[0]) && IsSymbol(a, t[1]) && IsSymbol(a, t[2]) && IsSymbol(a, t[3]) && Canonical(a, t[4..])
    ensures Body(d, t).Ok? && Encode(a, Body(d, t).value.0) == t && OnlyPadding(Body(d, t).value.1)
    decreases |t|, 0
  {
    hide Value;
    var head, tail := t[..4], t[4..];
    var v0, v1, v2, v3 := ValueIn(a, t[0]), ValueIn(a, t[1]), ValueIn(a, t[2]), ValueIn(a, t[3]);
    var i0, i1, i2 := Merge(v0, 6, v1), Merge(v1, 4, v2), Merge(v2, 2, v3);
    assert head == [Symbol(a, v0), Symbol(a, v1), Symbol(a, v2), Symbol(a, v3)] by {
      SymbolsOf(a, t[0]);
      SymbolsOf(a, t[1]);
      SymbolsOf(a, t[2]);
      SymbolsOf(a, t[3]);
    }
    assert t == head + tail;
    var e := BodyBlock(a, d, v0, v1, v2, v3, tail);
    EncodeOfBody(a, e, tail);
    AfterOk([i0, i1, i2], Body(e, tail));
    ValueBits(v0, v1, v2, v3);
    EncodeBlock(a, i0, i1, i2, Body(e, tail).value.0, head);
  }

  /** Encoding undoes decoding on canonically padded text with zero spare bits. */
  lemma EncodeDecode(a: Alphabet, d: Alphabet, b: Behavior, t: seq<byte>)
    requires a != Auto && (d == a || d == Auto) && Canonical(a, t)
    ensures Decode(d, b, t).Ok? && Encode(a, Decode(d, b, t).value) == t
  {
    EncodeOfBody(a, START(d), t);
  }

  /** Encoding produces exactly such text. */
  lemma {:induction false} EncodeCanonical(a: Alphabet, s: seq<byte>)
    requires a != Auto
    ensures Canonical(a, Encode(a, s))
    decreases |s|
  {
    if |s| == 1 {
      ValueOfSymbol(a, a, s[0] / 4);
      ValueOfSymbol(a, a, s[0] % 4 * 16);
    } else if |s| == 2 {
      ValueOfSymbol(a, a, s[0] / 4);
      ValueOfSymbol(a, a, s[0] % 4 * 16 + s[1] / 16);
      ValueOfSymbol(a, a, s[1] % 16 * 4);
    } else if |s| >= 3 {
      ValueOfSymbol(a, a, s[0] / 4);
      ValueOfSymbol(a, a, s[0] % 4 * 16 + s[1] / 16);
      ValueOfSymbol(a, a, s[1] % 16 * 4 + s[2] / 64);
      ValueOfSymbol(a, a, s[2] % 64);
      EncodeCanonical(a, s[3..]);
      assert Encode(a, s)[4..] == Encode(a, s[3..]);
    }
  }

  // ---------- detecting the alphabet ----------

  /** What the two fixed alphabets make of a text, from the same pending bits. */
  function Fixed(a: Alphabet, last: byte, bits: nat, t: seq<byte>): Result<(seq<byte>, seq<byte>), Invalid>
    requires Ready(Decoder(a, last, bits))
  {
    Body(Decoder(a, last, bits), t)
  }

  lemma {:induction false} DetectBody(last: byte, bits: nat, t: seq<byte>)
    requires Ready(Decoder(Auto, last, bits))
    ensures var r, p, q := Fixed(Auto, last, bits, t), Fixed(Standard, last, bits, t), Fixed(UrlSafe, last, bits, t);
            && (r.Ok? <==> p.Ok? || q.Ok?)
            && (p.Ok? ==> r == p) && (q.Ok? ==> r == q)
    decreases |t|
  {
    hide Merge;
    if t != [] && t[0] != PAD && Value(Auto, t[0]).Ok? {
      var (part, a) := Value(Auto, t[0]).value;
      if a == Auto {
        var bits' := if bits + 6 >= 8 then bits - 2 else bits + 6;
        DetectBody(part, bits', t[1..]);
      }
    }
  }

  /** Detection succeeds exactly when one of the two alphabets fits, and then with its bytes. */
  lemma DetectExact(b: Behavior, t: seq<byte>)
    ensures Decode(Auto, b, t).Ok? <==> Decode(Standard, b, t).Ok? || Decode(UrlSafe, b, t).Ok?
    ensures Decode(Standard, b, t).Ok? ==> Decode(Auto, b, t) == Decode(Standard, b, t)
    ensures Decode(UrlSafe, b, t).Ok? ==> Decode(Auto, b, t) == Decode(UrlSafe, b, t)
  {
    DetectBody(0, 0, t);
  }

  // ---------- decoding in place ----------

  /** What decoding in place has done to the buffer `was` after reading `i` and writing `o` bytes. */
  ghost predicate InPlace(a: Alphabet, was: seq<byte>, size: nat, d: Decoder, i: nat, now: seq<byte>, o: nat) {
    && o <= i <= size <= |was| && Ready(d)
    && 4 * o + d.bits / 2 <= 3 * i
    && |now| == |was| && now[o..] == was[o..]
    && Body(START(a), was[..size]) == After(now[..o], Body(d, was[..size][i..]))
    && Partial(START(a), was[..size]) == now[..o] + Partial(d, was[..size][i..])
  }

  lemma InPlaceStart(a: Alphabet, was: seq<byte>, size: nat)
    requires size <= |was|
    ensures InPlace(a, was, size, START(a), 0, was, 0)
  {
    AfterNothing(Body(START(a), was[..size]));
    assert was[..size][0..] == was[..size] && was[..0] == [];
  }

  /** The bytes still to be read have not been written. */
  lemma InPlaceReads(a: Alphabet, was: seq<byte>, size: nat, d: Decoder, i: nat, now: seq<byte>, o: nat)
    requires InPlace(a, was, size, d, i, now, o) && i < size
    ensures now[i] == was[..size][i]
  {
    assert now[o..][i - o] == was[o..][i - o];
  }

  /** What writing at most one byte at the write cursor does to the two halves of the buffer. */
  lemma Written(was: seq<byte>, now: seq<byte>, o: nat, out: seq<byte>, next: seq<byte>)
    requires |out| <= 1 && o + |out| <= |was| == |now| && now[o..] == was[o..]
    requires next == if out == [] then now else now[o := out[0]]
    ensures next[..o + |out|] == now[..o] + out && next[o + |out|..] == was[o + |out|..]
  {
    assert next[o + |out|..] == now[o..][|out|..] == was[o..][|out|..];
  }

  /** What one character that is not padding adds to the bytes decoded so far. */
  lemma InPlaceBody(a: Alphabet, t: seq<byte>, d: Decoder, i: nat, done: seq<byte>)
    requires Ready(d) && i < |t| && t[i] != PAD && Body(START(a), t) == After(done, Body(d, t[i..]))
    ensures match Step(d, t[i])
            case Err(_) => Body(START(a), t) == Err(Invalid)
            case Ok((out, d')) => Body(START(a), t) == After(done + out, Body(d', t[i + 1..]))
  {
    assert t[i..][0] == t[i] && t[i..][1..] == t[i + 1..];
    DecodeStep(done, d, t[i..]);
  }

  /** One character that is not padding, in place. */
  lemma InPlaceStep(a: Alphabet, was: seq<byte>, size: nat, d: Decoder, i: nat, now: seq<byte>, o: nat,
                    out: seq<byte>, d': Decoder, next: seq<byte>)
    requires InPlace(a, was, size, d, i, now, o) && i < size && was[i] != PAD
    requires Step(d, was[i]) == Ok((out, d')) && next == if out == [] then now else now[o := out[0]]
    ensures o + |out| <= i + 1 && InPlace(a, was, size, d', i + 1, next, o + |out|)
  {
    Cursors(d, was[i], i, o);
    Written(was, now, o, out, next);
    InPlaceBody(a, was[..size], d, i, now[..o]);
    PartialStep(a, was[..size], d, i, now[..o]);
  }

  /** The same for the bytes decoded before an error. */
  lemma PartialStep(a: Alphabet, t: seq<byte>, d: Decoder, i: nat, done: seq<byte>)
    requires Ready(d) && i < |t| && t[i] != PAD && Partial(START(a), t) == done + Partial(d, t[i..])
    ensures match Step(d, t[i])
            case Err(_) => Partial(START(a), t) == done
            case Ok((out, d')) => Partial(START(a), t) == done + out + Partial(d', t[i + 1..])
  {
    assert t[i..][0] == t[i] && t[i..][1..] == t[i + 1..];
    match Step(d, t[i]) {
      case Err(_) => assert done + [] == done;
      case Ok((out, d')) => assert done + (out + Partial(d', t[i + 1..])) == done + out + Partial(d', t[i + 1..]);
    }
  }

  /** The write cursor stays behind the read cursor. */
  lemma Cursors(d: Decoder, c: byte, i: nat, o: nat)
    requires Ready(d) && Step(d, c).Ok? && 4 * o + d.bits / 2 <= 3 * i
    ensures var (out, d') := Step(d, c).value;
            o + |out| <= i + 1 && 4 * (o + |out|) + d'.bits / 2 <= 3 * (i + 1)
  {
  }

  /** The end of the characters, with or without padding. */
  lemma InPlaceEnd(a: Alphabet, was: seq<byte>, size: nat, d: Decoder, i: nat, now: seq<byte>, o: nat)
    requires InPlace(a, was, size, d, i, now, o) && (i < size ==> was[i] == PAD)
    ensures Body(START(a), was[..size]).Ok?
    ensures Body(START(a), was[..size]).value == (now[..o], was[if i < size then i + 1 else i..size])
    ensures Partial(START(a), was[..size]) == now[..o]
  {
    var t := was[..size];
    assert now[..o] + [] == now[..o];
    if i < size {
      assert t[i..][0] == t[i] && t[i..][1..] == t[i + 1..] == was[i + 1..size];
    } else {
      assert t[i..] == [] == was[i..size];
    }
  }

  /** What lies behind the write cursor is untouched. */
  lemma InPlaceRest(a: Alphabet, was: seq<byte>, size: nat, d: Decoder, i: nat, now: seq<byte>, o: nat)
    requires InPlace(a, was, size, d, i, now, o)
    ensures now == now[..o] + was[o..] && now[size..] == was[size..]
  {
    assert now[size..] == now[o..][size - o..] == was[o..][size - o..];
  }

  /** `*out = whole`. */
  method Put(buffer: array<byte>, o: nat, whole: byte)
    requires o < buffer.Length
    modifies buffer
    ensures buffer[..] == old(buffer[..])[o := whole]
  {
    buffer[o] := whole;
  }

  /** The buffer holds what was decoded, before an error or to the end, and then what it held. */
  ghost predicate LeftBehind(a: Alphabet, was: seq<byte>, size: nat, now: seq<byte>)
    requires size <= |was|
  {
    var s := Partial(START(a), was[..size]);
    |s| <= size && now == s + was[|s|..]
  }

  /** One turn of the loop: the new state and write cursor. */
  method StepInPlace(
      buffer: array<byte>, size: nat, ghost a: Alphabet, ghost was: seq<byte>, d: Decoder, i: nat, o: nat)
    returns (r: Result<(Decoder, nat), Invalid>)
    requires |was| == buffer.Length && InPlace(a, was, size, d, i, buffer[..], o) && i < size && was[i] != PAD
    modifies buffer
    ensures r.Err? ==> Body(START(a), was[..size]) == Err(Invalid) && LeftBehind(a, was, size, buffer[..])
    ensures r.Ok? ==> InPlace(a, was, size, r.value.0, i + 1, buffer[..], r.value.1)
  {
    ghost var now := buffer[..];
    InPlaceReads(a, was, size, d, i, now, o);
    InPlaceBody(a, was[..size], d, i, now[..o]);
    PartialStep(a, was[..size], d, i, now[..o]);
    InPlaceRest(a, was, size, d, i, now, o);
    var part, alphabet;
    match Value(d.alphabet, buffer[i]) {
      case Err(e) => return Err(e);
      case Ok((v, found)) =>
        part, alphabet := v, found;
    }
    if d.bits + 6 >= 8 {
      var whole, next := Merge(d.last, d.bits, part), Decoder(alphabet, part, d.bits - 2);
      InPlaceStep(a, was, size, d, i, now, o, [whole], next, now[o := whole]);
      Put(buffer, o, whole);
      r := Ok((next, o + 1));
    } else {
      var next := Decoder(alphabet, part, d.bits + 6);
      InPlaceStep(a, was, size, d, i, now, o, [], next, now);
      r := Ok((next, o));
    }
  }

  /** The loop over the characters: how many bytes it wrote and where the padding check goes on. */
  method DecodeBodyInPlace(buffer: array<byte>, size: nat, a: Alphabet) returns (r: Result<(nat, nat), Invalid>)
    requires size <= buffer.Length
    modifies buffer
    ensures match Body(START(a), old(buffer[..])[..size])
            case Err(e) => r == Err(e)
            case Ok((s, rest)) =>
              && r.Ok? && var (o, i) := r.value;
              && o == |s| && o <= i <= size && rest == old(buffer[..])[i..size]
              && buffer[..] == s + old(buffer[..])[o..]
    ensures LeftBehind(a, old(buffer[..]), size, buffer[..])
  {
    ghost var was := buffer[..];
    var d := START(a);
    var i, o := 0, 0;
    InPlaceStart(a, was, size);
    while i < size
      invariant InPlace(a, was, size, d, i, buffer[..], o)
    {
      InPlaceReads(a, was, size, d, i, buffer[..], o);
      if buffer[i] == PAD {
        break;
      }
      var step := StepInPlace(buffer, size, a, was, d, i, o);
      match step {
        case Err(_) => return Err(Invalid);
        case Ok((next, end)) =>
          d, o := next, end;
      }
      i := i + 1;
    }
    InPlaceEnd(a, was, size, d, i, buffer[..], o);
    InPlaceRest(a, was, size, d, i, buffer[..], o);
    r := Ok((o, if i < size then i + 1 else i));
  }

  /**
   * Decodes the first `size` bytes of a buffer into the buffer itself. The write cursor never passes the
   * read cursor, so the result is that of decoding into fresh memory. What was decoded, before an error or to the
   * end, stands at the front of the buffer, and nothing else changes.
   */
  method DecodeInPlace(buffer: array<byte>, size: nat, a: Alphabet, b: Behavior) returns (r: Result<nat, Invalid>)
    requires size <= buffer.Length
    modifies buffer
    ensures match Decode(a, b, old(buffer[..])[..size])
            case Err(e) => r == Err(e)
            case Ok(s) => r == Ok(|s|) && |s| <= size && buffer[..] == s + old(buffer[..])[|s|..]
    ensures LeftBehind(a, old(buffer[..]), size, buffer[..])
  {
    hide Body;
    var body := DecodeBodyInPlace(buffer, size, a);
    match body {
      case Err(e) => r := Err(e);
      case Ok((o, i)) =>
        ghost var was := old(buffer[..]);
        assert buffer[..size][i..] == was[i..size] by {
          assert buffer[..][i..size] == buffer[..][o..][i - o..size - o] == was[o..][i - o..size - o];
        }
        var checked := FinishDecoding(b, buffer[..o], buffer[..size], i);
        r := if checked.Ok? then Ok(o) else Err(Invalid);
    }
  }

  // ---------- the alphabets and the bits ----------

  /** Consecutive characters. */
  function Run(first: char, n: nat): string
    requires first as int + n < 128
  {
    seq(n, i requires 0 <= i < n => (first as int + i) as char)
  }

  /** The table of RFC 4648: capitals, small letters, digits, and two more that tell the alphabets apart. */
  function Table(last: string): string {
    Run('A', 26) + Run('a', 26) + Run('0', 10) + last
  }

  lemma SymbolsAre(v: nat)
    requires v < 64
    ensures |Table("+/")| == 64 == |Table("-_")|
    ensures Symbol(Standard, v) == Table("+/")[v] as int && Symbol(UrlSafe, v) == Table("-_")[v] as int
  {
  }

  /** An example of RFC 4648, section 10. */
  lemma FoobarEncodes()
    ensures Encode(Standard, [102, 111, 111, 98, 97, 114]) ==
            ['Z' as int, 'm' as int, '9' as int, 'v' as int, 'Y' as int, 'm' as int, 'F' as int, 'y' as int]
  {
    var s: seq<byte> := [102, 111, 111, 98, 97, 114];
    assert s[3..] == [98, 97, 114] && s[3..][3..] == [];
    assert Encode(Standard, s[3..]) == ['Y' as int, 'm' as int, 'F' as int, 'y' as int] + Encode(Standard, []);
  }

  /**
   * Three bytes, the first one highest, are the number of four symbols, the first one highest; of fewer bytes at
   * the end the missing bits are zero, and equals signs fill the block.
   */
  lemma EncodeBits(a: Alphabet, s: seq<byte>)
    requires a != Auto && s != []
    ensures |Encode(a, s)| >= 4 && (forall i | 0 <= i < 2 :: IsSymbol(a, Encode(a, s)[i]))
    ensures var e := Encode(a, s);
            if |s| == 1 then
              e[2..] == [PAD, PAD] && s[0] as int * 16 == ValueIn(a, e[0]) * 64 + ValueIn(a, e[1])
            else if |s| == 2 then
              && e[3..] == [PAD] && IsSymbol(a, e[2])
              && (s[0] as int * 256 + s[1] as int) * 4 ==
                 (ValueIn(a, e[0]) * 64 + ValueIn(a, e[1])) * 64 + ValueIn(a, e[2])
            else
              && IsSymbol(a, e[2]) && IsSymbol(a, e[3]) && e[4..] == Encode(a, s[3..])
              && (s[0] as int * 256 + s[1] as int) * 256 + s[2] as int ==
                 ((ValueIn(a, e[0]) * 64 + ValueIn(a, e[1])) * 64 + ValueIn(a, e[2])) * 64 + ValueIn(a, e[3])
  {
    hide Value, Symbol, Encode, ValueIn, IsSymbol;
    if |s| == 1 {
      OneBits(a, s);
    } else if |s| == 2 {
      TwoBits(a, s);
    } else {
      FourSymbols(a, s);
    }
  }

  lemma OneBits(a: Alphabet, s: seq<byte>)
    requires a != Auto && |s| == 1
    ensures var e := Encode(a, s);
            && |e| == 4 && e[2..] == [PAD, PAD] && IsSymbol(a, e[0]) && IsSymbol(a, e[1])
            && s[0] as int * 16 == ValueIn(a, e[0]) * 64 + ValueIn(a, e[1])
  {
    hide Value, Symbol;
    var b0: int := s[0];
    ValueOfSymbol(a, a, b0 / 4);
    ValueOfSymbol(a, a, b0 % 4 * 16);
    ThreeBytes(b0, 0, 0);
  }

  lemma TwoBits(a: Alphabet, s: seq<byte>)
    requires a != Auto && |s| == 2
    ensures var e := Encode(a, s);
            && |e| == 4 && e[3..] == [PAD] && IsSymbol(a, e[0]) && IsSymbol(a, e[1]) && IsSymbol(a, e[2])
            && (s[0] as int * 256 + s[1] as int) * 4 ==
               (ValueIn(a, e[0]) * 64 + ValueIn(a, e[1])) * 64 + ValueIn(a, e[2])
  {
    hide Value, Symbol;
    var b0: int, b1: int := s[0], s[1];
    ValueOfSymbol(a, a, b0 / 4);
    ValueOfSymbol(a, a, b0 % 4 * 16 + b1 / 16);
    ValueOfSymbol(a, a, b1 % 16 * 4);
    ThreeBytes(b0, b1, 0);
  }

  lemma FourSymbols(a: Alphabet, s: seq<byte>)
    requires a != Auto && |s| >= 3
    ensures var e := Encode(a, s);
            && |e| >= 4 && IsSymbol(a, e[0]) && IsSymbol(a, e[1]) && IsSymbol(a, e[2]) && IsSymbol(a, e[3])
            && e[4..] == Encode(a, s[3..])
            && (s[0] as int * 256 + s[1] as int) * 256 + s[2] as int ==
               ((ValueIn(a, e[0]) * 64 + ValueIn(a, e[1])) * 64 + ValueIn(a, e[2])) * 64 + ValueIn(a, e[3])
  {
    hide Value, Symbol;
    var b0: int, b1: int, b2: int := s[0], s[1], s[2];
    ValueOfSymbol(a, a, b0 / 4);
    ValueOfSymbol(a, a, b0 % 4 * 16 + b1 / 16);
    ValueOfSymbol(a, a, b1 % 16 * 4 + b2 / 64);
    ValueOfSymbol(a, a, b2 % 64);
    ThreeBytes(b0, b1, b2);
  }

  lemma ThreeBytes(b0: nat, b1: nat, b2: nat)
    ensures (b0 * 256 + b1) * 256 + b2 ==
            ((b0 / 4 * 64 + (b0 % 4 * 16 + b1 / 16)) * 64 + (b1 % 16 * 4 + b2 / 64)) * 64 + b2 % 64
    ensures (b0 * 256 + b1) * 4 == (b0 / 4 * 64 + (b0 % 4 * 16 + b1 / 16)) * 64 + b1 % 16 * 4
    ensures b0 * 16 == b0 / 4 * 64 + b0 % 4 * 16
  {
  }
}
