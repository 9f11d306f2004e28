/** The GGML formats in the bytes of a file: what stands where, and which numbers mean what. */
module GgmlBytes {
  import opened Common
  import opened GgmlFormat
  import opened GgmlLayout

  /** A 32-bit number, its lowest byte first. */
  function Number(data: seq<byte>, o: nat): nat
    requires o + 4 <= |data|
  {
    data[o] as int + data[o + 1] as int * 256 + data[o + 2] as int * 65536 + data[o + 3] as int * 16777216
  }

  /** The bytes at `o` spell this text. */
  predicate Spells(data: seq<byte>, o: nat, s: string) {
    o + |s| <= |data| && forall i | 0 <= i < |s| :: data[o + i] == s[i] as int
  }

  lemma {:induction false} WordsAre(data: seq<byte>, o: nat, k: nat, i: nat)
    requires i < k && o + 4 * k <= |data|
    ensures Words(data, o, k)[i] == Number(data, o + 4 * i)
    decreases k
  {
    if i > 0 {
      WordsAre(data, o + 4, k - 1, i - 1);
    }
  }

  /** Numbers are read wherever the data is long enough, each from its own four bytes. */
  lemma NumbersRead(data: seq<byte>, o: nat, k: nat, i: nat)
    requires i < k
    ensures ReadWords(data, o, k).Ok? <==> o + 4 * k <= |data|
    ensures ReadWords(data, o, k).Ok? ==> ReadWords(data, o, k).value[i] == Number(data, o + 4 * i)
  {
    hide Number;
    var s := Slice(data, o, o + 4 * k);
    if o + 4 * k <= |data| {
      assert s == data[o..o + 4 * k];
      WordsAre(s, 0, k, i);
      SameNumber(data, o, s, 4 * i);
    }
  }

  lemma SameNumber(data: seq<byte>, o: nat, s: seq<byte>, j: nat)
    requires o + |s| <= |data| && s == data[o..o + |s|] && j + 4 <= |s|
    ensures Number(s, j) == Number(data, o + j)
  {
  }

  // ---------- header ----------

  lemma FirstFour(data: seq<byte>, o: nat, s: string, m: seq<byte>)
    requires |s| == |m| == 4 && forall i | 0 <= i < 4 :: m[i] == s[i] as int
    ensures Slice(data, o, o + 4) == m <==> Spells(data, o, s)
  {
    if o + 4 <= |data| {
      var d := data[o..o + 4];
      assert d[0] == data[o + 0] && d[1] == data[o + 1] && d[2] == data[o + 2] && d[3] == data[o + 3];
      if Spells(data, o, s) {
        assert d == m;
      }
    }
  }

  /**
   * `lmgg` starts a GGML file, `fmgg` a GGMF file of version 1, and `tjgg` a GGJT file of version 1 to 3, with
   * the version behind it; nothing else is accepted, and `GGUF` is told apart.
   */
  lemma HeaderExact(data: seq<byte>, o: nat)
    ensures Spells(data, o, "lmgg") ==> ParseHeader(data, o) == Ok((GGML, 1, o + 4))
    ensures Spells(data, o, "fmgg") ==>
              && (ParseHeader(data, o).Ok? <==> o + 8 <= |data| && Number(data, o + 4) == 1)
              && (ParseHeader(data, o).Ok? ==> ParseHeader(data, o).value == (GGMF, 1, o + 8))
    ensures Spells(data, o, "tjgg") ==>
              && (ParseHeader(data, o).Ok? <==> o + 8 <= |data| && 1 <= Number(data, o + 4) <= 3)
              && (ParseHeader(data, o).Ok? ==> ParseHeader(data, o).value == (GGJT, Number(data, o + 4), o + 8))
    ensures ParseHeader(data, o).Ok? ==>
              Spells(data, o, "lmgg") || Spells(data, o, "fmgg") || Spells(data, o, "tjgg")
    ensures Spells(data, o, "GGUF") ==> ParseHeader(data, o) == Err(AlreadyGguf)
  {
    hide Slice, ReadWords, Spells, Number;
    FirstFour(data, o, "lmgg", Magic(GGML));
    FirstFour(data, o, "fmgg", Magic(GGMF));
    FirstFour(data, o, "tjgg", Magic(GGJT));
    FirstFour(data, o, "GGUF", GGUF_MAGIC);
    NumbersRead(data, o + 4, 1, 0);
  }

  // ---------- which files are converted ----------

  /** The types a header may name, and among them those whose quantizations have not changed since. */
  lemma ConvertedTypes(data: seq<byte>, o: nat, steps: nat)
    requires ParseModel(data, o, steps).Ok?
    ensures var m := ParseModel(data, o, steps).value.0;
            && |m.hyper| == 7 && (m.hyper[6] <= 4 || 7 <= m.hyper[6] <= 18)
            && (m.format != GGJT || m.version == 1 ==> m.hyper[6] <= 1)
            && (m.version == 2 ==> m.hyper[6] !in {2, 3, 4, 7})
  {
    hide ParseHyper, ParseItems, ParseTensors, FeedForward;
  }

  /** The type is the last of seven numbers. */
  lemma HyperExact(data: seq<byte>, o: nat)
    ensures ParseHyper(data, o).Ok? <==>
            o + 28 <= |data| && (Number(data, o + 24) <= 4 || 7 <= Number(data, o + 24) <= 18)
    ensures ParseHyper(data, o).Ok? ==> ParseHyper(data, o).value[6] == Number(data, o + 24)
  {
    hide ReadWords, Number;
    NumbersRead(data, o, 7, 6);
  }

  lemma {:induction false} ItemErrors(data: seq<byte>, o: nat, n: nat, scores: bool)
    ensures var r := ParseItems(data, o, n, scores); r.Err? ==> r.error in {ShortRead, AbsurdItemLength}
    decreases n
  {
    hide Slice, Words;
    if n > 0 {
      var r := ParseItem(data, o, scores);
      if r.Ok? {
        ItemErrors(data, r.value.1, n - 1, scores);
      }
    }
  }

  lemma {:induction false} RecordErrors(data: seq<byte>, o: int, padding: bool, steps: nat)
    ensures var r := ParseTensors(data, o, padding, steps);
            r.Err? ==> r.error in {ShortRead, InvalidDimensions, AbsurdNameLength, UnknownTensorType, Unfinished}
    decreases steps
  {
    hide Slice, Words, QuantSizes, TensorBytes, Aligned, Wrap64;
    if o < |data| && steps > 0 {
      var r := ParseTensor(data, o, padding);
      if r.Ok? {
        RecordErrors(data, r.value.1, padding, steps - 1);
      }
    }
  }

  /** Exactly the other combinations are refused as not convertible. */
  lemma RefusedTypes(data: seq<byte>, o: nat, steps: nat)
    requires ParseHeader(data, o).Ok? && ParseHyper(data, ParseHeader(data, o).value.2).Ok?
    ensures var (format, version, o1) := ParseHeader(data, o).value;
            var ftype := ParseHyper(data, o1).value[6];
            ParseModel(data, o, steps) == Err(NotConvertible) <==>
            (|| ((format != GGJT || version == 1) && ftype > 1)
             || (format == GGJT && version == 2 && ftype in {2, 3, 4, 7}))
  {
    hide ParseHyper, ParseItems, ParseTensors, TensorMap, ReadWords, Slice;
    HeaderVersion(data, o);
    var (format, version, o1) := ParseHeader(data, o).value;
    var hyper := ParseHyper(data, o1).value;
    ItemErrors(data, o1 + 28, hyper[0], format != GGML);
    var items := ParseItems(data, o1 + 28, hyper[0], format != GGML);
    if items.Ok? {
      RecordErrors(data, items.value.1, format == GGJT, steps);
    }
  }

  lemma HeaderVersion(data: seq<byte>, o: nat)
    requires ParseHeader(data, o).Ok?
    ensures ParseHeader(data, o).value.1 >= 1
  {
  }

  // ---------- vocabulary and tensors ----------

  /** A token is its length, its text and, from GGMF on, four bytes of score. */
  lemma ItemPlaces(data: seq<byte>, o: nat, scores: bool)
    requires o + 4 <= |data| && o + 4 + Number(data, o) + (if scores then 4 else 0) <= |data|
    ensures var n := Number(data, o);
            ParseItem(data, o, scores) ==
            if n >= 4096 then Err(AbsurdItemLength)
            else if scores then Ok((Item(data[o + 4..o + 4 + n], data[o + 4 + n..o + 8 + n]), o + 8 + n))
            else Ok((Item(data[o + 4..o + 4 + n], [0, 0, 0, 0]), o + 4 + n))
  {
    hide ReadWords, Number;
    NumbersRead(data, o, 1, 0);
  }

  /** A record is three numbers, the dimensions, the name, and the tensor on the next 32-byte boundary if padded. */
  lemma RecordPlaces(data: seq<byte>, o: nat, padding: bool, i: nat)
    requires ParseTensor(data, o, padding).Ok?
    ensures var info := ParseTensor(data, o, padding).value.0;
            && o + 12 + 4 * |info.dims| <= |data| && |info.dims| == Number(data, o)
            && info.dtype == Number(data, o + 8) && (i < |info.dims| ==> info.dims[i] == Number(data, o + 12 + 4 * i))
            && var nameAt, nameLen := o + 12 + 4 * |info.dims|, Number(data, o + 4);
            && (nameAt + nameLen <= |data| ==> info.name == data[nameAt..nameAt + nameLen])
            && (if padding then info.start % 32 == 0 && nameAt + nameLen <= info.start < nameAt + nameLen + 32
                else info.start == nameAt + nameLen)
  {
    hide ReadWords, Number, QuantSizes, TensorBytes, Wrap64, Slice;
    NumbersRead(data, o, 3, 0);
    NumbersRead(data, o, 3, 1);
    NumbersRead(data, o, 3, 2);
    var info := ParseTensor(data, o, padding).value.0;
    NoNumbers(data, o + 12);
    if |info.dims| > 0 {
      NumbersRead(data, o + 12, |info.dims|, if i < |info.dims| then i else 0);
    }
    var nameAt, nameLen := o + 12 + 4 * |info.dims|, Number(data, o + 4);
    NameSlice(data, nameAt, nameLen);
  }

  /** A record is accepted with at most four dimensions, a name below 4096 bytes and a known type. */
  lemma RecordAccepted(data: seq<byte>, o: nat, padding: bool)
    ensures ParseTensor(data, o, padding).Ok? <==>
            && o + 12 <= |data| && Number(data, o) <= 4 && Number(data, o + 4) < 4096
            && QuantSizes(Number(data, o + 8)).Some? && o + 12 + 4 * Number(data, o) <= |data|
  {
    hide ReadWords, Number, QuantSizes, TensorBytes, Wrap64, Slice;
    NumbersRead(data, o, 3, 0);
    NumbersRead(data, o, 3, 1);
    NumbersRead(data, o, 3, 2);
    NoNumbers(data, o + 12);
    if o + 12 <= |data| && Number(data, o) > 0 {
      NumbersRead(data, o + 12, Number(data, o), 0);
    }
  }

  lemma NoNumbers(data: seq<byte>, o: nat)
    ensures ReadWords(data, o, 0) == Ok([])
  {
  }

  lemma NameSlice(data: seq<byte>, at: nat, n: nat)
    ensures at + n <= |data| ==> Slice(data, at, at + n) == data[at..at + n]
  {
  }

  /** Scores come with GGMF and GGJT files, padding with GGJT files. */
  lemma FormatOptions(data: seq<byte>, o: nat, steps: nat) returns (o1: nat, o2: nat)
    requires ParseParts(data, o, steps).Ok?
    ensures var (p, _) := ParseParts(data, o, steps).value;
            && |p.hyper| == 7 && o1 == o + (if p.format == GGML then 32 else 36)
            && ParseItems(data, o1, p.hyper[0], p.format in {GGMF, GGJT}) == Ok((p.items, o2))
    ensures var (p, end) := ParseParts(data, o, steps).value;
            ParseTensors(data, o2, p.format !in {GGML, GGMF}, steps) == Ok((p.tensors, end))
  {
    hide ParseHyper, ParseItems, ParseTensors, Convertible, Slice, ReadWords, Magic;
    var (p, end) := ParseParts(data, o, steps).value;
    var start := ParseHeader(data, o).value.2;
    o1 := start + 28;
    o2 := ParseItems(data, o1, p.hyper[0], p.format != GGML).value.1;
  }

  /** Numbers stored one by one take their own size. */
  lemma PlainSizes()
    ensures QuantSizes(0) == Some((1, 4)) && QuantSizes(1) == Some((1, 2)) && QuantSizes(30) == Some((1, 2))
    ensures QuantSizes(24) == Some((1, 1)) && QuantSizes(25) == Some((1, 2)) && QuantSizes(26) == Some((1, 4))
    ensures QuantSizes(27) == Some((1, 8)) && QuantSizes(28) == Some((1, 8))
  {
  }

  /** Blocks of 32 or 64: a scale, perhaps an offset and high bits, and the packed values. */
  lemma SmallBlocks()
    ensures QuantSizes(2) == Some((32, 2 + 32 / 2)) && QuantSizes(3) == Some((32, 2 + 2 + 32 / 2))
    ensures QuantSizes(6) == Some((32, 2 + 32 / 8 + 32 / 2)) && QuantSizes(7) == Some((32, 2 + 2 + 32 / 8 + 32 / 2))
    ensures QuantSizes(8) == Some((32, 2 + 32)) && QuantSizes(9) == Some((32, 4 + 4 + 32))
    ensures QuantSizes(20) == Some((32, 2 + 32 / 2))
    ensures QuantSizes(39) == Some((32, 1 + 32 / 2)) && QuantSizes(40) == Some((64, 4 + 64 / 2))
  {
  }

  /** Blocks of 256 with scales of their own for parts of the block. */
  lemma LargeBlocks()
    ensures QuantSizes(10) == Some((256, 2 + 2 + 256 / 16 + 256 / 4))
    ensures QuantSizes(11) == Some((256, 2 + 256 / 4 + 256 / 8 + 12))
    ensures QuantSizes(12) == Some((256, 2 + 2 + 256 / 2 + 12))
    ensures QuantSizes(13) == Some((256, 2 + 2 + 256 / 2 + 256 / 8 + 12))
    ensures QuantSizes(14) == Some((256, 2 + 256 / 2 + 256 / 4 + 256 / 16))
    ensures QuantSizes(15) == Some((256, 4 + 256 + 256 / 8))
  {
  }

  /** Blocks of 256 whose values come from a grid, and ternary ones. */
  lemma GridBlocks()
    ensures QuantSizes(16) == Some((256, 2 + 256 / 4)) && QuantSizes(17) == Some((256, 2 + 256 / 4 + 256 / 32))
    ensures QuantSizes(18) == Some((256, 2 + 256 / 4 + 256 / 8))
    ensures QuantSizes(19) == Some((256, 2 + 256 / 8 + 256 / 16))
    ensures QuantSizes(21) == Some((256, 2 + 256 / 4 + 256 / 8 + 256 / 32 + 4))
    ensures QuantSizes(22) == Some((256, 2 + 256 / 4 + 256 / 16))
    ensures QuantSizes(23) == Some((256, 2 + 2 + 256 / 2 + 256 / 64))
    ensures QuantSizes(29) == Some((256, 256 / 8 + 256 / 16 + 256 / 32))
    ensures QuantSizes(34) == Some((256, 2 + 4 * 13)) && QuantSizes(35) == Some((256, 2 + 64))
  {
  }

  /** These are all types there are. */
  lemma KnownTypes(dtype: nat)
    ensures QuantSizes(dtype).Some? <==> dtype <= 3 || 6 <= dtype <= 30 || dtype in {34, 35, 39, 40}
  {
  }

  // ---------- the feed-forward size ----------

  /** It is the second dimension of the last tensor of this name. */
  lemma FeedForwardExact(infos: seq<TensorInfo>, k: nat)
    requires k < |infos| && Spells(infos[k].name, 0, "layers.0.feed_forward.w1.weight") && |infos[k].name| == 31
    requires forall j | k < j < |infos| :: infos[j].name != infos[k].name
    ensures FeedForward(infos) ==
            if |infos[k].dims| < 2 then Err(NoSecondDimension) else Ok(infos[k].dims[1])
  {
    hide TensorMap, Ascii;
    FeedForwardName(infos[k].name);
    TensorMapLast(infos, FF_NAME);
  }

  lemma FeedForwardName(name: seq<byte>)
    requires Spells(name, 0, "layers.0.feed_forward.w1.weight") && |name| == 31
    ensures name == FF_NAME
  {
    var s := "layers.0.feed_forward.w1.weight";
    assert |s| == 31 == |FF_NAME|;
    forall i | 0 <= i < 31
      ensures name[i] == FF_NAME[i]
    {
      assert name[0 + i] == s[i] as int;
    }
  }
}
