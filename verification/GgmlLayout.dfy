/**
 * The loader inverts the layout: a file is accepted with its final offset at the end exactly when it is the
 * image of a well-formed file, and then every header field, token, tensor record and content comes back.
 */
module GgmlLayout {
  import opened Common
  import opened GgmlFormat

  // ---------- pieces of a file ----------

  /** The bytes at `o` are `s`. */
  predicate At(data: seq<byte>, o: nat, s: seq<byte>) {
    o + |s| <= |data| && forall i | 0 <= i < |s| :: data[o + i] == s[i]
  }

  lemma AtSplit(data: seq<byte>, o: nat, a: seq<byte>, b: seq<byte>)
    ensures At(data, o, a + b) <==> At(data, o, a) && At(data, o + |a|, b)
  {
    if At(data, o, a + b) {
      assert forall i | 0 <= i < |a| :: a[i] == (a + b)[i];
      assert forall i | 0 <= i < |b| :: b[i] == (a + b)[|a| + i];
    }
  }

  lemma AtSplit3(data: seq<byte>, o: nat, a: seq<byte>, b: seq<byte>, c: seq<byte>)
    ensures At(data, o, a + b + c) <==> At(data, o, a) && At(data, o + |a|, b) && At(data, o + |a| + |b|, c)
  {
    hide At;
    AtSplit(data, o, a + b, c);
    AtSplit(data, o, a, b);
  }

  lemma AtSplit5(data: seq<byte>, o: nat, a: seq<byte>, b: seq<byte>, c: seq<byte>, d: seq<byte>, e: seq<byte>)
    ensures At(data, o, a + b + (c + d + e)) <==>
            && At(data, o, a) && At(data, o + |a|, b) && At(data, o + |a| + |b|, c)
            && At(data, o + |a| + |b| + |c|, d) && At(data, o + |a| + |b| + |c| + |d|, e)
  {
    hide At;
    AtSplit3(data, o, a, b, c + d + e);
    AtSplit3(data, o + |a| + |b|, c, d, e);
  }

  lemma SliceAt(data: seq<byte>, o: nat, k: nat, s: seq<byte>)
    requires k == |s|
    ensures At(data, o, s) ==> Slice(data, o, o + k) == s
    ensures Slice(data, o, o + k) == s && (o + k <= |data| || k > 0) ==> At(data, o, s)
  {
  }

  lemma LowByte(b: byte, high: nat)
    ensures (b as int + 256 * high) % 256 == b && (b as int + 256 * high) / 256 == high
  {
  }

  lemma WordBytes(b0: byte, b1: byte, b2: byte, b3: byte)
    ensures Compose(b0, b1, b2, b3) < WORD && U32(Compose(b0, b1, b2, b3)) == [b0, b1, b2, b3]
  {
    LowByte(b2, b3);
    LowByte(b1, b2 as int + 256 * (b3 as int));
    LowByte(b0, b1 as int + 256 * (b2 as int + 256 * (b3 as int)));
  }

  lemma WordOfU32(n: nat)
    requires n < WORD
    ensures Word(U32(n), 0) == n
  {
  }

  lemma WordAt(data: seq<byte>, o: nat, n: nat)
    requires n < WORD && o + 4 <= |data|
    ensures At(data, o, U32(n)) <==> Word(data, o) == n
  {
    var s := U32(n);
    WordBytes(data[o], data[o + 1], data[o + 2], data[o + 3]);
    WordBytes(s[0], s[1], s[2], s[3]);
    WordOfU32(n);
    if At(data, o, s) {
      assert data[o + 0] == s[0] && data[o + 1] == s[1] && data[o + 2] == s[2] && data[o + 3] == s[3];
    }
  }

  lemma WordBound(data: seq<byte>, o: nat)
    requires o + 4 <= |data|
    ensures Word(data, o) < WORD
  {
    WordBytes(data[o], data[o + 1], data[o + 2], data[o + 3]);
  }

  lemma {:induction false} WordsAt(data: seq<byte>, o: nat, ws: seq<nat>)
    requires AreWords(ws) && o + 4 * |ws| <= |data|
    ensures At(data, o, PrintWords(ws)) <==> Words(data, o, |ws|) == ws
    decreases |ws|
  {
    hide At, U32, Word;
    if ws == [] {
      AtNothing(data, o);
    } else {
      AtSplit(data, o, U32(ws[0]), PrintWords(ws[1..]));
      WordAt(data, o, ws[0]);
      WordsAt(data, o + 4, ws[1..]);
      assert ws == [ws[0]] + ws[1..];
    }
  }

  lemma AtNothing(data: seq<byte>, o: nat)
    requires o <= |data|
    ensures At(data, o, [])
  {
  }

  lemma {:induction false} WordsBound(data: seq<byte>, o: nat, k: nat)
    requires o + 4 * k <= |data|
    ensures AreWords(Words(data, o, k))
    decreases k
  {
    if k != 0 {
      WordBound(data, o);
      WordsBound(data, o + 4, k - 1);
    }
  }

  lemma AtSelf(s: seq<byte>, t: seq<byte>)
    requires |s| == |t|
    ensures At(s, 0, t) <==> s == t
  {
    if At(s, 0, t) {
      assert forall i | 0 <= i < |t| :: s[0 + i] == t[i];
    }
  }

  /** Reading words succeeds exactly on their print. */
  lemma ReadWordsAt(data: seq<byte>, o: nat, ws: seq<nat>)
    requires AreWords(ws)
    ensures At(data, o, PrintWords(ws)) ==> ReadWords(data, o, |ws|) == Ok(ws)
  {
    hide At, Slice, PrintWords, Words;
    var s := PrintWords(ws);
    SliceAt(data, o, |s|, s);
    AtSelf(s, s);
    WordsAt(s, 0, ws);
  }

  lemma ReadWordsFrom(data: seq<byte>, o: nat, k: nat)
    requires ReadWords(data, o, k).Ok? && (k > 0 || o <= |data|)
    ensures var ws := ReadWords(data, o, k).value; AreWords(ws) && At(data, o, PrintWords(ws))
  {
    hide At, Slice;
    var s := Slice(data, o, o + 4 * k);
    var ws := Words(s, 0, k);
    WordsBound(s, 0, k);
    WordsAt(s, 0, ws);
    AtSelf(s, PrintWords(ws));
    SliceAt(data, o, 4 * k, s);
    if k == 0 {
      AtNothing(data, o);
    }
  }

  // ---------- header ----------

  lemma HeaderParts(data: seq<byte>, o: nat, f: Format, version: nat)
    requires HasVersion(f, version)
    ensures At(data, o, PrintHeader(f, version)) <==>
            At(data, o, Magic(f)) && (f != GGML ==> At(data, o + 4, PrintWords([version])))
    ensures |PrintHeader(f, version)| == if f == GGML then 4 else 8
  {
    assert PrintWords([version]) == U32(version);
    AtSplit(data, o, Magic(f), U32(version));
  }

  lemma HeaderAt(data: seq<byte>, o: nat, f: Format, version: nat)
    requires HasVersion(f, version) && At(data, o, PrintHeader(f, version))
    ensures ParseHeader(data, o) == Ok((f, version, o + |PrintHeader(f, version)|))
  {
    HeaderParts(data, o, f, version);
    SliceAt(data, o, 4, Magic(f));
    if f != GGML {
      ReadWordsAt(data, o + 4, [version]);
    }
    HeaderValue(data, o, f, version);
  }

  lemma HeaderValue(data: seq<byte>, o: nat, f: Format, version: nat)
    requires HasVersion(f, version) && Slice(data, o, o + 4) == Magic(f)
    requires f != GGML ==> ReadWords(data, o + 4, 1) == Ok([version])
    ensures ParseHeader(data, o) == Ok((f, version, o + if f == GGML then 4 else 8))
  {
    MagicsDiffer();
  }

  lemma MagicsDiffer()
    ensures Magic(GGML)[0] != Magic(GGMF)[0] && Magic(GGML)[0] != Magic(GGJT)[0] && Magic(GGMF)[0] != Magic(GGJT)[0]
  {
  }

  lemma HeaderSlices(data: seq<byte>, o: nat)
    requires ParseHeader(data, o).Ok?
    ensures var (f, version, o1) := ParseHeader(data, o).value;
            && HasVersion(f, version) && Slice(data, o, o + 4) == Magic(f) && o1 == o + (if f == GGML then 4 else 8)
            && (f != GGML ==> ReadWords(data, o + 4, 1) == Ok([version]))
  {
    var w := ReadWords(data, o + 4, 1);
    if w.Ok? {
      assert w.value == [w.value[0]];
    }
  }

  lemma HeaderFrom(data: seq<byte>, o: nat)
    requires ParseHeader(data, o).Ok?
    ensures var (f, version, o1) := ParseHeader(data, o).value;
            HasVersion(f, version) && At(data, o, PrintHeader(f, version)) && o1 == o + |PrintHeader(f, version)|
  {
    var (f, version, o1) := ParseHeader(data, o).value;
    HeaderSlices(data, o);
    SliceAt(data, o, 4, Magic(f));
    if f != GGML {
      ReadWordsFrom(data, o + 4, 1);
    }
    HeaderParts(data, o, f, version);
  }

  // ---------- vocabulary ----------

  /** The score field as it appears in the file. */
  function ScoreField(item: Item, scores: bool): seq<byte> {
    if scores then item.score else []
  }

  lemma ItemParts(data: seq<byte>, o: nat, item: Item, scores: bool)
    requires GoodItem(item, scores)
    ensures At(data, o, PrintItem(item, scores)) <==>
            && At(data, o, PrintWords([|item.text|])) && At(data, o + 4, item.text)
            && At(data, o + 4 + |item.text|, ScoreField(item, scores))
    ensures |PrintItem(item, scores)| == 4 + |item.text| + |ScoreField(item, scores)|
  {
    assert PrintWords([|item.text|]) == U32(|item.text|);
    AtSplit3(data, o, U32(|item.text|), item.text, ScoreField(item, scores));
  }

  /** What reading meets where an item is laid out. */
  lemma ItemReads(data: seq<byte>, o: nat, item: Item, scores: bool)
    requires GoodItem(item, scores) && At(data, o, PrintItem(item, scores))
    ensures ReadWords(data, o, 1) == Ok([|item.text|])
    ensures Slice(data, o + 4, o + 4 + |item.text|) == item.text
    ensures scores ==> Slice(data, o + 4 + |item.text|, o + 4 + |item.text| + 4) == item.score
    ensures |PrintItem(item, scores)| == 4 + |item.text| + |ScoreField(item, scores)|
  {
    var n := |item.text|;
    ItemParts(data, o, item, scores);
    ReadWordsAt(data, o, [n]);
    SliceAt(data, o + 4, n, item.text);
    SliceAt(data, o + 4 + n, |ScoreField(item, scores)|, ScoreField(item, scores));
  }

  lemma ItemAt(data: seq<byte>, o: nat, item: Item, scores: bool)
    requires GoodItem(item, scores) && At(data, o, PrintItem(item, scores))
    ensures ParseItem(data, o, scores) == Ok((item, o + |PrintItem(item, scores)|))
  {
    ItemReads(data, o, item, scores);
    ItemValue(data, o, item, scores);
  }

  lemma ItemValue(data: seq<byte>, o: nat, item: Item, scores: bool)
    requires GoodItem(item, scores) && ReadWords(data, o, 1) == Ok([|item.text|])
    requires Slice(data, o + 4, o + 4 + |item.text|) == item.text
    requires scores ==> Slice(data, o + 4 + |item.text|, o + 4 + |item.text| + 4) == item.score
    ensures ParseItem(data, o, scores) == Ok((item, o + 4 + |item.text| + |ScoreField(item, scores)|))
  {
  }

  /** What a parsed item says about the bytes it came from. */
  lemma ItemSlices(data: seq<byte>, o: nat, scores: bool)
    requires ParseItem(data, o, scores).Ok? && ParseItem(data, o, scores).value.1 <= |data|
    ensures var (item, end) := ParseItem(data, o, scores).value;
            && GoodItem(item, scores) && ReadWords(data, o, 1) == Ok([|item.text|])
            && Slice(data, o + 4, o + 4 + |item.text|) == item.text
            && end == o + 4 + |item.text| + |ScoreField(item, scores)|
            && (scores ==> Slice(data, o + 4 + |item.text|, end) == item.score)
  {
    assert ReadWords(data, o, 1).value == [ReadWords(data, o, 1).value[0]];
  }

  lemma ItemFrom(data: seq<byte>, o: nat, scores: bool)
    requires ParseItem(data, o, scores).Ok? && ParseItem(data, o, scores).value.1 <= |data|
    ensures var (item, end) := ParseItem(data, o, scores).value;
            GoodItem(item, scores) && At(data, o, PrintItem(item, scores)) && end == o + |PrintItem(item, scores)|
  {
    hide At, PrintItem, Words;
    var (item, end) := ParseItem(data, o, scores).value;
    ItemSlices(data, o, scores);
    ReadWordsFrom(data, o, 1);
    SliceAt(data, o + 4, |item.text|, item.text);
    SliceAt(data, o + 4 + |item.text|, |ScoreField(item, scores)|, ScoreField(item, scores));
    ItemParts(data, o, item, scores);
  }

  /** One turn of the loop over the vocabulary. */
  lemma FirstItem(data: seq<byte>, o: nat, scores: bool, item: Item, next: nat, rest: seq<Item>, end: nat)
    requires ParseItem(data, o, scores) == Ok((item, next)) && ParseItems(data, next, |rest|, scores) == Ok((rest, end))
    ensures ParseItems(data, o, 1 + |rest|, scores) == Ok(([item] + rest, end))
  {
    hide ParseItem;
  }

  lemma PrintFirst(item: Item, rest: seq<Item>, scores: bool)
    requires GoodItem(item, scores) && GoodItems(rest, scores)
    ensures GoodItems([item] + rest, scores)
    ensures PrintItems([item] + rest, scores) == PrintItem(item, scores) + PrintItems(rest, scores)
  {
    assert ([item] + rest)[1..] == rest;
  }

  lemma {:induction false} ItemsAtOffset(data: seq<byte>, o: nat, items: seq<Item>, scores: bool)
    requires GoodItems(items, scores) && At(data, o, PrintItems(items, scores))
    ensures ParseItems(data, o, |items|, scores) == Ok((items, o + |PrintItems(items, scores)|))
    decreases |items|
  {
    hide ParseItem, PrintItem, At;
    if items != [] {
      var item, rest := items[0], items[1..];
      assert items == [item] + rest;
      PrintFirst(item, rest, scores);
      AtSplit(data, o, PrintItem(item, scores), PrintItems(rest, scores));
      var next := o + |PrintItem(item, scores)|;
      ItemAt(data, o, item, scores);
      ItemsAtOffset(data, next, rest, scores);
      FirstItem(data, o, scores, item, next, rest, next + |PrintItems(rest, scores)|);
    }
  }

  lemma {:induction false} ItemsFrom(data: seq<byte>, o: nat, n: nat, scores: bool)
    requires o <= |data| && ParseItems(data, o, n, scores).Ok? && ParseItems(data, o, n, scores).value.1 <= |data|
    ensures var (items, end) := ParseItems(data, o, n, scores).value;
            && GoodItems(items, scores) && At(data, o, PrintItems(items, scores))
            && end == o + |PrintItems(items, scores)|
    decreases n
  {
    hide ParseItem, PrintItem, At;
    if n != 0 {
      var (item, next) := ParseItem(data, o, scores).value;
      var (rest, end) := ParseItems(data, next, n - 1, scores).value;
      ItemFrom(data, o, scores);
      ItemsFrom(data, next, n - 1, scores);
      PrintFirst(item, rest, scores);
      AtSplit(data, o, PrintItem(item, scores), PrintItems(rest, scores));
      FirstItem(data, o, scores, item, next, rest, end);
    } else {
      AtNothing(data, o);
    }
  }

  // ---------- tensors ----------

  /** A record is laid out at `o` exactly when its five parts are. */
  lemma RecordParts(data: seq<byte>, o: nat, rec: Record)
    requires Printable(rec)
    ensures At(data, o, PrintRecord(rec)) <==>
            && At(data, o, PrintWords(RecordHead(rec))) && At(data, o + 12, PrintWords(rec.dims))
            && At(data, o + 12 + 4 * |rec.dims|, rec.name) && At(data, NameEnd(rec, o), rec.pad)
            && At(data, NameEnd(rec, o) + |rec.pad|, rec.content)
  {
    AtSplit5(data, o, PrintWords(RecordHead(rec)), PrintWords(rec.dims), rec.name, rec.pad, rec.content);
  }

  /** What reading meets where a record is laid out. */
  lemma RecordReads(data: seq<byte>, o: nat, rec: Record)
    requires Printable(rec) && At(data, o, PrintRecord(rec))
    ensures ReadWords(data, o, 3) == Ok(RecordHead(rec)) && ReadWords(data, o + 12, |rec.dims|) == Ok(rec.dims)
    ensures Slice(data, o + 12 + 4 * |rec.dims|, NameEnd(rec, o)) == rec.name
  {
    hide At, PrintRecord, PrintWords, ReadWords, Slice, U32;
    RecordParts(data, o, rec);
    ReadWordsAt(data, o, RecordHead(rec));
    ReadWordsAt(data, o + 12, rec.dims);
    SliceAt(data, o + 12 + 4 * |rec.dims|, |rec.name|, rec.name);
  }

  /** The tensor read from a record's head and name, whatever its size comes out as. */
  lemma TensorOfReads(data: seq<byte>, o: nat, rec: Record, padding: bool)
    requires |rec.dims| <= 4 && |rec.name| < 4096 && QuantSizes(rec.dtype).Some?
    requires ReadWords(data, o, 3) == Ok(RecordHead(rec)) && ReadWords(data, o + 12, |rec.dims|) == Ok(rec.dims)
    requires Slice(data, o + 12 + 4 * |rec.dims|, NameEnd(rec, o)) == rec.name
    ensures var start, len := Aligned(NameEnd(rec, o), padding), TensorBytes(rec.dims, QuantSizes(rec.dtype).value);
            ParseTensor(data, o, padding) ==
            Ok((TensorInfo(rec.name, rec.dims, rec.dtype, start, len), Wrap64(start + len)))
  {
    hide TensorBytes, QuantSizes, Aligned, ReadWords, Slice, Wrap64;
  }

  lemma RecordAt(data: seq<byte>, o: nat, rec: Record, padding: bool)
    requires GoodRecord(rec, o, padding) && At(data, o, PrintRecord(rec))
    ensures ParseTensor(data, o, padding) == Ok((InfoOf(rec, o), o + RecordSize(rec)))
  {
    hide ParseTensor, TensorBytes, QuantSizes, PrintRecord, ReadWords, Slice, At, Aligned, Wrap64;
    RecordReads(data, o, rec);
    TensorOfReads(data, o, rec, padding);
    TensorBytesExact(rec.dims, QuantSizes(rec.dtype).value);
    WrapExact(o + RecordSize(rec));
  }

  lemma SliceLength(data: seq<byte>, start: nat, stop: nat)
    requires start <= stop
    ensures |Slice(data, start, stop)| <= stop - start
    ensures stop <= |data| ==> |Slice(data, start, stop)| == stop - start
  {
  }

  /** The record of a known type has its exact size, and ends within the 64-bit range. */
  predicate Sound(info: TensorInfo) {
    && QuantSizes(info.dtype).Some? && SizeFits(info.dims, QuantSizes(info.dtype).value)
    && info.start + info.len < INT64 / 2
  }

  lemma QuotientNonNegative(n: nat, m: nat, d: nat)
    ensures d > 0 ==> n * m / d >= 0
  {
  }

  /** The length and the next offset are those of the tensor's size, in 64 bits. */
  lemma SizeRead(data: seq<byte>, o: int, padding: bool)
    requires ParseTensor(data, o, padding).Ok?
    ensures var (info, next) := ParseTensor(data, o, padding).value;
            && QuantSizes(info.dtype).Some? && info.len == TensorBytes(info.dims, QuantSizes(info.dtype).value)
            && next == Wrap64(info.start + info.len)
  {
    hide TensorBytes, QuantSizes, Aligned, ReadWords, Slice, Wrap64;
  }

  lemma SoundSize(data: seq<byte>, o: nat, padding: bool)
    requires ParseTensor(data, o, padding).Ok? && Sound(ParseTensor(data, o, padding).value.0)
    ensures var (info, next) := ParseTensor(data, o, padding).value;
            && info.len == Elements(info.dims) * QuantSizes(info.dtype).value.1 / QuantSizes(info.dtype).value.0
            && info.len >= 0 && next == info.start + info.len
  {
    hide ParseTensor, TensorBytes, QuantSizes, Elements, Wrap64;
    var info := ParseTensor(data, o, padding).value.0;
    SizeRead(data, o, padding);
    var quant := QuantSizes(info.dtype).value;
    TensorBytesExact(info.dims, quant);
    QuotientNonNegative(Elements(info.dims), quant.1, quant.0);
    WrapExact(info.start + info.len);
  }

  /** What a parsed tensor says about the bytes it came from. */
  lemma TensorSlices(data: seq<byte>, o: nat, padding: bool)
    requires ParseTensor(data, o, padding).Ok? && ParseTensor(data, o, padding).value.0.start <= |data|
    ensures var info := ParseTensor(data, o, padding).value.0;
            var nameEnd := InfoNameEnd(info, o);
            && |info.dims| <= 4 && |info.name| < 4096 && QuantSizes(info.dtype).Some?
            && ReadWords(data, o, 3) == Ok([|info.dims|, |info.name|, info.dtype])
            && ReadWords(data, o + 12, |info.dims|) == Ok(info.dims)
            && Slice(data, o + 12 + 4 * |info.dims|, nameEnd) == info.name
            && info.start == Aligned(nameEnd, padding)
  {
    hide TensorBytes, QuantSizes, Aligned, ReadWords, Slice, Wrap64;
    var w := ReadWords(data, o, 3).value;
    var nameAt := o + 12 + 4 * w[0];
    SliceLength(data, nameAt, nameAt + w[1]);
    assert w == [w[0], w[1], w[2]];
  }

  function InfoNameEnd(info: TensorInfo, o: nat): nat {
    o + 12 + 4 * |info.dims| + |info.name|
  }

  /** The record whose tensor was parsed from `o`, when the file does not end inside it. */
  function RecordOf(data: seq<byte>, o: nat, info: TensorInfo): Record
    requires InfoNameEnd(info, o) <= info.start && 0 <= info.len && info.start + info.len <= |data|
  {
    Record(info.name, info.dims, info.dtype, data[InfoNameEnd(info, o)..info.start],
           data[info.start..info.start + info.len])
  }

  /** A sound tensor that ends within the data. */
  predicate Whole(data: seq<byte>, o: nat, padding: bool) {
    && ParseTensor(data, o, padding).Ok? && Sound(ParseTensor(data, o, padding).value.0)
    && ParseTensor(data, o, padding).value.1 <= |data|
  }

  lemma RecordOfGood(data: seq<byte>, o: nat, padding: bool)
    requires Whole(data, o, padding)
    ensures var (info, end) := ParseTensor(data, o, padding).value;
            && InfoNameEnd(info, o) <= info.start && 0 <= info.len && end == info.start + info.len
            && GoodRecord(RecordOf(data, o, info), o, padding)
            && InfoOf(RecordOf(data, o, info), o) == info && end == o + RecordSize(RecordOf(data, o, info))
  {
    hide ParseTensor, TensorBytes, QuantSizes, Aligned, ReadWords, Slice, Wrap64;
    var (info, end) := ParseTensor(data, o, padding).value;
    SoundSize(data, o, padding);
    TensorSlices(data, o, padding);
    ReadWordsFrom(data, o, 3);
    assert ReadWords(data, o, 3).value[2] == info.dtype;
    ReadWordsFrom(data, o + 12, |info.dims|);
  }

  lemma RecordLaidOut(data: seq<byte>, o: nat, rec: Record)
    requires Printable(rec) && o + RecordSize(rec) <= |data|
    requires ReadWords(data, o, 3) == Ok(RecordHead(rec)) && ReadWords(data, o + 12, |rec.dims|) == Ok(rec.dims)
    requires Slice(data, o + 12 + 4 * |rec.dims|, NameEnd(rec, o)) == rec.name
    requires At(data, NameEnd(rec, o), rec.pad) && At(data, NameEnd(rec, o) + |rec.pad|, rec.content)
    ensures At(data, o, PrintRecord(rec))
  {
    hide At, PrintRecord, PrintWords, ReadWords, Slice, U32;
    ReadWordsFrom(data, o, 3);
    ReadWordsFrom(data, o + 12, |rec.dims|);
    SliceAt(data, o + 12 + 4 * |rec.dims|, |rec.name|, rec.name);
    RecordParts(data, o, rec);
  }

  lemma RecordFrom(data: seq<byte>, o: nat, padding: bool)
    requires Whole(data, o, padding)
    ensures var (info, end) := ParseTensor(data, o, padding).value;
            && InfoNameEnd(info, o) <= info.start && 0 <= info.len && end == info.start + info.len
            && Printable(RecordOf(data, o, info)) && At(data, o, PrintRecord(RecordOf(data, o, info)))
  {
    hide ParseTensor, TensorBytes, QuantSizes, PrintRecord, ReadWords, Slice, Wrap64, Sound;
    RecordOfGood(data, o, padding);
    TensorSlices(data, o, padding);
    RecordLaidOut(data, o, RecordOf(data, o, ParseTensor(data, o, padding).value.0));
  }

  /** One turn of the loop over the file. */
  lemma FirstTensor(
      data: seq<byte>, o: nat, padding: bool, steps: nat, info: TensorInfo, next: nat, rest: seq<TensorInfo>)
    requires o < |data| && ParseTensor(data, o, padding) == Ok((info, next))
    requires ParseTensors(data, next, padding, steps) == Ok((rest, |data|))
    ensures ParseTensors(data, o, padding, steps + 1) == Ok(([info] + rest, |data|))
  {
    hide ParseTensor;
  }

  /** One record more in front of a layout. */
  lemma FirstRecord(data: seq<byte>, o: nat, padding: bool, rec: Record, rest: seq<Record>)
    requires GoodRecord(rec, o, padding) && GoodRecords(rest, o + RecordSize(rec), padding)
    ensures GoodRecords([rec] + rest, o, padding)
    ensures PrintRecords([rec] + rest, o, padding) ==
            PrintRecord(rec) + PrintRecords(rest, o + RecordSize(rec), padding)
    ensures InfosOf([rec] + rest, o) == [InfoOf(rec, o)] + InfosOf(rest, o + RecordSize(rec))
  {
    hide GoodRecord, PrintRecord, InfoOf;
    assert ([rec] + rest)[1..] == rest;
  }

  /** Every record takes at least twelve bytes, so the bytes left are steps enough. */
  lemma {:induction false} RecordsAtOffset(data: seq<byte>, o: nat, recs: seq<Record>, padding: bool, steps: nat)
    requires GoodRecords(recs, o, padding) && At(data, o, PrintRecords(recs, o, padding))
    requires o + |PrintRecords(recs, o, padding)| == |data| && steps >= |data| - o
    ensures ParseTensors(data, o, padding, steps) == Ok((InfosOf(recs, o), |data|))
    decreases |recs|
  {
    hide ParseTensor, PrintRecord, At, QuantSizes, SizeFits, Aligned;
    if recs != [] {
      var rec, next := recs[0], o + RecordSize(recs[0]);
      var tail := PrintRecords(recs[1..], next, padding);
      AtSplit(data, o, PrintRecord(rec), tail);
      RecordAt(data, o, rec, padding);
      RecordsAtOffset(data, next, recs[1..], padding, steps - 1);
      FirstTensor(data, o, padding, steps - 1, InfoOf(rec, o), next, InfosOf(recs[1..], next));
    }
  }

  predicate AllSound(infos: seq<TensorInfo>) {
    forall i | 0 <= i < |infos| :: Sound(infos[i])
  }

  lemma AllSoundFirst(info: TensorInfo, rest: seq<TensorInfo>)
    requires AllSound([info] + rest)
    ensures Sound(info) && AllSound(rest)
  {
    hide Sound;
    assert ([info] + rest)[0] == info;
    assert forall i | 0 <= i < |rest| :: rest[i] == ([info] + rest)[i + 1];
  }

  /** The final offset of a loop is that of what follows its first record. */
  lemma LoopStep(data: seq<byte>, o: int, padding: bool, steps: nat)
    requires o < |data| && ParseTensors(data, o, padding, steps).Ok?
    ensures steps > 0 && ParseTensor(data, o, padding).Ok?
    ensures var (info, next) := ParseTensor(data, o, padding).value;
            && ParseTensors(data, next, padding, steps - 1).Ok?
            && ParseTensors(data, o, padding, steps).value ==
               ([info] + ParseTensors(data, next, padding, steps - 1).value.0,
                ParseTensors(data, next, padding, steps - 1).value.1)
  {
    hide ParseTensor;
  }

  /** A loop over sound records ends no earlier than it began. */
  lemma {:induction false} SoundLoopGrows(data: seq<byte>, o: nat, padding: bool, steps: nat)
    requires ParseTensors(data, o, padding, steps).Ok? && AllSound(ParseTensors(data, o, padding, steps).value.0)
    ensures ParseTensors(data, o, padding, steps).value.1 >= o
    decreases steps
  {
    hide ParseTensor, Sound;
    if o < |data| {
      LoopStep(data, o, padding, steps);
      var (info, next) := ParseTensor(data, o, padding).value;
      AllSoundFirst(info, ParseTensors(data, next, padding, steps - 1).value.0);
      SoundSize(data, o, padding);
      SoundLoopGrows(data, next, padding, steps - 1);
    }
  }

  lemma {:induction false} RecordsFrom(data: seq<byte>, o: nat, padding: bool, steps: nat) returns (recs: seq<Record>)
    requires o <= |data| && ParseTensors(data, o, padding, steps).Ok?
    requires ParseTensors(data, o, padding, steps).value.1 == |data|
    requires AllSound(ParseTensors(data, o, padding, steps).value.0)
    ensures GoodRecords(recs, o, padding) && At(data, o, PrintRecords(recs, o, padding))
    ensures o + |PrintRecords(recs, o, padding)| == |data|
    ensures InfosOf(recs, o) == ParseTensors(data, o, padding, steps).value.0
    decreases steps
  {
    hide ParseTensor, PrintRecord, At, Sound, GoodRecord, ParseTensors;
    if o == |data| {
      recs := [];
      AtNothing(data, o);
      LoopNothing(data, o, padding, steps);
    } else {
      LoopStep(data, o, padding, steps);
      var (info, next) := ParseTensor(data, o, padding).value;
      AllSoundFirst(info, ParseTensors(data, next, padding, steps - 1).value.0);
      SoundSize(data, o, padding);
      SoundLoopGrows(data, next, padding, steps - 1);
      var rest := RecordsFrom(data, next, padding, steps - 1);
      RecordOfGood(data, o, padding);
      RecordFrom(data, o, padding);
      var rec := RecordOf(data, o, info);
      FirstRecord(data, o, padding, rec, rest);
      AtSplit(data, o, PrintRecord(rec), PrintRecords(rest, next, padding));
      recs := [rec] + rest;
    }
  }

  lemma LoopNothing(data: seq<byte>, o: int, padding: bool, steps: nat)
    requires o >= |data|
    ensures ParseTensors(data, o, padding, steps) == Ok(([], o))
  {
  }

  // ---------- the whole file ----------

  /** The file `f` is what `data` holds from `o` to its end. */
  ghost predicate Holds(data: seq<byte>, o: nat, f: File) {
    GoodFile(f, o) && At(data, o, Image(f, o)) && o + |Image(f, o)| == |data|
  }

  /** The image's four parts and where they start. */
  lemma ImageParts(data: seq<byte>, o: nat, f: File)
    requires GoodFile(f, o)
    ensures At(data, o, Image(f, o)) <==>
            && At(data, o, PrintHeader(f.format, f.version)) && At(data, ItemsAt(f, o) - 28, PrintWords(f.hyper))
            && At(data, ItemsAt(f, o), PrintItems(f.items, f.format != GGML))
            && At(data, RecordsAt(f, o), PrintRecords(f.records, RecordsAt(f, o), f.format == GGJT))
    ensures o + |Image(f, o)| == RecordsAt(f, o) + |PrintRecords(f.records, RecordsAt(f, o), f.format == GGJT)|
    ensures ItemsAt(f, o) - 28 == o + |PrintHeader(f.format, f.version)|
  {
    hide At, PrintWords, PrintItems, PrintRecords, GoodItems, GoodRecords, FeedForward, InfosOf;
    var header, hyper := PrintHeader(f.format, f.version), PrintWords(f.hyper);
    var items := PrintItems(f.items, f.format != GGML);
    var records := PrintRecords(f.records, RecordsAt(f, o), f.format == GGJT);
    AtSplit(data, o, header, hyper + (items + records));
    AtSplit(data, o + |header|, hyper, items + records);
    AtSplit(data, o + |header| + |hyper|, items, records);
  }

  lemma HyperAt(data: seq<byte>, o: nat, hyper: seq<nat>)
    requires |hyper| == 7 && AreWords(hyper) && ValidFtype(hyper[6]) && At(data, o, PrintWords(hyper))
    ensures ParseHyper(data, o) == Ok(hyper)
  {
    ReadWordsAt(data, o, hyper);
  }

  lemma HyperFrom(data: seq<byte>, o: nat)
    requires ParseHyper(data, o).Ok?
    ensures var hyper := ParseHyper(data, o).value;
            AreWords(hyper) && At(data, o, PrintWords(hyper)) && o + 28 <= |data|
  {
    ReadWordsFrom(data, o, 7);
  }

  /** Loading returns exactly what a well-formed file says, and ends where the file does. */
  lemma LoadsWhatIsLaidOut(data: seq<byte>, o: nat, f: File, steps: nat)
    requires Holds(data, o, f) && steps >= |data|
    ensures ParseModel(data, o, steps) == Ok((ModelOf(f, o), |data|))
  {
    hide ParseHeader, ParseHyper, ParseItems, ParseTensors, FeedForward, At;
    hide PrintItems, PrintRecords, GoodRecords, InfosOf, Image;
    ImageParts(data, o, f);
    HeaderAt(data, o, f.format, f.version);
    HyperAt(data, ItemsAt(f, o) - 28, f.hyper);
    ItemsAtOffset(data, ItemsAt(f, o), f.items, f.format != GGML);
    RecordsAtOffset(data, RecordsAt(f, o), f.records, f.format == GGJT, steps);
  }

  /** A load of sound records that ends where the file does has read a well-formed file. */
  lemma LoadedWasLaidOut(data: seq<byte>, o: nat, steps: nat) returns (f: File)
    requires ParseModel(data, o, steps).Ok? && ParseModel(data, o, steps).value.1 == |data|
    requires AllSound(ParseModel(data, o, steps).value.0.tensors)
    ensures Holds(data, o, f) && ParseModel(data, o, steps).value.0 == ModelOf(f, o)
  {
    hide ParseHeader, ParseHyper, ParseItems, ParseTensors, FeedForward, At, AllSound;
    hide PrintItems, PrintRecords, GoodRecords, InfosOf, Image;
    var (format, version, o1) := ParseHeader(data, o).value;
    var hyper := ParseHyper(data, o1).value;
    var (items, o2) := ParseItems(data, o1 + 28, hyper[0], format != GGML).value;
    HeaderFrom(data, o);
    HyperFrom(data, o1);
    VocabularyFits(data, o2, format == GGJT, steps);
    ItemsFrom(data, o1 + 28, hyper[0], format != GGML);
    var records := RecordsFrom(data, o2, format == GGJT, steps);
    f := File(format, version, hyper, items, records);
    HeaderParts(data, o, format, version);
    ImageParts(data, o, f);
  }

  /** A model without its feed-forward tensor is refused, so the vocabulary of a loaded one ends in the data. */
  lemma VocabularyFits(data: seq<byte>, o2: nat, padding: bool, steps: nat)
    requires ParseTensors(data, o2, padding, steps).Ok?
    requires FeedForward(ParseTensors(data, o2, padding, steps).value.0).Ok?
    ensures o2 < |data|
  {
  }

  /** Infos of good records are sound. */
  lemma {:induction false} GoodIsSound(recs: seq<Record>, o: nat, padding: bool)
    requires GoodRecords(recs, o, padding)
    ensures AllSound(InfosOf(recs, o))
    decreases |recs|
  {
    hide QuantSizes, Aligned;
    if recs != [] {
      GoodIsSound(recs[1..], o + RecordSize(recs[0]), padding);
    }
  }

  /** Loads at the end of the data over sound records are exactly the images of well-formed files. */
  lemma LoadExact(data: seq<byte>, o: nat, steps: nat)
    requires steps >= |data|
    ensures var r := ParseModel(data, o, steps);
            r.Ok? && r.value.1 == |data| && AllSound(r.value.0.tensors) <==> exists f :: Holds(data, o, f)
  {
    hide ParseModel, AllSound, GoodRecords, InfosOf, Image, At, FeedForward;
    var r := ParseModel(data, o, steps);
    if r.Ok? && r.value.1 == |data| && AllSound(r.value.0.tensors) {
      var f := LoadedWasLaidOut(data, o, steps);
    }
    if f :| Holds(data, o, f) {
      LoadsWhatIsLaidOut(data, o, f, steps);
      GoodIsSound(f.records, RecordsAt(f, o), f.format == GGJT);
    }
  }

  // ---------- forwards and backwards ----------

  /** The tensor's computed size is not negative, and it ends within the 64-bit range. */
  predicate Forward(info: TensorInfo) {
    0 <= info.len && info.start + info.len < INT64 / 2
  }

  predicate AllForward(infos: seq<TensorInfo>) {
    forall i | 0 <= i < |infos| :: Forward(infos[i])
  }

  lemma AllForwardFirst(info: TensorInfo, rest: seq<TensorInfo>)
    requires AllForward([info] + rest)
    ensures Forward(info) && AllForward(rest)
  {
    assert ([info] + rest)[0] == info;
    assert forall i | 0 <= i < |rest| :: rest[i] == ([info] + rest)[i + 1];
  }

  /**
   * A record advances the offset exactly when its head, dimensions, name, padding and computed size add up to
   * more than nothing.
   */
  lemma AdvanceExact(data: seq<byte>, o: int, padding: bool)
    requires ParseTensor(data, o, padding).Ok?
    requires var info := ParseTensor(data, o, padding).value.0; -INT64 / 2 <= info.start + info.len < INT64 / 2
    ensures ReadWords(data, o, 3).Ok?
    ensures var (info, next) := ParseTensor(data, o, padding).value;
            var w := ReadWords(data, o, 3).value;
            var nameEnd := o + 12 + 4 * w[0] + w[1];
            var pad := Aligned(nameEnd, padding) - nameEnd;
            next > o <==> 12 + 4 * |info.dims| + w[1] + pad + info.len > 0
  {
    hide TensorBytes, QuantSizes, Aligned, ReadWords, Slice, Wrap64;
    var info := ParseTensor(data, o, padding).value.0;
    WrapExact(info.start + info.len);
  }

  lemma ForwardPlace(data: seq<byte>, o: int, padding: bool)
    requires ParseTensor(data, o, padding).Ok? && Forward(ParseTensor(data, o, padding).value.0)
    requires o >= 0
    ensures var (info, next) := ParseTensor(data, o, padding).value;
            o + 12 <= info.start && next == info.start + info.len && (padding ==> info.start % 32 == 0)
  {
    hide TensorBytes, QuantSizes, Aligned, ReadWords, Slice, Wrap64;
    var info := ParseTensor(data, o, padding).value.0;
    WrapExact(info.start + info.len);
  }

  /** The records the loop meets before it ends, fails or has taken `steps` of them. */
  function Met(data: seq<byte>, o: int, padding: bool, steps: nat): seq<TensorInfo>
    decreases steps
  {
    if o >= |data| || steps == 0 then []
    else match ParseTensor(data, o, padding)
      case Err(_) => []
      case Ok((info, next)) => [info] + Met(data, next, padding, steps - 1)
  }

  /** A loop that ends has met exactly the tensors it returns. */
  lemma {:induction false} MetAll(data: seq<byte>, o: int, padding: bool, steps: nat)
    requires ParseTensors(data, o, padding, steps).Ok?
    ensures Met(data, o, padding, steps) == ParseTensors(data, o, padding, steps).value.0
    decreases steps
  {
    hide ParseTensor;
    if o < |data| {
      LoopStep(data, o, padding, steps);
      MetAll(data, ParseTensor(data, o, padding).value.1, padding, steps - 1);
    }
  }

  /** As long as every record met goes forward, the loop ends, with or without an error. */
  lemma {:induction false} ForwardLoopEnds(data: seq<byte>, o: nat, padding: bool, steps: nat)
    requires steps >= |data| - o && AllForward(Met(data, o, padding, steps))
    ensures ParseTensors(data, o, padding, steps) != Err(Unfinished)
    decreases steps
  {
    hide ParseTensor, Forward;
    if o < |data| {
      NeverUnfinished(data, o, padding);
      if ParseTensor(data, o, padding).Ok? {
        var (info, next) := ParseTensor(data, o, padding).value;
        AllForwardFirst(info, Met(data, next, padding, steps - 1));
        ForwardSteps(data, o, padding);
        ForwardLoopEnds(data, next, padding, steps - 1);
      }
    }
  }

  lemma ForwardSteps(data: seq<byte>, o: nat, padding: bool)
    requires ParseTensor(data, o, padding).Ok? && Forward(ParseTensor(data, o, padding).value.0)
    ensures ParseTensor(data, o, padding).value.1 >= o + 12
  {
    hide ParseTensor;
    ForwardPlace(data, o, padding);
  }

  lemma NeverUnfinished(data: seq<byte>, o: int, padding: bool)
    ensures ParseTensor(data, o, padding) != Err(Unfinished)
  {
    hide TensorBytes, QuantSizes, Aligned, Slice, Wrap64, Words;
  }

  /** Once it has ended, more steps change nothing. */
  lemma {:induction false} MoreSteps(data: seq<byte>, o: int, padding: bool, steps: nat, more: nat)
    requires ParseTensors(data, o, padding, steps) != Err(Unfinished) && more >= steps
    ensures ParseTensors(data, o, padding, more) == ParseTensors(data, o, padding, steps)
    decreases steps
  {
    hide ParseTensor;
    if o < |data| && ParseTensor(data, o, padding).Ok? {
      MoreSteps(data, ParseTensor(data, o, padding).value.1, padding, steps - 1, more - 1);
    }
  }

  // ---------- where the tensors are ----------

  /** Tensor data in file order, each range behind the record before it, and on a boundary if padded. */
  ghost predicate Ordered(infos: seq<TensorInfo>, o: nat, end: int, padding: bool) {
    && (forall i | 0 <= i < |infos| :: o + 12 <= infos[i].start <= infos[i].start + infos[i].len <= end)
    && (forall i, j | 0 <= i < j < |infos| :: infos[i].start + infos[i].len + 12 <= infos[j].start)
    && (forall i | 0 <= i < |infos| && padding :: infos[i].start % 32 == 0)
    && end == if infos == [] then o else infos[|infos| - 1].start + infos[|infos| - 1].len
  }

  lemma OrderedFirst(info: TensorInfo, rest: seq<TensorInfo>, o: nat, next: nat, end: int, padding: bool)
    requires o + 12 <= info.start && next == info.start + info.len <= end && (padding ==> info.start % 32 == 0)
    requires info.len >= 0 && Ordered(rest, next, end, padding)
    ensures Ordered([info] + rest, o, end, padding)
  {
    var all := [info] + rest;
    assert forall i | 0 < i < |all| :: all[i] == rest[i - 1];
  }

  /**
   * Of every accepted file, truncated or not, whose records all go forward: the ranges are in order and
   * disjoint, only the last can reach past the end of the data, and the final offset is its end.
   */
  lemma {:induction false} TensorRanges(data: seq<byte>, o: nat, padding: bool, steps: nat)
    requires ParseTensors(data, o, padding, steps).Ok?
    requires AllForward(ParseTensors(data, o, padding, steps).value.0)
    ensures var (infos, end) := ParseTensors(data, o, padding, steps).value;
            Ordered(infos, o, end, padding) && end >= |data| &&
            (forall i | 0 <= i < |infos| - 1 :: infos[i].start + infos[i].len < |data|)
    decreases steps
  {
    hide ParseTensor;
    if o < |data| {
      LoopStep(data, o, padding, steps);
      var (info, next) := ParseTensor(data, o, padding).value;
      var (rest, end) := ParseTensors(data, next, padding, steps - 1).value;
      var all := [info] + rest;
      AllForwardFirst(info, rest);
      ForwardPlace(data, o, padding);
      TensorRanges(data, next, padding, steps - 1);
      OrderedFirst(info, rest, o, next, end, padding);
      assert forall i | 0 < i < |all| - 1 :: all[i] == rest[i - 1];
      assert ParseTensors(data, o, padding, steps).value == (all, end);
    }
  }

  /** The record `rec` and its content are found where `info` says. */
  ghost predicate Found(data: seq<byte>, info: TensorInfo, rec: Record) {
    && info.name == rec.name && info.dims == rec.dims && info.dtype == rec.dtype
    && 0 <= info.start <= info.start + info.len <= |data|
    && data[info.start..info.start + info.len] == rec.content
  }

  lemma RecordFound(data: seq<byte>, o: nat, rec: Record)
    requires Printable(rec) && At(data, o, PrintRecord(rec))
    ensures Found(data, InfoOf(rec, o), rec)
  {
    hide At, PrintRecord, Printable;
    RecordParts(data, o, rec);
    AtEnds(data, NameEnd(rec, o) + |rec.pad|, rec.content);
  }

  /** Every record is found where its tensor says. */
  lemma {:induction false} ContentsFound(data: seq<byte>, o: nat, recs: seq<Record>, padding: bool, i: nat)
    requires GoodRecords(recs, o, padding) && At(data, o, PrintRecords(recs, o, padding)) && i < |recs|
    ensures |InfosOf(recs, o)| == |recs| && Found(data, InfosOf(recs, o)[i], recs[i])
    decreases |recs|
  {
    hide At, PrintRecord, Found, InfoOf;
    var next := o + RecordSize(recs[0]);
    AtSplit(data, o, PrintRecord(recs[0]), PrintRecords(recs[1..], next, padding));
    InfosLength(recs[1..], next);
    if i == 0 {
      RecordFound(data, o, recs[0]);
    } else {
      ContentsFound(data, next, recs[1..], padding, i - 1);
    }
  }

  lemma AtEnds(data: seq<byte>, o: nat, s: seq<byte>)
    requires At(data, o, s)
    ensures o + |s| <= |data| && data[o..o + |s|] == s
  {
  }

  lemma {:induction false} InfosLength(recs: seq<Record>, o: nat)
    ensures |InfosOf(recs, o)| == |recs|
    decreases |recs|
  {
    if recs != [] {
      InfosLength(recs[1..], o + RecordSize(recs[0]));
    }
  }

  // ---------- an example ----------

  /** The smallest file the converter takes: no vocabulary and the one tensor it insists on. */
  const SMALLEST := File(GGML, 1, [0, 0, 0, 0, 0, 0, 0], [], [Record(FF_NAME, [1, 1], 0, [], [0, 0, 0, 0])])

  lemma SmallestSize()
    ensures SizeFits([1, 1], (1, 4)) && Elements([1, 1]) * 4 / 1 == 4 && |FF_NAME| == 31
  {
    assert [1, 1][1..] == [1] && [1][1..] == [];
    assert Elements([1, 1]) == 1;
  }

  lemma SmallestFeedForward(info: TensorInfo)
    requires info.name == FF_NAME && |info.dims| == 2
    ensures FeedForward([info]).Ok?
  {
    TensorMapLast([info], FF_NAME);
    assert [info][0].name == FF_NAME;
  }

  lemma SmallestIsGood()
    ensures GoodFile(SMALLEST, 0) && Holds(Image(SMALLEST, 0), 0, SMALLEST)
  {
    SmallestSize();
    SmallestFeedForward(InfoOf(SMALLEST.records[0], 32));
    assert InfosOf(SMALLEST.records, 32) == [InfoOf(SMALLEST.records[0], 32)];
    assert GoodRecord(SMALLEST.records[0], 32, false);
    assert SMALLEST.records[1..] == [];
  }
}
