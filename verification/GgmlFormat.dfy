/**
 * The legacy GGML file layout: what the loader reads, byte by byte, and the files it is meant for.
 * Little-endian 32-bit words throughout; reading past the end of the file behaves as Python's slices and
 * `struct.unpack` do.
 */
module GgmlFormat {
  import opened Common

  const WORD := 0x1_0000_0000
  const INT64 := 0x1_0000_0000_0000_0000

  datatype Format = GGML | GGMF | GGJT

  /** Why a file is rejected; `Unfinished` stands for a load that has not ended yet. */
  datatype LoadError =
    | AlreadyGguf
    | BadMagic
    | BadVersion(version: nat)
    | ShortRead
    | InvalidFtype(ftype: nat)
    | NotConvertible
    | AbsurdItemLength
    | InvalidDimensions
    | AbsurdNameLength
    | UnknownTensorType
    | MissingFeedForward
    | NoSecondDimension
    | Unfinished

  // ---------- bytes and words ----------

  /** An index as a slice takes it: negative ones count from the end, and all are brought into range. */
  function Clip(i: int, n: nat): (r: nat)
    ensures r <= n
  {
    if i < 0 then (if i + n < 0 then 0 else i + n) else if i > n then n else i
  }

  /** `data[start:stop]`. */
  function Slice(data: seq<byte>, start: int, stop: int): seq<byte> {
    var lo, hi := Clip(start, |data|), Clip(stop, |data|);
    if lo <= hi then data[lo..hi] else []
  }

  function U32(n: nat): seq<byte>
    requires n < WORD
  {
    [n % 256, n / 256 % 256, n / 256 / 256 % 256, n / 256 / 256 / 256]
  }

  function Compose(b0: byte, b1: byte, b2: byte, b3: byte): nat {
    b0 as int + 256 * (b1 as int + 256 * (b2 as int + 256 * (b3 as int)))
  }

  function Word(data: seq<byte>, o: nat): nat
    requires o + 4 <= |data|
  {
    Compose(data[o], data[o + 1], data[o + 2], data[o + 3])
  }

  function Words(data: seq<byte>, o: nat, k: nat): (w: seq<nat>)
    requires k == 0 || o + 4 * k <= |data|
    ensures |w| == k
    decreases k
  {
    if k == 0 then [] else [Word(data, o)] + Words(data, o + 4, k - 1)
  }

  /** `struct.unpack('<kI', data[o:o + 4 * k])`. */
  function ReadWords(data: seq<byte>, o: int, k: nat): (r: Result<seq<nat>, LoadError>)
    ensures r.Ok? ==> |r.value| == k
  {
    var s := Slice(data, o, o + 4 * k);
    if |s| == 4 * k then Ok(Words(s, 0, k)) else Err(ShortRead)
  }

  predicate AreWords(ws: seq<nat>) {
    forall i | 0 <= i < |ws| :: ws[i] < WORD
  }

  function PrintWords(ws: seq<nat>): (s: seq<byte>)
    requires AreWords(ws)
    ensures |s| == 4 * |ws|
  {
    if ws == [] then [] else U32(ws[0]) + PrintWords(ws[1..])
  }

  // ---------- header ----------

  const GGUF_MAGIC: seq<byte> := ['G' as int, 'G' as int, 'U' as int, 'F' as int]

  function Magic(f: Format): (m: seq<byte>)
    ensures |m| == 4 && m != GGUF_MAGIC
  {
    match f
    case GGML => ['l' as int, 'm' as int, 'g' as int, 'g' as int]
    case GGMF => ['f' as int, 'm' as int, 'g' as int, 'g' as int]
    case GGJT => ['t' as int, 'j' as int, 'g' as int, 'g' as int]
  }

  predicate HasVersion(f: Format, version: nat) {
    if f == GGJT then 1 <= version <= 3 else version == 1
  }

  /** Format, version and the offset behind the header. */
  function ParseHeader(data: seq<byte>, o: nat): Result<(Format, nat, nat), LoadError> {
    var magic := Slice(data, o, o + 4);
    if magic == GGUF_MAGIC then Err(AlreadyGguf)
    else if magic == Magic(GGML) then Ok((GGML, 1, o + 4))
    else match ReadWords(data, o + 4, 1)
      case Err(e) => Err(e)
      case Ok(w) =>
        if magic == Magic(GGMF) then if w[0] != 1 then Err(BadVersion(w[0])) else Ok((GGMF, w[0], o + 8))
        else if magic == Magic(GGJT) then
          if w[0] < 1 || w[0] > 3 then Err(BadVersion(w[0])) else Ok((GGJT, w[0], o + 8))
        else Err(BadMagic)
  }

  function PrintHeader(f: Format, version: nat): seq<byte>
    requires HasVersion(f, version)
  {
    if f == GGML then Magic(f) else Magic(f) + U32(version)
  }

  // ---------- hyperparameters ----------

  predicate ValidFtype(ftype: nat) {
    ftype <= 4 || 7 <= ftype <= 18
  }

  /** `n_vocab`, `n_embd`, `n_mult`, `n_head`, `n_layer`, `n_rot`, `ftype`. */
  function ParseHyper(data: seq<byte>, o: nat): (r: Result<seq<nat>, LoadError>)
    ensures r.Ok? ==> |r.value| == 7 && ValidFtype(r.value[6])
  {
    match ReadWords(data, o, 7)
    case Err(e) => Err(e)
    case Ok(w) => if ValidFtype(w[6]) then Ok(w) else Err(InvalidFtype(w[6]))
  }

  /** The files whose quantizations still mean what they did. */
  predicate Convertible(f: Format, version: nat, ftype: nat) {
    if f != GGJT || version < 2 then ftype in {0, 1}
    else if version == 2 then ftype !in {2, 3, 4, 7}
    else true
  }

  // ---------- vocabulary ----------

  /** A token and the four bytes of its score; files without scores leave it at 0.0. */
  datatype Item = Item(text: seq<byte>, score: seq<byte>)

  const ZERO_SCORE: seq<byte> := [0, 0, 0, 0]

  function ParseItem(data: seq<byte>, o: nat, scores: bool): (r: Result<(Item, nat), LoadError>)
    ensures r.Ok? ==> r.value.1 >= o
  {
    match ReadWords(data, o, 1)
    case Err(e) => Err(e)
    case Ok(w) =>
      if w[0] >= 4096 then Err(AbsurdItemLength)
      else
        var text, end := Slice(data, o + 4, o + 4 + w[0]), o + 4 + w[0];
        if !scores then Ok((Item(text, ZERO_SCORE), end))
        else
          var score := Slice(data, end, end + 4);
          if |score| != 4 then Err(ShortRead) else Ok((Item(text, score), end + 4))
  }

  function ParseItems(data: seq<byte>, o: nat, n: nat, scores: bool): (r: Result<(seq<Item>, nat), LoadError>)
    ensures r.Ok? ==> r.value.1 >= o && |r.value.0| == n
    decreases n
  {
    if n == 0 then Ok(([], o))
    else match ParseItem(data, o, scores)
      case Err(e) => Err(e)
      case Ok((item, o')) => Prepend([item], ParseItems(data, o', n - 1, scores))
  }

  function Prepend<T, O>(head: seq<T>, r: Result<(seq<T>, O), LoadError>): Result<(seq<T>, O), LoadError> {
    match r
    case Err(e) => Err(e)
    case Ok((tail, end)) => Ok((head + tail, end))
  }

  predicate GoodItem(item: Item, scores: bool) {
    |item.text| < 4096 && |item.score| == 4 && (scores || item.score == ZERO_SCORE)
  }

  predicate GoodItems(items: seq<Item>, scores: bool) {
    forall i | 0 <= i < |items| :: GoodItem(items[i], scores)
  }

  function PrintItem(item: Item, scores: bool): seq<byte>
    requires GoodItem(item, scores)
  {
    U32(|item.text|) + item.text + if scores then item.score else []
  }

  function PrintItems(items: seq<Item>, scores: bool): seq<byte>
    requires GoodItems(items, scores)
  {
    if items == [] then [] else PrintItem(items[0], scores) + PrintItems(items[1..], scores)
  }

  // ---------- tensors ----------

  /** Block size and bytes per block, by tensor type. */
  function QuantSizes(dtype: nat): (r: Option<(nat, nat)>)
    ensures r.Some? ==> r.value.0 > 0 && r.value.1 > 0
  {
    match dtype
    case 0 => Some((1, 4)) case 1 => Some((1, 2)) case 2 => Some((32, 18)) case 3 => Some((32, 20))
    case 6 => Some((32, 22)) case 7 => Some((32, 24)) case 8 => Some((32, 34)) case 9 => Some((32, 40))
    case 10 => Some((256, 84)) case 11 => Some((256, 110)) case 12 => Some((256, 144)) case 13 => Some((256, 176))
    case 14 => Some((256, 210)) case 15 => Some((256, 292)) case 16 => Some((256, 66)) case 17 => Some((256, 74))
    case 18 => Some((256, 98)) case 19 => Some((256, 50)) case 20 => Some((32, 18)) case 21 => Some((256, 110))
    case 22 => Some((256, 82)) case 23 => Some((256, 136)) case 24 => Some((1, 1)) case 25 => Some((1, 2))
    case 26 => Some((1, 4)) case 27 => Some((1, 8)) case 28 => Some((1, 8)) case 29 => Some((256, 56))
    case 30 => Some((1, 2)) case 34 => Some((256, 54)) case 35 => Some((256, 66)) case 39 => Some((32, 17))
    case 40 => Some((64, 36))
    case _ => None
  }

  /** The value a signed 64-bit integer keeps. */
  function Wrap64(x: int): int {
    (x + INT64 / 2) % INT64 - INT64 / 2
  }

  function Elements(dims: seq<nat>): nat {
    if dims == [] then 1 else dims[0] * Elements(dims[1..])
  }

  /** `np.int64(np.int64(n_elems) * np.int64(tysize)) // np.int64(blksize)`. */
  function TensorBytes(dims: seq<nat>, quant: (nat, nat)): int
    requires quant.0 > 0
  {
    Wrap64(Wrap64(Elements(dims)) * quant.1) / quant.0
  }

  lemma WrapExact(x: int)
    ensures Wrap64(x) == x <==> -INT64 / 2 <= x < INT64 / 2
  {
  }

  lemma FactorBound(a: nat, b: nat, limit: nat)
    requires b > 0 && a * b < limit
    ensures a < limit
  {
    assert a <= a * b;
  }

  /** Wrapping is invisible as long as the size before division into blocks fits. */
  lemma TensorBytesExact(dims: seq<nat>, quant: (nat, nat))
    requires quant.0 > 0 && quant.1 > 0 && Elements(dims) * quant.1 < INT64 / 2
    ensures TensorBytes(dims, quant) == Elements(dims) * quant.1 / quant.0
  {
    var n := Elements(dims);
    FactorBound(n, quant.1, INT64 / 2);
    WrapExact(n);
    WrapExact(n * quant.1);
  }

  /** Where tensor data starts once everything before it ends at `o`. */
  function Aligned(o: int, padding: bool): (r: int)
    ensures o <= r && (padding ==> r % 32 == 0 && r < o + 32)
  {
    if padding then (o + 31) / 32 * 32 else o
  }

  /** The fields of a loaded tensor. */
  datatype TensorInfo = TensorInfo(name: seq<byte>, dims: seq<nat>, dtype: nat, start: int, len: int)

  /** The checks on the first three words of a record, and the block sizes of its type. */
  function CheckHead(w: seq<nat>): (r: Result<(nat, nat), LoadError>)
    requires |w| == 3
    ensures r.Ok? <==> w[0] <= 4 && w[1] < 4096 && QuantSizes(w[2]).Some?
    ensures r.Ok? ==> r.value == QuantSizes(w[2]).value && r.value.0 > 0
  {
    hide QuantSizes;
    if w[0] > 4 then Err(InvalidDimensions)
    else if w[1] >= 4096 then Err(AbsurdNameLength)
    else match QuantSizes(w[2])
      case None => Err(UnknownTensorType)
      case Some(quant) => Ok(quant)
  }

  /**
   * One record: its fields and the offset behind it. The size is a 64-bit integer that may come out negative,
   * and the offset is one too; a negative offset then reads from the end of the data.
   */
  function ParseTensor(data: seq<byte>, o: int, padding: bool): (r: Result<(TensorInfo, int), LoadError>)
    ensures r.Ok? ==> o + 12 <= r.value.0.start && r.value.1 == Wrap64(r.value.0.start + r.value.0.len)
  {
    hide ReadWords, CheckHead, ParseTensorBody, Wrap64;
    match ReadWords(data, o, 3)
    case Err(e) => Err(e)
    case Ok(w) =>
      match CheckHead(w)
      case Err(e) => Err(e)
      case Ok(quant) => ParseTensorBody(data, o + 12, padding, w[0], w[1], w[2], quant)
  }

  function ParseTensorBody(
      data: seq<byte>, o: int, padding: bool, nDims: nat, nameLen: nat, dtype: nat, quant: (nat, nat))
    : (r: Result<(TensorInfo, int), LoadError>)
    requires quant.0 > 0
    ensures r.Ok? ==> o <= r.value.0.start && r.value.1 == Wrap64(r.value.0.start + r.value.0.len)
  {
    hide ReadWords, Slice, TensorBytes, Aligned, Wrap64;
    match ReadWords(data, o, nDims)
    case Err(e) => Err(e)
    case Ok(dims) =>
      var nameAt := o + 4 * nDims;
      var name, start := Slice(data, nameAt, nameAt + nameLen), Aligned(nameAt + nameLen, padding);
      var len := TensorBytes(dims, quant);
      Ok((TensorInfo(name, dims, dtype, start, len), Wrap64(start + len)))
  }

  /** The loop over the rest of the file, for at most `steps` records: nothing makes every file end it. */
  function ParseTensors(data: seq<byte>, o: int, padding: bool, steps: nat)
    : (r: Result<(seq<TensorInfo>, int), LoadError>)
    ensures r.Ok? ==> r.value.1 >= |data|
    decreases steps
  {
    if o >= |data| then Ok(([], o))
    else if steps == 0 then Err(Unfinished)
    else match ParseTensor(data, o, padding)
      case Err(e) => Err(e)
      case Ok((info, next)) => Prepend([info], ParseTensors(data, next, padding, steps - 1))
  }

  /** A tensor as laid out in a file: the bytes up to the next boundary, and its content. */
  datatype Record = Record(name: seq<byte>, dims: seq<nat>, dtype: nat, pad: seq<byte>, content: seq<byte>)

  function NameEnd(rec: Record, o: nat): nat {
    o + 12 + 4 * |rec.dims| + |rec.name|
  }

  predicate Printable(rec: Record) {
    |rec.dims| <= 4 && AreWords(rec.dims) && |rec.name| < 4096 && rec.dtype < WORD
  }

  /** The size of a tensor before division into blocks fits a signed 64-bit integer. */
  predicate SizeFits(dims: seq<nat>, quant: (nat, nat)) {
    Elements(dims) * quant.1 < INT64 / 2
  }

  /** A record whose content has the size its dimensions and type call for. */
  predicate GoodRecord(rec: Record, o: nat, padding: bool) {
    && Printable(rec)
    && QuantSizes(rec.dtype).Some? && SizeFits(rec.dims, QuantSizes(rec.dtype).value)
    && |rec.content| == Elements(rec.dims) * QuantSizes(rec.dtype).value.1 / QuantSizes(rec.dtype).value.0
    && NameEnd(rec, o) + |rec.pad| == Aligned(NameEnd(rec, o), padding)
    && o + RecordSize(rec) < INT64 / 2
  }

  function RecordHead(rec: Record): seq<nat> {
    [|rec.dims|, |rec.name|, rec.dtype]
  }

  function PrintRecord(rec: Record): (s: seq<byte>)
    requires Printable(rec)
    ensures |s| == RecordSize(rec)
  {
    PrintWords(RecordHead(rec)) + PrintWords(rec.dims) + (rec.name + rec.pad + rec.content)
  }

  function InfoOf(rec: Record, o: nat): TensorInfo {
    TensorInfo(rec.name, rec.dims, rec.dtype, NameEnd(rec, o) + |rec.pad|, |rec.content|)
  }

  function RecordSize(rec: Record): nat {
    12 + 4 * |rec.dims| + |rec.name| + |rec.pad| + |rec.content|
  }

  predicate GoodRecords(recs: seq<Record>, o: nat, padding: bool) {
    recs == [] || (GoodRecord(recs[0], o, padding) && GoodRecords(recs[1..], o + RecordSize(recs[0]), padding))
  }

  function PrintRecords(recs: seq<Record>, o: nat, padding: bool): seq<byte>
    requires GoodRecords(recs, o, padding)
  {
    if recs == [] then [] else PrintRecord(recs[0]) + PrintRecords(recs[1..], o + RecordSize(recs[0]), padding)
  }

  function InfosOf(recs: seq<Record>, o: nat): seq<TensorInfo> {
    if recs == [] then [] else [InfoOf(recs[0], o)] + InfosOf(recs[1..], o + RecordSize(recs[0]))
  }

  // ---------- the tensor index ----------

  /** The dictionary after all tensors: a name leads to the last tensor that carries it. */
  function TensorMap(infos: seq<TensorInfo>): map<seq<byte>, nat> {
    if infos == [] then map[] else TensorMap(infos[..|infos| - 1])[infos[|infos| - 1].name := |infos| - 1]
  }

  lemma {:induction false} TensorMapLast(infos: seq<TensorInfo>, name: seq<byte>)
    ensures name in TensorMap(infos) <==> exists i :: 0 <= i < |infos| && infos[i].name == name
    ensures name in TensorMap(infos) ==>
              var k := TensorMap(infos)[name];
              k < |infos| && infos[k].name == name && forall i | k < i < |infos| :: infos[i].name != name
  {
    if infos != [] {
      var init := infos[..|infos| - 1];
      TensorMapLast(init, name);
      if infos[|infos| - 1].name != name && name in TensorMap(infos) {
        assert init[TensorMap(init)[name]] == infos[TensorMap(init)[name]];
      }
      if i :| 0 <= i < |infos| && infos[i].name == name && i < |infos| - 1 {
        assert init[i].name == name;
      }
    }
  }

  function Ascii(s: string): seq<byte> {
    seq(|s|, i requires 0 <= i < |s| => s[i] as int % 256)
  }

  const FF_NAME := Ascii("layers.0.feed_forward.w1.weight")

  /** `set_n_ff`. */
  function FeedForward(infos: seq<TensorInfo>): Result<nat, LoadError> {
    if FF_NAME !in TensorMap(infos) then Err(MissingFeedForward)
    else
      TensorMapLast(infos, FF_NAME);
      var dims := infos[TensorMap(infos)[FF_NAME]].dims;
      if |dims| < 2 then Err(NoSecondDimension) else Ok(dims[1])
  }

  // ---------- the whole file ----------

  datatype Model = Model(
    format: Format, version: nat, hyper: seq<nat>, nFf: nat, items: seq<Item>, tensors: seq<TensorInfo>)

  /** A model before its feed-forward size is known. */
  datatype Parts = Parts(format: Format, version: nat, hyper: seq<nat>, items: seq<Item>, tensors: seq<TensorInfo>)

  /** All parts and the final offset, if the loop over the tensors ends within `steps` records. */
  function ParseParts(data: seq<byte>, o: nat, steps: nat): Result<(Parts, int), LoadError> {
    match ParseHeader(data, o)
    case Err(e) => Err(e)
    case Ok((format, version, o1)) =>
      match ParseHyper(data, o1)
      case Err(e) => Err(e)
      case Ok(hyper) =>
        if !Convertible(format, version, hyper[6]) then Err(NotConvertible)
        else match ParseItems(data, o1 + 28, hyper[0], format != GGML)
          case Err(e) => Err(e)
          case Ok((items, o2)) =>
            match ParseTensors(data, o2, format == GGJT, steps)
            case Err(e) => Err(e)
            case Ok((infos, o3)) => Ok((Parts(format, version, hyper, items, infos), o3))
  }

  /** The model and the final offset. */
  function ParseModel(data: seq<byte>, o: nat, steps: nat): Result<(Model, int), LoadError> {
    match ParseParts(data, o, steps)
    case Err(e) => Err(e)
    case Ok((p, end)) =>
      match FeedForward(p.tensors)
      case Err(e) => Err(e)
      case Ok(nFf) => Ok((Model(p.format, p.version, p.hyper, nFf, p.items, p.tensors), end))
  }

  /** What a file says, apart from where it says it. */
  datatype File = File(format: Format, version: nat, hyper: seq<nat>, items: seq<Item>, records: seq<Record>)

  function ItemsAt(f: File, o: nat): nat {
    o + (if f.format == GGML then 4 else 8) + 28
  }

  /** Files the format allows and the converter takes, laid out from offset `o`. */
  predicate GoodFile(f: File, o: nat) {
    && HasVersion(f.format, f.version)
    && |f.hyper| == 7 && AreWords(f.hyper) && ValidFtype(f.hyper[6]) && Convertible(f.format, f.version, f.hyper[6])
    && |f.items| == f.hyper[0] && GoodItems(f.items, f.format != GGML)
    && var o2 := ItemsAt(f, o) + |PrintItems(f.items, f.format != GGML)|;
       GoodRecords(f.records, o2, f.format == GGJT) && FeedForward(InfosOf(f.records, o2)).Ok?
  }

  function RecordsAt(f: File, o: nat): nat
    requires GoodFile(f, o)
  {
    ItemsAt(f, o) + |PrintItems(f.items, f.format != GGML)|
  }

  function Image(f: File, o: nat): seq<byte>
    requires GoodFile(f, o)
  {
    PrintHeader(f.format, f.version) + (PrintWords(f.hyper) +
      (PrintItems(f.items, f.format != GGML) + PrintRecords(f.records, RecordsAt(f, o), f.format == GGJT)))
  }

  function ModelOf(f: File, o: nat): Model
    requires GoodFile(f, o)
  {
    var infos := InfosOf(f.records, RecordsAt(f, o));
    Model(f.format, f.version, f.hyper, FeedForward(infos).value, f.items, infos)
  }
}
