/**
 * Files on which the loader's loop does not do what its layout suggests: sizes that wrap to a negative number
 * send the offset backwards, and the last tensor may be cut short.
 */
module GgmlBackwards {
  import opened Common
  import opened GgmlFormat
  import opened GgmlLayout

  const NO_HYPER: seq<nat> := [0, 0, 0, 0, 0, 0, 0]

  /** A GGML file without vocabulary and with one record. */
  function OneRecord(rec: Record): seq<byte>
    requires Printable(rec)
  {
    PrintHeader(GGML, 1) + (PrintWords(NO_HYPER) + PrintRecord(rec))
  }

  lemma OneRecordParts(rec: Record)
    requires Printable(rec)
    ensures |OneRecord(rec)| == 32 + RecordSize(rec)
    ensures var data := OneRecord(rec);
            && At(data, 0, PrintHeader(GGML, 1)) && At(data, 4, PrintWords(NO_HYPER)) && At(data, 32, PrintRecord(rec))
  {
    hide At, PrintRecord, PrintWords;
    var data := OneRecord(rec);
    AtSelf(data, data);
    AtSplit(data, 0, PrintHeader(GGML, 1), PrintWords(NO_HYPER) + PrintRecord(rec));
    AtSplit(data, 4, PrintWords(NO_HYPER), PrintRecord(rec));
  }

  /** Loading such a file is the loop over its records from offset 32. */
  lemma OneRecordModel(data: seq<byte>, steps: nat)
    requires At(data, 0, PrintHeader(GGML, 1)) && At(data, 4, PrintWords(NO_HYPER))
    ensures ParseModel(data, 0, steps) ==
            match ParseTensors(data, 32, false, steps)
            case Err(e) => Err(e)
            case Ok((infos, end)) =>
              match FeedForward(infos)
              case Err(e) => Err(e)
              case Ok(nFf) => Ok((Model(GGML, 1, NO_HYPER, nFf, [], infos), end))
  {
    hide At, PrintWords, ParseHeader, ParseHyper, ParseTensors, FeedForward;
    HeaderAt(data, 0, GGML, 1);
    HyperAt(data, 4, NO_HYPER);
  }

  // ---------- sizes that wrap ----------

  /** 4294967295 * 641 * 6700417 is one less than a power of two: the fourth dimension comes out negated. */
  function BackDims(d: nat): seq<nat> {
    [4294967295, 641, 6700417, d]
  }

  lemma BackElements(d: nat)
    ensures Elements(BackDims(d)) == (INT64 - 1) * d
  {
    assert BackDims(d)[1..] == [641, 6700417, d] && [641, 6700417, d][1..] == [6700417, d];
    assert [6700417, d][1..] == [d] && [d][1..] == [];
    assert Elements([d]) == d && Elements([6700417, d]) == 6700417 * d && Elements([641, 6700417, d]) == 4294967297 * d;
  }

  lemma BackWrap(d: nat)
    requires d < WORD
    ensures Wrap64((INT64 - 1) * d) == -(d as int)
  {
    DivModOf(d, INT64, INT64 / 2 - d);
    assert (INT64 - 1) * d + INT64 / 2 == d * INT64 + (INT64 / 2 - d);
  }

  lemma BackBytes(d: nat)
    requires d < WORD
    ensures TensorBytes(BackDims(d), (1, 1)) == -(d as int)
  {
    hide Elements, Wrap64;
    BackElements(d);
    BackWrap(d);
    WrapExact(-(d as int));
  }

  /** A record of single bytes with those dimensions steps back by its fourth one. */
  lemma BackStep(data: seq<byte>, o: nat, rec: Record, d: nat)
    requires Printable(rec) && At(data, o, PrintRecord(rec)) && o + 5000 < INT64 / 4
    requires rec.dims == BackDims(d) && rec.dtype == 24
    ensures var start := o + 28 + |rec.name|;
            ParseTensor(data, o, false) == Ok((TensorInfo(rec.name, rec.dims, 24, start, -(d as int)), start - d))
  {
    hide ParseTensor, TensorBytes, PrintRecord, ReadWords, Slice, At, Wrap64, BackDims;
    assert |BackDims(d)| == 4 by {
      DimsLength(d);
    }
    assert rec.dims[3] == d by {
      DimsLength(d);
    }
    RecordReads(data, o, rec);
    TensorOfReads(data, o, rec, false);
    BackBytes(d);
    WrapExact(o + 28 + |rec.name| - d);
  }

  lemma DimsLength(d: nat)
    ensures |BackDims(d)| == 4 && BackDims(d)[3] == d
  {
  }

  // ---------- a load that never ends ----------

  /** 28 bytes of record that step back by 28. */
  const ENDLESS := Record([], BackDims(28), 24, [], [])

  lemma EndlessPrintable()
    ensures Printable(ENDLESS) && RecordSize(ENDLESS) == 28
  {
  }

  lemma {:induction false} EndlessLoop(data: seq<byte>, steps: nat)
    requires |data| == 60 && At(data, 32, PrintRecord(ENDLESS))
    ensures ParseTensors(data, 32, false, steps) == Err(Unfinished)
    decreases steps
  {
    hide ParseTensor, At, PrintRecord;
    if steps > 0 {
      EndlessPrintable();
      BackStep(data, 32, ENDLESS, 28);
      EndlessLoop(data, steps - 1);
    }
  }

  /** On this file of 60 bytes the load has not ended after any number of records. */
  lemma EndlessLoad(steps: nat)
    ensures Printable(ENDLESS) && |OneRecord(ENDLESS)| == 60
    ensures ParseModel(OneRecord(ENDLESS), 0, steps) == Err(Unfinished)
  {
    hide ParseModel, OneRecord, ParseTensors, At, PrintRecord;
    EndlessPrintable();
    OneRecordParts(ENDLESS);
    OneRecordModel(OneRecord(ENDLESS), steps);
    EndlessLoop(OneRecord(ENDLESS), steps);
  }

  // ---------- a load that reads inside a name ----------

  const INNER := SMALLEST.records[0]

  lemma InnerPrintable()
    ensures GoodRecord(INNER, 60, false) && RecordSize(INNER) == 55
  {
    SmallestSize();
  }

  /** A record whose name is itself a record, and which steps back to the start of that name. */
  function Nested(): Record
    requires Printable(INNER)
  {
    Record(PrintRecord(INNER), BackDims(55), 24, [], [])
  }

  lemma NestedPrintable()
    ensures Printable(INNER) && Printable(Nested()) && RecordSize(Nested()) == 83 && |Nested().name| == 55
  {
    hide PrintRecord;
    InnerPrintable();
  }

  lemma NestedLoop(data: seq<byte>, steps: nat)
    requires Printable(INNER) && Printable(Nested()) && |data| == 115 && steps >= 2
    requires At(data, 32, PrintRecord(Nested()))
    ensures ParseTensors(data, 32, false, steps) ==
            Ok(([TensorInfo(Nested().name, BackDims(55), 24, 115, -55), InfoOf(INNER, 60)], 115))
  {
    hide ParseTensor, At, PrintRecord;
    NestedPrintable();
    InnerPrintable();
    RecordParts(data, 32, Nested());
    BackStep(data, 32, Nested(), 55);
    RecordAt(data, 60, INNER, false);
    LoopNothing(data, 115, false, steps - 2);
    var first, second := TensorInfo(Nested().name, BackDims(55), 24, 115, -55), InfoOf(INNER, 60);
    assert ParseTensors(data, 60, false, steps - 1) == Ok(([second], 115)) by {
      assert [second] + [] == [second];
    }
    assert [first] + [second] == [first, second];
  }

  lemma NestedFeedForward(a: TensorInfo, b: TensorInfo)
    requires b.name == FF_NAME && b.dims == [1, 1]
    ensures FeedForward([a, b]) == Ok(1)
  {
    TensorMapLast([a, b], FF_NAME);
    assert [a, b][1].name == FF_NAME;
    var k := TensorMap([a, b])[FF_NAME];
    assert k == 1;
  }

  /**
   * This file of 115 bytes is loaded, with the final offset at its end, though no well-formed file looks like
   * it: the second tensor lies inside the first one's name.
   */
  lemma NestedLoad(steps: nat)
    requires steps >= 2
    ensures Printable(INNER) && Printable(Nested()) && |OneRecord(Nested())| == 115
    ensures var data := OneRecord(Nested());
            var r := ParseModel(data, 0, steps);
            && r.Ok? && r.value.1 == |data| && |r.value.0.tensors| == 2
            && r.value.0.tensors[1].start < r.value.0.tensors[0].start
            && !(exists f :: Holds(data, 0, f))
  {
    NestedPrintable();
    var data := OneRecord(Nested());
    NestedValue(data, steps);
    NestedUnsound(data);
  }

  lemma NestedValue(data: seq<byte>, steps: nat)
    requires Printable(INNER) && Printable(Nested()) && data == OneRecord(Nested()) && steps >= 2
    ensures |data| == 115
    ensures var r := ParseModel(data, 0, steps);
            && r.Ok? && r.value.1 == 115
            && r.value.0.tensors == [TensorInfo(Nested().name, BackDims(55), 24, 115, -55), InfoOf(INNER, 60)]
            && InfoOf(INNER, 60).start == 111
  {
    hide ParseModel, OneRecord, ParseTensors, At, PrintRecord, FeedForward;
    NestedPrintable();
    SmallestSize();
    OneRecordParts(Nested());
    OneRecordModel(data, steps);
    NestedLoop(data, steps);
    NestedFeedForward(TensorInfo(Nested().name, BackDims(55), 24, 115, -55), InfoOf(INNER, 60));
  }

  lemma NestedUnsound(data: seq<byte>)
    requires Printable(INNER) && Printable(Nested()) && data == OneRecord(Nested())
    ensures !(exists f :: Holds(data, 0, f))
  {
    hide ParseModel, OneRecord, Holds;
    NestedPrintable();
    NestedValue(data, 115);
    LoadExact(data, 0, 115);
    assert !Sound(ParseModel(data, 0, 115).value.0.tensors[0]) by {
      BackElements(55);
    }
  }

  // ---------- a load that ends past the data ----------

  /** The smallest file without its last byte. */
  const SHORT := Record(FF_NAME, [1, 1], 0, [], [0, 0, 0])

  /** A last tensor cut short is accepted all the same; the final offset gives it away. */
  lemma ShortLoad(steps: nat)
    requires steps >= 1
    ensures Printable(SHORT)
    ensures var data := OneRecord(SHORT);
            var r := ParseModel(data, 0, steps);
            r.Ok? && r.value.1 == |data| + 1
  {
    hide ParseModel, OneRecord, ParseTensor, At, PrintRecord, ReadWords, Slice, FeedForward, TensorBytes, Wrap64;
    SmallestSize();
    assert Printable(SHORT);
    var data := OneRecord(SHORT);
    OneRecordParts(SHORT);
    OneRecordModel(data, steps);
    RecordReads(data, 32, SHORT);
    TensorOfReads(data, 32, SHORT, false);
    TensorBytesExact([1, 1], (1, 4));
    WrapExact(87);
    var info := TensorInfo(FF_NAME, [1, 1], 0, 83, 4);
    LoopNothing(data, 87, false, steps - 1);
    assert [info] + [] == [info];
    SmallestFeedForward(info);
  }
}
