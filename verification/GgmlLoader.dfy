/** The loader's classes, each method proved against the layout it reads. */
module GgmlLoader {
  import opened Common
  import opened GgmlFormat
  import opened GgmlBytes

  lemma PrependTwice<T, O>(head: seq<T>, more: seq<T>, r: Result<(seq<T>, O), LoadError>)
    ensures Prepend(head, Prepend(more, r)) == Prepend(head + more, r)
  {
    if r.Ok? {
      assert head + (more + r.value.0) == (head + more) + r.value.0;
    }
  }

  lemma PrependNothing<T, O>(r: Result<(seq<T>, O), LoadError>)
    ensures Prepend([], r) == r
  {
    if r.Ok? {
      assert [] + r.value.0 == r.value.0;
    }
  }

  lemma TensorMapNothing()
    ensures TensorMap([]) == map[]
  {
  }

  lemma TensorMapSnoc(infos: seq<TensorInfo>, info: TensorInfo)
    ensures TensorMap(infos + [info]) == TensorMap(infos)[info.name := |infos|]
  {
    assert (infos + [info])[..|infos|] == infos;
  }

  /** The offset survives the two 64-bit steps in which it is returned as a difference and added again. */
  lemma WrapDifference(o: int, x: int)
    ensures Wrap64(o + Wrap64(Wrap64(x) - o)) == Wrap64(x)
  {
  }

  class Hyperparameters {
    var nVocab: nat
    var nEmbd: nat
    var nMult: nat
    var nHead: nat
    var nLayer: nat
    var nRot: nat
    var nFf: nat
    var ftype: nat

    constructor ()
      ensures nFf == 0
    {
      nVocab, nEmbd, nMult, nHead, nLayer, nRot, nFf, ftype := 0, 0, 0, 0, 0, 0, 0, 0;
    }

    ghost function Fields(): seq<nat>
      reads this
    {
      [nVocab, nEmbd, nMult, nHead, nLayer, nRot, ftype]
    }

    method Load(data: seq<byte>, offset: nat) returns (r: Result<nat, LoadError>)
      modifies this
      ensures nFf == old(nFf)
      ensures match ParseHyper(data, offset)
              case Err(e) => r == Err(e)
              case Ok(hyper) => r == Ok(28) && Fields() == hyper
      ensures r.Ok? ==>
                && offset + 28 <= |data|
                && nVocab == Number(data, offset) && nEmbd == Number(data, offset + 4)
                && nMult == Number(data, offset + 8) && nHead == Number(data, offset + 12)
                && nLayer == Number(data, offset + 16) && nRot == Number(data, offset + 20)
                && ftype == Number(data, offset + 24)
    {
      hide ReadWords, Slice, Number;
      forall i: nat | i < 7
        ensures ReadWords(data, offset, 7).Ok? <==> offset + 28 <= |data|
        ensures ReadWords(data, offset, 7).Ok? ==>
                  ReadWords(data, offset, 7).value[i] == Number(data, offset + 4 * i)
      {
        NumbersRead(data, offset, 7, i);
      }
      var w :- ReadWords(data, offset, 7);
      nVocab, nEmbd, nMult, nHead, nLayer, nRot := w[0], w[1], w[2], w[3], w[4], w[5];
      if !ValidFtype(w[6]) {
        return Err(InvalidFtype(w[6]));
      }
      ftype := w[6];
      assert w == [w[0], w[1], w[2], w[3], w[4], w[5], w[6]];
      r := Ok(28);
    }
  }

  class Vocab {
    var items: seq<Item>
    const loadScores: bool

    constructor (scores: bool)
      ensures items == [] && loadScores == scores
    {
      items, loadScores := [], scores;
    }

    method Load(data: seq<byte>, start: nat, nVocab: nat) returns (r: Result<nat, LoadError>)
      requires items == []
      modifies this
      ensures match ParseItems(data, start, nVocab, loadScores)
              case Err(e) => r == Err(e)
              case Ok((all, end)) => r == Ok(end - start) && items == all
    {
      hide ReadWords, Slice;
      var offset := start;
      PrependNothing(ParseItems(data, start, nVocab, loadScores));
      for i := 0 to nVocab
        invariant offset >= start
        invariant ParseItems(data, start, nVocab, loadScores) ==
                  Prepend(items, ParseItems(data, offset, nVocab - i, loadScores))
      {
        ghost var rest := ParseItems(data, offset, nVocab - i, loadScores);
        var w :- ReadWords(data, offset, 1);
        var itemLen := w[0];
        if itemLen >= 4096 {
          return Err(AbsurdItemLength);
        }
        var at := offset + 4;
        var text := Slice(data, at, at + itemLen);
        at := at + itemLen;
        var score := ZERO_SCORE;
        if loadScores {
          score := Slice(data, at, at + 4);
          if |score| != 4 {
            return Err(ShortRead);
          }
          at := at + 4;
        }
        assert ParseItem(data, offset, loadScores) == Ok((Item(text, score), at));
        PrependTwice(items, [Item(text, score)], ParseItems(data, at, nVocab - i - 1, loadScores));
        items := items + [Item(text, score)];
        offset := at;
      }
      assert items + [] == items;
      r := Ok(offset - start);
    }
  }

  class Tensor {
    var name: seq<byte>
    var dims: seq<nat>
    var dtype: nat
    var startOffset: int
    var lenBytes: int
    const usePadding: bool

    constructor (padding: bool)
      ensures usePadding == padding
    {
      name, dims, dtype, startOffset, lenBytes, usePadding := [], [], 0, 0, 0, padding;
    }

    ghost function Info(): TensorInfo
      reads this
    {
      TensorInfo(name, dims, dtype, startOffset, lenBytes)
    }

    method Load(data: seq<byte>, start: int) returns (r: Result<int, LoadError>)
      modifies this
      ensures match ParseTensor(data, start, usePadding)
              case Err(e) => r == Err(e)
              case Ok((info, end)) => r == Ok(Wrap64(end - start)) && Info() == info
    {
      hide ReadWords, Slice, QuantSizes, TensorBytes, Aligned, Wrap64;
      var w :- ReadWords(data, start, 3);
      var nDims, nameLen, kind := w[0], w[1], w[2];
      if nDims > 4 {
        return Err(InvalidDimensions);
      }
      if nameLen >= 4096 {
        return Err(AbsurdNameLength);
      }
      var quant := QuantSizes(kind);
      if quant.None? {
        return Err(UnknownTensorType);
      }
      var offset := start + 12;
      dtype := kind;
      dims :- ReadWords(data, offset, nDims);
      offset := offset + 4 * nDims;
      name := Slice(data, offset, offset + nameLen);
      offset := offset + nameLen;
      offset := Aligned(offset, usePadding);
      var nBytes := TensorBytes(dims, quant.value);
      startOffset, lenBytes := offset, nBytes;
      offset := Wrap64(offset + nBytes);
      r := Ok(Wrap64(offset - start));
    }
  }

  /** The tensors carry these records. */
  ghost predicate Carry(tensors: seq<Tensor>, infos: seq<TensorInfo>)
    reads tensors
  {
    |tensors| == |infos| && forall i | 0 <= i < |tensors| :: tensors[i].Info() == infos[i]
  }

  class GgmlModel {
    var fileFormat: Format
    var formatVersion: nat
    var hyperparameters: Hyperparameters?
    var vocab: Vocab?
    var tensors: seq<Tensor>
    var tensorMap: map<seq<byte>, nat>

    constructor ()
    {
      fileFormat, formatVersion := GGML, 0;
      hyperparameters, vocab, tensors, tensorMap := null, null, [], map[];
    }

    /** The object holds what was parsed, with this feed-forward size, its index included. */
    ghost predicate Shows(p: Parts, nFf: nat)
      reads this, hyperparameters, vocab, tensors
    {
      && fileFormat == p.format && formatVersion == p.version
      && hyperparameters != null && hyperparameters.Fields() == p.hyper && hyperparameters.nFf == nFf
      && vocab != null && vocab.items == p.items
      && Carry(tensors, p.tensors) && tensorMap == TensorMap(p.tensors)
    }

    /** What the loader says of the header stays even when the load fails later. */
    ghost predicate ShowsHeader(data: seq<byte>, start: nat)
      reads this
    {
      ParseHeader(data, start).Ok? ==>
        fileFormat == ParseHeader(data, start).value.0 && formatVersion == ParseHeader(data, start).value.1
    }

    method ValidateHeader(data: seq<byte>, offset: nat) returns (r: Result<nat, LoadError>)
      modifies this`fileFormat, this`formatVersion
      ensures match ParseHeader(data, offset)
              case Err(e) => r == Err(e) && unchanged(this)
              case Ok((format, version, end)) =>
                r == Ok(end - offset) && fileFormat == format && formatVersion == version
    {
      var magic := Slice(data, offset, offset + 4);
      if magic == GGUF_MAGIC {
        return Err(AlreadyGguf);
      }
      if magic == Magic(GGML) {
        fileFormat, formatVersion := GGML, 1;
        return Ok(4);
      }
      var w :- ReadWords(data, offset + 4, 1);
      var version := w[0];
      if magic == Magic(GGMF) {
        if version != 1 {
          return Err(BadVersion(version));
        }
        fileFormat, formatVersion := GGMF, version;
        return Ok(8);
      }
      if magic == Magic(GGJT) {
        if version < 1 || version > 3 {
          return Err(BadVersion(version));
        }
        fileFormat, formatVersion := GGJT, version;
        return Ok(8);
      }
      r := Err(BadMagic);
    }

    method ValidateConversion(ftype: nat) returns (r: Result<(), LoadError>)
      ensures r == if Convertible(fileFormat, formatVersion, ftype) then Ok(()) else Err(NotConvertible)
    {
      if fileFormat != GGJT || formatVersion < 2 {
        if ftype != 0 && ftype != 1 {
          return Err(NotConvertible);
        }
      } else if fileFormat == GGJT && formatVersion == 2 {
        if ftype == 2 || ftype == 3 || ftype == 4 || ftype == 7 {
          return Err(NotConvertible);
        }
      }
      r := Ok(());
    }

    /** The data-driven loop over the rest of the file, for at most `steps` records. */
    method LoadTensors(data: seq<byte>, start: nat, steps: nat)
      returns (r: Result<int, LoadError>, loaded: seq<Tensor>, index: map<seq<byte>, nat>)
      ensures fresh(loaded)
      ensures match ParseTensors(data, start, fileFormat == GGJT, steps)
              case Err(e) => r == Err(e)
              case Ok((infos, end)) => r == Ok(end) && Carry(loaded, infos) && index == TensorMap(infos)
    {
      hide ParseTensor, TensorMap, Wrap64;
      var offset: int, padding, left := start, fileFormat == GGJT, steps;
      ghost var infos: seq<TensorInfo> := [];
      loaded, index := [], map[];
      PrependNothing(ParseTensors(data, start, padding, steps));
      TensorMapNothing();
      while offset < |data|
        invariant fresh(loaded) && Carry(loaded, infos) && index == TensorMap(infos)
        invariant ParseTensors(data, start, padding, steps) == Prepend(infos, ParseTensors(data, offset, padding, left))
        decreases left
      {
        if left == 0 {
          r := Err(Unfinished);
          return;
        }
        left := left - 1;
        var tensor := new Tensor(padding);
        var step := tensor.Load(data, offset);
        if step.Err? {
          r := Err(step.error);
          return;
        }
        ghost var (info, next) := ParseTensor(data, offset, padding).value;
        PrependTwice(infos, [info], ParseTensors(data, next, padding, left));
        index := index[tensor.name := |loaded|];
        loaded := loaded + [tensor];
        TensorMapSnoc(infos, info);
        infos := infos + [info];
        WrapDifference(offset, info.start + info.len);
        offset := Wrap64(offset + step.value);
      }
      assert infos + [] == infos;
      r := Ok(offset);
    }

    /** `set_n_ff`, on the model's own hyperparameters. */
    method SetNFf(ghost infos: seq<TensorInfo>) returns (r: Result<(), LoadError>)
      requires hyperparameters != null && Carry(tensors, infos) && tensorMap == TensorMap(infos)
      modifies hyperparameters
      ensures hyperparameters.Fields() == old(hyperparameters.Fields())
      ensures match FeedForward(infos)
              case Err(e) => r == Err(e) && hyperparameters.nFf == old(hyperparameters.nFf)
              case Ok(nFf) => r.Ok? && hyperparameters.nFf == nFf
    {
      if FF_NAME !in tensorMap {
        return Err(MissingFeedForward);
      }
      TensorMapLast(infos, FF_NAME);
      var dims := tensors[tensorMap[FF_NAME]].dims;
      assert dims == infos[tensorMap[FF_NAME]].dims;
      if |dims| < 2 {
        return Err(NoSecondDimension);
      }
      hyperparameters.nFf := dims[1];
      r := Ok(());
    }

    /** Everything up to the assignment of the loaded parts. */
    method LoadParts(data: seq<byte>, start: nat, steps: nat)
      returns (r: Result<int, LoadError>, hp: Hyperparameters, words: Vocab, loaded: seq<Tensor>,
               index: map<seq<byte>, nat>)
      modifies this`fileFormat, this`formatVersion
      ensures ShowsHeader(data, start) && (ParseHeader(data, start).Err? ==> unchanged(this))
      ensures fresh(hp) && fresh(words) && fresh(loaded) && hp.nFf == 0
      ensures match ParseParts(data, start, steps)
              case Err(e) => r == Err(e)
              case Ok((p, end)) =>
                && r == Ok(end) && fileFormat == p.format && formatVersion == p.version
                && hp.Fields() == p.hyper && words.items == p.items
                && Carry(loaded, p.tensors) && index == TensorMap(p.tensors)
    {
      hide ParseHeader, ParseHyper, ParseItems, ParseTensors, TensorMap, Convertible, Carry;
      hp := new Hyperparameters();
      loaded, index := [], map[];
      var header := ValidateHeader(data, start);
      words := new Vocab(fileFormat != GGML);
      if header.Err? {
        return Err(header.error), hp, words, loaded, index;
      }
      var offset := start + header.value;
      var hyper := hp.Load(data, offset);
      if hyper.Err? {
        return Err(hyper.error), hp, words, loaded, index;
      }
      offset := offset + hyper.value;
      var convertible := ValidateConversion(hp.ftype);
      if convertible.Err? {
        return Err(convertible.error), hp, words, loaded, index;
      }
      var vocabSize := words.Load(data, offset, hp.nVocab);
      if vocabSize.Err? {
        return Err(vocabSize.error), hp, words, loaded, index;
      }
      offset := offset + vocabSize.value;
      r, loaded, index := LoadTensors(data, offset, steps);
    }

    /**
     * A load that fails before the parts are complete leaves those of the earlier model in place, except for the
     * format and version, which a valid header sets at once; one that fails on the feed-forward size leaves the
     * new parts, without that size.
     */
    method Load(data: seq<byte>, start: nat, steps: nat) returns (r: Result<int, LoadError>)
      modifies this
      ensures match ParseModel(data, start, steps)
              case Err(e) => r == Err(e)
              case Ok((_, end)) => r == Ok(end)
      ensures match ParseParts(data, start, steps)
              case Ok((p, _)) => Shows(p, if r.Ok? then ParseModel(data, start, steps).value.0.nFf else 0)
              case Err(_) =>
                && hyperparameters == old(hyperparameters) && vocab == old(vocab)
                && tensors == old(tensors) && tensorMap == old(tensorMap)
                && ShowsHeader(data, start) && (ParseHeader(data, start).Err? ==> unchanged(this))
    {
      hide ParseParts, FeedForward, TensorMap, Carry, ParseHeader;
      var end, hp, words, loaded, index := LoadParts(data, start, steps);
      if end.Err? {
        return Err(end.error);
      }
      hyperparameters, vocab, tensors, tensorMap := hp, words, loaded, index;
      var _ :- SetNFf(ParseParts(data, start, steps).value.0.tensors);
      r := end;
    }
  }
}
