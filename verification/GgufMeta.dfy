/** A container's metadata and its tensor directory. */
module GgufMeta {
  import opened Tools
  import opened Options
  import opened Division
  import opened GgufTypes
  import opened Gguf

  // ----- metadata pairs -----

  datatype Pair = Pair(key: Bytes, value: Value)

  function Keys(pairs: seq<Pair>): set<Bytes> {
    set p | p in pairs :: p.key
  }

  function PairFrom(utf8: Bytes -> bool, b: Bytes): (r: Read<Pair>)
    ensures r.Got? ==> |r.rest| <= |b|
  {
    var key :- StringFrom(utf8, b);
    var value :- ValueFrom(utf8, key.rest);
    Got(Pair(key.value, value.value), value.rest)
  }

  /** One pair more; no key may come twice. */
  function PairAfter(utf8: Bytes -> bool, before: seq<Pair>, b: Bytes): (r: Read<seq<Pair>>)
    ensures r.Got? ==> |r.rest| <= |b|
  {
    var pair :- PairFrom(utf8, b);
    if pair.value.key in Keys(before) then Fail(DuplicateKey) else Got(before + [pair.value], pair.rest)
  }

  function NextPair(utf8: Bytes -> bool, pairs: Read<seq<Pair>>): Read<seq<Pair>> {
    if pairs.Fail? then Fail(pairs.error) else PairAfter(utf8, pairs.value, pairs.rest)
  }

  /** The first `n` pairs. */
  function PairsFrom(utf8: Bytes -> bool, b: Bytes, n: nat): (r: Read<seq<Pair>>)
    ensures r.Got? ==> |r.rest| <= |b|
    decreases n
  {
    if n == 0 then Got([], b) else NextPair(utf8, PairsFrom(utf8, b, n - 1))
  }

  predicate PairOk(utf8: Bytes -> bool, p: Pair) {
    StringOk(utf8, p.key) && ValueOk(utf8, p.value)
  }

  predicate PairsOk(utf8: Bytes -> bool, pairs: seq<Pair>) {
    && (forall i | 0 <= i < |pairs| :: PairOk(utf8, pairs[i]))
    && (forall i, j | 0 <= i < j < |pairs| :: pairs[i].key != pairs[j].key)
  }

  function PrintPair(p: Pair): Bytes {
    PrintString(p.key) + PrintValue(p.value)
  }

  function PrintPairs(pairs: seq<Pair>): Bytes {
    if pairs == [] then [] else PrintPairs(pairs[..|pairs| - 1]) + PrintPair(pairs[|pairs| - 1])
  }

  lemma PairCut(utf8: Bytes -> bool, c: Bytes, tail: Bytes)
    ensures Cut(PairFrom(utf8, c + tail), PairFrom(utf8, c), tail)
  {
    StringCut(utf8, c, tail);
    var key := StringFrom(utf8, c);
    if key.Got? {
      ValueCut(utf8, key.rest, tail);
    }
  }

  lemma NextPairCut(utf8: Bytes -> bool, whole: Read<seq<Pair>>, part: Read<seq<Pair>>, tail: Bytes)
    requires Cut(whole, part, tail)
    ensures Cut(NextPair(utf8, whole), NextPair(utf8, part), tail)
  {
    if part.Got? {
      PairCut(utf8, part.rest, tail);
    }
  }

  lemma {:induction false} PairsCut(utf8: Bytes -> bool, c: Bytes, tail: Bytes, n: nat)
    ensures Cut(PairsFrom(utf8, c + tail, n), PairsFrom(utf8, c, n), tail)
    decreases n
  {
    if n > 0 {
      PairsCut(utf8, c, tail, n - 1);
      NextPairCut(utf8, PairsFrom(utf8, c + tail, n - 1), PairsFrom(utf8, c, n - 1), tail);
    }
  }

  lemma PairPrints(utf8: Bytes -> bool, p: Pair, rest: Bytes)
    requires PairOk(utf8, p)
    ensures Gets(PairFrom(utf8, PrintPair(p) + rest), p, rest)
  {
    Assoc(PrintString(p.key), PrintValue(p.value), rest);
    StringPrints(utf8, p.key, PrintValue(p.value) + rest);
    ValuePrints(utf8, p.value, rest);
  }

  lemma NextPairPrints(utf8: Bytes -> bool, r: Read<seq<Pair>>, before: seq<Pair>, pair: Pair, rest: Bytes)
    requires Gets(r, before, PrintPair(pair) + rest) && PairOk(utf8, pair) && pair.key !in Keys(before)
    ensures Gets(NextPair(utf8, r), before + [pair], rest)
  {
    PairPrints(utf8, pair, rest);
  }

  lemma LastKeyIsNew(utf8: Bytes -> bool, pairs: seq<Pair>)
    requires PairsOk(utf8, pairs) && pairs != []
    ensures PairsOk(utf8, pairs[..|pairs| - 1]) && pairs[|pairs| - 1].key !in Keys(pairs[..|pairs| - 1])
  {
  }

  lemma {:induction false} PairsPrint(utf8: Bytes -> bool, pairs: seq<Pair>, rest: Bytes)
    requires PairsOk(utf8, pairs)
    ensures Gets(PairsFrom(utf8, PrintPairs(pairs) + rest, |pairs|), pairs, rest)
    decreases |pairs|
  {
    if pairs == [] {
      assert PrintPairs(pairs) + rest == rest;
    } else {
      var k := |pairs| - 1;
      var before, last := pairs[..k], pairs[k];
      LastKeyIsNew(utf8, pairs);
      Assoc(PrintPairs(before), PrintPair(last), rest);
      PairsPrint(utf8, before, PrintPair(last) + rest);
      NextPairPrints(utf8, PairsFrom(utf8, PrintPairs(pairs) + rest, k), before, last, rest);
      Snoc(pairs);
    }
  }

  // ----- the alignment -----

  const ALIGNMENT_KEY: Bytes := Ascii("general.alignment")

  const DEFAULT_ALIGNMENT: nat := 32

  function ValueOf(pairs: seq<Pair>, key: Bytes): Option<Value> {
    if pairs == [] then None
    else if pairs[|pairs| - 1].key == key then Some(pairs[|pairs| - 1].value)
    else ValueOf(pairs[..|pairs| - 1], key)
  }

  /** The 32-bit number a value is, if it is one. */
  function WordOf(v: Value): Option<nat> {
    if v.One? && v.kind == Unsigned(4) && v.item.Num? && v.item.bits < 0x1_0000_0000 then Some(v.item.bits) else None
  }

  /** The alignment the metadata give, or what is wrong with it. */
  function AlignmentOf(given: Option<Value>): (r: Read<nat>)
    ensures r.Got? ==> IsPowerOfTwo(r.value) && 0 < r.value < 0x1_0000_0000
  {
    var a := if given.None? then Some(DEFAULT_ALIGNMENT) else WordOf(given.value);
    if a.None? then Fail(BadAlignmentType)
    else if a.value == 0 || !IsPowerOfTwo(a.value) then Fail(BadAlignment)
    else Got(a.value, [])
  }

  // ----- the tensor directory -----

  datatype Tensor = Tensor(name: Bytes, dims: seq<nat>, ty: TensorType, offset: nat, elements: nat, bytes: nat)

  const I64_SIGN: nat := 0x8000_0000_0000_0000

  const MAX_DIMS: nat := 4

  /** One dimension more; none may be zero or negative. */
  function DimAfter(before: seq<nat>, b: Bytes): (r: Read<seq<nat>>)
    ensures r.Got? ==> |r.rest| <= |b|
  {
    var d :- BitsFrom(b, 8);
    if d.value == 0 || d.value >= I64_SIGN then Fail(ZeroDimension) else Got(before + [d.value], d.rest)
  }

  function NextDim(dims: Read<seq<nat>>): Read<seq<nat>> {
    if dims.Fail? then Fail(dims.error) else DimAfter(dims.value, dims.rest)
  }

  function DimsFrom(b: Bytes, n: nat): (r: Read<seq<nat>>)
    ensures r.Got? ==> |r.rest| <= |b|
    decreases n
  {
    if n == 0 then Got([], b) else NextDim(DimsFrom(b, n - 1))
  }

  predicate DimsOk(dims: seq<nat>) {
    forall i | 0 <= i < |dims| :: 0 < dims[i] < I64_SIGN
  }

  function PrintDims(dims: seq<nat>): Bytes {
    if dims == [] then [] else PrintDims(dims[..|dims| - 1]) + Spell(dims[|dims| - 1], 8)
  }

  lemma NextDimCut(whole: Read<seq<nat>>, part: Read<seq<nat>>, tail: Bytes)
    requires Cut(whole, part, tail)
    ensures Cut(NextDim(whole), NextDim(part), tail)
  {
    if part.Got? {
      BitsCut(part.rest, tail, 8);
    }
  }

  lemma {:induction false} DimsCut(c: Bytes, tail: Bytes, n: nat)
    ensures Cut(DimsFrom(c + tail, n), DimsFrom(c, n), tail)
    decreases n
  {
    if n > 0 {
      DimsCut(c, tail, n - 1);
      NextDimCut(DimsFrom(c + tail, n - 1), DimsFrom(c, n - 1), tail);
    }
  }

  lemma Fits64(n: nat)
    requires n < U64
    ensures n < Pow(8)
  {
    assert Pow(1) == 256 * Pow(0) && Pow(2) == 256 * Pow(1) && Pow(3) == 256 * Pow(2) && Pow(4) == 256 * Pow(3);
    assert Pow(5) == 256 * Pow(4) && Pow(6) == 256 * Pow(5) && Pow(7) == 256 * Pow(6) && Pow(8) == 256 * Pow(7);
  }

  lemma NextDimPrints(r: Read<seq<nat>>, before: seq<nat>, d: nat, rest: Bytes)
    requires Gets(r, before, Spell(d, 8) + rest) && 0 < d < I64_SIGN
    ensures Gets(NextDim(r), before + [d], rest)
  {
    Fits64(d);
    BitsPrint(d, 8, rest);
  }

  lemma {:induction false} DimsPrint(dims: seq<nat>, rest: Bytes)
    requires DimsOk(dims)
    ensures Gets(DimsFrom(PrintDims(dims) + rest, |dims|), dims, rest)
    decreases |dims|
  {
    if dims == [] {
      assert PrintDims(dims) + rest == rest;
    } else {
      var k := |dims| - 1;
      var before, last := dims[..k], dims[k];
      Assoc(PrintDims(before), Spell(last, 8), rest);
      DimsPrint(before, Spell(last, 8) + rest);
      NextDimPrints(DimsFrom(PrintDims(dims) + rest, k), before, last, rest);
      Snoc(dims);
    }
  }

  function Names(tensors: seq<Tensor>): set<Bytes> {
    set t | t in tensors :: t.name
  }

  /** What follows a tensor's name: its shape, its type and where it is. */
  function ShapeFrom(name: Bytes, b: Bytes): (r: Read<Tensor>)
    ensures r.Got? ==> |r.rest| <= |b|
  {
    var n :- BitsFrom(b, 4);
    if n.value > MAX_DIMS then Fail(TooManyDimensions)
    else
      var dims :- DimsFrom(n.rest, n.value);
      var id :- BitsFrom(dims.rest, 4);
      if TypeOf(id.value).None? then Fail(UnsupportedType)
      else
        var offset :- BitsFrom(id.rest, 8);
        var ty, elements := TypeOf(id.value).value, Count(dims.value);
        if BytesFor(ty, elements).None? then Fail(PartBlock)
        else Got(Tensor(name, dims.value, ty, offset.value, elements, BytesFor(ty, elements).value), offset.rest)
  }

  /** One tensor more; no name may come twice, and that is looked at first. */
  function TensorAfter(utf8: Bytes -> bool, before: seq<Tensor>, b: Bytes): (r: Read<seq<Tensor>>)
    ensures r.Got? ==> |r.rest| <= |b|
  {
    var name :- StringFrom(utf8, b);
    if name.value in Names(before) then Fail(DuplicateTensor)
    else
      var tensor :- ShapeFrom(name.value, name.rest);
      Got(before + [tensor.value], tensor.rest)
  }

  function NextTensor(utf8: Bytes -> bool, tensors: Read<seq<Tensor>>): Read<seq<Tensor>> {
    if tensors.Fail? then Fail(tensors.error) else TensorAfter(utf8, tensors.value, tensors.rest)
  }

  function TensorsFrom(utf8: Bytes -> bool, b: Bytes, n: nat): (r: Read<seq<Tensor>>)
    ensures r.Got? ==> |r.rest| <= |b|
    decreases n
  {
    if n == 0 then Got([], b) else NextTensor(utf8, TensorsFrom(utf8, b, n - 1))
  }

  predicate TensorOk(utf8: Bytes -> bool, t: Tensor) {
    && StringOk(utf8, t.name) && |t.dims| <= MAX_DIMS && DimsOk(t.dims) && t.offset < U64
    && t.elements == Count(t.dims) && BytesFor(t.ty, t.elements) == Some(t.bytes)
  }

  predicate TensorsOk(utf8: Bytes -> bool, tensors: seq<Tensor>) {
    && (forall i | 0 <= i < |tensors| :: TensorOk(utf8, tensors[i]))
    && (forall i, j | 0 <= i < j < |tensors| :: tensors[i].name != tensors[j].name)
  }

  function PrintShape(t: Tensor): Bytes {
    Spell(|t.dims|, 4) + (PrintDims(t.dims) + (Spell(TypeId(t.ty), 4) + Spell(t.offset, 8)))
  }

  function PrintTensor(t: Tensor): Bytes {
    PrintString(t.name) + PrintShape(t)
  }

  function PrintTensors(tensors: seq<Tensor>): Bytes {
    if tensors == [] then [] else PrintTensors(tensors[..|tensors| - 1]) + PrintTensor(tensors[|tensors| - 1])
  }

  lemma ShapeCut(name: Bytes, c: Bytes, tail: Bytes)
    ensures Cut(ShapeFrom(name, c + tail), ShapeFrom(name, c), tail)
  {
    BitsCut(c, tail, 4);
    var n := BitsFrom(c, 4);
    if n.Got? {
      DimsCut(n.rest, tail, n.value);
      var dims := DimsFrom(n.rest, n.value);
      if dims.Got? {
        BitsCut(dims.rest, tail, 4);
        var id := BitsFrom(dims.rest, 4);
        if id.Got? {
          BitsCut(id.rest, tail, 8);
        }
      }
    }
  }

  lemma NextTensorCut(utf8: Bytes -> bool, whole: Read<seq<Tensor>>, part: Read<seq<Tensor>>, tail: Bytes)
    requires Cut(whole, part, tail)
    ensures Cut(NextTensor(utf8, whole), NextTensor(utf8, part), tail)
  {
    if part.Got? {
      StringCut(utf8, part.rest, tail);
      var name := StringFrom(utf8, part.rest);
      if name.Got? {
        ShapeCut(name.value, name.rest, tail);
      }
    }
  }

  lemma {:induction false} TensorsCut(utf8: Bytes -> bool, c: Bytes, tail: Bytes, n: nat)
    ensures Cut(TensorsFrom(utf8, c + tail, n), TensorsFrom(utf8, c, n), tail)
    decreases n
  {
    if n > 0 {
      TensorsCut(utf8, c, tail, n - 1);
      NextTensorCut(utf8, TensorsFrom(utf8, c + tail, n - 1), TensorsFrom(utf8, c, n - 1), tail);
    }
  }

  lemma ShapePrints(utf8: Bytes -> bool, t: Tensor, rest: Bytes)
    requires TensorOk(utf8, t)
    ensures Gets(ShapeFrom(t.name, PrintShape(t) + rest), t, rest)
  {
    var count, dims, id, offset := Spell(|t.dims|, 4), PrintDims(t.dims), Spell(TypeId(t.ty), 4), Spell(t.offset, 8);
    Assoc(count, dims + (id + offset), rest);
    Assoc(dims, id + offset, rest);
    Assoc(id, offset, rest);
    TagFits(|t.dims|);
    TagFits(TypeId(t.ty));
    Fits64(t.offset);
    BitsPrint(|t.dims|, 4, dims + (id + (offset + rest)));
    DimsPrint(t.dims, id + (offset + rest));
    BitsPrint(TypeId(t.ty), 4, offset + rest);
    BitsPrint(t.offset, 8, rest);
  }

  lemma NextTensorPrints(utf8: Bytes -> bool, r: Read<seq<Tensor>>, before: seq<Tensor>, t: Tensor, rest: Bytes)
    requires Gets(r, before, PrintTensor(t) + rest) && TensorOk(utf8, t) && t.name !in Names(before)
    ensures Gets(NextTensor(utf8, r), before + [t], rest)
  {
    Assoc(PrintString(t.name), PrintShape(t), rest);
    StringPrints(utf8, t.name, PrintShape(t) + rest);
    ShapePrints(utf8, t, rest);
  }

  lemma LastNameIsNew(utf8: Bytes -> bool, tensors: seq<Tensor>)
    requires TensorsOk(utf8, tensors) && tensors != []
    ensures TensorsOk(utf8, tensors[..|tensors| - 1])
    ensures tensors[|tensors| - 1].name !in Names(tensors[..|tensors| - 1])
  {
  }

  lemma {:induction false} TensorsPrint(utf8: Bytes -> bool, tensors: seq<Tensor>, rest: Bytes)
    requires TensorsOk(utf8, tensors)
    ensures Gets(TensorsFrom(utf8, PrintTensors(tensors) + rest, |tensors|), tensors, rest)
    decreases |tensors|
  {
    if tensors == [] {
      assert PrintTensors(tensors) + rest == rest;
    } else {
      var k := |tensors| - 1;
      var before, last := tensors[..k], tensors[k];
      LastNameIsNew(utf8, tensors);
      Assoc(PrintTensors(before), PrintTensor(last), rest);
      TensorsPrint(utf8, before, PrintTensor(last) + rest);
      NextTensorPrints(utf8, TensorsFrom(utf8, PrintTensors(tensors) + rest, k), before, last, rest);
      Snoc(tensors);
    }
  }

  // ----- all of it -----

  datatype Meta = Meta(alignment: nat, pairs: seq<Pair>, tensors: seq<Tensor>)

  const MAGIC: Bytes := Ascii("GGUF")

  const VERSION: nat := 3

  datatype Counts = Counts(tensors: nat, pairs: nat)

  /** The magic, the version, and how many tensors and pairs there are; a count is signed. */
  function HeaderFrom(b: Bytes): (r: Read<Counts>)
    ensures r.Got? ==> |r.rest| <= |b|
  {
    var magic :- TakeFrom(b, 4);
    if magic.value != MAGIC then Fail(BadMagic)
    else
      var version :- BitsFrom(magic.rest, 4);
      if version.value != VERSION then Fail(BadVersion)
      else
        var tensors :- BitsFrom(version.rest, 8);
        if tensors.value >= I64_SIGN then Fail(NegativeCount)
        else
          var pairs :- BitsFrom(tensors.rest, 8);
          if pairs.value >= I64_SIGN then Fail(NegativeCount) else Got(Counts(tensors.value, pairs.value), pairs.rest)
  }

  /** Pairs, the alignment they give, then tensors. */
  function BodyFrom(utf8: Bytes -> bool, counts: Counts, b: Bytes): (r: Read<Meta>)
    ensures r.Got? ==> |r.rest| <= |b| && IsPowerOfTwo(r.value.alignment) && 0 < r.value.alignment < 0x1_0000_0000
  {
    var pairs :- PairsFrom(utf8, b, counts.pairs);
    var alignment :- AlignmentOf(ValueOf(pairs.value, ALIGNMENT_KEY));
    var tensors :- TensorsFrom(utf8, pairs.rest, counts.tensors);
    Got(Meta(alignment.value, pairs.value, tensors.value), tensors.rest)
  }

  function MetaFrom(utf8: Bytes -> bool, b: Bytes): (r: Read<Meta>)
    ensures r.Got? ==> |r.rest| <= |b| && IsPowerOfTwo(r.value.alignment) && 0 < r.value.alignment < 0x1_0000_0000
  {
    var counts :- HeaderFrom(b);
    BodyFrom(utf8, counts.value, counts.rest)
  }

  ghost predicate MetaOk(utf8: Bytes -> bool, m: Meta) {
    && PairsOk(utf8, m.pairs) && TensorsOk(utf8, m.tensors) && |m.pairs| < I64_SIGN && |m.tensors| < I64_SIGN
    && AlignmentOf(ValueOf(m.pairs, ALIGNMENT_KEY)) == Got(m.alignment, [])
  }

  function PrintHeader(counts: Counts): Bytes {
    MAGIC + (Spell(VERSION, 4) + (Spell(counts.tensors, 8) + Spell(counts.pairs, 8)))
  }

  function PrintMeta(m: Meta): Bytes {
    PrintHeader(Counts(|m.tensors|, |m.pairs|)) + (PrintPairs(m.pairs) + PrintTensors(m.tensors))
  }

  lemma HeaderCut(c: Bytes, tail: Bytes)
    ensures Cut(HeaderFrom(c + tail), HeaderFrom(c), tail)
  {
    TakeCut(c, tail, 4);
    var magic := TakeFrom(c, 4);
    if magic.Got? {
      BitsCut(magic.rest, tail, 4);
      var version := BitsFrom(magic.rest, 4);
      if version.Got? {
        BitsCut(version.rest, tail, 8);
        var tensors := BitsFrom(version.rest, 8);
        if tensors.Got? {
          BitsCut(tensors.rest, tail, 8);
        }
      }
    }
  }

  lemma BodyCut(utf8: Bytes -> bool, counts: Counts, c: Bytes, tail: Bytes)
    ensures Cut(BodyFrom(utf8, counts, c + tail), BodyFrom(utf8, counts, c), tail)
  {
    PairsCut(utf8, c, tail, counts.pairs);
    var pairs := PairsFrom(utf8, c, counts.pairs);
    if pairs.Got? {
      TensorsCut(utf8, pairs.rest, tail, counts.tensors);
    }
  }

  /** Cut anywhere in its metadata, a container ends too soon; cut later, they read the same. */
  lemma MetaCut(utf8: Bytes -> bool, c: Bytes, tail: Bytes)
    ensures Cut(MetaFrom(utf8, c + tail), MetaFrom(utf8, c), tail)
  {
    HeaderCut(c, tail);
    var counts := HeaderFrom(c);
    if counts.Got? {
      BodyCut(utf8, counts.value, counts.rest, tail);
    }
  }

  lemma HeaderPrints(counts: Counts, rest: Bytes)
    requires counts.tensors < I64_SIGN && counts.pairs < I64_SIGN
    ensures Gets(HeaderFrom(PrintHeader(counts) + rest), counts, rest)
  {
    var version, tensors, pairs := Spell(VERSION, 4), Spell(counts.tensors, 8), Spell(counts.pairs, 8);
    Assoc(MAGIC, version + (tensors + pairs), rest);
    Assoc(version, tensors + pairs, rest);
    Assoc(tensors, pairs, rest);
    TagFits(VERSION);
    Fits64(counts.tensors);
    Fits64(counts.pairs);
    TakePrints(MAGIC, version + (tensors + (pairs + rest)));
    BitsPrint(VERSION, 4, tensors + (pairs + rest));
    BitsPrint(counts.tensors, 8, pairs + rest);
    BitsPrint(counts.pairs, 8, rest);
  }

  /** What was printed reads back, whatever follows it. */
  lemma MetaPrints(utf8: Bytes -> bool, m: Meta, rest: Bytes)
    requires MetaOk(utf8, m)
    ensures Gets(MetaFrom(utf8, PrintMeta(m) + rest), m, rest)
  {
    var counts, pairs, tensors := Counts(|m.tensors|, |m.pairs|), PrintPairs(m.pairs), PrintTensors(m.tensors);
    Assoc(PrintHeader(counts), pairs + tensors, rest);
    Assoc(pairs, tensors, rest);
    HeaderPrints(counts, pairs + (tensors + rest));
    PairsPrint(utf8, m.pairs, tensors + rest);
    TensorsPrint(utf8, m.tensors, rest);
  }
}
