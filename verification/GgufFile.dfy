/** A whole container: its metadata, and where its tensors' bytes are. */
module GgufFiles {
  import opened Tools
  import opened Options
  import opened Division
  import opened GgufTypes
  import opened Gguf
  import opened GgufMeta

  // ----- the alignment -----

  function Pow2(k: nat): (n: nat)
    ensures n > 0
  {
    if k == 0 then 1 else 2 * Pow2(k - 1)
  }

  /** Bit by bit. */
  function And(x: nat, y: nat): nat {
    if x == 0 then 0 else x % 2 * (y % 2) + 2 * And(x / 2, y / 2)
  }

  /** Every bit of a 64-bit word the other way. */
  function Not(x: nat): nat
    requires x < U64
  {
    U64 - 1 - x
  }

  /** The next aligned offset, by masking the low bits off. */
  function AlignUp(value: nat, alignment: nat): nat
    requires 0 < alignment <= U64
  {
    And((value + alignment - 1) % U64, Not(alignment - 1))
  }

  lemma {:induction false} LogOf(n: nat) returns (k: nat)
    requires IsPowerOfTwo(n)
    ensures n == Pow2(k)
  {
    if n == 1 {
      k := 0;
    } else {
      var j := LogOf(n / 2);
      k := j + 1;
    }
  }

  lemma {:induction false} AndAll(bits: nat, x: nat)
    requires x < Pow2(bits)
    ensures And(x, Pow2(bits) - 1) == x
    decreases bits
  {
    if bits > 0 {
      AndAll(bits - 1, x / 2);
      assert (Pow2(bits) - 1) % 2 == 1 && (Pow2(bits) - 1) / 2 == Pow2(bits - 1) - 1;
    }
  }

  /** Masking with all bits from the `k`-th up leaves the multiples of its power. */
  lemma {:induction false} MaskFloors(bits: nat, x: nat, k: nat)
    requires x < Pow2(bits) && k <= bits && Pow2(k) <= Pow2(bits)
    ensures And(x, Pow2(bits) - Pow2(k)) == x - x % Pow2(k)
    decreases k
  {
    if k == 0 {
      AndAll(bits, x);
    } else {
      var mask := Pow2(bits) - Pow2(k);
      assert mask % 2 == 0 && mask / 2 == Pow2(bits - 1) - Pow2(k - 1);
      MaskFloors(bits - 1, x / 2, k - 1);
      HalveMod(x, Pow2(k - 1));
      MaskStep(x, mask);
    }
  }

  lemma MaskStep(x: nat, mask: nat)
    requires mask % 2 == 0
    ensures And(x, mask) == 2 * And(x / 2, mask / 2)
  {
  }

  lemma HalveMod(x: nat, p: nat)
    requires p > 0
    ensures x % (2 * p) == x % 2 + 2 * (x / 2 % p)
  {
    var q, r := x / 2 / p, x / 2 % p;
    assert x / 2 == q * p + r && x == 2 * (x / 2) + x % 2;
    assert x == q * (2 * p) + (2 * r + x % 2);
    ModIs(2 * p, q, 2 * r + x % 2);
  }

  lemma {:induction false} PowAdds(a: nat, b: nat)
    ensures Pow2(a + b) == Pow2(a) * Pow2(b)
    decreases b
  {
    if b > 0 {
      PowAdds(a, b - 1);
    }
  }

  lemma Pow64()
    ensures Pow2(64) == U64
  {
    assert Pow2(8) == 256;
    PowAdds(8, 8);
    PowAdds(16, 16);
    PowAdds(32, 32);
  }

  lemma {:induction false} PowGrows(a: nat, b: nat)
    requires a <= b
    ensures Pow2(a) <= Pow2(b)
    decreases b
  {
    if a < b {
      PowGrows(a, b - 1);
    }
  }

  lemma MaskIsLeast(bits: nat, k: nat, value: nat)
    requires k <= bits && value + Pow2(k) <= Pow2(bits)
    ensures var up := And(value + Pow2(k) - 1, Pow2(bits) - Pow2(k));
            up % Pow2(k) == 0 && value <= up < value + Pow2(k)
  {
    var x, a := value + Pow2(k) - 1, Pow2(k);
    MaskFloors(bits, x, k);
    FloorIs(x, a);
  }

  lemma FloorIs(x: nat, a: nat)
    requires a > 0
    ensures (x - x % a) % a == 0 && x - a < x - x % a <= x
  {
    var q := x / a;
    assert x - x % a == q * a + 0;
    ModIs(a, q, 0);
  }

  /** The least multiple of the alignment that is not below. */
  lemma AlignUpIsLeast(value: nat, alignment: nat)
    requires IsPowerOfTwo(alignment) && value + alignment <= U64
    ensures var up := AlignUp(value, alignment);
            up % alignment == 0 && value <= up < value + alignment
  {
    Pow64();
    var k := LogOf(alignment);
    if k > 64 {
      PowGrows(65, k);
      assert Pow2(65) == 2 * Pow2(64);
    }
    SmallMod(value + alignment - 1, U64);
    MaskIsLeast(64, k, value);
  }

  // ----- the file -----

  datatype File = File(meta: Meta, dataOffset: nat)

  /** Where a tensor's bytes end. */
  function End(t: Tensor, dataOffset: nat): nat {
    dataOffset + t.offset + t.bytes
  }

  /** What keeps a tensor from being where it is said to be. */
  function Misplaced(t: Tensor, dataOffset: nat, length: nat): Option<Error> {
    if dataOffset + t.offset >= U64 || End(t, dataOffset) >= U64 then Some(OffsetOverflow)
    else if End(t, dataOffset) > length then Some(OutOfBounds)
    else None
  }

  /** The first tensor that is misplaced, if one is. */
  function FirstMisplaced(tensors: seq<Tensor>, dataOffset: nat, length: nat): Option<Error> {
    if tensors == [] then None
    else
      var k := |tensors| - 1;
      var before := FirstMisplaced(tensors[..k], dataOffset, length);
      if before.Some? then before else Misplaced(tensors[k], dataOffset, length)
  }

  /** Where the tensors' bytes begin in a file whose metadata end here. */
  function DataOffset(alignment: nat, metaEnd: nat): nat {
    if 0 < alignment <= U64 then AlignUp(metaEnd, alignment) else 0
  }

  /** Every tensor must be inside the file. */
  function Settle(r: Read<Meta>, length: nat): Result<File> {
    match r
    case Fail(error) => Err(error)
    case Got(meta, rest) =>
      var offset := DataOffset(meta.alignment, if |rest| <= length then length - |rest| else 0);
      match FirstMisplaced(meta.tensors, offset, length)
      case Some(error) => Err(error)
      case None => Ok(File(meta, offset))
  }

  function Open(utf8: Bytes -> bool, data: Bytes): Result<File> {
    Settle(MetaFrom(utf8, data), |data|)
  }

  predicate InPlace(tensors: seq<Tensor>, dataOffset: nat, length: nat) {
    forall i | 0 <= i < |tensors| :: Misplaced(tensors[i], dataOffset, length).None?
  }

  lemma {:induction false} NoneMisplaced(tensors: seq<Tensor>, dataOffset: nat, length: nat)
    ensures FirstMisplaced(tensors, dataOffset, length).None? <==> InPlace(tensors, dataOffset, length)
  {
    if tensors != [] {
      var k := |tensors| - 1;
      NoneMisplaced(tensors[..k], dataOffset, length);
      Snoc(tensors);
    }
  }

  /** Which tensor has a name; as many as there are, if none has. */
  function IndexOf(tensors: seq<Tensor>, name: Bytes): (i: nat)
    ensures i <= |tensors| && (i < |tensors| ==> tensors[i].name == name)
    ensures i == |tensors| ==> name !in Names(tensors)
  {
    if tensors == [] then 0
    else
      var k := |tensors| - 1;
      var i := IndexOf(tensors[..k], name);
      if i < k then i else if tensors[k].name == name then k else
        assert forall t | t in tensors :: t in tensors[..k] || t == tensors[k];
        k + 1
  }

  /** A tensor's bytes. A file that opened has all of them. */
  function TensorBytes(f: File, data: Bytes, name: Bytes): Option<Bytes>
    requires InPlace(f.meta.tensors, f.dataOffset, |data|)
  {
    var i := IndexOf(f.meta.tensors, name);
    if i < |f.meta.tensors| then
      var t := f.meta.tensors[i];
      assert Misplaced(t, f.dataOffset, |data|).None?;
      Some(data[f.dataOffset + t.offset..End(t, f.dataOffset)])
    else None
  }

  lemma OpenedIsInPlace(utf8: Bytes -> bool, data: Bytes)
    requires Open(utf8, data).Ok?
    ensures var f := Open(utf8, data).value;
            && InPlace(f.meta.tensors, f.dataOffset, |data|)
            && forall i | 0 <= i < |f.meta.tensors| ::
                 f.dataOffset + f.meta.tensors[i].offset + f.meta.tensors[i].bytes <= |data|
  {
    var f := Open(utf8, data).value;
    NoneMisplaced(f.meta.tensors, f.dataOffset, |data|);
    forall i | 0 <= i < |f.meta.tensors|
      ensures f.dataOffset + f.meta.tensors[i].offset + f.meta.tensors[i].bytes <= |data|
    {
      assert Misplaced(f.meta.tensors[i], f.dataOffset, |data|).None?;
    }
  }

  // ----- a file cut short -----

  function MetaEnd(utf8: Bytes -> bool, data: Bytes): nat {
    var r := MetaFrom(utf8, data);
    if r.Got? then |data| - |r.rest| else |data|
  }

  /** A shorter file has a tensor out of bounds, or none. */
  lemma {:induction false} ShorterMisplaces(tensors: seq<Tensor>, dataOffset: nat, length: nat, shorter: nat)
    requires FirstMisplaced(tensors, dataOffset, length).None?
    ensures FirstMisplaced(tensors, dataOffset, shorter)
         == if forall i | 0 <= i < |tensors| :: End(tensors[i], dataOffset) <= shorter then None else Some(OutOfBounds)
  {
    if tensors != [] {
      var k := |tensors| - 1;
      ShorterMisplaces(tensors[..k], dataOffset, length, shorter);
      Snoc(tensors);
    }
  }

  predicate EndBy(f: File, n: nat) {
    forall i | 0 <= i < |f.meta.tensors| :: End(f.meta.tensors[i], f.dataOffset) <= n
  }

  lemma SettleCut(whole: Read<Meta>, part: Read<Meta>, tail: Bytes, n: nat)
    requires Cut(whole, part, tail) && Settle(whole, n + |tail|).Ok?
    requires |whole.rest| <= n + |tail| && (part.Got? ==> |part.rest| <= n)
    ensures var f := Settle(whole, n + |tail|).value;
            Settle(part, n) == if |whole.rest| < |tail| then Err(Eof)
                               else if EndBy(f, n) then Ok(f) else Err(OutOfBounds)
  {
    if |whole.rest| >= |tail| {
      assert |whole.rest| == |part.rest| + |tail|;
      ShorterMisplaces(part.value.tensors, DataOffset(part.value.alignment, n - |part.rest|), n + |tail|, n);
    }
  }

  /**
   * What becomes of a file that opened, cut short: it ends too soon if cut in
   * its metadata, a tensor is out of bounds if cut in a tensor, and otherwise it
   * opens as it did.
   */
  lemma CutShort(utf8: Bytes -> bool, c: Bytes, tail: Bytes)
    requires Open(utf8, c + tail).Ok?
    ensures var f := Open(utf8, c + tail).value;
            Open(utf8, c) == if |c| < MetaEnd(utf8, c + tail) then Err(Eof)
                             else if EndBy(f, |c|) then Ok(f) else Err(OutOfBounds)
  {
    MetaCut(utf8, c, tail);
    assert |c + tail| == |c| + |tail|;
    SettleCut(MetaFrom(utf8, c + tail), MetaFrom(utf8, c), tail, |c|);
  }

  // ----- a file written and read back -----

  function Zeros(n: nat): (bytes: Bytes)
    ensures |bytes| == n
  {
    seq(n, _ => 0)
  }

  /** Metadata, padding, and the tensors' bytes. */
  function Print(m: Meta, payload: Bytes): Bytes {
    var head := PrintMeta(m);
    var offset := DataOffset(m.alignment, |head|);
    head + (Zeros(if offset > |head| then offset - |head| else 0) + payload)
  }

  /** Every tensor's bytes are among those written. */
  predicate Stored(m: Meta, payload: Bytes) {
    forall i | 0 <= i < |m.tensors| :: m.tensors[i].offset + m.tensors[i].bytes <= |payload|
  }

  /** A head, padding, and from the offset on the tensors' bytes. */
  ghost predicate LaidOut(head: Bytes, payload: Bytes, data: Bytes, offset: nat) {
    && |head| <= offset && data == head + (Zeros(offset - |head|) + payload)
    && |data| == offset + |payload| && data[offset..] == payload
  }

  lemma PrintedOffset(utf8: Bytes -> bool, m: Meta, payload: Bytes, data: Bytes, offset: nat)
    requires MetaOk(utf8, m) && data == Print(m, payload) && |data| < I64_SIGN
    requires offset == DataOffset(m.alignment, |PrintMeta(m)|)
    ensures offset % m.alignment == 0 && LaidOut(PrintMeta(m), payload, data, offset)
  {
    Padded(PrintMeta(m), m.alignment, payload, data, offset);
  }

  lemma Padded(head: Bytes, alignment: nat, payload: Bytes, data: Bytes, offset: nat)
    requires IsPowerOfTwo(alignment) && |head| + alignment <= U64 && offset == AlignUp(|head|, alignment)
    requires data == head + (Zeros(if offset > |head| then offset - |head| else 0) + payload)
    ensures offset % alignment == 0 && LaidOut(head, payload, data, offset)
  {
    AlignUpIsLeast(|head|, alignment);
    Skip(head, Zeros(offset - |head|), payload);
  }

  lemma Skip(a: Bytes, b: Bytes, c: Bytes)
    ensures |a + (b + c)| == |a| + |b| + |c| && (a + (b + c))[|a| + |b|..] == c
  {
  }

  lemma StoredInPlace(m: Meta, payload: Bytes, offset: nat, length: nat)
    requires Stored(m, payload) && length == offset + |payload| < U64
    ensures InPlace(m.tensors, offset, length)
  {
  }

  /** A file opens, as this. */
  ghost predicate Opens(utf8: Bytes -> bool, data: Bytes, f: File) {
    Open(utf8, data) == Ok(f)
  }

  lemma PrintedOpens(utf8: Bytes -> bool, m: Meta, payload: Bytes, data: Bytes, offset: nat)
    requires MetaOk(utf8, m) && Stored(m, payload) && data == Print(m, payload) && |data| < I64_SIGN
    requires offset == DataOffset(m.alignment, |PrintMeta(m)|)
    ensures Opens(utf8, data, File(m, offset)) && InPlace(m.tensors, offset, |data|)
  {
    PrintedOffset(utf8, m, payload, data, offset);
    LaidOutOpens(utf8, m, payload, data, offset);
  }

  lemma LaidOutOpens(utf8: Bytes -> bool, m: Meta, payload: Bytes, data: Bytes, offset: nat)
    requires MetaOk(utf8, m) && Stored(m, payload) && |data| < I64_SIGN
    requires LaidOut(PrintMeta(m), payload, data, offset) && offset == DataOffset(m.alignment, |PrintMeta(m)|)
    ensures Opens(utf8, data, File(m, offset)) && InPlace(m.tensors, offset, |data|)
  {
    StoredInPlace(m, payload, offset, |data|);
    MetaOpens(utf8, m, data, Zeros(offset - |PrintMeta(m)|) + payload, offset);
  }

  lemma MetaOpens(utf8: Bytes -> bool, m: Meta, data: Bytes, rest: Bytes, offset: nat)
    requires MetaOk(utf8, m) && data == PrintMeta(m) + rest && InPlace(m.tensors, offset, |data|)
    requires offset == DataOffset(m.alignment, |PrintMeta(m)|)
    ensures Opens(utf8, data, File(m, offset))
  {
    MetaPrints(utf8, m, rest);
    SettlesPast(MetaFrom(utf8, data), m, PrintMeta(m), rest, data, offset);
  }

  /** A parse that left `rest` of the bytes settles on what was before it. */
  lemma SettlesPast(r: Read<Meta>, m: Meta, head: Bytes, rest: Bytes, data: Bytes, offset: nat)
    requires Gets(r, m, rest) && data == head + rest && offset == DataOffset(m.alignment, |head|)
    requires InPlace(m.tensors, offset, |data|)
    ensures Settle(r, |data|) == Ok(File(m, offset))
  {
    Settles(r, m, rest, |data|, offset);
  }

  /**
   * What was written is what is read: the metadata, the tensor directory, and
   * of every tensor the bytes written for it.
   */
  lemma RoundTrip(utf8: Bytes -> bool, m: Meta, payload: Bytes)
    requires MetaOk(utf8, m) && Stored(m, payload) && |Print(m, payload)| < I64_SIGN
    ensures var f, data := File(m, DataOffset(m.alignment, |PrintMeta(m)|)), Print(m, payload);
            && Opens(utf8, data, f) && f.dataOffset % m.alignment == 0
            && forall i | 0 <= i < |m.tensors| :: BytesBack(f, data, payload, m.tensors[i])
  {
    var data, offset := Print(m, payload), DataOffset(m.alignment, |PrintMeta(m)|);
    PrintedOpens(utf8, m, payload, data, offset);
    PrintedOffset(utf8, m, payload, data, offset);
    forall i | 0 <= i < |m.tensors|
      ensures BytesBack(File(m, offset), data, payload, m.tensors[i])
    {
      BytesComeBack(utf8, m, payload, data, offset, i);
    }
  }

  lemma Settles(r: Read<Meta>, m: Meta, rest: Bytes, length: nat, offset: nat)
    requires Gets(r, m, rest) && |rest| <= length && offset == DataOffset(m.alignment, length - |rest|)
    requires InPlace(m.tensors, offset, length)
    ensures Settle(r, length) == Ok(File(m, offset))
  {
    NoneMisplaced(m.tensors, offset, length);
  }

  ghost predicate BytesBack(f: File, data: Bytes, payload: Bytes, t: Tensor) {
    && InPlace(f.meta.tensors, f.dataOffset, |data|) && t.offset + t.bytes <= |payload|
    && TensorBytes(f, data, t.name) == Some(payload[t.offset..t.offset + t.bytes])
  }

  lemma BytesComeBack(utf8: Bytes -> bool, m: Meta, payload: Bytes, data: Bytes, offset: nat, i: nat)
    requires TensorsOk(utf8, m.tensors) && Stored(m, payload) && i < |m.tensors|
    requires offset <= |data| && data[offset..] == payload && InPlace(m.tensors, offset, |data|)
    ensures BytesBack(File(m, offset), data, payload, m.tensors[i])
  {
    var t := m.tensors[i];
    assert t in m.tensors;
    var j := IndexOf(m.tensors, t.name);
    assert j == i;
    assert data[offset + t.offset..offset + t.offset + t.bytes] == data[offset..][t.offset..t.offset + t.bytes];
  }
}
