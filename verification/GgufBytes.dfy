/** A container byte by byte: what each number in it stands for, written out. */
module GgufBytes {
  import opened Tools
  import opened Options
  import opened Division
  import opened GgufTypes
  import opened Gguf
  import opened GgufMeta
  import opened GgufFiles

  // ----- numbers -----

  lemma Pows()
    ensures Pow(0) == 1 && Pow(1) == 0x100 && Pow(2) == 0x1_0000 && Pow(4) == 0x1_0000_0000 && Pow(8) == U64
  {
    assert Pow(2) == 0x100 * Pow(1) && Pow(3) == 0x100 * Pow(2) && Pow(4) == 0x100 * Pow(3);
    assert Pow(5) == 0x100 * Pow(4) && Pow(6) == 0x100 * Pow(5) && Pow(7) == 0x100 * Pow(6) && Pow(8) == 0x100 * Pow(7);
  }

  function At(b: Bytes, i: nat): nat
    requires i < |b|
  {
    b[i] as nat
  }

  function Two(b: Bytes): nat
    requires |b| >= 2
  {
    At(b, 0) + 0x100 * At(b, 1)
  }

  function Four(b: Bytes): nat
    requires |b| >= 4
  {
    At(b, 0) + 0x100 * At(b, 1) + 0x1_0000 * At(b, 2) + 0x100_0000 * At(b, 3)
  }

  function Eight(b: Bytes): nat
    requires |b| >= 8
  {
    Four(b) + 0x1_0000_0000 * Four(b[4..])
  }

  lemma {:induction false} LittleJoins(a: Bytes, b: Bytes)
    ensures Little(a + b) == Little(a) + Pow(|a|) * Little(b)
    decreases |a|
  {
    if a == [] {
      assert a + b == b;
    } else {
      LittleJoins(a[1..], b);
      assert (a + b)[1..] == a[1..] + b;
      Pulled(a[0] as nat, Little(a[1..]), Pow(|a| - 1), Little(b));
    }
  }

  lemma Pulled(digit: nat, low: nat, pow: nat, high: nat)
    ensures digit + 256 * (low + pow * high) == (digit + 256 * low) + 256 * pow * high
  {
    assert 256 * (pow * high) == 256 * pow * high;
  }

  lemma LittleOne(x: Byte)
    ensures Little([x]) == x as nat
  {
    assert [x][1..] == [] && Little([]) == 0;
  }

  lemma LittleTwo(b: Bytes)
    requires |b| == 2
    ensures Little(b) == Two(b)
  {
    assert b == [b[0]] + [b[1]];
    LittleJoins([b[0]], [b[1]]);
    LittleOne(b[0]);
    LittleOne(b[1]);
    Pows();
  }

  lemma LittleFour(b: Bytes)
    requires |b| == 4
    ensures Little(b) == Four(b)
  {
    assert b == b[..2] + b[2..];
    LittleJoins(b[..2], b[2..]);
    LittleTwo(b[..2]);
    LittleTwo(b[2..]);
    Pows();
  }

  lemma LittleEight(b: Bytes)
    requires |b| == 8
    ensures Little(b) == Eight(b)
  {
    assert b == b[..4] + b[4..];
    LittleJoins(b[..4], b[4..]);
    LittleFour(b[..4]);
    LittleFour(b[4..]);
    Pows();
  }

  /** Numbers are little-endian, their bytes' weights a factor of 256 apart. */
  lemma NumbersAre(b: Bytes)
    requires |b| >= 8
    ensures BitsFrom(b, 1) == Got(At(b, 0), b[1..]) && BitsFrom(b, 2) == Got(Two(b), b[2..])
    ensures BitsFrom(b, 4) == Got(Four(b), b[4..]) && BitsFrom(b, 8) == Got(Eight(b), b[8..])
  {
    assert b[..1] == [b[0]];
    LittleOne(b[0]);
    LittleTwo(b[..2]);
    LittleFour(b[..4]);
    LittleEight(b[..8]);
    assert b[..8][4..] == b[4..8] && Four(b[4..8]) == Four(b[4..]);
  }

  // ----- tensor types -----

  lemma Blocks(t: TensorType, size: nat, bytes: nat, n: nat)
    requires BlockSize(t) == size && BlockBytes(t) == bytes && n < 0x1_0000_0000
    ensures BytesFor(t, size * n) == Some(n * bytes)
  {
    ModIs(size, n, 0);
    assert size * n == n * size + 0;
    assert n * bytes <= n * 210;
    SmallMod(n * bytes, U64);
  }

  /**
   * What blocks are made of: a half-precision scale or two, packed scales, and so
   * many bits for each of 32 or 256 elements.
   */
  lemma BlockLayouts(n: nat)
    requires n < 0x1_0000_0000
    ensures BytesFor(F32, 1 * n) == Some(n * 4) && BytesFor(F16, 1 * n) == BytesFor(Bf16, 1 * n) == Some(n * 2)
    ensures BytesFor(Q4_0, 32 * n) == Some(n * (2 + 32 * 4 / 8)) && BytesFor(Q8_0, 32 * n) == Some(n * (2 + 32))
    ensures BytesFor(Q4K, 256 * n) == Some(n * (2 + 2 + 12 + 256 * 4 / 8))
    ensures BytesFor(Q5K, 256 * n) == Some(n * (2 + 2 + 12 + 256 * 4 / 8 + 256 / 8))
    ensures BytesFor(Q6K, 256 * n) == Some(n * (2 + 256 / 16 + 256 * 6 / 8))
  {
    Blocks(F32, 1, 4, n);
    Blocks(F16, 1, 2, n);
    Blocks(Bf16, 1, 2, n);
    Blocks(Q4_0, 32, 18, n);
    Blocks(Q8_0, 32, 34, n);
    Blocks(Q4K, 256, 144, n);
    Blocks(Q5K, 256, 176, n);
    Blocks(Q6K, 256, 210, n);
  }

  /** No part of a block. */
  lemma WholeBlocksOnly(n: nat)
    ensures (BytesFor(Q4_0, n).Some? <==> n % 32 == 0) && (BytesFor(Q8_0, n).Some? <==> n % 32 == 0)
    ensures (BytesFor(Q4K, n).Some? <==> n % 256 == 0) && (BytesFor(Q5K, n).Some? <==> n % 256 == 0)
    ensures BytesFor(Q6K, n).Some? <==> n % 256 == 0
  {
  }

  /** A type by its number in a file, and what 256 elements of it take; none for any other number. */
  function ByNumber(id: nat): Option<(TensorType, nat)> {
    if id == 0 then Some((F32, 1024)) else if id == 1 then Some((F16, 512))
    else if id == 2 then Some((Q4_0, 144)) else if id == 8 then Some((Q8_0, 272))
    else if id == 12 then Some((Q4K, 144)) else if id == 13 then Some((Q5K, 176))
    else if id == 14 then Some((Q6K, 210)) else if id == 30 then Some((Bf16, 512))
    else None
  }

  lemma FourSmall(x: Byte, rest: Bytes)
    ensures BitsFrom([x, 0, 0, 0] + rest, 4) == Got(x as nat, rest)
  {
    var b := [x, 0, 0, 0] + rest;
    assert b[..4] == [x, 0, 0, 0] && b[4..] == rest;
    LittleFour([x, 0, 0, 0]);
  }

  lemma EightSmall(x: Byte, y: Byte, rest: Bytes)
    ensures BitsFrom([x, y, 0, 0, 0, 0, 0, 0] + rest, 8) == Got(x as nat + 0x100 * y as nat, rest)
  {
    var n := [x, y, 0, 0, 0, 0, 0, 0];
    var b := n + rest;
    assert b[..8] == n && b[8..] == rest && n[4..] == [0, 0, 0, 0];
    LittleEight(n);
  }

  lemma OneDim(x: Byte, y: Byte, rest: Bytes)
    requires x != 0 || y != 0
    ensures DimsFrom([x, y, 0, 0, 0, 0, 0, 0] + rest, 1) == Got([x as nat + 0x100 * y as nat], rest)
  {
    var b := [x, y, 0, 0, 0, 0, 0, 0] + rest;
    EightSmall(x, y, rest);
    assert DimsFrom(b, 0) == Got([], b);
    assert [] + [x as nat + 0x100 * y as nat] == [x as nat + 0x100 * y as nat];
  }

  lemma CountOne(n: nat)
    requires n < U64
    ensures Count([n]) == n
  {
    assert [n][..0] == [] && Count([]) == 1;
    SmallMod(n, U64);
  }

  /** A directory entry past its name: one dimension of 256, a type's number, an offset of nothing. */
  lemma EntryOpens(name: Bytes, id: Byte, rest: Bytes)
    ensures ShapeFrom(name, [1, 0, 0, 0]
                            + ([0, 1, 0, 0, 0, 0, 0, 0] + ([id, 0, 0, 0] + ([0, 0, 0, 0, 0, 0, 0, 0] + rest))))
         == match ByNumber(id as nat)
            case None => Fail(UnsupportedType)
            case Some(known) => Got(Tensor(name, [256], known.0, 0, 256, known.1), rest)
  {
    var offset := [0, 0, 0, 0, 0, 0, 0, 0] + rest;
    var kind := [id, 0, 0, 0] + offset;
    FourSmall(1, [0, 1, 0, 0, 0, 0, 0, 0] + kind);
    OneDim(0, 1, kind);
    FourSmall(id, offset);
    EightSmall(0, 0, rest);
    CountOne(256);
    NumbersMean(id as nat);
  }

  lemma NumbersMean(id: nat)
    ensures match ByNumber(id)
            case None => TypeOf(id).None?
            case Some(known) => TypeOf(id) == Some(known.0) && BytesFor(known.0, 256) == Some(known.1)
  {
    BlockLayouts(1);
    BlockLayouts(8);
    BlockLayouts(256);
  }

  // ----- metadata values -----

  lemma Tagged(utf8: Bytes -> bool, tag: Byte, b: Bytes)
    ensures ValueFrom(utf8, [tag, 0, 0, 0] + b)
         == if tag == 9 then ManyFrom(utf8, b)
            else if KindOf(tag as nat).None? then Fail(UnknownValueType)
            else match ItemFrom(utf8, b, KindOf(tag as nat).value)
                 case Fail(error) => Fail(error)
                 case Got(item, rest) => Got(One(KindOf(tag as nat).value, item), rest)
  {
    FourSmall(tag, b);
  }

  /** The value a tag says follows, of the numbers and the truth values. */
  lemma TagsOpen(utf8: Bytes -> bool, tag: Byte, b: Bytes)
    requires |b| >= 8
    ensures var r := ValueFrom(utf8, [tag, 0, 0, 0] + b);
            && (tag == 0 ==> r == Got(One(Unsigned(1), Num(At(b, 0))), b[1..]))
            && (tag == 1 ==> r == Got(One(Signed(1), Num(At(b, 0))), b[1..]))
            && (tag == 2 ==> r == Got(One(Unsigned(2), Num(Two(b))), b[2..]))
            && (tag == 3 ==> r == Got(One(Signed(2), Num(Two(b))), b[2..]))
            && (tag == 4 ==> r == Got(One(Unsigned(4), Num(Four(b))), b[4..]))
            && (tag == 5 ==> r == Got(One(Signed(4), Num(Four(b))), b[4..]))
            && (tag == 6 ==> r == Got(One(Float(4), Num(Four(b))), b[4..]))
            && (tag == 7 ==> r == Got(One(Bool, Flag(b[0] != 0)), b[1..]))
            && (tag == 10 ==> r == Got(One(Unsigned(8), Num(Eight(b))), b[8..]))
            && (tag == 11 ==> r == Got(One(Signed(8), Num(Eight(b))), b[8..]))
            && (tag == 12 ==> r == Got(One(Float(8), Num(Eight(b))), b[8..]))
            && (tag > 12 ==> r == Fail(UnknownValueType))
  {
    Tagged(utf8, tag, b);
    NumbersAre(b);
  }

  /** A string is a length of eight bytes and so many bytes. */
  lemma TagOfStrings(utf8: Bytes -> bool, s: Bytes, rest: Bytes)
    requires |s| < 0x100 && utf8(s)
    ensures ValueFrom(utf8, [8, 0, 0, 0] + ([|s| as Byte, 0, 0, 0, 0, 0, 0, 0] + (s + rest)))
         == Got(One(String, Chars(s)), rest)
  {
    Tagged(utf8, 8, [|s| as Byte, 0, 0, 0, 0, 0, 0, 0] + (s + rest));
    EightSmall(|s| as Byte, 0, s + rest);
    TakePrints(s, rest);
  }

  /** An array is its items' tag, a count of eight bytes and the items; not of arrays. */
  lemma TagOfArrays(utf8: Bytes -> bool, tag: Byte, x: Byte, rest: Bytes)
    ensures var r := ValueFrom(utf8, [9, 0, 0, 0] + ([tag, 0, 0, 0] + ([1, 0, 0, 0, 0, 0, 0, 0] + ([x] + rest))));
            && (tag == 0 ==> r == Got(Many(Unsigned(1), [Num(x as nat)]), rest))
            && (tag == 9 ==> r == Fail(NestedArray))
            && (tag > 12 ==> r == Fail(UnknownValueType))
  {
    var items := [x] + rest;
    var count := [1, 0, 0, 0, 0, 0, 0, 0] + items;
    Tagged(utf8, 9, [tag, 0, 0, 0] + count);
    FourSmall(tag, count);
    EightSmall(1, 0, items);
    OneItem(utf8, x, rest);
  }

  lemma OneItem(utf8: Bytes -> bool, x: Byte, rest: Bytes)
    ensures ItemsFrom(utf8, [x] + rest, Unsigned(1), 1) == Got([Num(x as nat)], rest)
  {
    var items := [x] + rest;
    assert items[..1] == [x] && items[1..] == rest;
    LittleOne(x);
    assert ItemsFrom(utf8, items, Unsigned(1), 0) == Got([], items);
    assert [] + [Num(x as nat)] == [Num(x as nat)];
  }

  // ----- the header -----

  /** Four letters, the version, and two counts with their sign bits off. */
  lemma HeaderOpens(b: Bytes)
    requires |b| >= 24
    ensures HeaderFrom(b)
         == if b[..4] != [71, 71, 85, 70] then Fail(BadMagic)
            else if b[4..8] != [3, 0, 0, 0] then Fail(BadVersion)
            else if b[15] >= 128 || b[23] >= 128 then Fail(NegativeCount)
            else Got(Counts(Eight(b[8..]), Eight(b[16..])), b[24..])
  {
    Letters();
    NumbersAre(b[4..]);
    NumbersAre(b[8..]);
    NumbersAre(b[16..]);
    VersionIs(b[4..8]);
    assert b[4..][4..] == b[8..] && b[8..][8..] == b[16..] && b[16..][8..] == b[24..];
    assert Four(b[4..]) == Four(b[4..8]);
    SignBit(b[8..]);
    SignBit(b[16..]);
  }

  lemma Letters()
    ensures Ascii("GGUF") == [71, 71, 85, 70]
  {
  }

  lemma VersionIs(b: Bytes)
    requires |b| == 4
    ensures Four(b) == 3 <==> b == [3, 0, 0, 0]
  {
    if Four(b) == 3 {
      assert b[0] == 3 && b[1] == 0 && b[2] == 0 && b[3] == 0;
    }
  }

  /** A number of eight bytes is negative as the code reads it when its last byte has its top bit. */
  lemma SignBit(b: Bytes)
    requires |b| >= 8
    ensures Eight(b) >= 0x8000_0000_0000_0000 <==> b[7] >= 128
  {
    assert b[4..][3] == b[7];
  }

  /** No dimension is zero or negative, and there are four at most. */
  lemma DimensionsAre(name: Bytes, b: Bytes)
    requires |b| >= 8
    ensures Four(b) > 4 <==> ShapeFrom(name, b) == Fail(TooManyDimensions)
    ensures DimAfter([], b) == if Eight(b) == 0 || b[7] >= 128 then Fail(ZeroDimension) else Got([Eight(b)], b[8..])
  {
    NumbersAre(b);
    SignBit(b);
    assert [] + [Eight(b)] == [Eight(b)];
  }

  // ----- a whole file -----

  /** Metadata of no pairs and one tensor called `a`: 57 bytes. */
  function Head(id: Byte): (b: Bytes)
    ensures |b| == 57
  {
    [71, 71, 85, 70] + [3, 0, 0, 0] + [1, 0, 0, 0, 0, 0, 0, 0] + [0, 0, 0, 0, 0, 0, 0, 0]
    + [1, 0, 0, 0, 0, 0, 0, 0] + [97]
    + [1, 0, 0, 0] + [0, 1, 0, 0, 0, 0, 0, 0] + [id, 0, 0, 0] + [0, 0, 0, 0, 0, 0, 0, 0]
  }

  /** The head, as far as each reader takes it. */
  function FromName(id: Byte, rest: Bytes): Bytes {
    [1, 0, 0, 0, 0, 0, 0, 0] + ([97] + FromShape(id, rest))
  }

  function FromShape(id: Byte, rest: Bytes): Bytes {
    [1, 0, 0, 0] + ([0, 1, 0, 0, 0, 0, 0, 0] + ([id, 0, 0, 0] + ([0, 0, 0, 0, 0, 0, 0, 0] + rest)))
  }

  lemma HeadSplits(id: Byte, rest: Bytes)
    ensures var b := Head(id) + rest;
            && b[..4] == [71, 71, 85, 70] && b[4..8] == [3, 0, 0, 0] && b[8..16] == [1, 0, 0, 0, 0, 0, 0, 0]
            && b[16..24] == [0, 0, 0, 0, 0, 0, 0, 0] && b[24..] == FromName(id, rest)
  {
    var b, zeros: Bytes := Head(id) + rest, [0, 0, 0, 0, 0, 0, 0, 0];
    assert b[24..] == [1, 0, 0, 0, 0, 0, 0, 0] + [97] + [1, 0, 0, 0] + [0, 1, 0, 0, 0, 0, 0, 0] + [id, 0, 0, 0] + zeros
                      + rest;
    Nested([1, 0, 0, 0, 0, 0, 0, 0], [97], [1, 0, 0, 0], [0, 1, 0, 0, 0, 0, 0, 0], [id, 0, 0, 0], zeros, rest);
  }

  lemma Nested(a: Bytes, b: Bytes, c: Bytes, d: Bytes, e: Bytes, f: Bytes, g: Bytes)
    ensures a + b + c + d + e + f + g == a + (b + (c + (d + (e + (f + g)))))
  {
  }

  lemma HeadCounts(id: Byte, rest: Bytes)
    ensures HeaderFrom(Head(id) + rest) == Got(Counts(1, 0), FromName(id, rest))
  {
    var b := Head(id) + rest;
    HeadSplits(id, rest);
    HeaderOpens(b);
    EightOf(b[8..], 1);
    EightOf(b[16..], 0);
  }

  lemma EightOf(b: Bytes, x: Byte)
    requires |b| >= 8 && b[..8] == [x, 0, 0, 0, 0, 0, 0, 0]
    ensures Eight(b) == x as nat
  {
    assert forall i | 0 <= i < 8 :: b[i] == b[..8][i];
    assert forall i | 0 <= i < 4 :: b[4..][i] == b[4 + i];
  }

  lemma NameOpens(utf8: Bytes -> bool, id: Byte, rest: Bytes)
    requires utf8([97])
    ensures StringFrom(utf8, FromName(id, rest)) == Got([97], FromShape(id, rest))
  {
    EightSmall(1, 0, [97] + FromShape(id, rest));
    TakePrints([97], FromShape(id, rest));
  }

  /** The tensor `a` of 256 elements of a type. */
  function Lone(known: (TensorType, nat)): Tensor {
    Tensor([97], [256], known.0, 0, 256, known.1)
  }

  lemma LoneOpens(utf8: Bytes -> bool, id: Byte, known: (TensorType, nat), rest: Bytes)
    requires utf8([97]) && ByNumber(id as nat) == Some(known)
    ensures Gets(TensorsFrom(utf8, FromName(id, rest), 1), [Lone(known)], rest)
  {
    NameOpens(utf8, id, rest);
    EntryOpens([97], id, rest);
    assert TensorsFrom(utf8, FromName(id, rest), 0) == Got([], FromName(id, rest));
    assert [] + [Lone(known)] == [Lone(known)];
  }

  lemma LoneMeta(utf8: Bytes -> bool, id: Byte, known: (TensorType, nat), rest: Bytes)
    requires utf8([97]) && ByNumber(id as nat) == Some(known)
    ensures Gets(MetaFrom(utf8, Head(id) + rest), Meta(32, [], [Lone(known)]), rest)
  {
    HeadCounts(id, rest);
    LoneOpens(utf8, id, known, rest);
    NoPairs(utf8, FromName(id, rest), [Lone(known)], rest);
  }

  lemma NoPairs(utf8: Bytes -> bool, b: Bytes, tensors: seq<Tensor>, rest: Bytes)
    requires Gets(TensorsFrom(utf8, b, |tensors|), tensors, rest)
    ensures BodyFrom(utf8, Counts(|tensors|, 0), b) == Got(Meta(32, [], tensors), rest)
  {
    assert PairsFrom(utf8, b, 0) == Got([], b);
    NoneGiven();
  }

  lemma NoneGiven()
    ensures AlignmentOf(ValueOf([], ALIGNMENT_KEY)) == Got(32, [])
  {
  }

  lemma Aligned57()
    ensures DataOffset(32, 57) == 64
  {
    AlignUpIsLeast(57, 32);
  }

  /**
   * A file of one tensor: its bytes start at 64, the first multiple of 32 past the
   * metadata. It opens if they are all there, and those are the tensor's.
   */
  lemma LoneTensorFile(utf8: Bytes -> bool, id: Byte, known: (TensorType, nat), payload: Bytes)
    requires utf8([97]) && ByNumber(id as nat) == Some(known) && |payload| <= 0x1_0000
    ensures var data := Head(id) + ([0, 0, 0, 0, 0, 0, 0] + payload);
            if |payload| < known.1 then Open(utf8, data) == Err(OutOfBounds)
            else
              && Open(utf8, data) == Ok(File(Meta(32, [], [Lone(known)]), 64))
              && InPlace([Lone(known)], 64, |data|)
              && TensorBytes(File(Meta(32, [], [Lone(known)]), 64), data, [97]) == Some(payload[..known.1])
  {
    var rest := [0, 0, 0, 0, 0, 0, 0] + payload;
    LoneMeta(utf8, id, known, rest);
    Aligned57();
    LoneSettles(MetaFrom(utf8, Head(id) + rest), known, Head(id), payload);
  }

  lemma LoneSettles(r: Read<Meta>, known: (TensorType, nat), head: Bytes, payload: Bytes)
    requires DataOffset(32, 57) == 64 && |head| == 57 && |payload| <= 0x1_0000 && known.1 <= 1024
    requires Gets(r, Meta(32, [], [Lone(known)]), [0, 0, 0, 0, 0, 0, 0] + payload)
    ensures var data := head + ([0, 0, 0, 0, 0, 0, 0] + payload);
            if |payload| < known.1 then Settle(r, |data|) == Err(OutOfBounds)
            else
              && Settle(r, |data|) == Ok(File(Meta(32, [], [Lone(known)]), 64))
              && InPlace([Lone(known)], 64, |data|)
              && TensorBytes(File(Meta(32, [], [Lone(known)]), 64), data, [97]) == Some(payload[..known.1])
  {
    var data := head + ([0, 0, 0, 0, 0, 0, 0] + payload);
    assert |data| == 64 + |payload|;
    assert [Lone(known)][..0] == [];
    assert FirstMisplaced([Lone(known)], 64, |data|) == Misplaced(Lone(known), 64, |data|);
    if |payload| >= known.1 {
      assert data[64..64 + known.1] == payload[..known.1];
    }
  }

  // ----- an alignment of its own -----

  /** The alignment is the number under `general.alignment`, if there is one. */
  lemma AlignmentGiven(utf8: Bytes -> bool, n: nat, rest: Bytes)
    requires IsPowerOfTwo(n) && n < 0x1_0000_0000 && utf8(Ascii("general.alignment"))
    ensures var m := Meta(n, [Pair(Ascii("general.alignment"), One(Unsigned(4), Num(n)))], []);
            Gets(MetaFrom(utf8, PrintMeta(m) + rest), m, rest)
  {
    var pair := Pair(Ascii("general.alignment"), One(Unsigned(4), Num(n)));
    var m := Meta(n, [pair], []);
    Pows();
    assert |Ascii("general.alignment")| == 17;
    assert ValueOk(utf8, pair.value) && PairOk(utf8, pair);
    MetaPrints(utf8, m, rest);
  }
}
