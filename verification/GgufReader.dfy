/** The reader as it runs: a cursor that moves along a file's bytes, filling the tables as it goes. */
module GgufReader {
  import opened Tools
  import opened Options
  import opened GgufTypes
  import opened Gguf
  import opened GgufMeta
  import opened GgufFiles

  /** A call came to what reading the bytes comes to, and left the cursor where that leaves off. */
  ghost predicate Did<T>(read: Read<T>, r: Result<T>, rest: Bytes) {
    match read
    case Got(value, left) => r == Ok(value) && rest == left
    case Fail(error) => r == Err(error)
  }

  class Cursor {
    const data: Bytes
    const utf8: Bytes -> bool
    var pos: nat

    ghost predicate Valid()
      reads this
    {
      pos <= |data|
    }

    ghost function Rest(): Bytes
      requires Valid()
      reads this
    {
      data[pos..]
    }

    constructor (utf8: Bytes -> bool, data: Bytes)
      ensures Valid() && this.utf8 == utf8 && this.data == data && Rest() == data
    {
      this.utf8, this.data, pos := utf8, data, 0;
    }

    method Take(n: nat) returns (r: Result<Bytes>)
      requires Valid()
      modifies `pos
      ensures Valid() && Did(TakeFrom(old(Rest()), n), r, Rest())
    {
      if n > |data| - pos {
        return Err(Eof);
      }
      r := Ok(data[pos..pos + n]);
      pos := pos + n;
      assert data[pos - n..][..n] == data[pos - n..pos] && data[pos - n..][n..] == data[pos..];
    }

    /** A number of so many bytes. */
    method Bits(width: nat) returns (r: Result<nat>)
      requires Valid()
      modifies `pos
      ensures Valid() && Did(BitsFrom(old(Rest()), width), r, Rest())
    {
      var bytes :- Take(width);
      r := Ok(Little(bytes));
    }

    method String() returns (r: Result<Bytes>)
      requires Valid()
      modifies `pos
      ensures Valid() && Did(StringFrom(utf8, old(Rest())), r, Rest())
    {
      var length :- Bits(8);
      var bytes :- Take(length);
      r := if utf8(bytes) then Ok(bytes) else Err(NotUtf8);
    }

    method Scalar(kind: Kind) returns (r: Result<Item>)
      requires Valid()
      modifies `pos
      ensures Valid() && Did(ItemFrom(utf8, old(Rest()), kind), r, Rest())
    {
      if kind.String? {
        var s :- String();
        r := Ok(Chars(s));
      } else {
        var bits :- Bits(Width(kind));
        r := Ok(if kind.Bool? then Flag(bits != 0) else Num(bits));
      }
    }

    method Array(kind: Kind, n: nat) returns (r: Result<seq<Item>>)
      requires Valid()
      modifies `pos
      ensures Valid() && Did(ItemsFrom(utf8, old(Rest()), kind, n), r, Rest())
    {
      ghost var start := Rest();
      var items := [];
      for i := 0 to n
        invariant Valid() && ItemsFrom(utf8, start, kind, i) == Got(items, Rest())
      {
        var item := Scalar(kind);
        if item.Err? {
          ItemsStopped(utf8, start, kind, i + 1, n, item.error);
          return Err(item.error);
        }
        items := items + [item.value];
      }
      r := Ok(items);
    }

    method TypedValue() returns (r: Result<Value>)
      requires Valid()
      modifies `pos
      ensures Valid() && Did(ValueFrom(utf8, old(Rest())), r, Rest())
    {
      var tag :- Bits(4);
      if tag == ARRAY {
        r := ArrayValue();
      } else if KindOf(tag).None? {
        r := Err(UnknownValueType);
      } else {
        var item :- Scalar(KindOf(tag).value);
        r := Ok(One(KindOf(tag).value, item));
      }
    }

    method ArrayValue() returns (r: Result<Value>)
      requires Valid()
      modifies `pos
      ensures Valid() && Did(ManyFrom(utf8, old(Rest())), r, Rest())
    {
      var inner :- Bits(4);
      var count :- Bits(8);
      if inner == ARRAY {
        r := Err(NestedArray);
      } else if KindOf(inner).None? {
        r := Err(UnknownValueType);
      } else {
        var items :- Array(KindOf(inner).value, count);
        r := Ok(Many(KindOf(inner).value, items));
      }
    }

    method OnePair() returns (r: Result<Pair>)
      requires Valid()
      modifies `pos
      ensures Valid() && Did(PairFrom(utf8, old(Rest())), r, Rest())
    {
      var key :- String();
      var value :- TypedValue();
      r := Ok(Pair(key, value));
    }

    /** The metadata, by key. */
    method Metadata(n: nat) returns (r: Result<map<Bytes, Value>>, ghost pairs: seq<Pair>)
      requires Valid()
      modifies `pos
      ensures Valid() && Did(PairsFrom(utf8, old(Rest()), n), if r.Ok? then Ok(pairs) else Err(r.error), Rest())
      ensures r.Ok? ==> r.value == MapOf(pairs)
    {
      ghost var start := Rest();
      var metadata := map[];
      pairs := [];
      for i := 0 to n
        invariant Valid() && PairsRead(utf8, start, i, pairs, Rest()) && metadata == MapOf(pairs)
      {
        ghost var before := Rest();
        var pair := OnePair();
        PairCame(utf8, start, i, pairs, before, pair, Rest());
        MapHasKeys(pairs);
        if pair.Err? || pair.value.key in metadata {
          var error := if pair.Err? then pair.error else DuplicateKey;
          PairsStopped(utf8, start, i + 1, n, error);
          return Err(error), pairs;
        }
        MapMore(pairs, pair.value);
        metadata, pairs := metadata[pair.value.key := pair.value.value], pairs + [pair.value];
      }
      r := Ok(metadata);
    }

    method Dims(n: nat) returns (r: Result<seq<nat>>)
      requires Valid()
      modifies `pos
      ensures Valid() && Did(DimsFrom(old(Rest()), n), r, Rest())
    {
      ghost var start := Rest();
      var dims := [];
      for i := 0 to n
        invariant Valid() && DimsFrom(start, i) == Got(dims, Rest())
      {
        var d := Bits(8);
        if d.Err? || d.value == 0 || d.value >= I64_SIGN {
          var error := if d.Err? then d.error else ZeroDimension;
          DimsStopped(start, i + 1, n, error);
          return Err(error);
        }
        dims := dims + [d.value];
      }
      r := Ok(dims);
    }

    method Shape(name: Bytes) returns (r: Result<Tensor>)
      requires Valid()
      modifies `pos
      ensures Valid() && Did(ShapeFrom(name, old(Rest())), r, Rest())
    {
      var n :- Bits(4);
      if n > MAX_DIMS {
        return Err(TooManyDimensions);
      }
      var dims :- Dims(n);
      var id :- Bits(4);
      if TypeOf(id).None? {
        return Err(UnsupportedType);
      }
      var offset :- Bits(8);
      var ty, elements := TypeOf(id).value, Count(dims);
      if BytesFor(ty, elements).None? {
        return Err(PartBlock);
      }
      r := Ok(Tensor(name, dims, ty, offset, elements, BytesFor(ty, elements).value));
    }

    method OneTensor(seen: set<Bytes>, ghost before: seq<Tensor>) returns (r: Result<Tensor>)
      requires Valid() && seen == Names(before)
      modifies `pos
      ensures Valid()
      ensures Did(TensorAfter(utf8, before, old(Rest())),
                  if r.Ok? then Ok(before + [r.value]) else Err(r.error), Rest())
    {
      var name :- String();
      if name in seen {
        return Err(DuplicateTensor);
      }
      r := Shape(name);
    }

    method Directory(n: nat) returns (r: Result<seq<Tensor>>)
      requires Valid()
      modifies `pos
      ensures Valid() && Did(TensorsFrom(utf8, old(Rest()), n), r, Rest())
    {
      ghost var start := Rest();
      var tensors, seen := [], {};
      for i := 0 to n
        invariant Valid() && TensorsRead(utf8, start, i, tensors, Rest()) && seen == Names(tensors)
      {
        ghost var before := Rest();
        var tensor := OneTensor(seen, tensors);
        TensorCame(utf8, start, i, tensors, before, tensor, Rest());
        if tensor.Err? {
          TensorsStopped(utf8, start, i + 1, n, tensor.error);
          return Err(tensor.error);
        }
        NamesMore(tensors, tensor.value);
        tensors, seen := tensors + [tensor.value], seen + {tensor.value.name};
      }
      r := Ok(tensors);
    }

    method Header() returns (r: Result<Counts>)
      requires Valid()
      modifies `pos
      ensures Valid() && Did(HeaderFrom(old(Rest())), r, Rest())
    {
      var magic :- Take(4);
      if magic != MAGIC {
        return Err(BadMagic);
      }
      var version :- Bits(4);
      if version != VERSION {
        return Err(BadVersion);
      }
      var tensors :- Bits(8);
      if tensors >= I64_SIGN {
        return Err(NegativeCount);
      }
      var pairs :- Bits(8);
      if pairs >= I64_SIGN {
        return Err(NegativeCount);
      }
      r := Ok(Counts(tensors, pairs));
    }
  }

  // ----- an error is final -----

  lemma {:induction false} ItemsStopped(utf8: Bytes -> bool, b: Bytes, kind: Kind, i: nat, n: nat, error: Error)
    requires i <= n && Fails(ItemsFrom(utf8, b, kind, i), error)
    ensures Fails(ItemsFrom(utf8, b, kind, n), error)
    decreases n
  {
    if i < n {
      ItemsStopped(utf8, b, kind, i, n - 1, error);
    }
  }

  ghost predicate PairsRead(utf8: Bytes -> bool, b: Bytes, i: nat, pairs: seq<Pair>, rest: Bytes) {
    PairsFrom(utf8, b, i) == Got(pairs, rest)
  }

  lemma PairCame(utf8: Bytes -> bool, b: Bytes, i: nat, pairs: seq<Pair>, before: Bytes, r: Result<Pair>, rest: Bytes)
    requires PairsRead(utf8, b, i, pairs, before) && Did(PairFrom(utf8, before), r, rest)
    ensures r.Err? ==> Fails(PairsFrom(utf8, b, i + 1), r.error)
    ensures r.Ok? && r.value.key in Keys(pairs) ==> Fails(PairsFrom(utf8, b, i + 1), DuplicateKey)
    ensures r.Ok? && r.value.key !in Keys(pairs) ==> PairsRead(utf8, b, i + 1, pairs + [r.value], rest)
  {
    assert PairsFrom(utf8, b, i + 1) == PairAfter(utf8, pairs, before);
  }

  lemma {:induction false} PairsStopped(utf8: Bytes -> bool, b: Bytes, i: nat, n: nat, error: Error)
    requires i <= n && Fails(PairsFrom(utf8, b, i), error)
    ensures Fails(PairsFrom(utf8, b, n), error)
    decreases n
  {
    if i < n {
      PairsStopped(utf8, b, i, n - 1, error);
    }
  }

  lemma {:induction false} DimsStopped(b: Bytes, i: nat, n: nat, error: Error)
    requires i <= n && Fails(DimsFrom(b, i), error)
    ensures Fails(DimsFrom(b, n), error)
    decreases n
  {
    if i < n {
      DimsStopped(b, i, n - 1, error);
    }
  }

  ghost predicate TensorsRead(utf8: Bytes -> bool, b: Bytes, i: nat, tensors: seq<Tensor>, rest: Bytes) {
    TensorsFrom(utf8, b, i) == Got(tensors, rest)
  }

  lemma TensorCame(utf8: Bytes -> bool, b: Bytes, i: nat, tensors: seq<Tensor>, before: Bytes, r: Result<Tensor>,
                   rest: Bytes)
    requires TensorsRead(utf8, b, i, tensors, before)
    requires Did(TensorAfter(utf8, tensors, before), if r.Ok? then Ok(tensors + [r.value]) else Err(r.error), rest)
    ensures r.Err? ==> Fails(TensorsFrom(utf8, b, i + 1), r.error)
    ensures r.Ok? ==> TensorsRead(utf8, b, i + 1, tensors + [r.value], rest)
  {
    assert TensorsFrom(utf8, b, i + 1) == TensorAfter(utf8, tensors, before);
  }

  lemma {:induction false} TensorsStopped(utf8: Bytes -> bool, b: Bytes, i: nat, n: nat, error: Error)
    requires i <= n && Fails(TensorsFrom(utf8, b, i), error)
    ensures Fails(TensorsFrom(utf8, b, n), error)
    decreases n
  {
    if i < n {
      TensorsStopped(utf8, b, i, n - 1, error);
    }
  }

  lemma NamesMore(tensors: seq<Tensor>, t: Tensor)
    ensures Names(tensors + [t]) == Names(tensors) + {t.name}
  {
    assert forall x :: x in tensors + [t] <==> x in tensors || x == t;
  }

  // ----- the metadata as a table -----

  ghost function MapOf(pairs: seq<Pair>): map<Bytes, Value> {
    if pairs == [] then map[]
    else MapOf(pairs[..|pairs| - 1])[pairs[|pairs| - 1].key := pairs[|pairs| - 1].value]
  }

  lemma MapMore(pairs: seq<Pair>, pair: Pair)
    ensures MapOf(pairs + [pair]) == MapOf(pairs)[pair.key := pair.value]
  {
    assert (pairs + [pair])[..|pairs|] == pairs;
  }

  lemma {:induction false} MapHasKeys(pairs: seq<Pair>)
    ensures MapOf(pairs).Keys == Keys(pairs)
  {
    if pairs != [] {
      var k := |pairs| - 1;
      MapHasKeys(pairs[..k]);
      Snoc(pairs);
      assert Keys(pairs) == Keys(pairs[..k]) + {pairs[k].key};
    }
  }

  /** Looking a key up in the table is looking it up among the pairs. */
  lemma {:induction false} MapGives(pairs: seq<Pair>, key: Bytes)
    ensures ValueOf(pairs, key) == if key in MapOf(pairs) then Some(MapOf(pairs)[key]) else None
  {
    if pairs != [] {
      MapGives(pairs[..|pairs| - 1], key);
    }
  }

  // ----- the whole file -----

  datatype Parsed = Parsed(alignment: nat, metadata: map<Bytes, Value>, tensors: seq<Tensor>, dataOffset: nat)

  ghost function TableOf(f: File): Parsed {
    Parsed(f.meta.alignment, MapOf(f.meta.pairs), f.meta.tensors, f.dataOffset)
  }

  /** What reading the metadata came to, with the pairs in a table. */
  ghost predicate Told(read: Read<Meta>, r: Result<Parsed>, rest: Bytes) {
    match read
    case Fail(error) => r == Err(error)
    case Got(m, left) => rest == left && r == Ok(Parsed(m.alignment, MapOf(m.pairs), m.tensors, 0))
  }

  /** Metadata, alignment and directory. */
  method Body(cursor: Cursor, counts: Counts, ghost b: Bytes) returns (r: Result<Parsed>)
    requires cursor.Valid() && b == cursor.Rest()
    modifies cursor`pos
    ensures cursor.Valid() && Told(BodyFrom(cursor.utf8, counts, b), r, cursor.Rest())
  {
    var metadata;
    ghost var pairs;
    metadata, pairs := cursor.Metadata(counts.pairs);
    if metadata.Err? {
      return Err(metadata.error);
    }
    MapGives(pairs, ALIGNMENT_KEY);
    var alignment := AlignmentOf(if ALIGNMENT_KEY in metadata.value then Some(metadata.value[ALIGNMENT_KEY]) else None);
    if alignment.Fail? {
      return Err(alignment.error);
    }
    var tensors := cursor.Directory(counts.tensors);
    if tensors.Err? {
      return Err(tensors.error);
    }
    r := Ok(Parsed(alignment.value, metadata.value, tensors.value, 0));
  }

  method Parse(cursor: Cursor, ghost b: Bytes) returns (r: Result<Parsed>)
    requires cursor.Valid() && b == cursor.Rest()
    modifies cursor`pos
    ensures cursor.Valid() && Told(MetaFrom(cursor.utf8, b), r, cursor.Rest())
  {
    var counts := cursor.Header();
    if counts.Err? {
      return Err(counts.error);
    }
    r := Body(cursor, counts.value, cursor.Rest());
  }

  /** The first tensor, in file order, that is not inside the file. */
  method CheckTensors(tensors: seq<Tensor>, dataOffset: nat, length: nat) returns (error: Option<Error>)
    ensures error == FirstMisplaced(tensors, dataOffset, length)
  {
    error := None;
    for i := 0 to |tensors|
      invariant error == FirstMisplaced(tensors[..i], dataOffset, length)
    {
      assert tensors[..i + 1][..i] == tensors[..i];
      if error.None? {
        error := Misplaced(tensors[i], dataOffset, length);
      }
    }
    assert tensors[..|tensors|] == tensors;
  }

  /** The tables a file stands for, or the first thing wrong with it. */
  ghost predicate Answers(file: Result<File>, r: Result<Parsed>) {
    match file
    case Ok(f) => r == Ok(TableOf(f))
    case Err(error) => r == Err(error)
  }

  /** Whatever was read, checking the tensors against the file's length settles it. */
  method Finish(r: Result<Parsed>, metaEnd: nat, length: nat, ghost read: Read<Meta>, ghost rest: Bytes)
    returns (r': Result<Parsed>)
    requires Told(read, r, rest) && metaEnd + |rest| == length
    ensures Answers(Settle(read, length), r')
  {
    r' := r;
    if r.Ok? {
      var offset := DataOffset(r.value.alignment, metaEnd);
      var error := CheckTensors(r.value.tensors, offset, length);
      r' := if error.Some? then Err(error.value) else Ok(r.value.(dataOffset := offset));
    }
  }

  /** Reading a file gives the tables that its bytes stand for, or refuses it for the first thing wrong with it. */
  method OpenFile(utf8: Bytes -> bool, data: Bytes) returns (r: Result<Parsed>)
    ensures Answers(Open(utf8, data), r)
  {
    var cursor := new Cursor(utf8, data);
    var parsed := Parse(cursor, data);
    r := Finish(parsed, cursor.pos, |data|, MetaFrom(utf8, data), cursor.Rest());
  }
}
