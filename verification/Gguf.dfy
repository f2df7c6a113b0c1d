/**
 * The GGUF container, version 3: how its metadata and its tensor directory are
 * read off the bytes of a file, and how they are written.
 */
module Gguf {
  import opened Tools
  import opened Options
  import opened Division
  import opened GgufTypes

  datatype Error =
    | Eof | BadMagic | BadVersion | NegativeCount | NotUtf8 | UnknownValueType | NestedArray | DuplicateKey
    | BadAlignmentType | BadAlignment | DuplicateTensor | TooManyDimensions | ZeroDimension | UnsupportedType
    | PartBlock | OffsetOverflow | OutOfBounds

  /** What some bytes begin with and what is left of them, or why it cannot be read. */
  datatype Read<T> = Got(value: T, rest: Bytes) | Fail(error: Error) {
    predicate IsFailure() {
      Fail?
    }

    function PropagateFailure<U>(): Read<U>
      requires Fail?
    {
      Fail(error)
    }

    function Extract(): Read<T>
      requires Got?
    {
      this
    }
  }

  /** What came of reading, for a caller that only needs to know that. */
  datatype Result<T> = Ok(value: T) | Err(error: Error) {
    predicate IsFailure() {
      Err?
    }

    function PropagateFailure<U>(): Result<U>
      requires Err?
    {
      Err(error)
    }

    function Extract(): T
      requires Ok?
    {
      value
    }
  }

  ghost predicate Gets<T>(r: Read<T>, value: T, rest: Bytes) {
    r == Got(value, rest)
  }

  ghost predicate Fails<T>(r: Read<T>, error: Error) {
    r == Fail(error)
  }

  /** What is read without the `tail`: the same if none of it was needed, and otherwise nothing. */
  ghost predicate Cut<T>(whole: Read<T>, part: Read<T>, tail: Bytes) {
    whole.Got? ==>
      if |whole.rest| < |tail| then part == Fail(Eof)
      else part.Got? && part.value == whole.value && part.rest + tail == whole.rest
  }

  lemma Assoc(a: Bytes, b: Bytes, c: Bytes)
    ensures a + b + c == a + (b + c)
  {
  }

  lemma Snoc<T>(s: seq<T>)
    requires s != []
    ensures s[..|s| - 1] + [s[|s| - 1]] == s
  {
  }

  // ----- numbers -----

  function Pow(width: nat): (n: nat)
    ensures n > 0
  {
    if width == 0 then 1 else 256 * Pow(width - 1)
  }

  /** Little-endian. */
  function Little(bytes: Bytes): (n: nat)
    ensures n < Pow(|bytes|)
  {
    if bytes == [] then 0 else bytes[0] as nat + 256 * Little(bytes[1..])
  }

  function Digit(n: nat, i: nat): Byte {
    (n / Pow(i) % 256) as Byte
  }

  function Spell(n: nat, width: nat): (bytes: Bytes)
    ensures |bytes| == width
  {
    seq(width, i requires 0 <= i < width => Digit(n, i))
  }

  lemma DigitShifts(n: nat, i: nat)
    ensures Digit(n, i + 1) == Digit(n / 256, i)
  {
    DivTwice(n, 256, Pow(i));
  }

  lemma {:induction false} SpellReads(n: nat, width: nat)
    requires n < Pow(width)
    ensures Little(Spell(n, width)) == n
    decreases width
  {
    if width > 0 {
      SpellReads(n / 256, width - 1);
      assert Spell(n, width)[1..] == Spell(n / 256, width - 1) by {
        forall i | 0 <= i < width - 1
          ensures Spell(n, width)[1..][i] == Spell(n / 256, width - 1)[i]
        {
          DigitShifts(n, i);
        }
      }
      assert Pow(0) == 1 && Digit(n, 0) as nat == n % 256;
    }
  }

  function TakeFrom(b: Bytes, n: nat): (r: Read<Bytes>)
    ensures r.Got? ==> |r.value| == n && |r.rest| + n == |b|
  {
    if n > |b| then Fail(Eof) else Got(b[..n], b[n..])
  }

  lemma TakeCut(c: Bytes, tail: Bytes, n: nat)
    ensures Cut(TakeFrom(c + tail, n), TakeFrom(c, n), tail)
  {
    if n <= |c| {
      assert (c + tail)[..n] == c[..n] && (c + tail)[n..] == c[n..] + tail;
    }
  }

  lemma TakePrints(bytes: Bytes, rest: Bytes)
    ensures Gets(TakeFrom(bytes + rest, |bytes|), bytes, rest)
  {
  }

  function BitsFrom(b: Bytes, width: nat): (r: Read<nat>)
    ensures r.Got? ==> |r.rest| + width == |b| && r.value < Pow(width)
  {
    var bytes :- TakeFrom(b, width);
    Got(Little(bytes.value), bytes.rest)
  }

  lemma BitsCut(c: Bytes, tail: Bytes, width: nat)
    ensures Cut(BitsFrom(c + tail, width), BitsFrom(c, width), tail)
  {
    TakeCut(c, tail, width);
  }

  lemma BitsPrint(k: nat, width: nat, rest: Bytes)
    requires k < Pow(width)
    ensures Gets(BitsFrom(Spell(k, width) + rest, width), k, rest)
  {
    SpellReads(k, width);
    TakePrints(Spell(k, width), rest);
  }

  // ----- strings -----

  /** A length and so many bytes, which must be UTF-8. */
  function StringFrom(utf8: Bytes -> bool, b: Bytes): (r: Read<Bytes>)
    ensures r.Got? ==> |r.rest| <= |b|
  {
    var length :- BitsFrom(b, 8);
    var bytes :- TakeFrom(length.rest, length.value);
    if utf8(bytes.value) then bytes else Fail(NotUtf8)
  }

  predicate StringOk(utf8: Bytes -> bool, s: Bytes) {
    |s| < Pow(8) && utf8(s)
  }

  function PrintString(s: Bytes): Bytes {
    Spell(|s|, 8) + s
  }

  lemma StringCut(utf8: Bytes -> bool, c: Bytes, tail: Bytes)
    ensures Cut(StringFrom(utf8, c + tail), StringFrom(utf8, c), tail)
  {
    BitsCut(c, tail, 8);
    var length := BitsFrom(c, 8);
    if length.Got? {
      TakeCut(length.rest, tail, length.value);
    }
  }

  lemma StringPrints(utf8: Bytes -> bool, s: Bytes, rest: Bytes)
    requires StringOk(utf8, s)
    ensures Gets(StringFrom(utf8, PrintString(s) + rest), s, rest)
  {
    Assoc(Spell(|s|, 8), s, rest);
    BitsPrint(|s|, 8, s + rest);
    TakePrints(s, rest);
  }

  // ----- values -----

  datatype Kind = Unsigned(width: nat) | Signed(width: nat) | Float(width: nat) | Bool | String

  /** A number by its bits, whatever they stand for. */
  datatype Item = Num(bits: nat) | Flag(on: bool) | Chars(bytes: Bytes)

  datatype Value = One(kind: Kind, item: Item) | Many(kind: Kind, items: seq<Item>)

  const ARRAY: nat := 9

  function KindOf(tag: nat): Option<Kind> {
    match tag
    case 0 => Some(Unsigned(1))
    case 1 => Some(Signed(1))
    case 2 => Some(Unsigned(2))
    case 3 => Some(Signed(2))
    case 4 => Some(Unsigned(4))
    case 5 => Some(Signed(4))
    case 6 => Some(Float(4))
    case 7 => Some(Bool)
    case 8 => Some(String)
    case 10 => Some(Unsigned(8))
    case 11 => Some(Signed(8))
    case 12 => Some(Float(8))
    case _ => None
  }

  /** The tag a kind is written with. */
  function TagOf(kind: Kind): (tag: nat)
    ensures (KindOf(tag) == Some(kind) || KindOf(tag) == None) && tag <= 13 && tag != ARRAY
  {
    match kind
    case Bool => 7
    case String => 8
    case Unsigned(w) => if w == 1 then 0 else if w == 2 then 2 else if w == 4 then 4 else if w == 8 then 10 else 13
    case Signed(w) => if w == 1 then 1 else if w == 2 then 3 else if w == 4 then 5 else if w == 8 then 11 else 13
    case Float(w) => if w == 4 then 6 else if w == 8 then 12 else 13
  }

  function Width(kind: Kind): nat {
    match kind
    case Bool => 1
    case String => 0
    case _ => kind.width
  }

  function ItemFrom(utf8: Bytes -> bool, b: Bytes, kind: Kind): (r: Read<Item>)
    ensures r.Got? ==> |r.rest| <= |b|
  {
    if kind.String? then
      var s :- StringFrom(utf8, b);
      Got(Chars(s.value), s.rest)
    else
      var bits :- BitsFrom(b, Width(kind));
      Got(if kind.Bool? then Flag(bits.value != 0) else Num(bits.value), bits.rest)
  }

  predicate ItemOk(utf8: Bytes -> bool, kind: Kind, item: Item) {
    match kind
    case String => item.Chars? && StringOk(utf8, item.bytes)
    case Bool => item.Flag?
    case _ => item.Num? && item.bits < Pow(kind.width)
  }

  function PrintItem(kind: Kind, item: Item): Bytes {
    match item
    case Chars(s) => PrintString(s)
    case Flag(on) => Spell(if on then 1 else 0, 1)
    case Num(bits) => Spell(bits, Width(kind))
  }

  lemma ItemCut(utf8: Bytes -> bool, c: Bytes, tail: Bytes, kind: Kind)
    ensures Cut(ItemFrom(utf8, c + tail, kind), ItemFrom(utf8, c, kind), tail)
  {
    StringCut(utf8, c, tail);
    BitsCut(c, tail, Width(kind));
  }

  lemma ItemPrints(utf8: Bytes -> bool, kind: Kind, item: Item, rest: Bytes)
    requires ItemOk(utf8, kind, item)
    ensures Gets(ItemFrom(utf8, PrintItem(kind, item) + rest, kind), item, rest)
  {
    match item
    case Chars(s) => StringPrints(utf8, s, rest);
    case Flag(on) =>
      assert Pow(1) == 256 * Pow(0);
      BitsPrint(if on then 1 else 0, 1, rest);
    case Num(bits) => BitsPrint(bits, Width(kind), rest);
  }

  function ItemAfter(utf8: Bytes -> bool, kind: Kind, before: seq<Item>, b: Bytes): (r: Read<seq<Item>>)
    ensures r.Got? ==> |r.rest| <= |b|
  {
    var item :- ItemFrom(utf8, b, kind);
    Got(before + [item.value], item.rest)
  }

  function NextItem(utf8: Bytes -> bool, kind: Kind, items: Read<seq<Item>>): Read<seq<Item>> {
    if items.Fail? then Fail(items.error) else ItemAfter(utf8, kind, items.value, items.rest)
  }

  /** The first `n` of an array's items. */
  function ItemsFrom(utf8: Bytes -> bool, b: Bytes, kind: Kind, n: nat): (r: Read<seq<Item>>)
    ensures r.Got? ==> |r.rest| <= |b|
    decreases n
  {
    if n == 0 then Got([], b) else NextItem(utf8, kind, ItemsFrom(utf8, b, kind, n - 1))
  }

  function PrintItems(kind: Kind, items: seq<Item>): Bytes {
    if items == [] then []
    else PrintItems(kind, items[..|items| - 1]) + PrintItem(kind, items[|items| - 1])
  }

  predicate ItemsOk(utf8: Bytes -> bool, kind: Kind, items: seq<Item>) {
    forall i | 0 <= i < |items| :: ItemOk(utf8, kind, items[i])
  }

  lemma NextItemCut(utf8: Bytes -> bool, kind: Kind, whole: Read<seq<Item>>, part: Read<seq<Item>>, tail: Bytes)
    requires Cut(whole, part, tail)
    ensures Cut(NextItem(utf8, kind, whole), NextItem(utf8, kind, part), tail)
  {
    if part.Got? {
      ItemCut(utf8, part.rest, tail, kind);
    }
  }

  lemma {:induction false} ItemsCut(utf8: Bytes -> bool, c: Bytes, tail: Bytes, kind: Kind, n: nat)
    ensures Cut(ItemsFrom(utf8, c + tail, kind, n), ItemsFrom(utf8, c, kind, n), tail)
    decreases n
  {
    if n > 0 {
      ItemsCut(utf8, c, tail, kind, n - 1);
      NextItemCut(utf8, kind, ItemsFrom(utf8, c + tail, kind, n - 1), ItemsFrom(utf8, c, kind, n - 1), tail);
    }
  }

  lemma NextItemPrints(utf8: Bytes -> bool, kind: Kind, r: Read<seq<Item>>, before: seq<Item>, item: Item, rest: Bytes)
    requires Gets(r, before, PrintItem(kind, item) + rest) && ItemOk(utf8, kind, item)
    ensures Gets(NextItem(utf8, kind, r), before + [item], rest)
  {
    ItemPrints(utf8, kind, item, rest);
  }

  lemma {:induction false} ItemsPrint(utf8: Bytes -> bool, kind: Kind, items: seq<Item>, rest: Bytes)
    requires ItemsOk(utf8, kind, items)
    ensures Gets(ItemsFrom(utf8, PrintItems(kind, items) + rest, kind, |items|), items, rest)
    decreases |items|
  {
    if items == [] {
      assert PrintItems(kind, items) + rest == rest;
    } else {
      var k := |items| - 1;
      var before, last := items[..k], items[k];
      Assoc(PrintItems(kind, before), PrintItem(kind, last), rest);
      ItemsPrint(utf8, kind, before, PrintItem(kind, last) + rest);
      NextItemPrints(utf8, kind, ItemsFrom(utf8, PrintItems(kind, items) + rest, kind, k), before, last, rest);
      Snoc(items);
    }
  }

  /** An array: its count is read before its items' tag is looked at. */
  function ManyFrom(utf8: Bytes -> bool, b: Bytes): (r: Read<Value>)
    ensures r.Got? ==> |r.rest| <= |b|
  {
    var inner :- BitsFrom(b, 4);
    var count :- BitsFrom(inner.rest, 8);
    if inner.value == ARRAY then Fail(NestedArray)
    else if KindOf(inner.value).None? then Fail(UnknownValueType)
    else
      var items :- ItemsFrom(utf8, count.rest, KindOf(inner.value).value, count.value);
      Got(Many(KindOf(inner.value).value, items.value), items.rest)
  }

  /** A tag and what it says follows. */
  function ValueFrom(utf8: Bytes -> bool, b: Bytes): (r: Read<Value>)
    ensures r.Got? ==> |r.rest| <= |b|
  {
    var tag :- BitsFrom(b, 4);
    if tag.value == ARRAY then ManyFrom(utf8, tag.rest)
    else if KindOf(tag.value).None? then Fail(UnknownValueType)
    else
      var item :- ItemFrom(utf8, tag.rest, KindOf(tag.value).value);
      Got(One(KindOf(tag.value).value, item.value), item.rest)
  }

  predicate ValueOk(utf8: Bytes -> bool, v: Value) {
    && KindOf(TagOf(v.kind)) == Some(v.kind)
    && match v
       case One(kind, item) => ItemOk(utf8, kind, item)
       case Many(kind, items) => |items| < Pow(8) && ItemsOk(utf8, kind, items)
  }

  function PrintMany(kind: Kind, items: seq<Item>): Bytes {
    Spell(TagOf(kind), 4) + (Spell(|items|, 8) + PrintItems(kind, items))
  }

  function PrintValue(v: Value): Bytes {
    match v
    case One(kind, item) => Spell(TagOf(kind), 4) + PrintItem(kind, item)
    case Many(kind, items) => Spell(ARRAY, 4) + PrintMany(kind, items)
  }

  lemma ManyCut(utf8: Bytes -> bool, c: Bytes, tail: Bytes)
    ensures Cut(ManyFrom(utf8, c + tail), ManyFrom(utf8, c), tail)
  {
    BitsCut(c, tail, 4);
    var inner := BitsFrom(c, 4);
    if inner.Got? {
      BitsCut(inner.rest, tail, 8);
      var count := BitsFrom(inner.rest, 8);
      if count.Got? && KindOf(inner.value).Some? {
        ItemsCut(utf8, count.rest, tail, KindOf(inner.value).value, count.value);
      }
    }
  }

  lemma ValueCut(utf8: Bytes -> bool, c: Bytes, tail: Bytes)
    ensures Cut(ValueFrom(utf8, c + tail), ValueFrom(utf8, c), tail)
  {
    BitsCut(c, tail, 4);
    var tag := BitsFrom(c, 4);
    if tag.Got? {
      ManyCut(utf8, tag.rest, tail);
      if KindOf(tag.value).Some? {
        ItemCut(utf8, tag.rest, tail, KindOf(tag.value).value);
      }
    }
  }

  lemma TagFits(tag: nat)
    requires tag <= 30
    ensures tag < Pow(4)
  {
    assert Pow(1) == 256 * Pow(0) && Pow(2) == 256 * Pow(1) && Pow(3) == 256 * Pow(2) && Pow(4) == 256 * Pow(3);
  }

  lemma ManyPrints(utf8: Bytes -> bool, kind: Kind, items: seq<Item>, rest: Bytes)
    requires ValueOk(utf8, Many(kind, items))
    ensures Gets(ManyFrom(utf8, PrintMany(kind, items) + rest), Many(kind, items), rest)
  {
    var tag, count, body := Spell(TagOf(kind), 4), Spell(|items|, 8), PrintItems(kind, items);
    Assoc(tag, count + body, rest);
    Assoc(count, body, rest);
    TagFits(TagOf(kind));
    BitsPrint(TagOf(kind), 4, count + (body + rest));
    BitsPrint(|items|, 8, body + rest);
    ItemsPrint(utf8, kind, items, rest);
  }

  lemma ValuePrints(utf8: Bytes -> bool, v: Value, rest: Bytes)
    requires ValueOk(utf8, v)
    ensures Gets(ValueFrom(utf8, PrintValue(v) + rest), v, rest)
  {
    TagFits(TagOf(v.kind));
    TagFits(ARRAY);
    match v
    case One(kind, item) =>
      Assoc(Spell(TagOf(kind), 4), PrintItem(kind, item), rest);
      BitsPrint(TagOf(kind), 4, PrintItem(kind, item) + rest);
      ItemPrints(utf8, kind, item, rest);
    case Many(kind, items) =>
      Assoc(Spell(ARRAY, 4), PrintMany(kind, items), rest);
      BitsPrint(ARRAY, 4, PrintMany(kind, items) + rest);
      ManyPrints(utf8, kind, items, rest);
  }
}
