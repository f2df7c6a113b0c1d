/**
 * Rotary positions of a prompt with images in it. The reference assigns them in
 * one sweep; prefill works a chunk at a time, from the placements alone.
 */
module Ropes {
  import opened Chains
  import opened Options

  datatype Triple = Triple(t: int, h: int, w: int)

  /** A text token's position: the same in every component. */
  function Scalar(p: int): Triple {
    Triple(p, p, p)
  }

  function Tokens(image: Placement): nat {
    image.gridH * image.gridW
  }

  /** How much of the sequence's time an image takes. */
  function Advance(image: Placement): nat {
    if image.gridH > image.gridW then image.gridH else image.gridW
  }

  // ----- placements -----

  predicate PlacedAt(images: seq<Placement>, n: nat, i: nat) {
    && i < |images| && images[i].gridH > 0 && images[i].gridW > 0
    && (i > 0 ==> End(images[i - 1]) <= images[i].start) && End(images[i]) <= n
  }

  /** Sorted, apart, with something in every grid, and inside the prompt. */
  predicate Placed(images: seq<Placement>, n: nat) {
    forall i | 0 <= i < |images| :: PlacedAt(images, n, i)
  }

  method ValidatePlacements(images: seq<Placement>, n: nat) returns (ok: bool)
    ensures ok <==> Placed(images, n)
  {
    var previousEnd := 0;
    for i := 0 to |images|
      invariant previousEnd == (if i == 0 then 0 else End(images[i - 1]))
      invariant forall j | 0 <= j < i :: PlacedAt(images, n, j)
    {
      var image := images[i];
      if image.gridH == 0 || image.gridW == 0 || image.start < previousEnd || End(image) > n {
        assert !PlacedAt(images, n, i);
        return false;
      }
      previousEnd := End(image);
    }
    return true;
  }

  lemma {:induction false} Apart(images: seq<Placement>, n: nat, i: nat, j: nat)
    requires Placed(images, n) && i < j < |images|
    ensures End(images[i]) <= images[j].start < End(images[j])
    decreases j
  {
    assert PlacedAt(images, n, j) && Tokens(images[j]) > 0;
    if i < j - 1 {
      Apart(images, n, i, j - 1);
    }
  }

  // ----- how far time lags behind the token index -----

  /** Every image wholly before `pos` counts. */
  function Delta(images: seq<Placement>, pos: nat): int {
    if images == [] then 0
    else
      var k := |images| - 1;
      Delta(images[..k], pos) + if End(images[k]) <= pos then Advance(images[k]) - Tokens(images[k]) else 0
  }

  method RopeDeltaAt(images: seq<Placement>, pos: nat) returns (delta: int)
    ensures delta == Delta(images, pos)
  {
    delta := 0;
    for i := 0 to |images|
      invariant delta == Delta(images[..i], pos)
    {
      assert images[..i + 1][..i] == images[..i];
      if End(images[i]) <= pos {
        delta := delta + (Advance(images[i]) - Tokens(images[i]));
      }
    }
    assert images[..|images|] == images;
  }

  /** The first `s` images are behind `pos`, and the rest are not. */
  predicate Past(images: seq<Placement>, s: nat, pos: nat) {
    s <= |images| && (s > 0 ==> End(images[s - 1]) <= pos) && (s < |images| ==> pos < End(images[s]))
  }

  /** The first `s` images together. */
  function Shift(images: seq<Placement>, s: nat): int
    requires s <= |images|
  {
    if s == 0 then 0 else Shift(images, s - 1) + Advance(images[s - 1]) - Tokens(images[s - 1])
  }

  lemma {:induction false} ShiftOfFirst(images: seq<Placement>, k: nat, s: nat)
    requires s <= k <= |images|
    ensures Shift(images[..k], s) == Shift(images, s)
    decreases s
  {
    if s > 0 {
      ShiftOfFirst(images, k, s - 1);
    }
  }

  lemma PlacedFirst(images: seq<Placement>, n: nat, k: nat)
    requires Placed(images, n) && k <= |images|
    ensures Placed(images[..k], n)
  {
    forall i | 0 <= i < k
      ensures PlacedAt(images[..k], n, i)
    {
      assert PlacedAt(images, n, i);
    }
  }

  lemma {:induction false} DeltaIsShift(images: seq<Placement>, n: nat, s: nat, pos: nat)
    requires Placed(images, n) && Past(images, s, pos)
    ensures Delta(images, pos) == Shift(images, s)
    decreases |images|
  {
    if images != [] {
      var k := |images| - 1;
      PlacedFirst(images, n, k);
      var t := if s > k then k else s;
      if s < k {
        Apart(images, n, s, k);
      }
      if s > k && k > 0 {
        Apart(images, n, k - 1, k);
      }
      DeltaIsShift(images[..k], n, t, pos);
      ShiftOfFirst(images, k, t);
    }
  }

  lemma {:induction false} SomePast(images: seq<Placement>, pos: nat, k: nat) returns (s: nat)
    requires k <= |images| && (k < |images| ==> pos < End(images[k]))
    ensures Past(images, s, pos)
    decreases k
  {
    if k == 0 || End(images[k - 1]) <= pos {
      s := k;
    } else {
      s := SomePast(images, pos, k - 1);
    }
  }

  // ----- the position of one token -----

  predicate Over(image: Placement, pos: nat) {
    image.start <= pos < End(image)
  }

  /** The first image over a token, or none. */
  function ImageAt(images: seq<Placement>, pos: nat, from: nat): (i: nat)
    requires from <= |images|
    ensures from <= i <= |images| && (i < |images| ==> Over(images[i], pos))
    ensures forall j | from <= j < i :: !Over(images[j], pos)
    decreases |images| - from
  {
    if from == |images| then |images|
    else if Over(images[from], pos) then from
    else ImageAt(images, pos, from + 1)
  }

  function At(images: seq<Placement>, pos: nat): Triple {
    var i := ImageAt(images, pos, 0);
    if i == |images| then Scalar(pos + Delta(images, pos))
    else
      var base, k := images[i].start + Delta(images, images[i].start), pos - images[i].start;
      assert images[i].gridW > 0;
      Triple(base, base + k / images[i].gridW, base + k % images[i].gridW)
  }

  function Positions(images: seq<Placement>, n: nat): seq<Triple> {
    seq(n, p requires 0 <= p < n => At(images, p))
  }

  /** Between two images, time goes on by one a token. */
  lemma TextAt(images: seq<Placement>, n: nat, s: nat, pos: nat)
    requires Placed(images, n) && Past(images, s, pos) && (s < |images| ==> pos < images[s].start)
    ensures ImageAt(images, pos, 0) == |images| && At(images, pos) == Scalar(pos + Shift(images, s))
  {
    DeltaIsShift(images, n, s, pos);
    forall j | 0 <= j < |images|
      ensures !Over(images[j], pos)
    {
      if j + 1 < s {
        Apart(images, n, j, s - 1);
      }
      if j > s {
        Apart(images, n, s, j);
      }
    }
  }

  /** Only one image is over a token. */
  lemma IndexAt(images: seq<Placement>, n: nat, s: nat, pos: nat)
    requires Placed(images, n) && s < |images| && Over(images[s], pos)
    ensures ImageAt(images, pos, 0) == s
  {
    forall j | 0 <= j < |images| && j != s
      ensures !Over(images[j], pos)
    {
      if j < s {
        Apart(images, n, j, s);
      } else {
        Apart(images, n, s, j);
      }
    }
  }

  lemma LagAtStart(images: seq<Placement>, n: nat, s: nat)
    requires Placed(images, n) && s < |images|
    ensures Delta(images, images[s].start) == Shift(images, s)
  {
    assert PlacedAt(images, n, s) && Tokens(images[s]) > 0;
    DeltaIsShift(images, n, s, images[s].start);
  }

  /** Inside an image, every token is rooted where the image began. */
  lemma SlotAt(images: seq<Placement>, n: nat, s: nat, pos: nat)
    requires Placed(images, n) && s < |images| && Over(images[s], pos)
    ensures images[s].gridW > 0
    ensures var base, k := images[s].start + Shift(images, s), pos - images[s].start;
            At(images, pos) == Triple(base, base + k / images[s].gridW, base + k % images[s].gridW)
  {
    assert PlacedAt(images, n, s);
    IndexAt(images, n, s, pos);
    LagAtStart(images, n, s);
  }

  // ----- the reference: one sweep -----

  /** Text up to position `to`, one step of time a token. */
  method TextRun(images: seq<Placement>, ghost n: nat, ghost s: nat, out: seq<Triple>, base: int, to: nat)
    returns (out': seq<Triple>, base': int)
    requires Placed(images, n) && s <= |images| && |out| <= to && (s > 0 ==> End(images[s - 1]) <= |out|)
    requires s < |images| ==> to <= images[s].start
    requires out == Positions(images, |out|) && base == |out| + Shift(images, s)
    ensures out' == Positions(images, to) && base' == to + Shift(images, s)
  {
    out', base' := out, base;
    while |out'| < to
      invariant |out| <= |out'| <= to && out' == Positions(images, |out'|) && base' == |out'| + Shift(images, s)
    {
      ghost var p := |out'|;
      if s < |images| {
        assert PlacedAt(images, n, s);
      }
      TextAt(images, n, s, p);
      out', base' := out' + [Scalar(base')], base' + 1;
    }
  }

  /** An image's grid, all of it rooted at the base it is entered at. */
  method Grid(images: seq<Placement>, ghost n: nat, s: nat, out: seq<Triple>, base: int) returns (out': seq<Triple>)
    requires Placed(images, n) && s < |images| && |out| == images[s].start
    requires out == Positions(images, |out|) && base == |out| + Shift(images, s)
    ensures out' == Positions(images, End(images[s]))
  {
    out' := out;
    var image := images[s];
    assert PlacedAt(images, n, s);
    for k := 0 to Tokens(image)
      invariant out' == Positions(images, image.start + k)
    {
      SlotAt(images, n, s, image.start + k);
      out' := out' + [Triple(base, base + k / image.gridW, base + k % image.gridW)];
    }
  }

  /** The whole sequence in order: its positions, and the base that decoding goes on from. */
  method AssignPositions(images: seq<Placement>, n: nat) returns (out: seq<Triple>, next: int)
    requires Placed(images, n)
    ensures out == Positions(images, n) && next == n + Delta(images, n)
  {
    out, next := [], 0;
    for s := 0 to |images|
      invariant |out| == (if s == 0 then 0 else End(images[s - 1])) <= n
      invariant out == Positions(images, |out|) && next == |out| + Shift(images, s)
    {
      assert PlacedAt(images, n, s);
      out, next := TextRun(images, n, s, out, next, images[s].start);
      out := Grid(images, n, s, out, next);
      next := next + Advance(images[s]);
    }
    out, next := TextRun(images, n, |images|, out, next, n);
    DeltaIsShift(images, n, |images|, n);
  }

  // ----- a chunk at a time -----

  function Flat(triples: seq<Triple>): (r: seq<int>)
    ensures |r| == 3 * |triples|
  {
    if triples == [] then []
    else
      var k := |triples| - 1;
      Flat(triples[..k]) + [triples[k].t, triples[k].h, triples[k].w]
  }

  /** The positions of one chunk. */
  function Chunk(images: seq<Placement>, start: nat, width: nat): (r: seq<Triple>)
    ensures |r| == width
  {
    seq(width, j requires 0 <= j < width => At(images, start + j))
  }

  lemma FlatMore(images: seq<Placement>, start: nat, width: nat)
    ensures var p := At(images, start + width);
            Flat(Chunk(images, start, width + 1)) == Flat(Chunk(images, start, width)) + [p.t, p.h, p.w]
  {
    assert Chunk(images, start, width + 1)[..width] == Chunk(images, start, width);
  }

  method FindImage(images: seq<Placement>, pos: nat) returns (i: nat)
    ensures i == ImageAt(images, pos, 0)
  {
    i := 0;
    while i < |images| && !Over(images[i], pos)
      invariant i <= |images| && ImageAt(images, pos, 0) == ImageAt(images, pos, i)
    {
      i := i + 1;
    }
  }

  method TripleAt(images: seq<Placement>, pos: nat) returns (p: Triple)
    ensures p == At(images, pos)
  {
    var i := FindImage(images, pos);
    if i < |images| {
      var delta := RopeDeltaAt(images, images[i].start);
      var base, k := images[i].start + delta, pos - images[i].start;
      assert images[i].gridW > 0;
      p := Triple(base, base + k / images[i].gridW, base + k % images[i].gridW);
    } else {
      var delta := RopeDeltaAt(images, pos);
      p := Scalar(pos + delta);
    }
  }

  /** A chunk's positions, three numbers a token, from the placements alone. */
  method FillTriples(images: seq<Placement>, start: nat, width: nat) returns (out: seq<int>)
    ensures out == Flat(Chunk(images, start, width))
  {
    out := [];
    for j := 0 to width
      invariant out == Flat(Chunk(images, start, j))
    {
      var p := TripleAt(images, start + j);
      FlatMore(images, start, j);
      out := out + [p.t, p.h, p.w];
    }
  }

  predicate Overlaps(images: seq<Placement>, start: nat, width: nat) {
    exists i | 0 <= i < |images| :: Meets(images[i], start, width)
  }

  predicate Meets(image: Placement, start: nat, width: nat) {
    image.start < start + width && start < End(image)
  }

  /** A chunk clear of images needs one number: the lag where it starts holds all through it. */
  lemma ScalarChunk(images: seq<Placement>, n: nat, start: nat, width: nat)
    requires Placed(images, n) && !Overlaps(images, start, width)
    ensures Chunk(images, start, width) == Steps(start, width, Delta(images, start))
  {
    var s := SomePast(images, start, |images|);
    DeltaIsShift(images, n, s, start);
    forall j | 0 <= j < width
      ensures Chunk(images, start, width)[j] == Scalar(start + j + Delta(images, start))
    {
      ClearAt(images, n, s, start, width, j);
    }
  }

  lemma ClearAt(images: seq<Placement>, n: nat, s: nat, start: nat, width: nat, j: nat)
    requires Placed(images, n) && !Overlaps(images, start, width) && Past(images, s, start) && j < width
    ensures At(images, start + j) == Scalar(start + j + Shift(images, s))
  {
    if s < |images| {
      assert PlacedAt(images, n, s) && !Meets(images[s], start, width);
    }
    TextAt(images, n, s, start + j);
  }

  /** One step of time a token, `delta` off the token index. */
  function Steps(start: nat, width: nat, delta: int): seq<Triple> {
    seq(width, j requires 0 <= j < width => Scalar(start + j + delta))
  }

  function Unflat(flat: seq<int>): (triples: seq<Triple>)
    requires |flat| % 3 == 0
  {
    if flat == [] then []
    else
      var k := |flat| - 3;
      Unflat(flat[..k]) + [Triple(flat[k], flat[k + 1], flat[k + 2])]
  }

  lemma {:induction false} UnflatFlat(triples: seq<Triple>)
    ensures Unflat(Flat(triples)) == triples
    decreases |triples|
  {
    if triples != [] {
      var k := |triples| - 1;
      UnflatFlat(triples[..k]);
      assert Flat(triples)[..3 * k] == Flat(triples[..k]);
      assert triples == triples[..k] + [triples[k]];
    }
  }

  /** What one pass rotates its tokens by: per-token positions over an image, one base elsewhere. */
  method ChunkPositions(images: seq<Placement>, ghost n: nat, start: nat, width: nat) returns (out: seq<Triple>)
    requires Placed(images, n)
    ensures out == Chunk(images, start, width)
  {
    var delta := RopeDeltaAt(images, start);
    if Overlaps(images, start, width) {
      var flat := FillTriples(images, start, width);
      UnflatFlat(Chunk(images, start, width));
      out := Unflat(flat);
    } else {
      ScalarChunk(images, n, start, width);
      out := Steps(start, width, delta);
    }
  }

  // ----- the rows of the images' embeddings -----

  /** Rows before image `i`'s. */
  function RowBase(images: seq<Placement>, i: nat): nat
    requires i <= |images|
  {
    if i == 0 then 0 else RowBase(images, i - 1) + Tokens(images[i - 1])
  }

  /** The row a token's embedding is replaced by, if it is an image's. */
  function RowAt(images: seq<Placement>, pos: nat): Option<nat> {
    var i := ImageAt(images, pos, 0);
    if i == |images| then None else Some(RowBase(images, i) + (pos - images[i].start))
  }

  function Rows(images: seq<Placement>, start: nat, width: nat): (r: seq<Option<nat>>)
    ensures |r| == width
  {
    seq(width, j requires 0 <= j < width => RowAt(images, start + j))
  }

  function Row(row: nat): Option<nat> {
    Some(row)
  }

  /** `count` rows from `row` on, laid over a chunk from `at` on. */
  function Staged(rows: seq<Option<nat>>, row: nat, at: nat, count: nat): (r: seq<Option<nat>>)
    requires at + count <= |rows|
    ensures |r| == |rows|
  {
    seq(|rows|, j requires 0 <= j < |rows| => if at <= j < at + count then Row(row + (j - at)) else rows[j])
  }

  /** Every token of a chunk has its row, if its image is among the first `i`. */
  ghost predicate StagedUpTo(images: seq<Placement>, i: nat, position: nat, rows: seq<Option<nat>>)
    requires i <= |images|
  {
    forall j | 0 <= j < |rows| :: StagedAt(images, i, position, rows, j)
  }

  ghost predicate StagedAt(images: seq<Placement>, i: nat, position: nat, rows: seq<Option<nat>>, j: nat) {
    j < |rows| && rows[j] == UpTo(images, i, position + j)
  }

  /** A token's row, if its image is among the first `i`. */
  function UpTo(images: seq<Placement>, i: nat, pos: nat): Option<nat> {
    if ImageAt(images, pos, 0) < i then RowAt(images, pos) else None
  }

  lemma UpToAll(images: seq<Placement>, pos: nat)
    ensures UpTo(images, |images|, pos) == RowAt(images, pos)
  {
  }

  lemma UpToMore(images: seq<Placement>, n: nat, i: nat, pos: nat)
    requires Placed(images, n) && i < |images|
    ensures UpTo(images, i + 1, pos)
         == if Over(images[i], pos) then Row(RowBase(images, i) + (pos - images[i].start)) else UpTo(images, i, pos)
  {
    if Over(images[i], pos) {
      IndexAt(images, n, i, pos);
    } else {
      assert ImageAt(images, pos, 0) != i;
    }
  }

  /** The part of an image a chunk holds: where it begins and ends. */
  function Later(a: nat, b: nat): nat {
    if a > b then a else b
  }

  function Earlier(a: nat, b: nat): nat {
    if a < b then a else b
  }

  /** One image's rows, where the chunk has any of it. */
  function StageOne(image: Placement, rowBase: nat, position: nat, rows: seq<Option<nat>>): seq<Option<nat>> {
    var begin, end := Later(image.start, position), Earlier(End(image), position + |rows|);
    if begin < end then Staged(rows, rowBase + (begin - image.start), begin - position, end - begin) else rows
  }

  lemma StageOneAt(image: Placement, rowBase: nat, position: nat, rows: seq<Option<nat>>, j: nat)
    requires j < |rows|
    ensures var more := StageOne(image, rowBase, position, rows);
            && |more| == |rows|
            && more[j] == if Over(image, position + j) then Row(rowBase + (position + j - image.start)) else rows[j]
  {
  }

  lemma StagesOneMore(images: seq<Placement>, n: nat, i: nat, position: nat, rows: seq<Option<nat>>)
    requires Placed(images, n) && i < |images| && StagedUpTo(images, i, position, rows)
    ensures var more := StageOne(images[i], RowBase(images, i), position, rows);
            |more| == |rows| && StagedUpTo(images, i + 1, position, more)
  {
    var next, more := i + 1, StageOne(images[i], RowBase(images, i), position, rows);
    forall j | 0 <= j < |rows|
      ensures StagedAt(images, next, position, more, j)
    {
      StagesAt(images, n, i, position, rows, j);
    }
  }

  lemma StagesAt(images: seq<Placement>, n: nat, i: nat, position: nat, rows: seq<Option<nat>>, j: nat)
    requires Placed(images, n) && i < |images| && j < |rows| && StagedAt(images, i, position, rows, j)
    ensures StagedAt(images, i + 1, position, StageOne(images[i], RowBase(images, i), position, rows), j)
  {
    StageOneAt(images[i], RowBase(images, i), position, rows, j);
    UpToMore(images, n, i, position + j);
  }

  /** The projector rows of one chunk, image by image. */
  method StageRows(images: seq<Placement>, ghost n: nat, position: nat, width: nat) returns (rows: seq<Option<nat>>)
    requires Placed(images, n)
    ensures rows == Rows(images, position, width)
  {
    rows := seq(width, _ => None);
    var rowBase := 0;
    for i := 0 to |images|
      invariant |rows| == width && rowBase == RowBase(images, i) && StagedUpTo(images, i, position, rows)
    {
      StagesOneMore(images, n, i, position, rows);
      rows := StageOne(images[i], rowBase, position, rows);
      rowBase := rowBase + Tokens(images[i]);
    }
    var all := Rows(images, position, width);
    forall j | 0 <= j < width
      ensures rows[j] == all[j]
    {
      assert StagedAt(images, |images|, position, rows, j);
      UpToAll(images, position + j);
      assert all[j] == RowAt(images, position + j);
    }
  }

  // ----- a whole prompt, however it is cut -----

  function Total(widths: seq<nat>): nat {
    if widths == [] then 0 else Total(widths[..|widths| - 1]) + widths[|widths| - 1]
  }

  /** Chunk after chunk, the positions are the reference's and every image token gets its row. */
  method PrefillPositions(images: seq<Placement>, widths: seq<nat>) returns (out: seq<Triple>, rows: seq<Option<nat>>)
    requires Placed(images, Total(widths))
    ensures out == Positions(images, Total(widths)) && rows == Rows(images, 0, Total(widths))
  {
    out, rows := [], [];
    var position := 0;
    for i := 0 to |widths|
      invariant position == Total(widths[..i]) && out == Positions(images, position)
      invariant rows == Rows(images, 0, position)
    {
      assert widths[..i + 1][..i] == widths[..i];
      var chunk := ChunkPositions(images, Total(widths), position, widths[i]);
      var staged := StageRows(images, Total(widths), position, widths[i]);
      out, rows := out + chunk, rows + staged;
      position := position + widths[i];
    }
    assert widths[..|widths|] == widths;
  }

  /** The reference and the chunked form agree, for every cut. */
  method CutsDoNotMatter(images: seq<Placement>, widths: seq<nat>) returns (whole: seq<Triple>, cut: seq<Triple>)
    requires Placed(images, Total(widths))
    ensures whole == cut == Positions(images, Total(widths))
  {
    var next, rows;
    whole, next := AssignPositions(images, Total(widths));
    cut, rows := PrefillPositions(images, widths);
  }

  // ----- what the positions and the rows keep -----

  lemma Order(w: nat, a: nat, b: nat)
    ensures a >= b ==> w * a >= w * b
  {
  }

  lemma InGrid(k: nat, h: nat, w: nat)
    requires k < h * w
    ensures w > 0 && k / w < h && k % w < w
  {
    assert w > 0;
    assert k == w * (k / w) + k % w;
    Order(w, k / w, h);
  }

  /** An image moves the base on by its advance. */
  lemma NextBase(images: seq<Placement>, n: nat, i: nat)
    requires Placed(images, n) && i < |images|
    ensures End(images[i]) + Delta(images, End(images[i]))
         == images[i].start + Delta(images, images[i].start) + Advance(images[i])
  {
    LagAtStart(images, n, i);
    if i + 1 < |images| {
      Apart(images, n, i, i + 1);
    }
    DeltaIsShift(images, n, i + 1, End(images[i]));
  }

  lemma Corner(base: int, k: nat, h: nat, w: nat, reach: nat)
    requires k < h * w && h <= reach && w <= reach
    ensures w > 0 && base <= base + k / w < base + reach && base <= base + k % w < base + reach
  {
    InGrid(k, h, w);
  }

  /** No component inside an image reaches the base of the token after it. */
  lemma BelowNext(images: seq<Placement>, n: nat, i: nat, pos: nat)
    requires Placed(images, n) && i < |images| && Over(images[i], pos)
    ensures var base := images[i].start + Delta(images, images[i].start);
            var next := End(images[i]) + Delta(images, End(images[i]));
            At(images, pos).t == base && base <= At(images, pos).h < next && base <= At(images, pos).w < next
  {
    var image, base := images[i], images[i].start + Delta(images, images[i].start);
    SlotAt(images, n, i, pos);
    LagAtStart(images, n, i);
    NextBase(images, n, i);
    Corner(base, pos - image.start, image.gridH, image.gridW, Advance(image));
  }

  /** And the last token of the image comes next to it. */
  lemma ReachesNext(images: seq<Placement>, n: nat, i: nat)
    requires Placed(images, n) && i < |images|
    ensures End(images[i]) > 0
    ensures var next, last := End(images[i]) + Delta(images, End(images[i])), At(images, End(images[i]) - 1);
            last.h == next - 1 || last.w == next - 1
  {
    assert PlacedAt(images, n, i) && Tokens(images[i]) > 0;
    SlotAt(images, n, i, End(images[i]) - 1);
    LagAtStart(images, n, i);
    NextBase(images, n, i);
    LastOfGrid(images[i].gridH, images[i].gridW);
  }

  lemma LastOfGrid(h: nat, w: nat)
    requires h > 0 && w > 0
    ensures h * w > 0 && (h * w - 1) / w == h - 1 && (h * w - 1) % w == w - 1
  {
    assert h * w - 1 == w * (h - 1) + (w - 1);
    DivMod(w, h - 1, w - 1);
  }

  lemma DivMod(w: nat, q: nat, r: nat)
    requires r < w
    ensures (w * q + r) / w == q && (w * q + r) % w == r
  {
    var x := w * q + r;
    assert x == w * (x / w) + x % w;
    Order(w, x / w, q + 1);
    Order(w, q, x / w + 1);
  }

  lemma {:induction false} RowBaseGrows(images: seq<Placement>, i: nat, j: nat)
    requires i < j <= |images|
    ensures RowBase(images, i) + Tokens(images[i]) <= RowBase(images, j)
    decreases j
  {
    if i < j - 1 {
      RowBaseGrows(images, i, j - 1);
    }
  }

  /** No two tokens share a row. */
  lemma RowsApart(images: seq<Placement>, n: nat, p: nat, q: nat)
    requires Placed(images, n) && p != q && RowAt(images, p).Some? && RowAt(images, q).Some?
    ensures RowAt(images, p) != RowAt(images, q)
  {
    var i, j := ImageAt(images, p, 0), ImageAt(images, q, 0);
    if i < j {
      RowBaseGrows(images, i, j);
    } else if j < i {
      RowBaseGrows(images, j, i);
    }
  }

  /** And every row goes to some token. */
  lemma {:induction false} RowsAllUsed(images: seq<Placement>, n: nat, r: nat, i: nat) returns (p: nat)
    requires Placed(images, n) && i <= |images| && r < RowBase(images, i)
    ensures p < n && RowAt(images, p) == Some(r)
    decreases i
  {
    if r < RowBase(images, i - 1) {
      p := RowsAllUsed(images, n, r, i - 1);
    } else {
      assert PlacedAt(images, n, i - 1);
      p := images[i - 1].start + (r - RowBase(images, i - 1));
      IndexAt(images, n, i - 1, p);
    }
  }
}
