/** The rotary positions of a prompt with images, from each token to the next. */
module RopeLaws {
  import opened Division
  import opened Chains
  import opened Ropes

  /** No image is over a position. */
  predicate IsText(images: seq<Placement>, pos: nat) {
    forall i | 0 <= i < |images| :: !Covered(images[i], pos)
  }

  lemma TextIs(images: seq<Placement>, n: nat, pos: nat, s: nat)
    requires Placed(images, n) && IsText(images, pos) && Past(images, s, pos)
    ensures At(images, pos) == Scalar(pos + Shift(images, s))
  {
    TextAt(images, n, s, pos);
  }

  /** Text begins at nothing. */
  lemma FirstIsNothing(images: seq<Placement>, n: nat)
    requires Placed(images, n) && IsText(images, 0)
    ensures At(images, 0) == Triple(0, 0, 0)
  {
    if images != [] {
      assert PlacedAt(images, n, 0) && Tokens(images[0]) > 0;
    }
    TextIs(images, n, 0, 0);
  }

  /** From one text token to the next, every component goes on by one. */
  lemma TextGoesOn(images: seq<Placement>, n: nat, pos: nat)
    requires Placed(images, n) && IsText(images, pos) && IsText(images, pos + 1)
    ensures var p := At(images, pos);
            p == Triple(p.t, p.t, p.t) && At(images, pos + 1) == Triple(p.t + 1, p.t + 1, p.t + 1)
  {
    var s := SomePast(images, pos, |images|);
    TextIs(images, n, pos, s);
    if s < |images| {
      assert PlacedAt(images, n, s) && Tokens(images[s]) > 0;
      assert !Covered(images[s], pos) && !Covered(images[s], pos + 1);
    }
    TextIs(images, n, pos + 1, s);
  }

  /** An image's cells share its time; row and column count from there. */
  lemma CellsAre(images: seq<Placement>, n: nat, s: nat, r: nat, c: nat)
    requires Placed(images, n) && s < |images| && r < images[s].gridH && c < images[s].gridW
    ensures var b := At(images, images[s].start).t;
            && At(images, images[s].start) == Triple(b, b, b)
            && At(images, images[s].start + r * images[s].gridW + c) == Triple(b, b + r, b + c)
  {
    var image := images[s];
    InGrid(r, c, image.gridH, image.gridW);
    InGrid(0, 0, image.gridH, image.gridW);
    SlotAt(images, n, s, image.start);
    SlotAt(images, n, s, image.start + r * image.gridW + c);
  }

  lemma InGrid(r: nat, c: nat, h: nat, w: nat)
    requires r < h && c < w
    ensures r * w + c < h * w && (r * w + c) / w == r && (r * w + c) % w == c
  {
    ModIs(w, r, c);
    MulOrder(r + 1, h, w);
    assert (r + 1) * w == r * w + w;
  }

  lemma StartIs(images: seq<Placement>, n: nat, s: nat)
    requires Placed(images, n) && s < |images|
    ensures At(images, images[s].start).t == images[s].start + Shift(images, s)
  {
    assert PlacedAt(images, n, s) && Tokens(images[s]) > 0;
    SlotAt(images, n, s, images[s].start);
  }

  /** An image that begins a prompt begins at nothing. */
  lemma FirstImage(images: seq<Placement>, n: nat)
    requires Placed(images, n) && images != [] && images[0].start == 0
    ensures At(images, 0).t == 0
  {
    StartIs(images, n, 0);
  }

  /** An image behind text begins one further on. */
  lemma TextThenImage(images: seq<Placement>, n: nat, s: nat)
    requires Placed(images, n) && s < |images| && images[s].start > 0 && IsText(images, images[s].start - 1)
    ensures At(images, images[s].start).t == At(images, images[s].start - 1).t + 1
  {
    var pos := images[s].start - 1;
    assert PlacedAt(images, n, s);
    if s > 0 {
      assert PlacedAt(images, n, s - 1) && !Covered(images[s - 1], pos);
    }
    StartIs(images, n, s);
    TextIs(images, n, pos, s);
  }

  /** What follows an image, text or another, is as far on as the longer side of its grid. */
  lemma ImageThen(images: seq<Placement>, n: nat, s: nat)
    requires Placed(images, n) && s < |images|
    ensures var e, b := images[s].start + images[s].gridH * images[s].gridW, At(images, images[s].start).t;
            var longer := if images[s].gridH < images[s].gridW then images[s].gridW else images[s].gridH;
            && (IsText(images, e) ==> At(images, e) == Triple(b + longer, b + longer, b + longer))
            && (s + 1 < |images| && images[s + 1].start == e ==> At(images, e).t == b + longer)
  {
    var e := End(images[s]);
    StartIs(images, n, s);
    if IsText(images, e) {
      if s + 1 < |images| {
        assert PlacedAt(images, n, s + 1) && !Covered(images[s + 1], e);
      }
      TextIs(images, n, e, s + 1);
    }
    if s + 1 < |images| && images[s + 1].start == e {
      StartIs(images, n, s + 1);
    }
  }
}
