/**
 * Watching the output for a trigger. The output arrives a piece at a time, cut
 * wherever the tokenizer cut it; what matters is where in the whole of it the
 * constraint starts reading.
 */
module Watching {
  import opened Tools

  predicate Occurs(needle: Bytes, text: Bytes, at: nat) {
    needle != [] && at + |needle| <= |text| && text[at..at + |needle|] == needle
  }

  ghost predicate TriggerAt(triggers: seq<Bytes>, text: Bytes, at: nat) {
    exists trigger | trigger in triggers :: Occurs(trigger, text, at)
  }

  ghost predicate HasTrigger(triggers: seq<Bytes>, text: Bytes) {
    exists at: nat :: TriggerAt(triggers, text, at)
  }

  ghost predicate IsEarliest(triggers: seq<Bytes>, text: Bytes, at: nat) {
    TriggerAt(triggers, text, at) && forall b: nat | b < at :: !TriggerAt(triggers, text, b)
  }

  /** Where the earliest trigger starts. */
  ghost function Earliest(triggers: seq<Bytes>, text: Bytes): (at: nat)
    requires HasTrigger(triggers, text)
    ensures IsEarliest(triggers, text, at)
  {
    var some: nat :| TriggerAt(triggers, text, some);
    EarliestFrom(triggers, text, 0, some)
  }

  ghost function EarliestFrom(triggers: seq<Bytes>, text: Bytes, from: nat, some: nat): (at: nat)
    requires TriggerAt(triggers, text, some) && from <= some
    requires forall b: nat | b < from :: !TriggerAt(triggers, text, b)
    ensures IsEarliest(triggers, text, at)
    decreases some - from
  {
    if TriggerAt(triggers, text, from) then from else EarliestFrom(triggers, text, from + 1, some)
  }

  function Concat(pieces: seq<Bytes>): Bytes {
    if pieces == [] then [] else Concat(pieces[..|pieces| - 1]) + pieces[|pieces| - 1]
  }

  /** Still watching, or reading the output from one position on. */
  datatype Watch = Idle | Reading(at: nat)

  /** What a sequence of pieces leads to. */
  ghost function Watched(triggers: seq<Bytes>, pieces: seq<Bytes>): Watch {
    if pieces == [] then Idle
    else
      var before := Watched(triggers, pieces[..|pieces| - 1]);
      if before.Reading? then before
      else if HasTrigger(triggers, Concat(pieces)) then Reading(Earliest(triggers, Concat(pieces)))
      else Idle
  }

  // ----- how triggers sit in a growing text -----

  lemma OccursInPrefix(needle: Bytes, text: Bytes, n: nat, at: nat)
    requires n <= |text| && at + |needle| <= n
    ensures Occurs(needle, text[..n], at) <==> Occurs(needle, text, at)
  {
    assert text[..n][at..at + |needle|] == text[at..at + |needle|];
  }

  lemma TriggersStay(triggers: seq<Bytes>, text: Bytes, n: nat, at: nat)
    requires n <= |text| && TriggerAt(triggers, text[..n], at)
    ensures TriggerAt(triggers, text, at)
  {
    var trigger :| trigger in triggers && Occurs(trigger, text[..n], at);
    OccursInPrefix(trigger, text, n, at);
  }

  /** No trigger is longer than `longest`. */
  ghost predicate Within(triggers: seq<Bytes>, longest: nat) {
    forall trigger {:trigger trigger in triggers} | trigger in triggers :: |trigger| <= longest
  }

  /** The window kept while idle: every occurrence that is new with `piece` lies in it. */
  lemma WindowSees(triggers: seq<Bytes>, text: Bytes, piece: Bytes, longest: nat, cut: nat, at: nat)
    requires Within(triggers, longest)
    requires !HasTrigger(triggers, text) && cut <= |text| && (cut == 0 || |text| - cut >= longest - 1)
    ensures TriggerAt(triggers, text + piece, at) <==> cut <= at && TriggerAt(triggers, text[cut..] + piece, at - cut)
  {
    var whole, window := text + piece, text[cut..] + piece;
    assert whole[..|text|] == text;
    if TriggerAt(triggers, whole, at) {
      var trigger :| trigger in triggers && Occurs(trigger, whole, at);
      if at + |trigger| <= |text| {
        OccursInPrefix(trigger, whole, |text|, at);
        assert TriggerAt(triggers, text, at);
        assert false;
      }
      assert window[at - cut..at - cut + |trigger|] == whole[at..at + |trigger|];
      assert Occurs(trigger, window, at - cut);
    }
    if cut <= at && TriggerAt(triggers, window, at - cut) {
      var trigger :| trigger in triggers && Occurs(trigger, window, at - cut);
      assert window[at - cut..at - cut + |trigger|] == whole[at..at + |trigger|];
      assert Occurs(trigger, whole, at);
    }
  }

  // ----- independence of how the output was cut -----

  /** Armed exactly when the output so far contains a trigger, however it was cut. */
  lemma {:induction false} ArmedIff(triggers: seq<Bytes>, pieces: seq<Bytes>)
    ensures Watched(triggers, pieces).Reading? <==> HasTrigger(triggers, Concat(pieces))
    decreases |pieces|
  {
    if pieces == [] {
      assert forall at: nat, trigger :: !Occurs(trigger, [], at);
    } else {
      var k := |pieces| - 1;
      ArmedIff(triggers, pieces[..k]);
      if HasTrigger(triggers, Concat(pieces[..k])) {
        var at: nat :| TriggerAt(triggers, Concat(pieces[..k]), at);
        assert Concat(pieces)[..|Concat(pieces[..k])|] == Concat(pieces[..k]);
        TriggersStay(triggers, Concat(pieces), |Concat(pieces[..k])|, at);
      }
    }
  }

  /**
   * A trigger that another starts inside of, and that finishes first, is
   * pre-empted by a third one starting where it does and finishing no later.
   */
  ghost predicate Robust(triggers: seq<Bytes>) {
    forall outer, inner, p: nat | Overtaken(triggers, outer, inner, p) :: Preempted(triggers, outer, p + |inner|)
  }

  /** A trigger that starts inside another and finishes first. */
  ghost predicate Overtaken(triggers: seq<Bytes>, outer: Bytes, inner: Bytes, p: nat) {
    outer in triggers && inner in triggers && Occurs(inner, outer, p) && 0 < p && p + |inner| < |outer|
  }

  ghost predicate Preempted(triggers: seq<Bytes>, outer: Bytes, limit: nat) {
    exists head | head in triggers :: Occurs(head, outer, 0) && |head| <= limit
  }

  lemma OccursInside(outer: Bytes, text: Bytes, b: nat, inner: Bytes, at: nat)
    requires Occurs(outer, text, b) && Occurs(inner, text, at) && b <= at && at + |inner| <= b + |outer|
    ensures Occurs(inner, outer, at - b)
  {
    forall i | 0 <= i < |inner|
      ensures outer[at - b + i] == inner[i]
    {
      assert outer[at - b + i] == text[b..b + |outer|][at - b + i] == text[at..at + |inner|][i];
    }
    assert outer[at - b..at - b + |inner|] == inner;
  }

  /** A pre-empted trigger is seen by the time the inner one ends. */
  lemma OccursWithin(triggers: seq<Bytes>, text: Bytes, at: nat, outer: Bytes, limit: nat)
    requires Occurs(outer, text, at) && Preempted(triggers, outer, limit) && limit <= |outer|
    ensures TriggerAt(triggers, text[..at + limit], at)
  {
    var head :| head in triggers && Occurs(head, outer, 0) && |head| <= limit;
    var n := at + limit;
    assert text[..n][at..at + |head|] == text[at..at + |outer|][..|head|] == outer[0..|head|];
    assert Occurs(head, text[..n], at);
  }

  /** In a robust set, a trigger that starts before one already seen has been seen too. */
  lemma SeenAlready(triggers: seq<Bytes>, text: Bytes, n: nat, at: nat, inner: Bytes, b: nat, outer: Bytes)
    requires Robust(triggers) && n <= |text| && b < at && outer in triggers && inner in triggers
    requires Occurs(outer, text, b) && Occurs(inner, text[..n], at)
    ensures TriggerAt(triggers, text[..n], b)
  {
    if b + |outer| <= n {
      OccursInPrefix(outer, text, n, b);
    } else {
      var end := at + |inner|;
      OccursInPrefix(inner, text, n, at);
      OccursInside(outer, text, b, inner, at);
      assert Overtaken(triggers, outer, inner, at - b);
      OccursWithin(triggers, text, b, outer, end - b);
      assert text[..end] == text[..n][..end];
      TriggersStay(triggers, text[..n], end, b);
    }
  }

  /** In a robust set, the earliest start never moves as the text goes on. */
  lemma EarliestStays(triggers: seq<Bytes>, text: Bytes, n: nat, at: nat)
    requires Robust(triggers) && n <= |text| && IsEarliest(triggers, text[..n], at)
    ensures IsEarliest(triggers, text, at)
  {
    TriggersStay(triggers, text, n, at);
    var inner :| inner in triggers && Occurs(inner, text[..n], at);
    forall b: nat | b < at
      ensures !TriggerAt(triggers, text, b)
    {
      if TriggerAt(triggers, text, b) {
        var outer :| outer in triggers && Occurs(outer, text, b);
        SeenAlready(triggers, text, n, at, inner, b, outer);
      }
    }
  }

  /** For a robust set, reading starts at the earliest trigger of the whole output, however it was cut. */
  lemma {:induction false} ReadingIsEarliest(triggers: seq<Bytes>, pieces: seq<Bytes>)
    requires Robust(triggers) && Watched(triggers, pieces).Reading?
    ensures IsEarliest(triggers, Concat(pieces), Watched(triggers, pieces).at)
    decreases |pieces|
  {
    var k := |pieces| - 1;
    var before := Watched(triggers, pieces[..k]);
    if before.Reading? {
      ReadingIsEarliest(triggers, pieces[..k]);
      var n := |Concat(pieces[..k])|;
      assert Concat(pieces)[..n] == Concat(pieces[..k]);
      EarliestStays(triggers, Concat(pieces), n, before.at);
    }
  }

  /** Every way of cutting the same output arms at the same place. */
  ghost predicate CutsAgree(triggers: seq<Bytes>) {
    forall a: seq<Bytes>, b: seq<Bytes> | Concat(a) == Concat(b) :: Watched(triggers, a) == Watched(triggers, b)
  }

  lemma RobustAgree(triggers: seq<Bytes>, a: seq<Bytes>, b: seq<Bytes>)
    requires Robust(triggers) && Concat(a) == Concat(b)
    ensures Watched(triggers, a) == Watched(triggers, b)
  {
    ArmedIff(triggers, a);
    ArmedIff(triggers, b);
    if Watched(triggers, a).Reading? {
      ReadingIsEarliest(triggers, a);
      ReadingIsEarliest(triggers, b);
    }
  }

  lemma WatchedOne(triggers: seq<Bytes>, text: Bytes)
    ensures Concat([text]) == text
    ensures Watched(triggers, [text]) == if HasTrigger(triggers, text) then Reading(Earliest(triggers, text)) else Idle
  {
    assert [text][..0] == [];
  }

  lemma WatchedTwo(triggers: seq<Bytes>, head: Bytes, rest: Bytes)
    requires HasTrigger(triggers, head)
    ensures Concat([head, rest]) == head + rest
    ensures Watched(triggers, [head, rest]) == Reading(Earliest(triggers, head))
  {
    assert [head, rest][..1] == [head];
    WatchedOne(triggers, head);
  }

  /**
   * Detection is independent of tokenisation exactly for robust trigger sets:
   * otherwise some trigger, cut where an inner one ends, is armed on late.
   */
  lemma CutsAgreeIff(triggers: seq<Bytes>)
    ensures CutsAgree(triggers) <==> Robust(triggers)
  {
    if Robust(triggers) {
      forall a: seq<Bytes>, b: seq<Bytes> | Concat(a) == Concat(b) {
        RobustAgree(triggers, a, b);
      }
    } else {
      var outer, inner, p: nat :| Overtaken(triggers, outer, inner, p) && !Preempted(triggers, outer, p + |inner|);
      CutAtInner(triggers, outer, inner, p);
    }
  }

  /** Cut where the inner trigger ends, the outer one's start is missed. */
  lemma CutAtInner(triggers: seq<Bytes>, outer: Bytes, inner: Bytes, p: nat)
    requires Overtaken(triggers, outer, inner, p) && !Preempted(triggers, outer, p + |inner|)
    ensures var n := p + |inner|;
            && Concat([outer[..n], outer[n..]]) == Concat([outer])
            && Watched(triggers, [outer[..n], outer[n..]]) != Watched(triggers, [outer])
  {
    var n := p + |inner|;
    var head, rest := outer[..n], outer[n..];
    OccursInPrefix(inner, outer, n, p);
    assert TriggerAt(triggers, head, p);
    WatchedTwo(triggers, head, rest);
    WatchedOne(triggers, outer);
    SeenAtOnce(triggers, outer);
    assert head + rest == outer;
    NotAtStart(triggers, outer, n);
  }

  /** A trigger in one piece is seen where it starts. */
  lemma SeenAtOnce(triggers: seq<Bytes>, outer: Bytes)
    requires outer in triggers && outer != []
    ensures HasTrigger(triggers, outer) && Earliest(triggers, outer) == 0
  {
    assert outer[0..|outer|] == outer;
    assert Occurs(outer, outer, 0);
    assert TriggerAt(triggers, outer, 0);
  }

  lemma NotAtStart(triggers: seq<Bytes>, outer: Bytes, n: nat)
    requires n <= |outer| && !Preempted(triggers, outer, n)
    ensures !TriggerAt(triggers, outer[..n], 0)
  {
    if TriggerAt(triggers, outer[..n], 0) {
      var trigger :| trigger in triggers && Occurs(trigger, outer[..n], 0);
      OccursInPrefix(trigger, outer, n, 0);
    }
  }

  // ----- the triggers of a tool list -----

  predicate PlainNames(tools: seq<ToolSpec>) {
    forall t | 0 <= t < |tools| :: Ascii("<")[0] !in tools[t].name
  }

  /** Tool names without an angle bracket leave nowhere for a trigger to start inside another. */
  lemma PlainNamesAreRobust(tools: seq<ToolSpec>)
    requires PlainNames(tools)
    ensures Robust(Triggers(tools))
  {
    var angle := Ascii("<")[0];
    forall outer, inner, p: nat | outer in Triggers(tools) && inner in Triggers(tools) && 0 < p < |outer|
      ensures !Occurs(inner, outer, p)
    {
      assert inner[0] == angle;
      assert Occurs(inner, outer, p) ==> outer[p] == outer[p..p + |inner|][0];
      OneAngle(tools, outer, p);
    }
  }

  lemma OneAngle(tools: seq<ToolSpec>, trigger: Bytes, p: nat)
    requires PlainNames(tools) && trigger in Triggers(tools) && 0 < p < |trigger|
    ensures trigger[p] != Ascii("<")[0]
  {
    if trigger != Ascii("<tool_call>") {
      var t :| 0 <= t < |tools| && trigger == Ascii("<function=") + tools[t].name + Ascii(">");
      var n := |tools[t].name|;
      assert 10 <= p < 10 + n ==> trigger[p] == tools[t].name[p - 10];
      assert p == 10 + n ==> trigger[p] == Ascii(">")[0];
    }
  }
}
