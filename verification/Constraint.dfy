/** A constraint watches a sequence's output for a trigger, and from there on holds it to the grammar. */
module Constraints {
  import opened Tools
  import opened Machines
  import opened Runs
  import opened Compilers
  import opened Builders
  import opened Vocabs
  import opened Masks
  import opened MaskLaws
  import opened Watching

  /** Where `needle` first occurs, or -1. */
  method Find(haystack: Bytes, needle: Bytes) returns (at: int)
    ensures at >= 0 ==> Occurs(needle, haystack, at) && forall b: nat | b < at :: !Occurs(needle, haystack, b)
    ensures at < 0 ==> forall b: nat :: !Occurs(needle, haystack, b)
  {
    if needle == [] || |haystack| < |needle| {
      return -1;
    }
    for i := 0 to |haystack| - |needle| + 1
      invariant forall b: nat | b < i :: !Occurs(needle, haystack, b)
    {
      if haystack[i..i + |needle|] == needle {
        return i;
      }
    }
    return -1;
  }

  /** `at` answers where the earliest of the triggers starts, negative if nowhere. */
  ghost predicate Answers(triggers: seq<Bytes>, tail: Bytes, at: int) {
    if at >= 0 then IsEarliest(triggers, tail, at) else !HasTrigger(triggers, tail)
  }

  /** Where the earliest of the triggers starts, or -1. */
  method FindTrigger(triggers: seq<Bytes>, tail: Bytes) returns (at: int)
    ensures Answers(triggers, tail, at)
  {
    at := -1;
    for i := 0 to |triggers|
      invariant Answers(triggers[..i], tail, at)
    {
      var found := Find(tail, triggers[i]);
      OneMore(triggers[..i], triggers[i], tail, at, found);
      assert triggers[..i + 1] == triggers[..i] + [triggers[i]];
      if found >= 0 && (at < 0 || found < at) {
        at := found;
      }
    }
    assert triggers[..|triggers|] == triggers;
  }

  lemma OneMore(triggers: seq<Bytes>, trigger: Bytes, tail: Bytes, at: int, found: int)
    requires Answers(triggers, tail, at)
    requires found >= 0 ==> Occurs(trigger, tail, found) && forall b: nat | b < found :: !Occurs(trigger, tail, b)
    requires found < 0 ==> forall b: nat :: !Occurs(trigger, tail, b)
    ensures Answers(triggers + [trigger], tail, if found >= 0 && (at < 0 || found < at) then found else at)
  {
    var more := triggers + [trigger];
    forall b: nat
      ensures TriggerAt(more, tail, b) <==> TriggerAt(triggers, tail, b) || Occurs(trigger, tail, b)
    {
      if Occurs(trigger, tail, b) {
        assert trigger in more;
      }
      if TriggerAt(triggers, tail, b) {
        var x :| x in triggers && Occurs(x, tail, b);
        assert x in more;
      }
    }
    assert forall b: nat | at < 0 :: !TriggerAt(triggers, tail, b);
  }

  method LongestOf(triggers: seq<Bytes>) returns (longest: nat)
    ensures Within(triggers, longest)
    ensures triggers != [] ==> exists trigger | trigger in triggers :: |trigger| == longest
  {
    longest := 0;
    ghost var which: nat := 0;
    for i := 0 to |triggers|
      invariant forall j | 0 <= j < i :: |triggers[j]| <= longest
      invariant if i == 0 then longest == 0 else which < i && |triggers[which]| == longest
    {
      if |triggers[i]| > longest || i == 0 {
        longest, which := |triggers[i]|, i;
      }
    }
  }

  /** The last bytes of the output, as many as could begin a trigger. */
  function TailOf(text: Bytes, longest: nat): Bytes {
    var keep := if longest == 0 then 0 else longest - 1;
    if |text| > keep then text[|text| - keep..] else text
  }

  /** The cursors a stretch of output leads to. */
  ghost function CursorsAfter(m: Machine, watch: Watch, text: Bytes): set<Cursor>
    requires WellFormed(m)
  {
    if watch.Reading? && watch.at <= |text| then RunSet(m, StartSet(m), text[watch.at..]) else {}
  }

  ghost predicate Runnable(m: Machine, owner: Owner) {
    && WellFormed(m) && Owned(m, owner) && TableRight(m)
    && m.root < |m.states| && owner[m.root] == -1
  }

  /** The state of a constraint is a function of what it observed, and of where the reading starts. */
  ghost predicate Tracks(m: Machine, longest: nat, seen: seq<Bytes>, tail: Bytes, cursors: set<Cursor>, armed: bool,
                         broken: bool)
    requires WellFormed(m)
  {
    var watch, text := Watched(m.triggers, seen), Concat(seen);
    && armed == watch.Reading?
    && (watch.Idle? ==> !broken && tail == TailOf(text, longest))
    && (watch.Reading? ==>
          watch.at <= |text| && cursors == CursorsAfter(m, watch, text) && (broken <==> cursors == {}))
  }

  /** Step the machine over `piece`, standing down at the first byte it cannot take. */
  method Advance(m: Machine, ghost owner: Owner, cursors: seq<Cursor>, piece: Bytes)
    returns (after: seq<Cursor>, broken: bool)
    requires Runnable(m, owner) && AllOk(owner, cursors)
    ensures AllOk(owner, after) && Elements(after) == RunSet(m, Elements(cursors), piece)
    ensures broken <==> piece != [] && Elements(after) == {}
  {
    after, broken := cursors, false;
    for i := 0 to |piece|
      invariant AllOk(owner, after) && (i > 0 ==> Elements(after) != {})
      invariant RunSet(m, Elements(cursors), piece) == RunSet(m, Elements(after), piece[i..])
    {
      assert piece[i..][0] == piece[i] && piece[i..][1..] == piece[i + 1..];
      var alive;
      after, alive := Step(m, owner, after, piece[i]);
      if !alive {
        RunDead(m, piece[i + 1..]);
        return after, true;
      }
    }
    assert piece[|piece|..] == [];
  }

  /** From the start of a call. */
  method AdvanceFromStart(m: Machine, ghost owner: Owner, piece: Bytes) returns (after: seq<Cursor>, broken: bool)
    requires Runnable(m, owner)
    ensures AllOk(owner, after) && Elements(after) == RunSet(m, StartSet(m), piece)
    ensures broken <==> piece != [] && Elements(after) == {}
  {
    var first := Start(m, owner);
    after, broken := Advance(m, owner, first, piece);
  }

  /** While nothing has been triggered, only as much is remembered as a trigger could have begun in. */
  method WatchOn(m: Machine, ghost owner: Owner, longest: nat, ghost seen: seq<Bytes>, tail: Bytes,
                 cursors: seq<Cursor>, stuck: bool, piece: Bytes)
    returns (tail': Bytes, after: seq<Cursor>, armed: bool, broken: bool)
    requires Runnable(m, owner) && AllOk(owner, cursors)
    requires Within(m.triggers, longest)
    requires Tracks(m, longest, seen, tail, Elements(cursors), false, stuck)
    ensures AllOk(owner, after)
    ensures Tracks(m, longest, seen + [piece], tail', Elements(after), armed, broken)
  {
    var window := tail + piece;
    var at := FindTrigger(m.triggers, window);
    if at < 0 {
      StaysIdle(m, longest, seen, piece, tail, at, Elements(cursors));
      tail', after, armed, broken := TailOf(window, longest), cursors, false, stuck;
    } else {
      TriggerInside(m.triggers, window, at);
      tail', armed := [], true;
      after, broken := AdvanceFromStart(m, owner, window[at..]);
      Arms(m, longest, seen, piece, tail, at, Elements(after), broken);
    }
  }

  /** Armed: advance the grammar, unless it has been left. */
  method ReadOn(m: Machine, ghost owner: Owner, ghost longest: nat, ghost seen: seq<Bytes>, ghost tail: Bytes,
                cursors: seq<Cursor>, broken: bool, piece: Bytes)
    returns (after: seq<Cursor>, broken': bool)
    requires Runnable(m, owner) && AllOk(owner, cursors)
    requires Tracks(m, longest, seen, tail, Elements(cursors), true, broken)
    ensures AllOk(owner, after)
    ensures Tracks(m, longest, seen + [piece], tail, Elements(after), true, broken')
  {
    if broken {
      RunDead(m, piece);
      after, broken' := cursors, true;
    } else {
      after, broken' := Advance(m, owner, cursors, piece);
    }
    KeepsReading(m, longest, seen, piece, tail, Elements(cursors), broken, Elements(after), broken');
  }

  /** The next state, whichever side of the trigger this one is on. */
  method TakePiece(m: Machine, ghost owner: Owner, longest: nat, ghost seen: seq<Bytes>, tail: Bytes,
                   cursors: seq<Cursor>, armed: bool, broken: bool, piece: Bytes)
    returns (tail': Bytes, after: seq<Cursor>, armed': bool, broken': bool)
    requires Runnable(m, owner) && AllOk(owner, cursors) && Within(m.triggers, longest)
    requires Tracks(m, longest, seen, tail, Elements(cursors), armed, broken)
    ensures AllOk(owner, after)
    ensures Tracks(m, longest, seen + [piece], tail', Elements(after), armed', broken')
  {
    if armed {
      tail', armed' := tail, true;
      after, broken' := ReadOn(m, owner, longest, seen, tail, cursors, broken, piece);
    } else {
      tail', after, armed', broken' := WatchOn(m, owner, longest, seen, tail, cursors, broken, piece);
    }
  }

  method CompileRunnable(tools: seq<ToolSpec>, parallel: bool) returns (m: Machine, ghost owner: Owner)
    ensures Runnable(m, owner) && IsCompiled(m, owner, tools, parallel)
  {
    m, owner := Compile(tools, parallel);
    CompiledIsWellFormed(m, owner, tools, parallel);
  }

  lemma NothingSeen(m: Machine, longest: nat)
    requires WellFormed(m)
    ensures Tracks(m, longest, [], [], {}, false, false)
  {
  }

  class ToolConstraint {
    const machine: Machine
    const vocab: Vocab
    const longest: nat
    ghost const owner: Owner
    ghost const tools: seq<ToolSpec>
    ghost const parallel: bool
    ghost const spellings: seq<Bytes>

    /** The last of the output, where a trigger may be part of the way through. */
    var tail: Bytes
    var cursors: seq<Cursor>
    var armed: bool
    /** Whether something was emitted that the machine died on. */
    var broken: bool
    /** Every piece observed, in order. */
    ghost var seen: seq<Bytes>

    ghost predicate Fixed() {
      && Runnable(machine, owner) && IsVocab(vocab, spellings)
      && Within(machine.triggers, longest)
    }

    ghost predicate Valid()
      reads this
    {
      && Fixed() && AllOk(owner, cursors)
      && Tracks(machine, longest, seen, tail, Elements(cursors), armed, broken)
    }

    constructor (tools: seq<ToolSpec>, parallel: bool, vocab: Vocab, ghost spellings: seq<Bytes>)
      requires IsVocab(vocab, spellings)
      ensures Valid() && seen == [] && this.tools == tools && this.parallel == parallel
      ensures IsCompiled(machine, owner, tools, parallel)
      ensures this.vocab == vocab && this.spellings == spellings && !armed && !broken
    {
      var machine, owner := CompileRunnable(tools, parallel);
      var longest := LongestOf(machine.triggers);
      NothingSeen(machine, longest);
      this.machine, this.vocab, this.longest := machine, vocab, longest;
      this.owner, this.tools, this.parallel, this.spellings := owner, tools, parallel, spellings;
      tail, cursors, armed, broken, seen := [], [], false, false, [];
      new;
      assert Elements(cursors) == {};
    }

    /** Triggered, and not broken since. */
    predicate IsMasking()
      reads this
    {
      armed && !broken
    }

    /**
     * What has been emitted, one piece at a time: watched while idle, run
     * through the machine from the trigger on.
     */
    method ObserveBytes(piece: Bytes)
      requires Valid()
      modifies this
      ensures Valid() && seen == old(seen) + [piece]
    {
      tail, cursors, armed, broken := TakePiece(machine, owner, longest, seen, tail, cursors, armed, broken, piece);
      seen := seen + [piece];
    }

    /** Feed back a token by its id. */
    method Observe(token: int)
      requires Valid()
      modifies this
      ensures Valid()
      ensures seen == old(seen) + if token < 0 then [] else [if token < |spellings| then spellings[token] else []]
      ensures old(IsMasking()) && 0 <= token && token !in vocab.eog ==>
                Kept(machine, Elements(old(cursors)), spellings, vocab.eog, token) ==> IsMasking()
    {
      if token < 0 {
        return;
      }
      var piece := Piece(vocab, spellings, token);
      ghost var before, watch, text := Elements(cursors), Watched(machine.triggers, seen), Concat(seen);
      ghost var was := seen;
      ObserveBytes(piece);
      assert seen[..|seen| - 1] == was;
      if old(IsMasking()) && token !in vocab.eog && Kept(machine, before, spellings, vocab.eog, token) {
        KeptStaysAlive(machine, before, spellings, vocab.eog, token);
        Appended(machine, watch, text, piece);
      }
    }

    /** A masking constraint leaves standing only what can go on; any other leaves the row alone. */
    method Mask(logits: array<Logit>)
      requires Valid() && vocab.len <= logits.Length
      modifies logits
      ensures !IsMasking() ==> logits[..] == old(logits[..])
      ensures IsMasking() ==> forall t: nat | t < logits.Length ::
                logits[t] == if Kept(machine, Elements(cursors), spellings, vocab.eog, t)
                             then old(logits[t]) else NegInf
    {
      if !IsMasking() {
        return;
      }
      Masks.Mask(vocab, spellings, machine, owner, cursors, logits);
    }
  }

  lemma TriggerInside(triggers: seq<Bytes>, text: Bytes, at: nat)
    requires TriggerAt(triggers, text, at)
    ensures at < |text|
  {
  }

  lemma OnePiece(triggers: seq<Bytes>, seen: seq<Bytes>, piece: Bytes)
    ensures Concat(seen + [piece]) == Concat(seen) + piece
    ensures Watched(triggers, seen).Reading? ==> Watched(triggers, seen + [piece]) == Watched(triggers, seen)
    ensures Watched(triggers, seen).Idle? ==>
              && !HasTrigger(triggers, Concat(seen))
              && Watched(triggers, seen + [piece])
                 == if HasTrigger(triggers, Concat(seen) + piece) then Reading(Earliest(triggers, Concat(seen) + piece))
                    else Idle
  {
    assert (seen + [piece])[..|seen + [piece]| - 1] == seen;
    ArmedIff(triggers, seen);
  }

  /** No trigger in the window: still idle, and the kept tail is the output's. */
  lemma StaysIdle(m: Machine, longest: nat, seen: seq<Bytes>, piece: Bytes, tail: Bytes, at: int, cs: set<Cursor>)
    requires WellFormed(m) && Within(m.triggers, longest)
    requires Tracks(m, longest, seen, tail, cs, false, false) && at < 0 && Answers(m.triggers, tail + piece, at)
    ensures Tracks(m, longest, seen + [piece], TailOf(tail + piece, longest), cs, false, false)
  {
    OnePiece(m.triggers, seen, piece);
    Window(m.triggers, Concat(seen), piece, longest, at);
    TailGrows(Concat(seen), piece, longest);
  }

  /** A trigger in the window: reading starts at it, with its own bytes. */
  lemma Arms(m: Machine, longest: nat, seen: seq<Bytes>, piece: Bytes, tail: Bytes, at: nat, cs: set<Cursor>,
             broken: bool)
    requires WellFormed(m) && Within(m.triggers, longest)
    requires Watched(m.triggers, seen).Idle? && tail == TailOf(Concat(seen), longest)
    requires Answers(m.triggers, tail + piece, at) && at < |tail + piece|
    requires cs == RunSet(m, StartSet(m), (tail + piece)[at..]) && (broken <==> cs == {})
    ensures Tracks(m, longest, seen + [piece], [], cs, true, broken)
  {
    OnePiece(m.triggers, seen, piece);
    Window(m.triggers, Concat(seen), piece, longest, at);
  }

  /** Once reading, each piece moves the cursors on. */
  lemma KeepsReading(m: Machine, longest: nat, seen: seq<Bytes>, piece: Bytes, tail: Bytes, cs: set<Cursor>,
                     stuck: bool, after: set<Cursor>, broken: bool)
    requires WellFormed(m) && Tracks(m, longest, seen, tail, cs, true, stuck)
    requires after == RunSet(m, cs, piece) && (broken <==> stuck || (piece != [] && after == {}))
    ensures Tracks(m, longest, seen + [piece], tail, after, true, broken)
  {
    OnePiece(m.triggers, seen, piece);
    Appended(m, Watched(m.triggers, seen), Concat(seen), piece);
    if stuck {
      RunDead(m, piece);
    }
  }

  lemma Appended(m: Machine, watch: Watch, text: Bytes, piece: Bytes)
    requires WellFormed(m) && watch.Reading? && watch.at <= |text|
    ensures CursorsAfter(m, watch, text + piece) == RunSet(m, CursorsAfter(m, watch, text), piece)
  {
    assert (text + piece)[watch.at..] == text[watch.at..] + piece;
    RunAppend(m, StartSet(m), text[watch.at..], piece);
  }

  /** Looking for a trigger in the kept tail and the new piece is looking for one in the whole output. */
  lemma Window(triggers: seq<Bytes>, text: Bytes, piece: Bytes, longest: nat, at: int)
    requires Within(triggers, longest)
    requires !HasTrigger(triggers, text) && Answers(triggers, TailOf(text, longest) + piece, at)
    ensures var whole, window := text + piece, TailOf(text, longest) + piece;
            && (HasTrigger(triggers, whole) <==> at >= 0)
            && (at >= 0 ==> at <= |window| && Earliest(triggers, whole) <= |whole|
                            && window[at..] == whole[Earliest(triggers, whole)..])
  {
    var whole, window := text + piece, TailOf(text, longest) + piece;
    var cut := |text| - |TailOf(text, longest)|;
    assert text[cut..] == TailOf(text, longest);
    forall b: nat
      ensures TriggerAt(triggers, whole, b) <==> cut <= b && TriggerAt(triggers, window, b - cut)
    {
      WindowSees(triggers, text, piece, longest, cut, b);
    }
    if at >= 0 {
      EarliestShifts(triggers, whole, window, cut, at);
      TriggerInside(triggers, window, at);
      CutWhole(text, piece, cut, at);
    }
  }

  lemma EarliestShifts(triggers: seq<Bytes>, whole: Bytes, window: Bytes, cut: nat, at: nat)
    requires forall b: nat :: TriggerAt(triggers, whole, b) <==> cut <= b && TriggerAt(triggers, window, b - cut)
    requires IsEarliest(triggers, window, at)
    ensures HasTrigger(triggers, whole) && Earliest(triggers, whole) == at + cut
  {
    assert TriggerAt(triggers, whole, at + cut);
    var first := Earliest(triggers, whole);
    assert TriggerAt(triggers, window, first - cut);
  }

  lemma CutWhole(text: Bytes, piece: Bytes, cut: nat, at: nat)
    requires cut <= |text| && at <= |text| - cut + |piece|
    ensures (text[cut..] + piece)[at..] == (text + piece)[at + cut..]
  {
    var left, right := (text[cut..] + piece)[at..], (text + piece)[at + cut..];
    assert |left| == |right|;
    forall i | 0 <= i < |left|
      ensures left[i] == right[i]
    {
      assert left[i] == (text[cut..] + piece)[at + i];
      assert right[i] == (text + piece)[at + cut + i];
    }
  }

  lemma TailGrows(text: Bytes, piece: Bytes, longest: nat)
    ensures TailOf(TailOf(text, longest) + piece, longest) == TailOf(text + piece, longest)
  {
    var window := TailOf(text, longest) + piece;
    var cut, at := |text| - |TailOf(text, longest)|, |window| - |TailOf(window, longest)|;
    assert text[cut..] == TailOf(text, longest) && window[at..] == TailOf(window, longest);
    CutWhole(text, piece, cut, at);
  }

  // ----- how the output was cut does not matter -----

  /**
   * Two constraints for the same tools that saw the same output, however it was
   * cut into tokens, are in the same state.
   */
  lemma SplitIndependent(a: ToolConstraint, b: ToolConstraint)
    requires a.Valid() && b.Valid() && a.machine == b.machine && a.longest == b.longest
    requires a.machine.triggers == Triggers(a.tools) && PlainNames(a.tools) && Concat(a.seen) == Concat(b.seen)
    ensures a.armed == b.armed && a.broken == b.broken && a.IsMasking() == b.IsMasking()
    ensures a.armed ==> Elements(a.cursors) == Elements(b.cursors)
    ensures !a.armed ==> a.tail == b.tail
    ensures a.armed <==> HasTrigger(Triggers(a.tools), Concat(a.seen))
  {
    PlainNamesAreRobust(a.tools);
    RobustAgree(a.machine.triggers, a.seen, b.seen);
    ArmedIff(a.machine.triggers, a.seen);
  }

  /** A masking constraint can always go on: some token is kept, given a token for every byte. */
  lemma NeverStuck(c: ToolConstraint) returns (t: nat)
    requires c.Valid() && c.IsMasking() && IsCompiled(c.machine, c.owner, c.tools, c.parallel)
    requires 1 <= |c.tools| <= TOOL_IDS && AllHaveLiterals(c.tools)
    requires SpellsEveryByte(c.spellings, c.vocab.eog)
    ensures t < |c.spellings| && Kept(c.machine, Elements(c.cursors), c.spellings, c.vocab.eog, t)
    ensures t !in c.vocab.eog
  {
    var watch, text := Watched(c.machine.triggers, c.seen), Concat(c.seen);
    t := SomeTokenKept(c.machine, c.owner, c.tools, c.parallel, text[watch.at..], c.spellings, c.vocab.eog);
  }

  /** The moment a trigger has just been completed, the constraint is masking. */
  lemma TriggerStartsMasking(c: ToolConstraint)
    requires c.Valid() && IsCompiled(c.machine, c.owner, c.tools, c.parallel)
    requires Watched(Triggers(c.tools), c.seen).Reading?
    requires Concat(c.seen)[Watched(Triggers(c.tools), c.seen).at..] in Triggers(c.tools)
    ensures c.IsMasking()
  {
    CompiledIsWellFormed(c.machine, c.owner, c.tools, c.parallel);
    var at := Watched(Triggers(c.tools), c.seen).at;
    TriggerAlive(c.machine, c.owner, c.tools, c.parallel, Concat(c.seen)[at..]);
  }
}
