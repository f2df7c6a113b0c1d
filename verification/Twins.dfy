/** Tokens spelled alike: only the last is in the trie, and the mask forgets the others where it walks the trie. */
module Twins {
  import opened Tools
  import opened Machines
  import opened Languages
  import opened Calls
  import opened Compilers
  import opened Runs
  import opened Tries
  import opened Masks
  import opened MaskLaws
  import opened DeadEnds
  import Kmp

  // ----- the delimiter's own shape -----

  /** The delimiter begins and ends with its one newline, so a mismatch falls back to its start. */
  lemma CloseAdvance(k: nat, b: Byte)
    requires k < |CLOSE|
    ensures Kmp.Advance(CLOSE, k, b) == if b == CLOSE[k] then k + 1 else if b == CLOSE[0] then 1 else 0
  {
    forall i | 0 < i < |CLOSE| - 1
      ensures CLOSE[i] != CLOSE[0]
    {
      NewlineOnce(i);
    }
    AdvanceOnce(CLOSE, k, b);
  }

  /** Where the first element does not come again before the end. */
  lemma AdvanceOnce(needle: Bytes, k: nat, b: Byte)
    requires k < |needle| && forall i | 0 < i < |needle| - 1 :: needle[i] != needle[0]
    ensures Kmp.Advance(needle, k, b) == if b == needle[k] then k + 1 else if b == needle[0] then 1 else 0
  {
    var text := needle[..k] + [b];
    var a := if b == needle[k] then k + 1 else if b == needle[0] then 1 else 0;
    assert Kmp.IsSuffix(needle[..a], text);
    forall j | a < j <= |needle|
      ensures !Kmp.IsSuffix(needle[..j], text)
    {
      if j <= |text| {
        assert needle[..j][0] == needle[0] && needle[..j][j - 1] == needle[j - 1];
      }
    }
    Kmp.LongestIsUnique(needle, text, |needle|, a);
  }

  lemma NewlineOnce(i: int)
    ensures 0 < i < |CLOSE| - 1 ==> CLOSE[i] != CLOSE[0]
  {
    assert |CLOSE| == 14 && CLOSE[0] == 10;
    assert CLOSE[1] == 60 && CLOSE[2] == 47 && CLOSE[3] == 112 && CLOSE[4] == 97 && CLOSE[5] == 114 && CLOSE[6] == 97;
    assert CLOSE[7] == 109 && CLOSE[8] == 101 && CLOSE[9] == 116
           && CLOSE[10] == 101 && CLOSE[11] == 114 && CLOSE[12] == 62;
  }

  // ----- one cursor in free text -----

  /** A byte that does not close the delimiter. */
  lemma InsideStep(m: Machine, first: nat, next: nat, c: Cursor, k: nat, b: Byte)
    requires WellFormed(m) && UntilBlock(m.states, first, next) && k < |CLOSE| && c.state == first + k
    ensures var k' := Kmp.Advance(CLOSE, k, b);
            k' < |CLOSE| ==> StepSet(m, {c}, b) == {c.(state := first + k')}
  {
    var k' := Kmp.Advance(CLOSE, k, b);
    assert m.states[c.state] == Until(k, next);
    MovedUntil(m, c, k, next, b);
    var d := c.(state := first + k');
    if k' < |CLOSE| {
      assert Moved(m, c, b) == [d] && d in [d];
      assert m.states[d.state] == Until(k', next) && Closure(m, d) == {d};
    }
  }

  lemma InsideRun(m: Machine, first: nat, next: nat, c: Cursor, k: nat, w: Bytes, d: Cursor)
    requires WellFormed(m) && UntilBlock(m.states, first, next) && k < |CLOSE| && c.state == first + k && w != []
    requires Kmp.Advance(CLOSE, k, w[0]) < |CLOSE| && d == c.(state := first + Kmp.Advance(CLOSE, k, w[0]))
    ensures RunSet(m, {c}, w) == RunSet(m, {d}, w[1..])
  {
    InsideStep(m, first, next, c, k, w[0]);
    StepThenRun(m, c, d, w);
  }

  lemma StepThenRun(m: Machine, c: Cursor, d: Cursor, w: Bytes)
    requires WellFormed(m) && w != [] && StepSet(m, {c}, w[0]) == {d}
    ensures RunSet(m, {c}, w) == RunSet(m, {d}, w[1..])
  {
  }

  /**
   * With some of the delimiter already read, a text that does not complete it
   * fares as it would from its start.
   */
  lemma {:induction false} FromInside(m: Machine, first: nat, next: nat, c: Cursor, k: nat, w: Bytes)
    requires WellFormed(m) && UntilBlock(m.states, first, next) && c.state == first && 0 < k < |CLOSE|
    requires RunSet(m, {c}, w) != {} && !(CLOSE[k..] <= w)
    ensures RunSet(m, {c.(state := first + k)}, w) != {}
    decreases |w|
  {
    if w != [] {
      if w[0] == CLOSE[k] {
        NotYet(k, w);
        Onward(m, first, next, c, k, w);
        FromInside(m, first, next, c, k + 1, w[1..]);
      } else {
        CloseAdvance(k, w[0]);
        CloseAdvance(0, w[0]);
        Together(m, first, next, c, k, w);
      }
    }
  }

  lemma Onward(m: Machine, first: nat, next: nat, c: Cursor, k: nat, w: Bytes)
    requires WellFormed(m) && UntilBlock(m.states, first, next) && c.state == first
    requires 0 < k && k + 1 < |CLOSE| && w != [] && w[0] == CLOSE[k]
    ensures RunSet(m, {c}, w) == RunSet(m, {c}, w[1..])
    ensures RunSet(m, {c.(state := first + k)}, w) == RunSet(m, {c.(state := first + (k + 1))}, w[1..])
  {
    CloseAdvance(k, w[0]);
    CloseAdvance(0, w[0]);
    NewlineOnce(k);
    InsideRun(m, first, next, c, 0, w, c);
    InsideRun(m, first, next, c.(state := first + k), k, w, c.(state := first + (k + 1)));
  }

  lemma Together(m: Machine, first: nat, next: nat, c: Cursor, k: nat, w: Bytes)
    requires WellFormed(m) && UntilBlock(m.states, first, next) && c.state == first && 0 < k < |CLOSE| && w != []
    requires Kmp.Advance(CLOSE, k, w[0]) == Kmp.Advance(CLOSE, 0, w[0]) < |CLOSE|
    ensures RunSet(m, {c.(state := first + k)}, w) == RunSet(m, {c}, w)
  {
    var e := c.(state := first + Kmp.Advance(CLOSE, 0, w[0]));
    InsideRun(m, first, next, c, 0, w, e);
    InsideRun(m, first, next, c.(state := first + k), k, w, e);
  }

  lemma NotYet(k: nat, w: Bytes)
    requires 0 < k < |CLOSE| && w != [] && w[0] == CLOSE[k] && !(CLOSE[k..] <= w)
    ensures k + 1 < |CLOSE| && !(CLOSE[k + 1..] <= w[1..])
  {
    assert CLOSE[k..] == [CLOSE[k]] + CLOSE[k + 1..];
    assert w == [w[0]] + w[1..];
  }

  /** Reading on along the delimiter. */
  lemma {:induction false} Along(m: Machine, first: nat, next: nat, c: Cursor, i: nat, k: nat)
    requires WellFormed(m) && UntilBlock(m.states, first, next) && i <= k < |CLOSE| && c.state == first + i
    ensures RunSet(m, {c}, CLOSE[i..k]) == {c.(state := first + k)}
    decreases k - i
  {
    var w := CLOSE[i..k];
    if i < k {
      assert w[0] == CLOSE[i] && w[1..] == CLOSE[i + 1..k];
      CloseAdvance(i, CLOSE[i]);
      var d := c.(state := first + (i + 1));
      InsideRun(m, first, next, c, i, w, d);
      Along(m, first, next, d, i + 1, k);
    }
  }

  lemma {:induction false} Grown(m: Machine, some: set<Cursor>, all: set<Cursor>, s: Bytes)
    requires WellFormed(m) && some <= all
    ensures RunSet(m, some, s) <= RunSet(m, all, s)
    decreases |s|
  {
    if s != [] {
      Grown(m, StepSet(m, some, s[0]), StepSet(m, all, s[0]), s[1..]);
    }
  }

  // ----- where a spelling can be told apart from its twin -----

  /** A text that leads to a live position where the mask walks the trie and the spelling survives. */
  ghost predicate Shows(m: Machine, w: Bytes, s: Bytes)
    requires WellFormed(m)
  {
    var cs := RunSet(m, StartSet(m), s);
    !FreeText(m, cs) && Survives(m, cs, w)
  }

  /** Something with this spelling in it can be written. */
  ghost predicate CanOccur(m: Machine, w: Bytes)
    requires WellFormed(m)
  {
    exists s: Bytes :: RunSet(m, StartSet(m), s + w) != {}
  }

  /** In free text, some of the delimiter can be written first, without it completing. */
  lemma ShowsSoon(m: Machine, s: Bytes, w: Bytes) returns (s': Bytes)
    requires WellFormed(m) && w != [] && FreeText(m, RunSet(m, StartSet(m), s))
    requires Survives(m, RunSet(m, StartSet(m), s), w)
    ensures Shows(m, w, s')
  {
    var cs := RunSet(m, StartSet(m), s);
    var x :| x in RunSet(m, cs, w);
    RunIsUnion(m, cs, w, x);
    var c :| c in cs && x in RunSet(m, {c}, w);
    assert AtFreeText(m, c) && BytesLead(m.states, c.state);
    var first, next := c.state, m.states[c.state].next;
    var k := if CLOSE[1..] <= w then 2 else 1;
    assert CLOSE[1] != CLOSE[2] && CLOSE[1..][0] == CLOSE[1] && CLOSE[2..][0] == CLOSE[2];
    FromInside(m, first, next, c, k, w);
    s' := s + CLOSE[0..k];
    ShowsInside(m, first, next, c, k, s, w);
  }

  lemma ShowsInside(m: Machine, first: nat, next: nat, c: Cursor, k: nat, s: Bytes, w: Bytes)
    requires WellFormed(m) && UntilBlock(m.states, first, next) && c.state == first && 0 < k < |CLOSE|
    requires c in RunSet(m, StartSet(m), s) && RunSet(m, {c.(state := first + k)}, w) != {}
    ensures Shows(m, w, s + CLOSE[0..k])
  {
    var cs, d := RunSet(m, StartSet(m), s), c.(state := first + k);
    Along(m, first, next, c, 0, k);
    RunAppend(m, StartSet(m), s, CLOSE[0..k]);
    Grown(m, {c}, cs, CLOSE[0..k]);
    Grown(m, {d}, RunSet(m, cs, CLOSE[0..k]), w);
    assert m.states[d.state] == Until(k, next) && !AtFreeText(m, d);
  }

  lemma OccursShows(m: Machine, w: Bytes) returns (s: Bytes)
    requires WellFormed(m) && w != [] && CanOccur(m, w)
    ensures Shows(m, w, s)
  {
    var s0: Bytes :| RunSet(m, StartSet(m), s0 + w) != {};
    RunAppend(m, StartSet(m), s0, w);
    if FreeText(m, RunSet(m, StartSet(m), s0)) {
      s := ShowsSoon(m, s0, w);
    } else {
      s := s0;
    }
  }

  /** At every live position, for every token, the mask is the naive check. */
  ghost predicate MaskExact(m: Machine, pieces: seq<Bytes>, eog: seq<nat>)
    requires WellFormed(m)
  {
    forall s: Bytes, t: nat | RunSet(m, StartSet(m), s) != {} :: ExactAt(m, s, pieces, eog, t)
  }

  ghost predicate ExactAt(m: Machine, s: Bytes, pieces: seq<Bytes>, eog: seq<nat>, t: nat)
    requires WellFormed(m)
  {
    var cs := RunSet(m, StartSet(m), s);
    Kept(m, cs, pieces, eog, t) <==> Admissible(m, cs, pieces, eog, t)
  }

  /** No two tokens share a spelling that something could be written with. */
  ghost predicate NoLiveTwins(m: Machine, pieces: seq<Bytes>, eog: seq<nat>)
    requires WellFormed(m)
  {
    forall i, j | 0 <= i < j < |pieces| && InTrie(pieces, eog, i) && InTrie(pieces, eog, j) && pieces[i] == pieces[j] ::
      !CanOccur(m, pieces[i])
  }

  /**
   * Exactly when the mask is the naive check wherever it is asked for: when no
   * two tokens share a spelling that can occur in a turn.
   */
  lemma MaskExactIff(m: Machine, pieces: seq<Bytes>, eog: seq<nat>)
    requires WellFormed(m)
    ensures MaskExact(m, pieces, eog) <==> NoLiveTwins(m, pieces, eog)
  {
    if NoLiveTwins(m, pieces, eog) {
      forall s: Bytes, t: nat | RunSet(m, StartSet(m), s) != {}
        ensures ExactAt(m, s, pieces, eog, t)
      {
        ExactHere(m, s, pieces, eog, t);
      }
    } else {
      var i, j :| 0 <= i < j < |pieces| && InTrie(pieces, eog, i) && InTrie(pieces, eog, j)
                  && pieces[i] == pieces[j] && CanOccur(m, pieces[i]);
      var s := OccursShows(m, pieces[i]);
      MaskIsNaiveIff(m, RunSet(m, StartSet(m), s), pieces, eog, i);
      assert Shadowed(pieces, eog, i);
      assert RunSet(m, StartSet(m), s) != {} && !ExactAt(m, s, pieces, eog, i);
    }
  }

  lemma ExactHere(m: Machine, s: Bytes, pieces: seq<Bytes>, eog: seq<nat>, t: nat)
    requires WellFormed(m) && NoLiveTwins(m, pieces, eog) && RunSet(m, StartSet(m), s) != {}
    ensures ExactAt(m, s, pieces, eog, t)
  {
    var cs := RunSet(m, StartSet(m), s);
    MaskIsNaiveIff(m, cs, pieces, eog, t);
    if InTrie(pieces, eog, t) && Shadowed(pieces, eog, t) {
      RunAppend(m, StartSet(m), s, pieces[t]);
      assert !CanOccur(m, pieces[t]);
    }
  }

  // ----- compiled machines -----

  /** The first byte of any turn, spelled twice: the earlier token is masked out where it could go. */
  lemma TwinIsMaskedOut(m: Machine, owner: Owner, tools: seq<ToolSpec>, parallel: bool, pieces: seq<Bytes>,
                        eog: seq<nat>, t: nat)
    requires IsCompiled(m, owner, tools, parallel)
    requires InTrie(pieces, eog, t) && pieces[t] == [CallOpen()[0]] && Shadowed(pieces, eog, t)
    ensures WellFormed(m)
    ensures Admissible(m, StartSet(m), pieces, eog, t) && !Kept(m, StartSet(m), pieces, eog, t)
  {
    CompiledIsWellFormed(m, owner, tools, parallel);
    var callClose, loops :| CompiledFrom(m, owner, tools, parallel, callClose, loops);
    HeaderStart(m);
    var header := Cursor(m.states[m.root].alts[0], NO_TOOL, {});
    ChainAlive(m, StartSet(m), header, CallOpen(), ENTRY, 1);
    assert CallOpen()[..1] == pieces[t] && !AtFreeText(m, header);
  }

  /** One byte on, in a text without the delimiter. */
  lemma StillAbsent(u: Bytes, w: Bytes)
    requires w != [] && Kmp.Absent(CLOSE, u + w)
    ensures Kmp.Matched(CLOSE, u) < |CLOSE| && Kmp.Matched(CLOSE, u + [w[0]]) < |CLOSE|
    ensures Kmp.Matched(CLOSE, u + [w[0]]) == Kmp.Advance(CLOSE, Kmp.Matched(CLOSE, u), w[0])
    ensures Kmp.Absent(CLOSE, (u + [w[0]]) + w[1..])
  {
    assert (u + w)[..|u|] == u && (u + w)[..|u| + 1] == u + [w[0]] && u + w == (u + [w[0]]) + w[1..];
    Kmp.MatchedIsEnd(CLOSE, u);
    Kmp.MatchedIsEnd(CLOSE, u + [w[0]]);
    Kmp.AdvanceIsMatched(CLOSE, u, w[0]);
  }

  /** From the start of free text, a text without the delimiter stays in it. */
  lemma {:induction false} StaysInside(m: Machine, first: nat, next: nat, c: Cursor, u: Bytes, w: Bytes)
    requires WellFormed(m) && UntilBlock(m.states, first, next)
    requires Kmp.Absent(CLOSE, u + w) && c.state == first + Kmp.Matched(CLOSE, u)
    ensures RunSet(m, {c}, w) != {}
    decreases |w|
  {
    if w != [] {
      StillAbsent(u, w);
      var read := u + [w[0]];
      var d := c.(state := first + Kmp.Matched(CLOSE, read));
      InsideRun(m, first, next, c, Kmp.Matched(CLOSE, u), w, d);
      StaysInside(m, first, next, d, read, w[1..]);
    }
  }

  /** A parameter of free text can be opened. */
  lemma TextReached(m: Machine, owner: Owner, tools: seq<ToolSpec>, parallel: bool, t: nat, p: nat)
    returns (c: Cursor, next: nat, s: Bytes)
    requires IsCompiled(m, owner, tools, parallel) && WellFormed(m)
    requires t < |tools| && p < |tools[t].params| && tools[t].params[p].value.Text?
    ensures c in RunSet(m, StartSet(m), s) && UntilBlock(m.states, c.state, next)
  {
    var args, callClose := ToolReached(m, owner, tools, parallel, t);
    var d, value := ParamReached(m, args, tools[t], callClose, Cursor(args, ToolId(t), {}), p);
    var open := ParameterOpen(tools[t].params[p]);
    ChainToText(m, RunSet(m, StartSet(m), FunctionOpen(tools[t])), d, open, value, args);
    c, next, s := d.(state := value), args, FunctionOpen(tools[t]) + open;
    RunAppend(m, StartSet(m), FunctionOpen(tools[t]), open);
  }

  lemma ChainToText(m: Machine, cs: set<Cursor>, d: Cursor, open: Bytes, value: nat, next: nat)
    requires WellFormed(m) && d in cs && LiteralAt(m.states, d.state, open, value) && open != []
    requires UntilBlock(m.states, value, next)
    ensures d.(state := value) in RunSet(m, cs, open)
  {
    assert Closure(m, d) == {d};
    RunChain(m, cs, d, open, value);
    var c := d.(state := value);
    assert m.states[value + 0] == Until(0, next) && Closure(m, c) == {c};
  }

  /** With a parameter of free text, anything can occur that does not have the delimiter in it. */
  lemma TextOccurs(m: Machine, owner: Owner, tools: seq<ToolSpec>, parallel: bool, t: nat, p: nat, w: Bytes)
    requires IsCompiled(m, owner, tools, parallel) && WellFormed(m)
    requires t < |tools| && p < |tools[t].params| && tools[t].params[p].value.Text? && Kmp.Absent(CLOSE, w)
    ensures CanOccur(m, w)
  {
    var c, next, s := TextReached(m, owner, tools, parallel, t, p);
    OccursFrom(m, c, next, s, w);
  }

  lemma OccursFrom(m: Machine, c: Cursor, next: nat, s: Bytes, w: Bytes)
    requires WellFormed(m) && c in RunSet(m, StartSet(m), s) && UntilBlock(m.states, c.state, next)
    requires Kmp.Absent(CLOSE, w)
    ensures CanOccur(m, w)
  {
    NothingMatched();
    assert [] + w == w;
    StaysInside(m, c.state, next, c, [], w);
    Grown(m, {c}, RunSet(m, StartSet(m), s), w);
    RunAppend(m, StartSet(m), s, w);
  }

  lemma NothingMatched()
    ensures Kmp.Matched(CLOSE, []) == 0
  {
    assert Kmp.IsSuffix(CLOSE[..Kmp.Matched(CLOSE, [])], []);
  }

  /**
   * For a grammar with a parameter of free text, and a vocabulary none of whose
   * tokens has the whole delimiter in it: the mask is the naive check at every
   * live position if and only if no two tokens are spelled alike.
   */
  lemma TextMaskExactIff(m: Machine, owner: Owner, tools: seq<ToolSpec>, parallel: bool, t: nat, p: nat,
                         pieces: seq<Bytes>, eog: seq<nat>)
    requires IsCompiled(m, owner, tools, parallel)
    requires t < |tools| && p < |tools[t].params| && tools[t].params[p].value.Text?
    requires forall u | 0 <= u < |pieces| :: Kmp.Absent(CLOSE, pieces[u])
    ensures WellFormed(m) && (MaskExact(m, pieces, eog) <==> NoTwins(pieces, eog))
  {
    CompiledIsWellFormed(m, owner, tools, parallel);
    MaskExactIff(m, pieces, eog);
    forall u | 0 <= u < |pieces|
      ensures CanOccur(m, pieces[u])
    {
      TextOccurs(m, owner, tools, parallel, t, p, pieces[u]);
    }
  }
}
