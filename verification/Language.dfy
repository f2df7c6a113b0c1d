/**
 * What a machine fragment means: the strings a cursor can end on, and how the
 * pieces the builder lays down spell the pieces of the grammar.
 */
module Languages {
  import opened Tools
  import opened Machines
  import opened CallGrammar

  /** From this cursor, reading `s` reaches an accepting state. */
  ghost predicate Ends(m: Machine, c: Cursor, s: Bytes)
    requires WellFormed(m)
  {
    AcceptsEnd(m, RunSet(m, Closure(m, c), s))
  }

  // ----- unfolding one state -----

  /** A set of cursors runs as its members do. */
  lemma {:induction false} RunIsUnion(m: Machine, cs: set<Cursor>, s: Bytes, x: Cursor)
    requires WellFormed(m)
    ensures x in RunSet(m, cs, s) <==> exists c | c in cs :: x in RunSet(m, {c}, s)
    decreases |s|
  {
    if s == [] {
      return;
    }
    forall c | c in cs {
      RunIsUnion(m, StepSet(m, {c}, s[0]), s[1..], x);
    }
    RunIsUnion(m, StepSet(m, cs, s[0]), s[1..], x);
    if c :| c in cs && x in RunSet(m, {c}, s) {
      var d :| d in StepSet(m, {c}, s[0]) && x in RunSet(m, {d}, s[1..]);
      assert d in StepSet(m, cs, s[0]);
    }
    if x in RunSet(m, cs, s) {
      var d :| d in StepSet(m, cs, s[0]) && x in RunSet(m, {d}, s[1..]);
      var c, e :| c in cs && e in Moved(m, c, s[0]) && d in Closure(m, e);
      assert d in StepSet(m, {c}, s[0]);
      assert x in RunSet(m, {c}, s);
    }
  }

  lemma RunAccepts(m: Machine, cs: set<Cursor>, s: Bytes)
    requires WellFormed(m)
    ensures AcceptsEnd(m, RunSet(m, cs, s)) <==> exists c | c in cs :: AcceptsEnd(m, RunSet(m, {c}, s))
  {
    forall x {
      RunIsUnion(m, cs, s, x);
    }
  }

  /** The closure of a set ends where some member does. */
  lemma ClosureEnds(m: Machine, cs: set<Cursor>, s: Bytes)
    requires WellFormed(m)
    ensures AcceptsEnd(m, RunSet(m, ClosureAll(m, cs), s)) <==> exists c | c in cs :: Ends(m, c, s)
  {
    RunAccepts(m, ClosureAll(m, cs), s);
    forall c | c in cs {
      RunAccepts(m, Closure(m, c), s);
    }
  }

  /** An epsilon state ends where one of its successors does. */
  lemma EndsEpsilon(m: Machine, c: Cursor, s: Bytes)
    requires WellFormed(m) && !IsFinal(m.states, c.state)
    ensures Ends(m, c, s) <==> exists d | d in Successors(m, c) :: Ends(m, d, s)
  {
    ClosureEnds(m, Elements(Successors(m, c)), s);
    assert ClosureAll(m, Elements(Successors(m, c))) == Closure(m, c);
  }

  /** A byte-consuming state ends where the byte takes it. */
  lemma EndsByte(m: Machine, c: Cursor, s: Bytes)
    requires WellFormed(m) && IsFinal(m.states, c.state)
    ensures s == [] ==> (Ends(m, c, s) <==> m.states[c.state].Accept?)
    ensures s != [] ==> (Ends(m, c, s) <==> exists d | d in Moved(m, c, s[0]) :: Ends(m, d, s[1..]))
  {
    if s != [] {
      ClosureEnds(m, Elements(Moved(m, c, s[0])), s[1..]);
      assert ClosureAll(m, Elements(Moved(m, c, s[0]))) == StepSet(m, {c}, s[0]);
    }
  }

  lemma EndsLiteral(m: Machine, c: Cursor, s: Bytes)
    requires WellFormed(m) && c.state < |m.states| && m.states[c.state].Literal?
    ensures Ends(m, c, s) <==>
            s != [] && s[0] == m.states[c.state].byte && Ends(m, c.(state := m.states[c.state].next), s[1..])
  {
    EndsByte(m, c, s);
  }

  lemma EndsAccept(m: Machine, c: Cursor, s: Bytes)
    requires WellFormed(m) && c.state < |m.states| && m.states[c.state].Accept?
    ensures Ends(m, c, s) <==> s == []
  {
    EndsByte(m, c, s);
  }

  lemma EndsSplit(m: Machine, c: Cursor, s: Bytes)
    requires WellFormed(m) && c.state < |m.states| && m.states[c.state].Split?
    ensures Ends(m, c, s) <==> exists a | a in m.states[c.state].alts :: Ends(m, c.(state := a), s)
  {
    EndsEpsilon(m, c, s);
    var alts := m.states[c.state].alts;
    forall a | a in alts
      ensures c.(state := a) in Successors(m, c)
    {
      var i :| 0 <= i < |alts| && alts[i] == a;
      assert Successors(m, c)[i] == c.(state := a);
    }
  }

  // ----- fragments -----

  /** Reading `s` from `c` spells `re` and then ends from `next`. */
  ghost predicate Via(m: Machine, c: Cursor, re: Re, next: nat, s: Bytes)
    requires WellFormed(m)
  {
    exists i | 0 <= i <= |s| :: Spells(re, s[..i]) && Ends(m, c.(state := next), s[i..])
  }

  ghost predicate Agrees(m: Machine, r: nat, re: Re, next: nat, c: Cursor, s: Bytes)
    requires WellFormed(m)
  {
    c.state == r ==> (Ends(m, c, s) <==> Via(m, c, re, next, s))
  }

  /** The states from `r` to `next` spell exactly `re`, whatever the cursor carries. */
  ghost predicate Compiles(m: Machine, r: nat, re: Re, next: nat)
    requires WellFormed(m)
  {
    forall c: Cursor, s: Bytes :: Agrees(m, r, re, next, c, s)
  }

  lemma ViaEmpty(m: Machine, c: Cursor, next: nat, s: Bytes)
    requires WellFormed(m)
    ensures Via(m, c, Word([]), next, s) <==> Ends(m, c.(state := next), s)
  {
    assert s[..0] == [] && s[0..] == s;
  }

  lemma CompilesEmpty(m: Machine, next: nat)
    requires WellFormed(m)
    ensures Compiles(m, next, Word([]), next)
  {
    forall c: Cursor, s: Bytes
      ensures Agrees(m, next, Word([]), next, c, s)
    {
      ViaEmpty(m, c, next, s);
    }
  }

  lemma ViaJoins(m: Machine, c: Cursor, a: Re, mid: nat, b: Re, next: nat, s: Bytes, i: nat)
    requires WellFormed(m) && i <= |s| && Spells(a, s[..i]) && Via(m, c.(state := mid), b, next, s[i..])
    ensures Via(m, c, Then(a, b), next, s)
  {
    var j :| 0 <= j <= |s[i..]| && Spells(b, s[i..][..j]) && Ends(m, c.(state := next), s[i..][j..]);
    var k := i + j;
    assert s[..k][..i] == s[..i] && s[..k][i..] == s[i..][..j] && s[i..][j..] == s[k..];
    assert Spells(Then(a, b), s[..k]);
  }

  lemma ViaParts(m: Machine, c: Cursor, a: Re, mid: nat, b: Re, next: nat, s: Bytes) returns (i: nat)
    requires WellFormed(m) && Via(m, c, Then(a, b), next, s)
    ensures i <= |s| && Spells(a, s[..i]) && Via(m, c.(state := mid), b, next, s[i..])
  {
    var k :| 0 <= k <= |s| && Spells(Then(a, b), s[..k]) && Ends(m, c.(state := next), s[k..]);
    i :| 0 <= i <= |s[..k]| && Spells(a, s[..k][..i]) && Spells(b, s[..k][i..]);
    TwoParts(s, i, k);
    assert Spells(b, s[i..][..k - i]) && Ends(m, c.(state := next), s[i..][k - i..]);
  }

  lemma TwoParts(s: Bytes, i: nat, k: nat)
    requires i <= k <= |s|
    ensures s[..k][..i] == s[..i] && s[..k][i..] == s[i..][..k - i] && s[i..][k - i..] == s[k..]
  {
  }

  /** Reading a fragment and then another is reading their concatenation. */
  lemma ViaThen(m: Machine, c: Cursor, a: Re, mid: nat, b: Re, next: nat, s: Bytes)
    requires WellFormed(m) && Compiles(m, mid, b, next)
    ensures Via(m, c, a, mid, s) <==> Via(m, c, Then(a, b), next, s)
  {
    if Via(m, c, a, mid, s) {
      var i :| 0 <= i <= |s| && Spells(a, s[..i]) && Ends(m, c.(state := mid), s[i..]);
      assert Agrees(m, mid, b, next, c.(state := mid), s[i..]);
      ViaJoins(m, c, a, mid, b, next, s, i);
    }
    if Via(m, c, Then(a, b), next, s) {
      var i := ViaParts(m, c, a, mid, b, next, s);
      assert Agrees(m, mid, b, next, c.(state := mid), s[i..]);
    }
  }

  lemma CompilesThen(m: Machine, r: nat, a: Re, mid: nat, b: Re, next: nat)
    requires WellFormed(m) && Compiles(m, r, a, mid) && Compiles(m, mid, b, next)
    ensures Compiles(m, r, Then(a, b), next)
  {
    forall c: Cursor, s: Bytes
      ensures Agrees(m, r, Then(a, b), next, c, s)
    {
      assert Agrees(m, r, a, mid, c, s);
      ViaThen(m, c, a, mid, b, next, s);
    }
  }

  lemma ViaEither(m: Machine, c: Cursor, a: Re, b: Re, next: nat, s: Bytes)
    requires WellFormed(m)
    ensures Via(m, c, Either(a, b), next, s) <==> Via(m, c, a, next, s) || Via(m, c, b, next, s)
  {
  }

  lemma CompilesEither(m: Machine, r: nat, x: nat, y: nat, a: Re, b: Re, next: nat)
    requires WellFormed(m) && r < |m.states| && m.states[r] == Split([x, y])
    requires Compiles(m, x, a, next) && Compiles(m, y, b, next)
    ensures Compiles(m, r, Either(a, b), next)
  {
    forall c: Cursor, s: Bytes | c.state == r
      ensures Agrees(m, r, Either(a, b), next, c, s)
    {
      EndsSplit(m, c, s);
      assert Agrees(m, x, a, next, c.(state := x), s) && Agrees(m, y, b, next, c.(state := y), s);
      ViaEither(m, c, a, b, next, s);
      assert forall n | n in [x, y] :: n == x || n == y;
      assert x in [x, y] && y in [x, y];
    }
  }

  // ----- the shapes the builder lays down -----

  /** A chain consuming `bytes` from `r`, ending at `next`. */
  predicate LiteralAt(states: seq<State>, r: nat, bytes: Bytes, next: nat)
    decreases |bytes|
  {
    if bytes == [] then r == next
    else
      && r < |states| && states[r].Literal? && states[r].byte == bytes[0]
      && LiteralAt(states, states[r].next, bytes[1..], next)
  }

  lemma {:induction false} CompilesLiteral(m: Machine, r: nat, bytes: Bytes, next: nat)
    requires WellFormed(m) && LiteralAt(m.states, r, bytes, next)
    ensures Compiles(m, r, Word(bytes), next)
    decreases |bytes|
  {
    if bytes == [] {
      CompilesEmpty(m, next);
      return;
    }
    var after := m.states[r].next;
    CompilesLiteral(m, after, bytes[1..], next);
    forall c: Cursor, s: Bytes | c.state == r
      ensures Agrees(m, r, Word(bytes), next, c, s)
    {
      EndsLiteral(m, c, s);
      if s != [] {
        assert Agrees(m, after, Word(bytes[1..]), next, c.(state := after), s[1..]);
        LiteralShift(m, c, bytes, next, s);
      }
    }
  }

  lemma LiteralShift(m: Machine, c: Cursor, bytes: Bytes, next: nat, s: Bytes)
    requires WellFormed(m) && bytes != [] && s != []
    ensures Via(m, c, Word(bytes), next, s) <==> s[0] == bytes[0] && Via(m, c, Word(bytes[1..]), next, s[1..])
  {
    var n := |bytes|;
    if Via(m, c, Word(bytes), next, s) {
      assert s[..n] == bytes && s[1..][..n - 1] == bytes[1..] && s[1..][n - 1..] == s[n..];
    }
    if s[0] == bytes[0] && Via(m, c, Word(bytes[1..]), next, s[1..]) {
      assert s[1..][..n - 1] == bytes[1..];
      assert s[..n] == [s[0]] + s[1..][..n - 1] == bytes && s[1..][n - 1..] == s[n..];
    }
  }

  /** One digit. */
  predicate DigitAt(states: seq<State>, r: nat, next: nat) {
    && r < |states| && states[r].Split? && |states[r].alts| == 10
    && forall i | 0 <= i < 10 ::
      states[r].alts[i] < |states| && states[states[r].alts[i]] == Literal((48 + i) as Byte, next)
  }

  lemma EndsDigit(m: Machine, r: nat, next: nat, c: Cursor, s: Bytes)
    requires WellFormed(m) && DigitAt(m.states, r, next) && c.state == r
    ensures Ends(m, c, s) <==> s != [] && IsDigit(s[0]) && Ends(m, c.(state := next), s[1..])
  {
    EndsSplit(m, c, s);
    var alts := m.states[r].alts;
    forall a | a in alts
      ensures exists i :: 0 <= i < 10 && alts[i] == a
      ensures Ends(m, c.(state := a), s)
          <==> s != [] && s[0] == m.states[a].byte && Ends(m, c.(state := next), s[1..])
    {
      var i :| 0 <= i < |alts| && alts[i] == a;
      EndsLiteral(m, c.(state := a), s);
    }
    if s != [] && IsDigit(s[0]) {
      assert alts[s[0] as int - 48] in alts;
    }
  }

  /** The loop of `digits`: another digit, or on to `next`. */
  predicate MoreAt(states: seq<State>, more: nat, next: nat) {
    && more < |states| && states[more].Split? && |states[more].alts| == 2
    && states[more].alts[1] == next
    && DigitAt(states, states[more].alts[0], more)
  }

  /** One or more digits. */
  predicate DigitsAt(states: seq<State>, r: nat, next: nat) {
    && r < |states| && states[r].Split? && |states[r].alts| == 10
    && states[r].alts[0] < |states| && states[states[r].alts[0]].Literal?
    && var more := states[states[r].alts[0]].next;
       DigitAt(states, r, more) && MoreAt(states, more, next)
  }

  ghost predicate AllDigits(s: Bytes) {
    forall i | 0 <= i < |s| :: IsDigit(s[i])
  }

  /** Any number of digits, then on. */
  ghost predicate AfterDigits(m: Machine, c: Cursor, next: nat, s: Bytes)
    requires WellFormed(m)
  {
    exists i | 0 <= i <= |s| :: AllDigits(s[..i]) && Ends(m, c.(state := next), s[i..])
  }

  lemma DigitHead(s: Bytes, i: nat)
    requires 0 < i <= |s|
    ensures AllDigits(s[..i]) <==> IsDigit(s[0]) && AllDigits(s[1..][..i - 1])
    ensures s[1..][i - 1..] == s[i..]
  {
    assert s[..i] == [s[0]] + s[1..][..i - 1];
    if AllDigits(s[..i]) {
      assert forall j | 0 <= j < i - 1 :: s[1..][..i - 1][j] == s[..i][1..][j];
    }
  }

  lemma AfterDigitsUnfolds(m: Machine, c: Cursor, next: nat, s: Bytes)
    requires WellFormed(m)
    ensures AfterDigits(m, c, next, s) <==>
            Ends(m, c.(state := next), s) || (s != [] && IsDigit(s[0]) && AfterDigits(m, c, next, s[1..]))
  {
    if AfterDigits(m, c, next, s) {
      var i :| 0 <= i <= |s| && AllDigits(s[..i]) && Ends(m, c.(state := next), s[i..]);
      if i == 0 {
        assert s[0..] == s;
      } else {
        DigitHead(s, i);
      }
    }
    if Ends(m, c.(state := next), s) {
      assert s[0..] == s && AllDigits(s[..0]);
    } else if s != [] && IsDigit(s[0]) && AfterDigits(m, c, next, s[1..]) {
      var i :| 0 <= i <= |s[1..]| && AllDigits(s[1..][..i]) && Ends(m, c.(state := next), s[1..][i..]);
      DigitHead(s, i + 1);
    }
  }

  lemma {:induction false} EndsMore(m: Machine, more: nat, next: nat, c: Cursor, s: Bytes)
    requires WellFormed(m) && MoreAt(m.states, more, next) && c.state == more
    ensures Ends(m, c, s) <==> AfterDigits(m, c, next, s)
    decreases |s|
  {
    var again := m.states[more].alts[0];
    EndsSplit(m, c, s);
    assert m.states[more].alts == [again, next];
    EndsDigit(m, again, more, c.(state := again), s);
    if s != [] {
      EndsMore(m, more, next, c, s[1..]);
    }
    AfterDigitsUnfolds(m, c, next, s);
    assert again in m.states[more].alts && next in m.states[more].alts;
    assert c.(state := again).(state := more) == c;
  }

  lemma CompilesDigits(m: Machine, r: nat, next: nat)
    requires WellFormed(m) && DigitsAt(m.states, r, next)
    ensures Compiles(m, r, DigitRun, next)
  {
    var more := m.states[m.states[r].alts[0]].next;
    forall c: Cursor, s: Bytes | c.state == r
      ensures Agrees(m, r, DigitRun, next, c, s)
    {
      EndsDigit(m, r, more, c, s);
      if s != [] {
        EndsMore(m, more, next, c.(state := more), s[1..]);
        DigitsShift(m, c, next, s);
      }
    }
  }

  lemma DigitsShift(m: Machine, c: Cursor, next: nat, s: Bytes)
    requires WellFormed(m) && s != []
    ensures Via(m, c, DigitRun, next, s) <==> IsDigit(s[0]) && AfterDigits(m, c, next, s[1..])
  {
    if Via(m, c, DigitRun, next, s) {
      var i :| 0 <= i <= |s| && Spells(DigitRun, s[..i]) && Ends(m, c.(state := next), s[i..]);
      assert AllDigits(s[..i]);
      DigitHead(s, i);
    }
    if IsDigit(s[0]) && AfterDigits(m, c, next, s[1..]) {
      DigitsGoOn(m, c, next, s);
    }
  }

  lemma DigitsGoOn(m: Machine, c: Cursor, next: nat, s: Bytes)
    requires WellFormed(m) && s != [] && IsDigit(s[0]) && AfterDigits(m, c, next, s[1..])
    ensures Via(m, c, DigitRun, next, s)
  {
    var i :| 0 <= i <= |s[1..]| && AllDigits(s[1..][..i]) && Ends(m, c.(state := next), s[1..][i..]);
    DigitHead(s, i + 1);
    assert Spells(DigitRun, s[..i + 1]);
  }
}
