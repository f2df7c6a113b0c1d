/**
 * The byte-level nondeterministic machine a tool grammar is compiled to, and
 * how a set of cursors is closed over epsilon states and stepped over bytes.
 */
module Machines {
  import opened Tools
  import Kmp

  datatype State =
    /** One byte, and no other. */
    | Literal(byte: Byte, next: nat)
    /** Whichever of these. */
    | Split(alts: seq<nat>)
    /** The cursor takes on a tool, with nothing of it written. */
    | EnterTool(tool: nat, next: nat)
    /** A parameter is taken down as written; no way through if it is already. */
    | Mark(param: nat, next: nat)
    /** No way through until the tool's required parameters are all taken down. */
    | RequireAll(next: nat)
    /** Any byte at all, until the delimiter is complete; `k` bytes of it are. */
    | Until(k: nat, next: nat)
    /** A turn may end here. */
    | Accept

  /** A position, the tool it committed to, and the bits of the parameters it has written. */
  datatype Cursor = Cursor(state: nat, tool: nat, written: set<nat>)

  datatype Machine = Machine(states: seq<State>, root: nat, required: seq<set<nat>>, fallback: seq<nat>,
                             triggers: seq<Bytes>)

  /** The tool of a cursor that has not committed to one. */
  const NO_TOOL: nat := 65535

  // ----- the shape every compiled machine has -----

  /** The states the closure keeps: those that consume a byte, and the accepting one. */
  predicate IsFinal(states: seq<State>, i: nat) {
    i < |states| && (states[i].Literal? || states[i].Until? || states[i].Accept?)
  }

  /** Where a state's epsilon edges lead. */
  function Targets(state: State): seq<nat> {
    match state
    case Split(alts) => alts
    case EnterTool(_, next) => [next]
    case Mark(_, next) => [next]
    case RequireAll(next) => [next]
    case Literal(_, _) => []
    case Until(_, _) => []
    case Accept => []
  }

  /** One epsilon step away from byte-consuming states. */
  predicate IsShallow(states: seq<State>, i: nat) {
    && i < |states|
    && Targets(states[i]) != []
    && forall a | a in Targets(states[i]) :: IsFinal(states, a)
  }

  /** Decreases along every epsilon edge of a ranked machine, loops included. */
  function Rank(states: seq<State>, i: nat): nat {
    if i >= |states| || IsFinal(states, i) then 0 else if IsShallow(states, i) then 1 else 2 + i
  }

  /** An epsilon edge goes back, or forward to a shallow or byte-consuming state. */
  predicate EdgeRanked(states: seq<State>, i: nat, a: nat) {
    a < |states| && (a < i || IsFinal(states, a) || IsShallow(states, a))
  }

  predicate Ranked(states: seq<State>) {
    forall i, a {:trigger EdgeRanked(states, i, a)} | 0 <= i < |states| && a in Targets(states[i]) ::
      EdgeRanked(states, i, a)
  }

  /** The `Until` states of one value are consecutive from `k == 0`. */
  predicate UntilBlock(states: seq<State>, first: nat, next: nat) {
    first + |CLOSE| <= |states| && forall j | 0 <= j < |CLOSE| :: states[first + j] == Until(j, next)
  }

  predicate BytesLead(states: seq<State>, i: nat)
    requires i < |states|
  {
    match states[i]
    case Literal(_, next) => next < |states|
    case Until(k, next) => k < |CLOSE| && k <= i && UntilBlock(states, i - k, next) && next < |states|
    case _ => true
  }

  /** Which tool a cursor must have committed to at each state; -1 where it need not have. */
  type Owner = seq<int>

  /** A state of a tool's own region is entered from that region, or by committing to the tool. */
  predicate OwnerLeads(owner: Owner, from: int, to: nat) {
    to < |owner| && (owner[to] == -1 || owner[to] == from)
  }

  predicate OwnerOk(states: seq<State>, required: seq<set<nat>>, owner: Owner, i: nat)
    requires i < |states| == |owner|
  {
    match states[i]
    case Literal(_, next) => OwnerLeads(owner, owner[i], next)
    case Until(k, next) =>
      OwnerLeads(owner, owner[i], next)
      && forall j | 0 <= i - k <= j < i - k + |CLOSE| && j < |owner| :: owner[j] == owner[i]
    case Split(alts) => forall a | a in alts :: OwnerLeads(owner, owner[i], a)
    case EnterTool(tool, next) => tool < |required| && OwnerLeads(owner, tool, next)
    case Mark(_, next) => OwnerLeads(owner, owner[i], next)
    case RequireAll(next) => 0 <= owner[i] < |required| && OwnerLeads(owner, owner[i], next)
    case Accept => true
  }

  predicate Owned(m: Machine, owner: Owner) {
    && |owner| == |m.states|
    && forall i {:trigger OwnerOk(m.states, m.required, owner, i)} | 0 <= i < |m.states| ::
         OwnerOk(m.states, m.required, owner, i)
  }

  predicate WellFormed(m: Machine) {
    && Ranked(m.states)
    && forall i {:trigger BytesLead(m.states, i)} | 0 <= i < |m.states| :: BytesLead(m.states, i)
  }

  /** The table is the failure function of the delimiter. */
  ghost predicate TableRight(m: Machine) {
    |m.fallback| == |CLOSE| + 1 && forall k | 0 <= k <= |CLOSE| :: m.fallback[k] == Kmp.Border(CLOSE, k)
  }

  /** A cursor in a tool's region has committed to that tool. */
  predicate CursorOk(owner: Owner, c: Cursor) {
    c.state < |owner| && (owner[c.state] >= 0 ==> c.tool == owner[c.state])
  }

  // ----- what a machine does, on sets of cursors -----

  function Required(m: Machine, tool: nat): set<nat> {
    if tool < |m.required| then m.required[tool] else {}
  }

  /** The cursors one epsilon edge away. */
  function Successors(m: Machine, c: Cursor): (r: seq<Cursor>)
    ensures forall d | d in r :: c.state < |m.states| && d.state in Targets(m.states[c.state])
  {
    if c.state >= |m.states| then [] else
      match m.states[c.state]
      case Split(alts) => seq(|alts|, i requires 0 <= i < |alts| => c.(state := alts[i]))
      case EnterTool(tool, next) => [Cursor(next, tool, {})]
      case Mark(param, next) =>
        if ParamBit(param) !! c.written then [Cursor(next, c.tool, c.written + ParamBit(param))] else []
      case RequireAll(next) => if Required(m, c.tool) <= c.written then [c.(state := next)] else []
      case _ => []
  }

  lemma SuccessorsRanked(m: Machine, c: Cursor)
    requires Ranked(m.states)
    ensures forall d | d in Successors(m, c) :: Rank(m.states, d.state) < Rank(m.states, c.state)
  {
    forall d | d in Successors(m, c)
      ensures Rank(m.states, d.state) < Rank(m.states, c.state)
    {
      assert EdgeRanked(m.states, c.state, d.state);
    }
  }

  /** Every byte-consuming or accepting cursor that epsilon edges lead to. */
  ghost function Closure(m: Machine, c: Cursor): (r: set<Cursor>)
    requires Ranked(m.states)
    ensures forall x | x in r :: IsFinal(m.states, x.state)
    decreases Rank(m.states, c.state)
  {
    if IsFinal(m.states, c.state) then {c}
    else
      SuccessorsRanked(m, c);
      set d, x | d in Successors(m, c) && x in Closure(m, d) :: x
  }

  lemma SuccessorClosure(m: Machine, c: Cursor, d: Cursor)
    requires Ranked(m.states) && d in Successors(m, c)
    ensures Closure(m, d) <= Closure(m, c)
  {
    SuccessorsRanked(m, c);
  }

  /** Consecutive cursors, each one epsilon edge from the last. */
  ghost predicate EpsilonPath(m: Machine, path: seq<Cursor>) {
    path != [] && forall i | 0 < i < |path| :: path[i] in Successors(m, path[i - 1])
  }

  ghost predicate Reaches(m: Machine, c: Cursor, x: Cursor) {
    exists path | EpsilonPath(m, path) :: path[0] == c && path[|path| - 1] == x
  }

  lemma {:induction false} ClosureHasPath(m: Machine, c: Cursor, x: Cursor) returns (path: seq<Cursor>)
    requires Ranked(m.states) && x in Closure(m, c)
    ensures EpsilonPath(m, path) && path[0] == c && path[|path| - 1] == x
    decreases Rank(m.states, c.state)
  {
    if IsFinal(m.states, c.state) {
      return [c];
    }
    SuccessorsRanked(m, c);
    var d :| d in Successors(m, c) && x in Closure(m, d);
    var rest := ClosureHasPath(m, d, x);
    path := [c] + rest;
  }

  lemma {:induction false} PathIsClosed(m: Machine, path: seq<Cursor>)
    requires Ranked(m.states) && EpsilonPath(m, path) && IsFinal(m.states, path[|path| - 1].state)
    ensures path[|path| - 1] in Closure(m, path[0])
    decreases |path|
  {
    if |path| > 1 {
      var rest := path[1..];
      assert path[1] in Successors(m, path[0]);
      assert forall i | 0 < i < |rest| :: rest[i] == path[i + 1] && rest[i - 1] == path[i];
      PathIsClosed(m, rest);
    }
  }

  /** The closure is exactly the final cursors some epsilon path reaches. */
  lemma ClosureIsReachability(m: Machine, c: Cursor, x: Cursor)
    requires Ranked(m.states)
    ensures x in Closure(m, c) <==> IsFinal(m.states, x.state) && Reaches(m, c, x)
  {
    if x in Closure(m, c) {
      var path := ClosureHasPath(m, c, x);
    }
    if IsFinal(m.states, x.state) && Reaches(m, c, x) {
      var path :| EpsilonPath(m, path) && path[0] == c && path[|path| - 1] == x;
      PathIsClosed(m, path);
    }
  }

  /** The cursor a byte leads to, if the state takes that byte. */
  ghost function Moved(m: Machine, c: Cursor, b: Byte): seq<Cursor>
    requires WellFormed(m)
  {
    if c.state >= |m.states| then [] else
      match m.states[c.state]
      case Literal(want, next) => if want == b then [c.(state := next)] else []
      case Until(k, next) =>
        assert BytesLead(m.states, c.state);
        var k' := Kmp.Advance(CLOSE, k, b);
        [c.(state := if k' == |CLOSE| then next else c.state - k + k')]
      case _ => []
  }

  lemma MovedUntil(m: Machine, c: Cursor, k: nat, next: nat, b: Byte)
    requires WellFormed(m) && c.state < |m.states| && m.states[c.state] == Until(k, next)
    ensures k < |CLOSE| && k <= c.state
    ensures var k' := Kmp.Advance(CLOSE, k, b);
            Moved(m, c, b) == [c.(state := if k' == |CLOSE| then next else c.state - k + k')]
  {
    assert BytesLead(m.states, c.state);
  }

  ghost function StepSet(m: Machine, cs: set<Cursor>, b: Byte): set<Cursor>
    requires WellFormed(m)
  {
    set c, d, x | c in cs && d in Moved(m, c, b) && x in Closure(m, d) :: x
  }

  ghost function RunSet(m: Machine, cs: set<Cursor>, s: Bytes): set<Cursor>
    requires WellFormed(m)
    decreases |s|
  {
    if s == [] then cs else RunSet(m, StepSet(m, cs, s[0]), s[1..])
  }

  ghost predicate AcceptsEnd(m: Machine, cs: set<Cursor>) {
    exists c | c in cs :: c.state < |m.states| && m.states[c.state].Accept?
  }

  ghost function StartSet(m: Machine): set<Cursor>
    requires WellFormed(m)
  {
    Closure(m, Cursor(m.root, NO_TOOL, {}))
  }

  /** The machine survives `s` and may stop after it. */
  ghost predicate Accepts(m: Machine, s: Bytes)
    requires WellFormed(m)
  {
    AcceptsEnd(m, RunSet(m, StartSet(m), s))
  }

  ghost function Elements(cursors: seq<Cursor>): set<Cursor> {
    set c | c in cursors
  }

  predicate AllOk(owner: Owner, cursors: seq<Cursor>) {
    forall c | c in cursors :: CursorOk(owner, c)
  }

  predicate Distinct(cursors: seq<Cursor>) {
    forall i, j | 0 <= i < j < |cursors| :: cursors[i] != cursors[j]
  }

  // ----- the same, as the code runs it -----

  method PushUnique(cursors: seq<Cursor>, c: Cursor) returns (r: seq<Cursor>)
    requires Distinct(cursors)
    ensures Distinct(r) && Elements(r) == Elements(cursors) + {c}
    ensures forall x :: x in r <==> x in cursors || x == c
  {
    r := if c in cursors then cursors else cursors + [c];
  }

  /** Epsilon paths below one cursor: what the worklist still owes for it. */
  ghost function Pending(m: Machine, c: Cursor): nat
    requires Ranked(m.states)
    decreases Rank(m.states, c.state), 1, 0
  {
    if IsFinal(m.states, c.state) then 1
    else
      SuccessorsRanked(m, c);
      1 + PendingBelow(m, c, Successors(m, c))
  }

  ghost function PendingBelow(m: Machine, above: Cursor, cs: seq<Cursor>): nat
    requires Ranked(m.states)
    requires forall d | d in cs :: Rank(m.states, d.state) < Rank(m.states, above.state)
    decreases Rank(m.states, above.state), 0, |cs|
  {
    if cs == [] then 0 else PendingBelow(m, above, cs[..|cs| - 1]) + Pending(m, cs[|cs| - 1])
  }

  ghost function PendingAll(m: Machine, cs: seq<Cursor>): nat
    requires Ranked(m.states)
  {
    if cs == [] then 0 else PendingAll(m, cs[..|cs| - 1]) + Pending(m, cs[|cs| - 1])
  }

  lemma PendingSum(m: Machine, work: seq<Cursor>, above: Cursor, cs: seq<Cursor>)
    requires Ranked(m.states)
    requires forall d | d in cs :: Rank(m.states, d.state) < Rank(m.states, above.state)
    ensures PendingAll(m, work + cs) == PendingAll(m, work) + PendingBelow(m, above, cs)
  {
    if cs == [] {
      assert work + cs == work;
    } else {
      PendingSum(m, work, above, cs[..|cs| - 1]);
      assert (work + cs)[..|work + cs| - 1] == work + cs[..|cs| - 1];
    }
  }

  /** The final cursors reachable from any of these. */
  ghost function ClosureAll(m: Machine, cs: set<Cursor>): set<Cursor>
    requires Ranked(m.states)
  {
    set c, x | c in cs && x in Closure(m, c) :: x
  }

  lemma SuccessorsOk(m: Machine, owner: Owner, c: Cursor)
    requires Owned(m, owner) && CursorOk(owner, c)
    ensures AllOk(owner, Successors(m, c))
    ensures m.states[c.state].RequireAll? ==> c.tool < |m.required|
  {
    assert OwnerOk(m.states, m.required, owner, c.state);
  }

  lemma ClosureSum(m: Machine, rest: seq<Cursor>, more: seq<Cursor>)
    requires Ranked(m.states)
    ensures ClosureAll(m, Elements(rest + more))
            == ClosureAll(m, Elements(rest)) + ClosureAll(m, Elements(more))
  {
    assert Elements(rest + more) == Elements(rest) + Elements(more);
  }

  /** Replacing a cursor by its successors changes nothing reachable and owes less. */
  lemma ExpandOne(m: Machine, rest: seq<Cursor>, c: Cursor)
    requires Ranked(m.states) && !IsFinal(m.states, c.state)
    ensures ClosureAll(m, Elements(rest + Successors(m, c))) == ClosureAll(m, Elements(rest + [c]))
    ensures PendingAll(m, rest + Successors(m, c)) < PendingAll(m, rest + [c])
  {
    SuccessorsRanked(m, c);
    PendingSum(m, rest, c, Successors(m, c));
    assert (rest + [c])[..|rest|] == rest;
    ClosureSum(m, rest, Successors(m, c));
    ClosureSum(m, rest, [c]);
    assert Elements([c]) == {c};
    assert ClosureAll(m, {c}) == Closure(m, c);
    assert ClosureAll(m, Elements(Successors(m, c))) == Closure(m, c);
  }

  lemma KeepOne(m: Machine, rest: seq<Cursor>, c: Cursor)
    requires Ranked(m.states) && IsFinal(m.states, c.state)
    ensures ClosureAll(m, Elements(rest + [c])) == ClosureAll(m, Elements(rest)) + {c}
    ensures PendingAll(m, rest) < PendingAll(m, rest + [c])
  {
    assert (rest + [c])[..|rest|] == rest;
    ClosureSum(m, rest, [c]);
    assert Elements([c]) == {c};
    assert Closure(m, c) == {c};
    assert ClosureAll(m, {c}) == Closure(m, c);
  }

  /** The worklist entries one epsilon state stands for. */
  method Expand(m: Machine, ghost owner: Owner, c: Cursor) returns (more: seq<Cursor>)
    requires Owned(m, owner) && CursorOk(owner, c) && !IsFinal(m.states, c.state)
    ensures more == Successors(m, c) && AllOk(owner, more)
  {
    SuccessorsOk(m, owner, c);
    match m.states[c.state] {
      case Split(alts) => more := seq(|alts|, i requires 0 <= i < |alts| => c.(state := alts[i]));
      case EnterTool(tool, next) => more := [Cursor(next, tool, {})];
      case Mark(param, next) =>
        var bit := ParamBit(param);
        more := if bit !! c.written then [c.(state := next, written := c.written + bit)] else [];
      case RequireAll(next) =>
        var required := m.required[c.tool];
        more := if required <= c.written then [c.(state := next)] else [];
    }
  }

  /**
   * Expand epsilon states through a worklist, leaving only byte-consuming and
   * accepting ones. It ends because the ranks do, loops notwithstanding, and it
   * never looks up the requirements of a tool nothing committed to.
   */
  method Close(m: Machine, ghost owner: Owner, cursors: seq<Cursor>) returns (closed: seq<Cursor>)
    requires Ranked(m.states) && Owned(m, owner) && AllOk(owner, cursors)
    ensures Elements(closed) == ClosureAll(m, Elements(cursors))
    ensures Distinct(closed) && AllOk(owner, closed)
  {
    closed := [];
    var work := cursors;
    while work != []
      invariant AllOk(owner, work) && AllOk(owner, closed) && Distinct(closed)
      invariant Elements(closed) + ClosureAll(m, Elements(work)) == ClosureAll(m, Elements(cursors))
      decreases PendingAll(m, work)
    {
      var c, rest := work[|work| - 1], work[..|work| - 1];
      assert work == rest + [c];
      if IsFinal(m.states, c.state) {
        KeepOne(m, rest, c);
        closed := PushUnique(closed, c);
        work := rest;
      } else {
        ExpandOne(m, rest, c);
        var more := Expand(m, owner, c);
        work := rest + more;
      }
    }
  }

  /** Everything a first byte could be read from. */
  method Start(m: Machine, ghost owner: Owner) returns (cursors: seq<Cursor>)
    requires WellFormed(m) && Owned(m, owner) && m.root < |m.states| && owner[m.root] == -1
    ensures Elements(cursors) == StartSet(m)
    ensures Distinct(cursors) && AllOk(owner, cursors)
  {
    var first := Cursor(m.root, NO_TOOL, {});
    cursors := Close(m, owner, [first]);
    assert Elements([first]) == {first};
  }

  /** Where one byte takes one cursor. */
  method Move(m: Machine, ghost owner: Owner, c: Cursor, b: Byte) returns (moved: seq<Cursor>)
    requires WellFormed(m) && Owned(m, owner) && TableRight(m) && CursorOk(owner, c)
    ensures moved == Moved(m, c, b) && AllOk(owner, moved)
  {
    assert BytesLead(m.states, c.state) && OwnerOk(m.states, m.required, owner, c.state);
    match m.states[c.state] {
      case Literal(want, next) => moved := if want == b then [c.(state := next)] else [];
      case Until(k, next) =>
        var k' := Kmp.AdvanceBy(CLOSE, m.fallback, k, b);
        // The block is consecutive, so the state for `k'` is a fixed offset away.
        moved := [c.(state := if k' == |CLOSE| then next else c.state - k + k')];
        assert k' < |CLOSE| ==> owner[c.state + k' - k] == owner[c.state];
      case _ => moved := [];
    }
  }

  /** Where one byte takes a set of cursors, before closing. */
  ghost function MovedAll(m: Machine, cs: set<Cursor>, b: Byte): set<Cursor>
    requires WellFormed(m)
  {
    set c, d | c in cs && d in Moved(m, c, b) :: d
  }

  /** Advance every cursor over one byte, and report whether any survived. */
  method Step(m: Machine, ghost owner: Owner, cursors: seq<Cursor>, b: Byte)
    returns (after: seq<Cursor>, alive: bool)
    requires WellFormed(m) && Owned(m, owner) && TableRight(m) && AllOk(owner, cursors)
    ensures Elements(after) == StepSet(m, Elements(cursors), b)
    ensures Distinct(after) && AllOk(owner, after)
    ensures alive <==> StepSet(m, Elements(cursors), b) != {}
  {
    var out: seq<Cursor> := [];
    for i := 0 to |cursors|
      invariant Distinct(out) && AllOk(owner, out)
      invariant Elements(out) == MovedAll(m, Elements(cursors[..i]), b)
    {
      assert Elements(cursors[..i + 1]) == Elements(cursors[..i]) + {cursors[i]};
      var moved := Move(m, owner, cursors[i], b);
      assert MovedAll(m, Elements(cursors[..i + 1]), b)
          == MovedAll(m, Elements(cursors[..i]), b) + Elements(moved);
      if moved != [] {
        assert moved == [moved[0]] && Elements(moved) == {moved[0]};
        out := PushUnique(out, moved[0]);
      }
    }
    assert cursors[..|cursors|] == cursors;
    after := Close(m, owner, out);
    assert ClosureAll(m, Elements(out)) == StepSet(m, Elements(cursors), b);
    alive := after != [];
    assert after != [] ==> after[0] in Elements(after);
  }

  /** Whether some cursor sits at the end of a turn. */
  method AcceptsEndNow(m: Machine, cursors: seq<Cursor>) returns (r: bool)
    requires forall c | c in cursors :: c.state < |m.states|
    ensures r <==> AcceptsEnd(m, Elements(cursors))
  {
    r := exists c | c in cursors :: m.states[c.state].Accept?;
  }
}
