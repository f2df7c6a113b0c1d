/** What masking a compiled grammar guarantees, said in terms of the grammar alone. */
module MaskLaws {
  import opened Tools
  import opened Machines
  import opened CallGrammar
  import opened Calls
  import opened Builders
  import opened Runs
  import opened Compilers
  import opened Liveness
  import opened Tries
  import opened Masks

  // ----- a trigger's own bytes -----

  lemma HeaderStart(m: Machine)
    requires WellFormed(m) && RootAt(m.states, m.root)
    ensures Cursor(m.states[m.root].alts[0], NO_TOOL, {}) in StartSet(m)
  {
    var root, header := Cursor(m.root, NO_TOOL, {}), Cursor(m.states[m.root].alts[0], NO_TOOL, {});
    assert Successors(m, root)[0] == header;
    SuccessorClosure(m, root, header);
    assert Closure(m, header) == {header};
  }

  lemma HeaderAlive(m: Machine)
    requires WellFormed(m) && RootAt(m.states, m.root)
    ensures RunSet(m, StartSet(m), CallOpen()[..|CallOpen()| - 1]) != {}
  {
    HeaderStart(m);
    ChainAlive(m, StartSet(m), Cursor(m.states[m.root].alts[0], NO_TOOL, {}), CallOpen(), ENTRY, |CallOpen()| - 1);
  }

  lemma NameAlive(m: Machine, tools: seq<ToolSpec>, callClose: nat, t: nat)
    requires WellFormed(m) && RootAt(m.states, m.root) && EntryAt(m.states, tools, callClose) && t < |tools|
    ensures RunSet(m, StartSet(m), FunctionOpen(tools[t])[..|FunctionOpen(tools[t])| - 1]) != {}
  {
    var a := m.states[ENTRY].alts[t];
    assert ToolAt(m.states, a, t, tools[t], callClose) && a in m.states[ENTRY].alts;
    var args :| ToolBodyAt(m.states, m.states[a].next, tools[t], callClose, args);
    var open := FunctionOpen(tools[t]);
    NameStart(m, a, open, args);
    ChainAlive(m, StartSet(m), Cursor(m.states[a].next, m.states[a].tool, {}), open, args, |open| - 1);
  }

  /** A trigger is the line it opens, without the line's end. */
  lemma TriggerIsOpening(tools: seq<ToolSpec>, trigger: Bytes)
    requires trigger in Triggers(tools)
    ensures trigger == CallOpen()[..|CallOpen()| - 1]
         || exists t | 0 <= t < |tools| :: trigger == FunctionOpen(tools[t])[..|FunctionOpen(tools[t])| - 1]
  {
    var i :| 0 <= i < |Triggers(tools)| && trigger == Triggers(tools)[i];
    if i == 0 {
      assert trigger == CallOpen()[..|CallOpen()| - 1];
    } else {
      var t := i - 1;
      assert trigger == Ascii("<function=") + tools[t].name + Ascii(">");
      assert trigger == FunctionOpen(tools[t])[..|FunctionOpen(tools[t])| - 1];
    }
  }

  /** Replaying any trigger's own bytes leaves the machine alive. */
  lemma TriggerAlive(m: Machine, owner: Owner, tools: seq<ToolSpec>, parallel: bool, trigger: Bytes)
    requires IsCompiled(m, owner, tools, parallel) && trigger in Triggers(tools)
    ensures WellFormed(m) && RunSet(m, StartSet(m), trigger) != {}
  {
    var callClose, loops :| CompiledFrom(m, owner, tools, parallel, callClose, loops);
    CompiledHasShape(m, owner, tools, parallel, callClose, loops);
    TriggerIsOpening(tools, trigger);
    HeaderAlive(m);
    forall t | 0 <= t < |tools| {
      NameAlive(m, tools, callClose, t);
    }
  }

  // ----- what the mask keeps, as the grammar sees it -----

  /** `s` can be continued to a whole turn. */
  ghost predicate Viable(tools: seq<ToolSpec>, parallel: bool, s: Bytes) {
    exists rest: Bytes :: InGrammar(Tracked, tools, parallel, s + rest)
  }

  /** The machine survives exactly the beginnings of turns. */
  lemma SurvivesIffViable(m: Machine, owner: Owner, tools: seq<ToolSpec>, parallel: bool, s: Bytes)
    requires IsCompiled(m, owner, tools, parallel)
    requires 1 <= |tools| <= TOOL_IDS && AllHaveLiterals(tools)
    ensures WellFormed(m) && (RunSet(m, StartSet(m), s) != {} <==> Viable(tools, parallel, s))
  {
    SurvivorsCanFinish(m, owner, tools, parallel, s);
    if RunSet(m, StartSet(m), s) != {} {
      var rest :| Accepts(m, s + rest);
      CompiledLanguage(m, owner, tools, parallel, s + rest);
    }
    if Viable(tools, parallel, s) {
      var rest :| InGrammar(Tracked, tools, parallel, s + rest);
      CompiledLanguage(m, owner, tools, parallel, s + rest);
      AcceptedSurvives(m, s, rest);
    }
  }

  /**
   * The mask, end to end. Having read `s`, a token is kept exactly when its
   * bytes can still lead to a whole turn, and the end of generation exactly
   * when `s` is one.
   */
  lemma MaskIsGrammar(m: Machine, owner: Owner, tools: seq<ToolSpec>, parallel: bool, s: Bytes,
                      pieces: seq<Bytes>, eog: seq<nat>, t: nat)
    requires IsCompiled(m, owner, tools, parallel)
    requires 1 <= |tools| <= TOOL_IDS && AllHaveLiterals(tools)
    requires Viable(tools, parallel, s)
    requires NoTwins(pieces, eog)
    ensures WellFormed(m) && (Kept(m, RunSet(m, StartSet(m), s), pieces, eog, t) <==>
              t < |pieces| && if t in eog then InGrammar(Tracked, tools, parallel, s)
                              else pieces[t] != [] && Viable(tools, parallel, s + pieces[t]))
  {
    SurvivesIffViable(m, owner, tools, parallel, s);
    var cs := RunSet(m, StartSet(m), s);
    MaskIsNaive(m, cs, pieces, eog, t);
    CompiledLanguage(m, owner, tools, parallel, s);
    if t < |pieces| {
      RunAppend(m, StartSet(m), s, pieces[t]);
      SurvivesIffViable(m, owner, tools, parallel, s + pieces[t]);
    }
  }

  /** Every byte is some token of its own. */
  ghost predicate SpellsEveryByte(pieces: seq<Bytes>, eog: seq<nat>) {
    forall b: Byte :: exists t: nat :: InTrie(pieces, eog, t) && pieces[t] == [b]
  }

  /** No deadlock: with a token for every byte, a masked step never excludes every token. */
  lemma SomeTokenKept(m: Machine, owner: Owner, tools: seq<ToolSpec>, parallel: bool, s: Bytes,
                      pieces: seq<Bytes>, eog: seq<nat>) returns (t: nat)
    requires IsCompiled(m, owner, tools, parallel)
    requires 1 <= |tools| <= TOOL_IDS && AllHaveLiterals(tools) && SpellsEveryByte(pieces, eog)
    requires WellFormed(m) && RunSet(m, StartSet(m), s) != {}
    ensures t < |pieces| && Kept(m, RunSet(m, StartSet(m), s), pieces, eog, t) && t !in eog
  {
    var b := NextByte(m, owner, tools, parallel, s);
    RunAppend(m, StartSet(m), s, [b]);
    var any: nat :| InTrie(pieces, eog, any) && pieces[any] == [b];
    // Where several tokens spell the byte, the last one holds its node.
    var last := LastToken(pieces, eog, |pieces|, [b]);
    assert last >= any;
    t := last;
    assert !Shadowed(pieces, eog, t);
  }

  /** A token the mask kept leaves the machine alive. */
  lemma KeptStaysAlive(m: Machine, cs: set<Cursor>, pieces: seq<Bytes>, eog: seq<nat>, t: nat)
    requires WellFormed(m) && cs != {} && t !in eog && Kept(m, cs, pieces, eog, t)
    ensures t < |pieces| && RunSet(m, cs, pieces[t]) != {}
  {
    if FreeText(m, cs) && CLOSE[0] !in pieces[t] {
      PlainStays(m, cs, pieces[t]);
    }
  }
}
