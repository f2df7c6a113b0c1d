/** Compiled machines and what is watched for, against the format as literal text. */
module CompiledTexts {
  import opened Tools
  import opened Machines
  import opened Compilers
  import opened CallTexts

  /** Within the documented limits a compiled machine accepts the format as literal text, and nothing else. */
  lemma CompiledText(m: Machine, owner: Owner, tools: seq<ToolSpec>, parallel: bool, s: Bytes)
    requires IsCompiled(m, owner, tools, parallel)
    requires |tools| <= 0x1_0000 && forall t | 0 <= t < |tools| :: |tools[t].params| <= 64
    ensures WellFormed(m)
    ensures Accepts(m, s) <==> exists headed, lines :: IsTurn(tools, parallel, s, headed, lines)
  {
    DocumentedLanguage(m, owner, tools, parallel, s);
    TextIsGrammar(tools, parallel, s);
  }

  lemma LineOpens(tools: seq<ToolSpec>, line: Line)
    requires line.tool < |tools| && ItemsInRange(tools[line.tool], line.items)
    ensures Ascii("<function=") + tools[line.tool].name + Ascii(">") <= LineText(tools, line)
  {
    var name, rest := tools[line.tool].name, LineText(tools, line);
    AsciiIs(">", "\n", ">\n");
    var open := Ascii("<function=") + name + Ascii(">");
    assert rest == open + (Ascii("\n") + ItemsText(tools[line.tool], line.items) + Ascii("</function>\n</tool_call>")
                           + line.space);
  }

  lemma HeadingOpens(rest: Bytes)
    ensures Ascii("<tool_call>") <= Heading(true) + rest
  {
    AsciiIs("<tool_call>", "\n", "<tool_call>\n");
    assert Heading(true) + rest == Ascii("<tool_call>") + (Ascii("\n") + rest);
  }

  lemma FirstLineOpens(tools: seq<ToolSpec>, lines: seq<Line>)
    requires LinesInRange(tools, lines) && lines != []
    ensures LineText(tools, lines[0]) <= LinesText(tools, lines)
  {
  }

  /** Every turn begins with something that is watched for. */
  lemma TurnsOpenWithTrigger(tools: seq<ToolSpec>, parallel: bool, s: Bytes, headed: bool, lines: seq<Line>)
    returns (trigger: Bytes)
    requires IsTurn(tools, parallel, s, headed, lines)
    ensures trigger in Triggers(tools) && trigger <= s
  {
    if headed {
      HeadingOpens(LinesText(tools, lines));
      trigger := Triggers(tools)[0];
    } else {
      FirstLineOpens(tools, lines);
      LineOpens(tools, lines[0]);
      trigger := Triggers(tools)[1 + lines[0].tool];
    }
  }
}
