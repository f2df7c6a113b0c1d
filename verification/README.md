# xabe, verified

A Dafny model of the host-side logic of the xabe inference engine, with proofs of what that
logic promises. Device passes are abstract functions of the tokens fed to them; everything
around them is modelled as the Rust code does it. Six parts:

1. **The tool-call grammar** (`crates/xabe-grammar`). A list of tools is compiled, back to
   front and with loops patched last, into a byte-level nondeterministic machine. Whatever the
   tools, the machine accepts exactly the turns the format allows. The token mask built from
   it, a depth-first walk over a flattened trie with a free-text shortcut and a word-at-a-time
   bit set, is the naive check of every token on its own. A constraint that is masking can always
   go on, and from the trigger on the output of a masked run is the beginning of a turn, and a
   whole one where it ends.
2. **Speculative decoding and retention** (`runtime.rs`, `speculative.rs`, `state.rs`).
   Whatever is drafted and however the next token is chosen, what is emitted is what plain
   decoding emits, with the same end of turn and the same cap, from admission to the last token.
   The state is the fold of exactly the committed tokens, no retained position is passed over,
   every snapshot is of its sequence's own stream and names what follows there, and a request
   resumed from one goes on as if it had started cold. Snapshots live in leased buffers that are
   never given away while needed; a worker's sequences share them, and taking turns in any order
   each puts out what it would have alone.
3. **The shared prefix cache** (`engine.rs`, `prefix.rs`, `radix.rs`) as a protocol of request
   handlers and worker threads, in which requests are resumed from what they were handed, with
   the prefix tree, the chains that name blocks, and the snapshot map as classes of their own.
4. **Attention, host sampling and rotary positions** (`attention.rs`, `sampling.rs`,
   `image.rs`): the fast form of each against the simple one it stands for.
5. **The GGUF container** (`crates/xabe-gguf`): what is written reads back, and a file cut
   short is refused.
6. **Counterexamples**: runs and calls of the code above in which a promise is not kept
   (`AngleNames.dfy`, `LostToken.dfy`, the end of `Driver.dfy`).

## Reading order

`Tools`, `CallGrammar` (the format, without any machine), `CallText` (the same as literal text),
`Machine`, `Language` to `Turns` (what each shape of states accepts), `Layout`, `Builder`,
`Compiler`, `CompiledText`, `Liveness`, `DeadEnds`, `Trie`, `Vocab`, `Walk`, `Mask`, `MaskLaws`,
`Twins`, `Watch`, `Constraint`; then `Decoding`, `Accept`, `State`, `Arena`, `Retention`,
`Shapes`, `Serving`, `Prefill`, `Admission`, `Driver`, `Worker`, `Session`; then `Hashes`,
`Chain`, `Radix`, `Shared`, `Protocol`, `ProtocolSteps`, `ProtocolRuns`; `GgufTypes`, `Gguf`,
`GgufMeta`, `GgufFile`, `GgufBytes`, `GgufReader`; `Attention` with `AttentionLaw`, `Sampling`,
and `Rope` with `RopeLaw` stand alone. `MaskedPick`, `Choice`, `MaskedChooser` and `MaskedRun`
join grammar, sampler and decoding. `Options`, `Division` and `Streams` are shared.

Methods carry the code's loops and updates and are proved against functions and predicates;
the lemmas are about those. A cursor's word of written parameters and a word of a token mask
are sets of bit positions.

What code and specification both lean on, the tags of the format, block layouts, weights, scores
and positions, is pinned by a second account that does not mention it: literal text, literal
bytes, sums of exponentials, and laws from one token to the next (`CallText`, `GgufBytes`,
`AttentionLaw`, `RopeLaw`, the ends of `Chain` and `Sampling`).

## What the code does that its documentation does not say

Each of these is kept as the code has it, with a lemma that shows it and, where it can be had, the
exact condition.

- Past 64 parameters the guards are dropped, as documented, and exactly then (`GuardsExactIff`).
  Past 256 the one-byte index wraps and one parameter bars another, which the documentation rules
  out, and exactly then (`NoneBarredIff`, `WrappedIndexBarsAnotherParameter`).
- A `Literals` set with nothing in it is a dead end the constraint can be led into: the text that
  opens its parameter is let through and can then never end. Where names tell tools and parameters
  apart, that is the only way (`StuckText`, `AllCanFinishIff`).
- Two vocabulary entries with the same spelling share a trie node, and the earlier one is masked
  out wherever the trie is walked. The mask is the naive check at every live position if and only
  if no spelling that can occur in a turn is shared (`MaskExactIff`, `TextMaskExactIff`,
  `TwinIsMaskedOut`). An empty cursor set counts as free text (`MaskIsNaiveIff`).
- Where reading starts depends on how the tokenizer cut the output once one trigger can start
  inside another, which takes a `<` in a tool name (`CutsAgreeIff`, `CutDecidesBroken`).
- The batched window stops where the grammar arms, the round-gated loop goes on; the tokens are
  the same ones, the step lengths are not (`WindowedReach`).
- A sampled request whose prompt ends on a retained position, the first for which the arena has no
  slot, draws its first token twice, and only such a request does (`ExecutePrefill`,
  `DrawnOnceIff`, `DrawTwice`).
- A decode-time snapshot names its sequence's next token whenever there is no sampler, also when a
  grammar was masking as it was picked. A later request whose prompt ends there is restored whole
  and puts the token out though its own argmax is another (`InheritMasked`). For all unsampled
  makers and heirs, an heir starts as plain decoding does if and only if the maker was not masking
  at that choice, which whoever takes the snapshot can tell (`InheritedIsFirstIff`,
  `ServeResumed`); a maker whose grammar was idle there does no harm.
- Two tokens end a turn and are let through by the mask where it is whole; decoding stops on one of
  them at most. After the other the run goes on, masked only if that token's own spelling happens
  to continue a turn (`OtherEndGoesOn`; `OutputIsTurn` where there is no other).
- A session step that fails for want of cache leaves the draft head ahead by a whole draft
  (`SpeculativeSession.Step`).
- A request is admitted to its worker before its chain is registered. A token applied in between
  never reaches the chain. The chain is then too short for the drift check to compare anything,
  a snapshot can be filed under a prefix it was not computed from, and a request is resumed from
  it (`LostTokenMisleads`). A chain is exact if and only if none of its request's tokens was
  applied before its registration (`ChainExactIff`), and a request is handed only a prefix it sent
  if that holds of the snapshot's producer and of whatever that was resumed from, whatever other
  requests lose (`HandedOnlyOwnPrefix`).
- With no top-p or min-p cut, a generator that returns exactly zero picks the first candidate even
  when it was excluded. Whatever the selection, that is ruled out if and only if there is such a
  cut, or as many tokens are left as top-k takes, or with no filter at all the row's first one is
  left (`NeverExcludedIff`, `ExcludedTokenDrawn`). Under a grammar, then, a run can leave its turn
  (`AlwaysGoesOnIff`).
- A tensor's element count and byte count wrap around at 64 bits, so a directory entry of 2^64
  elements passes for one of none; sizes are right if and only if neither overflows
  (`SizeExactIff`, `TooLargeIsEmpty`).

## Model

| member | source | states |
|---|---|---|
| `Kmp.Fallback` | crates/xabe-grammar/src/machine.rs:300-313 | for every needle of at most 256 bytes, each entry of the table is the length of that prefix's longest proper border, and fits the byte it is stored in |
| `Kmp.AdvanceIsMatched` | crates/xabe-grammar/src/machine.rs:224-235 | the matched length alone decides the next one: it is always the longest prefix of the needle that ends the text read so far |
| `Kmp.AdvanceBy` | crates/xabe-grammar/src/machine.rs:225-235 | falling back along the table computes that next length |
| `Kmp.MatchedIsEnd` | crates/xabe-grammar/src/machine.rs:178-180 | the whole delimiter counts as matched exactly when it has just ended the text |
| `Tools.ParamBit` | crates/xabe-grammar/src/machine.rs:283-290 | a parameter takes the bit of its index in a byte, if that is below 64, and no other |
| `CallGrammar.TrackedMeans` | crates/xabe-grammar/src/machine.rs:258-275 | checking one parameter at a time against the word is: no tracked bit twice, every required bit present |
| `CallGrammar.GuardsExactIff` | crates/xabe-grammar/src/machine.rs:59-61 | the tracked guards are the documented ones (none twice, all required present) for every argument list if and only if the tool has at most 64 parameters |
| `CallGrammar.WrappedIndexBarsAnotherParameter` | crates/xabe-grammar/src/machine.rs:479-486 | for every tool of more than 256 parameters, writing each parameter once is refused |
| `CallGrammar.NoneBarredIff` | crates/xabe-grammar/src/machine.rs:479-486 | every argument list the documented guards pass is passed if and only if the tool has at most 256 parameters |
| `CallGrammar.DocumentedIsTracked` | crates/xabe-grammar/src/machine.rs:14-22 | within the limits the documented language and the tracked one are the same set of strings |
| `CallTexts.NumberIff` | crates/xabe-grammar/src/machine.rs:353-424 | the grammar spells exactly the numbers of section 6 of RFC 8259, told by their characters |
| `CallTexts.ValueIff` | crates/xabe-grammar/src/machine.rs:426-451 | a value is a text of its kind, told by its characters, and the closing line |
| `CallTexts.TextIsGrammar` | crates/xabe-grammar/src/machine.rs:14-22 | the documented grammar is the format as literal text: every string is a turn of the one if and only if of the other |
| `CallTexts.BareCallIff` | crates/xabe-grammar/src/machine.rs:14-22 | a call of a tool with nothing in it is spelled, headed or not, exactly as written out here, and only if nothing is required |
| `CallTexts.OneParameterIff` | crates/xabe-grammar/src/machine.rs:14-22 | a call with one parameter is spelled exactly as written out here, for every value of its kind and no other |
| `CallTexts.TwoCallsIff` | crates/xabe-grammar/src/machine.rs:14-22 | two calls follow each other exactly where calls may be parallel, with any of space, tab, newline and return between them |
| `Machines.SuccessorsRanked` | crates/xabe-grammar/src/machine.rs:238-280 | along every epsilon edge of a compiled machine a rank falls, patched loops included |
| `Machines.ClosureIsReachability` | crates/xabe-grammar/src/machine.rs:237-280 | the closure is exactly the byte-consuming and accepting cursors that some epsilon path reaches |
| `Machines.SuccessorsOk` | crates/xabe-grammar/src/machine.rs:269-276 | the requirements of a tool are looked up only for a cursor that has committed to a tool there is |
| `Machines.Close` | crates/xabe-grammar/src/machine.rs:238-280 | the worklist ends, and leaves exactly the closure, without duplicates |
| `Machines.Start` | crates/xabe-grammar/src/machine.rs:147-156 | the start set is the closure of the root, committed to no tool |
| `Machines.Move` | crates/xabe-grammar/src/machine.rs:167-189 | a byte takes a cursor where the state says, the offset arithmetic of a value's states landing inside the value's block |
| `Machines.Step` | crates/xabe-grammar/src/machine.rs:158-195 | stepping a cursor list is stepping its set, and reports whether any survived |
| `Machines.AcceptsEndNow` | crates/xabe-grammar/src/machine.rs:197-202 | true exactly when some cursor may stop here |
| `Runs.Feed` | crates/xabe-grammar/src/machine.rs:158-195 | feeding a text byte by byte, and giving up at the first dead byte, computes the set the whole text leads to |
| `Languages.RunAccepts` | crates/xabe-grammar/src/machine.rs:158-202 | a set accepts a text exactly when one of its cursors does by itself |
| `Languages.CompilesLiteral` | crates/xabe-grammar/src/machine.rs:326-332 | a byte chain accepts exactly its bytes and then what its end accepts |
| `Languages.CompilesDigits` | crates/xabe-grammar/src/machine.rs:360-372 | the digit loop accepts exactly one or more digits |
| `Values.CompilesNumber` | crates/xabe-grammar/src/machine.rs:374-423 | the number states accept exactly section 6 of RFC 8259, the integer form dropping the fraction and nothing else |
| `Values.EndsUntil` | crates/xabe-grammar/src/machine.rs:177-187 | having read any text without the delimiter, the state is the one for the longest matched prefix, and the value ends exactly at the delimiter's first occurrence |
| `Values.CompilesUntil` | crates/xabe-grammar/src/machine.rs:339-350 | a raw-text value accepts exactly the text through the first delimiter |
| `Values.CompilesValue` | crates/xabe-grammar/src/machine.rs:425-451 | every kind of value accepts exactly its spellings and the closing delimiter |
| `Calls.ArgsParse` | crates/xabe-grammar/src/machine.rs:476-496 | whatever an argument loop accepts is a list of offered parameters, guarded by the word, and the way out |
| `Calls.ArgsPrint` | crates/xabe-grammar/src/machine.rs:476-496 | every such list is accepted, in any order |
| `Calls.EntryForgets` | crates/xabe-grammar/src/machine.rs:498-504 | nothing written in one call is remembered in the next |
| `Turns.ShapeLanguage` | crates/xabe-grammar/src/machine.rs:453-515 | a machine of the compiled shape accepts exactly the turns the grammar writes |
| `Layouts.GrowSound` | crates/xabe-grammar/src/machine.rs:321-324 | laying a state down keeps every state's edges ranked, in its tool's region and leading down |
| `Layouts.PatchSound` | crates/xabe-grammar/src/machine.rs:368-370 | patching a placeholder into a loop keeps all of that |
| `Builders.Builder.AddLiteral` | crates/xabe-grammar/src/machine.rs:326-332 | lays down a chain for the bytes ending at `next` and disturbs nothing before it |
| `Builders.Builder.AddUntil` | crates/xabe-grammar/src/machine.rs:339-350 | lays down one state per matched prefix, consecutive from zero |
| `Builders.Builder.AddDigits` | crates/xabe-grammar/src/machine.rs:360-372 | lays down the digit loop, placeholder first, patched last |
| `Builders.Builder.AddNumber` | crates/xabe-grammar/src/machine.rs:374-423 | lays down the number states, exponent first |
| `Builders.Builder.AddValue` | crates/xabe-grammar/src/machine.rs:425-451 | lays down one value ending back at the argument loop; only an empty literal set leaves a dead end |
| `Builders.Builder.AddArgs` | crates/xabe-grammar/src/machine.rs:476-496 | lays down a tool's argument loop, patched once its parameters and its way out exist |
| `Builders.Builder.AddTool` | crates/xabe-grammar/src/machine.rs:467-503 | records the tool's required parameters and lays down its body behind the commitment to it |
| `Builders.Builder.Build` | crates/xabe-grammar/src/machine.rs:453-515 | the whole layout: every tool, what may follow a call, and the two ways into the first one |
| `Compilers.Compile` | crates/xabe-grammar/src/machine.rs:117-140 | for every tool list, the machine is well formed and accepts exactly the grammar's strings |
| `Compilers.CompiledLanguage` | crates/xabe-grammar/src/machine.rs:14-22 | for every compiled machine and every string: accepted if and only if it is a turn of offered names, parameters in any order within the tracked guards, values as their schemas spell them, whitespace after a call, and one call when not parallel |
| `Compilers.DocumentedLanguage` | crates/xabe-grammar/src/machine.rs:14-22 | for at most 65536 tools of at most 64 parameters, accepted if and only if it is a turn of the documented grammar |
| `CompiledTexts.CompiledText` | crates/xabe-grammar/src/machine.rs:453-516 | within the documented limits a compiled machine accepts the format as literal text, and nothing else |
| `CompiledTexts.TurnsOpenWithTrigger` | crates/xabe-grammar/src/machine.rs:127-133 | every turn begins with something that is watched for |
| `Compilers.CompiledIsWellFormed` | crates/xabe-grammar/src/machine.rs:121-140 | every compiled machine is ranked, its regions are owned by one tool each, and its failure table is right |
| `Compilers.Recognize` | crates/xabe-grammar/src/machine.rs:543-553 | running a whole text through the machine decides membership in the grammar |
| `Compilers.RunOk` | crates/xabe-grammar/src/machine.rs:158-195 | no text takes a cursor into a tool's region without commitment to that tool |
| `Liveness.ReachableLives` | crates/xabe-grammar/src/machine.rs:453-515 | with one tool at least and no empty literal set, every cursor any text reaches can still finish |
| `Liveness.SurvivorsCanFinish` | crates/xabe-grammar/src/machine.rs:198-202 | any text the machine survives can be continued to one it accepts |
| `Liveness.NextByte` | crates/xabe-grammar/src/machine.rs:158-195 | after any surviving text some single byte survives too |
| `DeadEnds.StuckForGood` | crates/xabe-grammar/src/machine.rs:14-22 | where names tell tools and parameters apart, no turn of the grammar begins by opening a parameter whose literal set is empty |
| `DeadEnds.StuckText` | crates/xabe-grammar/src/machine.rs:431-437 | that opening survives in the compiled machine, and no continuation of it is accepted |
| `DeadEnds.AllCanFinishIff` | crates/xabe-grammar/src/machine.rs:198-202 | every surviving text can be continued to an accepted one if and only if no literal set of any tool is empty |
| `Tries.Flatten` | crates/xabe-grammar/src/vocab.rs:100-111 | the flat arrays are a trie for the same strings, each node's edges in byte order |
| `Tries.LastToken` | crates/xabe-grammar/src/vocab.rs:97-97 | a node keeps the last token with its spelling |
| `Bits.AllBits` | crates/xabe-grammar/src/vocab.rs:59-64 | every bit of the vocabulary is set and the tail of the last word is clear |
| `Vocabs.New` | crates/xabe-grammar/src/vocab.rs:52-124 | the trie spells every kept token, the free-text words mark exactly those that cannot start the delimiter, and the breaking list holds the rest |
| `Vocabs.Piece` | crates/xabe-grammar/src/vocab.rs:126-137 | the bytes of a token, none outside the vocabulary |
| `Walks.BelowSound` | crates/xabe-grammar/src/vocab.rs:226-275 | everything below a node found from a cursor set is a token whose bytes survive |
| `Walks.BelowComplete` | crates/xabe-grammar/src/vocab.rs:226-275 | every token below it whose bytes survive is found |
| `Walks.Walk` | crates/xabe-grammar/src/vocab.rs:224-275 | the explicit stack with a cursor buffer per level marks exactly the tokens found from the root |
| `Masks.PlainStays` | crates/xabe-grammar/src/vocab.rs:162-171 | in free text, bytes that cannot start the delimiter leave the cursor set as it is |
| `Masks.IsFreeText` | crates/xabe-grammar/src/machine.rs:204-214 | true exactly when every cursor is in free text with nothing matched |
| `Masks.WalkFinds` | crates/xabe-grammar/src/vocab.rs:172-174 | the walk finds a token if and only if it survives and no later token has its spelling |
| `Masks.Allowed` | crates/xabe-grammar/src/vocab.rs:160-181 | the words mark exactly the kept tokens, by the shortcut or by the walk, and end-of-generation tokens exactly where the machine may stop |
| `Masks.Mask` | crates/xabe-grammar/src/vocab.rs:153-207 | every logit is untouched if kept and negative infinity if not, the tail word and ids past the vocabulary included |
| `Masks.MaskIsNaive` | crates/xabe-grammar/src/vocab.rs:149-207 | with pairwise distinct spellings and a live position, the mask keeps a token if and only if the naive check admits it |
| `Masks.MaskIsNaiveIff` | crates/xabe-grammar/src/vocab.rs:97-174 | for any vocabulary and any position, the exact condition under which mask and naive check agree on a token |
| `Twins.TwinIsMaskedOut` | crates/xabe-grammar/src/vocab.rs:97-97 | in every compiled machine at its start, a token for the first byte of a turn is masked out if a later one has its spelling |
| `Twins.FromInside` | crates/xabe-grammar/src/machine.rs:177-187 | with part of the delimiter read, a text that does not complete it fares as it would from the start of free text |
| `Twins.MaskExactIff` | crates/xabe-grammar/src/vocab.rs:97-207 | mask and naive check agree on every token at every live position if and only if no two tokens share a spelling that can occur in a turn |
| `Twins.TextMaskExactIff` | crates/xabe-grammar/src/vocab.rs:97-207 | for any compiled grammar with a free-text parameter and any vocabulary without the whole delimiter in a token, they agree everywhere if and only if no two tokens are spelled alike |
| `MaskLaws.SurvivesIffViable` | crates/xabe-grammar/src/machine.rs:158-202 | a text survives if and only if it begins some turn of the grammar |
| `MaskLaws.MaskIsGrammar` | crates/xabe-grammar/src/vocab.rs:149-181 | after any viable text, a token is kept if and only if appending its bytes leaves a beginning of some turn, or it ends generation where a turn is complete |
| `MaskLaws.SomeTokenKept` | crates/xabe-grammar/src/vocab.rs:175-206 | with a token for every byte, a mask over any reachable position keeps some token |
| `MaskLaws.KeptStaysAlive` | crates/xabe-grammar/src/vocab.rs:150-151 | a kept token that does not end generation never breaks the constraint |
| `MaskLaws.TriggerAlive` | crates/xabe-grammar/src/lib.rs:157-160 | replaying any trigger's own bytes leaves the machine alive |
| `Watching.ArmedIff` | crates/xabe-grammar/src/lib.rs:193-207 | reading has started if and only if the output so far contains a trigger, however it was cut |
| `Watching.RobustAgree` | crates/xabe-grammar/src/lib.rs:196-201 | for a robust trigger set every cut starts reading at the same place |
| `Watching.CutsAgreeIff` | crates/xabe-grammar/src/lib.rs:196-218 | every cut of every output agrees if and only if the trigger set is robust: no trigger starts inside another and ends first without being pre-empted |
| `Watching.PlainNamesAreRobust` | crates/xabe-grammar/src/machine.rs:127-132 | tool names without `<` make a robust trigger set |
| `Constraints.Find` | crates/xabe-grammar/src/lib.rs:221-226 | the first occurrence, or none |
| `Constraints.FindTrigger` | crates/xabe-grammar/src/lib.rs:210-218 | the earliest start of any trigger in the tail, or none |
| `Constraints.Window` | crates/xabe-grammar/src/lib.rs:193-207 | looking in the kept tail and the new piece finds exactly the earliest trigger of the whole output |
| `Constraints.ToolConstraint.constructor` | crates/xabe-grammar/src/lib.rs:108-128 | a new constraint over a compiled machine, idle, its tail long enough for the longest trigger |
| `Constraints.ToolConstraint.ObserveBytes` | crates/xabe-grammar/src/lib.rs:176-208 | after any pieces, the flags, the tail and the cursors are a function of what was observed and of where reading starts |
| `Constraints.ToolConstraint.Observe` | crates/xabe-grammar/src/lib.rs:155-174 | a token's bytes are observed, and a kept token keeps a masking constraint masking |
| `Constraints.ToolConstraint.Mask` | crates/xabe-grammar/src/lib.rs:142-153 | nothing while idle or broken, the mask of the current cursors otherwise |
| `Constraints.SplitIndependent` | crates/xabe-grammar/src/lib.rs:176-218 | with no `<` in a tool name, two constraints that saw the same output are in the same state however it was cut |
| `Constraints.NeverStuck` | crates/xabe-grammar/src/lib.rs:130-153 | a masking constraint always keeps some token |
| `Choices.Argmax` | crates/xabe-engine/src/runtime.rs:371-381 | the first of the largest logits, excluded ones losing to every other |
| `Choices.ChooseUnder` | crates/xabe-engine/src/runtime.rs:338-356 | a token picked from the masked row and read by the constraint, which goes on masking exactly as long as the machine is alive |
| `MaskedPicks.AlwaysGoesOnIff` | crates/xabe-engine/src/runtime.rs:338-348 | every draw from a masked row continues the turn, or ends a whole one, if and only if no excluded token can be drawn |
| `MaskedRuns.RunInTurn` | crates/xabe-engine/src/runtime.rs:338-356 | from the trigger on, the output of every masked run is the beginning of a turn up to the first token that ends it, and there it is a whole one |
| `MaskedRuns.OutputIsTurn` | crates/xabe-engine/src/runtime.rs:1583-1593 | where decoding stops on every token that ends a turn, all of the output since the trigger is the beginning of a turn, and when decoding has stopped, a whole one |
| `MaskedRuns.OtherEndGoesOn` | crates/xabe-server/src/tokenizer.rs:110-119 | a token that ends a turn and is not the one decoding stops on does not stop it, and the mask stays only if its spelling continues a turn |
| `Constraints.TriggerStartsMasking` | crates/xabe-grammar/src/lib.rs:155-160 | a trigger just completed leaves the constraint masking |
| `AngleNames.CutDecidesBroken` | crates/xabe-grammar/src/lib.rs:196-201 | for one tool whose name holds a trigger, the same output is alive read whole and dead read cut |
| `Decoding.RunTracks` | crates/xabe-engine/src/runtime.rs:1583-1593 | plain decoding for any number of steps: what was fed, and the last token, are the prompt and the output |
| `Decoding.WindowedReach` | crates/xabe-engine/src/runtime.rs:1882-1892 | the batched window never reaches past the round-gated loop, and reaches as far if and only if the grammar does not arm on an agreed token |
| `Decoding.ServedIsPlain` | crates/xabe-engine/src/runtime.rs:1427-1445 | any mixture of windows and rounds is some number of plain steps, within the cap |
| `Decoding.SpeculationIsExact` | crates/xabe-engine/src/runtime.rs:1492-1502 | for any drafts and any stateful chooser, a sequence served until it finishes emitted what plain decoding emits, and it finishes |
| `Accepting.ChooseOnHost` | crates/xabe-engine/src/runtime.rs:1856-1893 | the tokens chosen row by row, one past the last agreed draft, are plain decoding's own |
| `Accepting.AcceptArgmax` | crates/xabe-engine/src/runtime.rs:1898-1907 | accepting argmax rows while they equal the drafts gives plain decoding's own tokens |
| `Accepting.TruncateAtEos` | crates/xabe-engine/src/runtime.rs:1924-1933 | cutting at the first end of turn lands plain decoding exactly where it stops |
| `Accepting.AcceptWhole` | crates/xabe-engine/src/speculative.rs:357-361 | the single-sequence loop accepts the longest agreed run and one token more |
| `States.SlotsStay` | crates/xabe-engine/src/state.rs:637-644 | the slots a prefix left are the first of those the whole left |
| `States.SequenceState.Reset` | crates/xabe-engine/src/state.rs:480-489 | back to a cold start, whatever the slots still hold |
| `States.SequenceState.RunVerify` | crates/xabe-engine/src/runtime.rs:1822-1829 | a window writes slots above the position and a ring of recurrent states, changes nothing committed, and fails exactly when the cache cannot take it |
| `States.SequenceState.Commit` | crates/xabe-engine/src/runtime.rs:1935-1951 | committing `n` inputs leaves the fold of exactly those, whatever stale tail lies above |
| `Retentions.SinceLast` | crates/xabe-engine/src/runtime.rs:1550-1554 | with no multiple since the last snapshot and none crossed, a multiple is reached exactly one interval on |
| `Retentions.Retention.Visit` | crates/xabe-engine/src/runtime.rs:1550-1582 | each multiple reached is captured once, on top of the last snapshot, whose end it starts at, at most an interval on and exactly one past a multiple, so never of a bad shape; the capture is the fold of the tokens so far; when the arena has no slot retention stops for good |
| `Retentions.Retention.constructor` | crates/xabe-engine/src/runtime.rs:1276-1278 | retention starts cold, or at the end of a restored snapshot, which is what the next one hangs on |
| `Shapes.BuildTails` | crates/xabe-engine/src/runtime.rs:794-805 | the tail shapes are exactly the powers of two no other pass covers, ascending |
| `Shapes.WidestTail` | crates/xabe-engine/src/runtime.rs:405-408 | the widest tail that fits, if one does |
| `Shapes.ChooseWidth` | crates/xabe-engine/src/runtime.rs:383-440 | every chosen width is some work and no more than there is, crosses no multiple of the interval, and has a pass of its own width |
| `Shapes.NothingWider` | crates/xabe-engine/src/runtime.rs:391-408 | nothing wider that has a pass would fit, but that the chunk goes before an interval or a decode width longer than it |
| `Shapes.WideFirst` | crates/xabe-engine/src/runtime.rs:396-404 | the chunk where it fits, else the whole interval where that does |
| `Serving.RuntimeSequence.LivePosition` | crates/xabe-engine/src/runtime.rs:1125-1133 | a live sequence stands at prompt plus emitted less one, and a full window always fits its cache |
| `Serving.RuntimeSequence.TrimDraft` | crates/xabe-engine/src/runtime.rs:1401-1425 | a draft is the longest beginning of the proposal that leaves room in the output and passes no retained position, or empty where that is shorter than the minimum |
| `Serving.RuntimeSequence.Accept` | crates/xabe-engine/src/runtime.rs:1856-1933 | the kept emissions are where plain decoding gets to |
| `Serving.RuntimeSequence.VerifyStep` | crates/xabe-engine/src/runtime.rs:1764-2047 | one batched step: output, chooser, state and cap are plain decoding's after as many tokens; the position reached is retained if due, and its record is of this sequence's stream and names what follows there |
| `Serving.RuntimeSequence.Round` | crates/xabe-engine/src/runtime.rs:1454-1607 | one plain round is one step of plain decoding; a snapshot is taken exactly when one is due and there is a slot, and its record names the token emitted there |
| `Serving.RuntimeSequence.GatedStep` | crates/xabe-engine/src/runtime.rs:1447-1608 | the round-gated loop emits plain decoding's tokens for as long as the draft agrees |
| `Serving.RuntimeSequence.DecodeStep` | crates/xabe-engine/src/runtime.rs:1359-1614 | a decode step of either form, for any proposal, is a step of the kind the whole-run theorems are about, and what it reports describes the sequence's own stream |
| `Prefilling.RunStretch` | crates/xabe-engine/src/runtime.rs:2255-2398 | the pieces add up to the scheduled work, each has a prebuilt pass, none passes a retained position, and recorded predictions are the plain ones |
| `Prefilling.RunsOutStays` | crates/xabe-engine/src/runtime.rs:2346-2396 | whether the slots run out at the prompt's end can be told, the same, anywhere on the way there |
| `Prefilling.PredictedIsFirst` | crates/xabe-engine/src/runtime.rs:2362-2388 | a prediction recorded at the prompt's end is the first token put out, if one is; a sampler's draw is not recorded |
| `Prefilling.ExecutePrefill` | crates/xabe-engine/src/runtime.rs:2243-2452 | a stretch leaves the state of exactly the prompt so far, and the last one the first token plain decoding would give, from the sampler as it was, or as one draw left it exactly if the last retained position is the prompt's end and the first without a slot; records describe the stream |
| `Prefilling.DrawnOnceIff` | crates/xabe-engine/src/runtime.rs:2362-2394 | every sampler's first token is plain decoding's if and only if the slots do not run out at the prompt's end |
| `Prefilling.ResumeWhole` | crates/xabe-engine/src/runtime.rs:2410-2423 | a prompt restored whole starts from the token the snapshot named, and is refused when it names none |
| `Decoding.MaskedMeans` | crates/xabe-engine/src/runtime.rs:338-363 | the positions booked as picked under a mask are exactly those where the grammar was masking as the next token was picked |
| `Prefilling.FirstTracks` | crates/xabe-engine/src/runtime.rs:2433-2448 | the first token starts plain decoding off, at most one token out |
| `Admission.Admit` | crates/xabe-engine/src/runtime.rs:1096-1184 | a cold sequence, its cache with room for prompt, output and a window past them |
| `Admission.AdmitRestored` | crates/xabe-engine/src/runtime.rs:1241-1292 | refused exactly when the snapshot is longer than the prompt; otherwise the state is the fold of the snapshot's tokens, whichever they were, the rest of the prompt is owed, and the sequence has a handle of its own on the snapshot, which its next one hangs on |
| `Driving.PrefillAll` | crates/xabe-engine/src/runtime.rs:2243-2452 | however the prompt is scheduled, the first token is the same and every record describes the stream |
| `Driving.DecodeAll` | crates/xabe-engine/src/runtime.rs:1359-1614 | however it is drafted and in whichever form each step runs, decoding ends, where plain decoding with the same cap ends |
| `Driving.Serve` | crates/xabe-engine/src/runtime.rs:1325-1357 | an admitted sequence puts out exactly plain decoding's output, and every snapshot it reported is of its stream and names what follows |
| `Driving.ServeResumed` | crates/xabe-engine/src/engine.rs:426-451 | a request resumed from a snapshot of a beginning of its prompt puts out what plain decoding of the prompt does, unless the snapshot is of all of it, its maker was masking there, and the token it picked is not the argmax |
| `Driving.ServeCold` | crates/xabe-engine/src/engine.rs:443-451 | a cold request puts out what plain decoding of its prompt does |
| `Driving.DrawTwice` | crates/xabe-engine/src/runtime.rs:2362-2394 | for every prompt that ends on a multiple of the interval there is an arena and a sampler for which the second draw is put out |
| `Driving.InheritMasked` | crates/xabe-engine/src/runtime.rs:1564-1571 | a token one request's grammar asked for is put out by another without a grammar, its prompt restored whole |
| `Driving.InheritedIsFirstIff` | crates/xabe-engine/src/engine.rs:426-435 | for all unsampled makers and heirs, a prompt restored whole starts as plain decoding does if and only if the maker was not masking when it picked the token it names |
| `Serving.RuntimeSequence.Undisturbed` | crates/xabe-engine/src/state.rs:200-236 | whatever others do to the arena leaves a sequence valid, if they spare its handle and what was captured |
| `Workers.Worker.Enrol` | crates/xabe-engine/src/runtime.rs:1096-1186 | a cold request joins the sequences of a worker and disturbs none |
| `Workers.Worker.EnrolRestored` | crates/xabe-engine/src/runtime.rs:1241-1292 | so does one resumed from a snapshot, with a handle of its own |
| `Workers.Worker.OneTurn` | crates/xabe-engine/src/runtime.rs:1325-1341 | one sequence's prefill or decode step leaves the others unchanged, their handles spared, and all of them valid |
| `Workers.Worker.Interleave` | crates/xabe-engine/src/runtime.rs:1325-1357 | turns in any order on one arena: every sequence that finishes puts out what plain decoding from its start does |
| `Sessions.SpeculativeSession.Open` | crates/xabe-engine/src/speculative.rs:197-309 | the session is where plain decoding starts, the draft head level with the target; refused for an empty prompt and one the cache cannot take |
| `Sessions.SpeculativeSession.Step` | crates/xabe-engine/src/speculative.rs:340-404 | a round emits one to `d + 1` tokens of plain decoding and leaves the draft head level with the target; a failed one leaves it `d` ahead |
| `Arenas.KeptIffReachable` | crates/xabe-engine/src/state.rs:366-373 | the snapshots kept are exactly those some handle's parent chain runs through, their buffers are not free, and free and leased make up the capacity |
| `Arenas.SnapshotArena.Available` | crates/xabe-engine/src/state.rs:206-209 | what is available and what is leased make up the capacity |
| `Arenas.SnapshotArena.Clone` | crates/xabe-engine/src/runtime.rs:1561-1563 | one more handle on a snapshot, nothing else changed |
| `Arenas.SnapshotArena.Drop` | crates/xabe-engine/src/state.rs:228-236 | a dropped handle returns the buffers nothing refers to any more, those of a stretch of its chain, child before parent, and no others |
| `Arenas.SnapshotArena.Capture` | crates/xabe-engine/src/state.rs:491-534 | a capture past the parent's end fails exactly when the stretch is negative or too long or no buffer is free, and otherwise adds one snapshot that restores to the parent's beginning and the state's rest, which is the state if the parent was taken of it |
| `Arenas.SnapshotArena.CaptureNext` | crates/xabe-engine/src/runtime.rs:1555-1575 | a sequence's next snapshot hangs on its last and is exactly the state; the sequence's handle moves on to it |
| `Arenas.SnapshotArena.Restore` | crates/xabe-engine/src/state.rs:536-575 | restoring through the parent chain rebuilds exactly what was captured, refused only when the state is too short |
| `Hashes.SameName` | crates/xabe-cache/src/radix.rs:50-59 | streams that share a chained name share every value it stands for |
| `Hashes.NameOfPrefix` | crates/xabe-cache/src/radix.rs:50-59 | a name depends on nothing past its blocks |
| `Chains.SequenceChain.constructor` | crates/xabe-engine/src/prefix.rs:74-87 | a chain over a prompt and its images names its complete blocks and holds the rest |
| `Chains.SequenceChain.Push` | crates/xabe-engine/src/prefix.rs:89-107 | one token more, image slots replaced by their digests, a full block named |
| `Chains.ValuesAre` | crates/xabe-engine/src/prefix.rs:94-100 | inside an image a chain holds its digest for the slot, outside of all of them the token |
| `Chains.ImagesApart` | crates/xabe-engine/src/prefix.rs:94-107 | two prompts whose images differ in the digest of a slot share no name from its block on |
| `Chains.SequenceChain.HashesFor` | crates/xabe-engine/src/prefix.rs:125-138 | the names of exactly the blocks a position covers, when it is reached and on a block's edge |
| `Chains.SequenceChain.GeneratedTokenAt` | crates/xabe-engine/src/prefix.rs:140-159 | the value at a position past the prompt and inside the block being filled, and nothing elsewhere |
| `Chains.SameTokensSameNames` | crates/xabe-engine/src/prefix.rs:59-107 | names do not depend on which tokens were prompt and which were generated |
| `RadixTrees.PrefixClosed` | crates/xabe-cache/src/radix.rs:179-204 | a node is never cached without everything before it |
| `RadixTrees.RestIsKept` | crates/xabe-cache/src/radix.rs:306-336 | with nothing eligible left, everything left is in use or above something in use |
| `RadixTrees.RadixTree.Insert` | crates/xabe-cache/src/radix.rs:141-177 | a chain is cached whole, with links right both ways and depths as token ends, and nodes already there keep their counts, pins and snapshots |
| `RadixTrees.RadixTree.MatchPrefix` | crates/xabe-cache/src/radix.rs:179-204 | the longest cached prefix and the deepest snapshot in it, no name past it cached |
| `RadixTrees.RadixTree.IncrRefChain` | crates/xabe-cache/src/radix.rs:206-219 | one reference more for each time a node is named |
| `RadixTrees.RadixTree.DecrRefChain` | crates/xabe-cache/src/radix.rs:221-235 | one fewer, never below none, and what has none was last used now |
| `RadixTrees.RadixTree.SetPinned` | crates/xabe-cache/src/radix.rs:237-257 | exactly the named nodes that are there change their pin |
| `RadixTrees.RadixTree.EvictUnreferenced` | crates/xabe-cache/src/radix.rs:283-336 | each victim is the least recently used eligible leaf at its turn; what is in use and what is above it stays, and with no bound reached nothing else does |
| `SharedCaches.SharedSnapshots.TakeForReuse` | crates/xabe-engine/src/prefix.rs:217-224 | a hit is answered and stamped as the latest use |
| `SharedCaches.SharedSnapshots.Publish` | crates/xabe-engine/src/prefix.rs:226-236 | an entry is filed under its name and stamped |
| `SharedCaches.SharedSnapshots.ReclaimFor` | crates/xabe-engine/src/prefix.rs:246-274 | only this worker's entries go, each the least recently used at its turn and only while there was too little room; true exactly when there is room, false only with none of its entries left |
| `SharedCaches.OlderGoFirst` | crates/xabe-engine/src/prefix.rs:179-184 | an entry goes only after every entry of its worker used less recently |
| `ProtocolSteps.StepKeepsInv` | crates/xabe-engine/src/engine.rs:389-662 | every step of every handler and worker keeps the invariant |
| `ProtocolSteps.DriftedIff` | crates/xabe-engine/src/engine.rs:529-548 | the drift check finds the records to disagree exactly where the block being filled has another value than the snapshot names |
| `ProtocolRuns.HandedOnlyOwnPrefix` | crates/xabe-engine/src/engine.rs:417-460 | over every interleaving, a request handed a snapshot sent exactly the values folded into it, if neither its producer, nor any request that goes back to, had a token applied before registration; and a request, resumed or not, is run on its own prompt, if that holds of what it was resumed from |
| `ProtocolRuns.IntactIff` | crates/xabe-engine/src/engine.rs:636-643 | none of a set of requests has lost a token if and only if no step of the run applied one of theirs before its request's registration |
| `ProtocolRuns.CleanIff` | crates/xabe-engine/src/engine.rs:636-643 | no token has been lost if and only if no step of the run applied one before its request's registration |
| `ProtocolRuns.DriftNeverFound` | crates/xabe-engine/src/engine.rs:529-548 | and for such a producer the drift check finds chain and runtime to agree |
| `ProtocolRuns.ChainExactIff` | crates/xabe-engine/src/engine.rs:636-643 | a registered chain, with what is on its way to it, is what the worker produced if and only if none of its tokens was applied before it was registered |
| `LostTokens.LostTokenMisleads` | crates/xabe-engine/src/engine.rs:443-460 | a run in which a token applied before registration ends with a snapshot handed to a request that sent something else, and that request resumed from it |
| `Attention.StreamRow` | crates/xabe-kernels/src/attention.rs:76-105 | one pass with a rescaled running maximum computes the softmax average of every coordinate |
| `Attention.NaiveRow` | crates/xabe-kernels/src/attention.rs:30-55 | two passes compute the same |
| `Attention.FormsAgree` | crates/xabe-kernels/src/attention.rs:60-108 | both forms give the same rows for every length, dimension and input |
| `Attention.BothForms` | crates/xabe-kernels/src/attention.rs:136-162 | the matrices the naive and the streaming loop return are equal |
| `AttentionLaws.InnerIsDot` | crates/xabe-kernels/src/attention.rs:34-34 | what is linear and picks out a coordinate on a unit vector is the product the scores are made of |
| `AttentionLaws.DotIsInner` | crates/xabe-kernels/src/attention.rs:34-34 | and that product is so |
| `AttentionLaws.AttentionIs` | crates/xabe-kernels/src/attention.rs:17-19 | every output times the sum of its keys' exponentials is its values, each by its own key's |
| `AttentionLaws.KeyShare` | crates/xabe-kernels/src/attention.rs:17-19 | where one key alone has a coordinate, the output has that key's share of it |
| `Attention.SoftmaxInHull` | crates/xabe-kernels/src/attention.rs:17-19 | one list of weights, none negative and adding up to one, gives every coordinate of the average |
| `Attention.RowInHull` | crates/xabe-kernels/src/attention.rs:17-19 | every output row lies in the convex hull of its causal window's value rows |
| `Samplers.Ladder` | crates/xabe-engine/src/sampling.rs:201-237 | whatever order ties fall in, the rung-by-rung partial sorts keep exactly the weights of the shortest top run of a full sort whose mass reaches the share |
| `Samplers.SameTop` | crates/xabe-engine/src/sampling.rs:208-215 | any two ways of ranking the largest candidates weigh the same, place by place |
| `Samplers.HeavyKeepsTop` | crates/xabe-engine/src/sampling.rs:239-246 | min-p up to one never drops the most likely candidate |
| `Samplers.Draw` | crates/xabe-engine/src/sampling.rs:252-258 | the draw falls on the first candidate whose running mass reaches it |
| `Samplers.DrawnHasWeightIff` | crates/xabe-engine/src/sampling.rs:253-257 | the candidate drawn has weight if and only if the draw is above zero or the first candidate has |
| `Samplers.Sample` | crates/xabe-engine/src/sampling.rs:161-262 | the whole pipeline: the first of the filtered candidates whose mass, a sum of exponentials at the temperature, reaches the draw's share of it all, with no filter on of the row itself; index 0 when nothing is left; and the exact condition for an excluded one |
| `Samplers.FiltersMean` | crates/xabe-engine/src/sampling.rs:178-246 | top-k leaves nothing smaller than it drops, top-p the shortest run of the most likely with its share of the exponentials, min-p those with a share of the largest's |
| `Samplers.TopMeans` | crates/xabe-engine/src/sampling.rs:184-193 | the largest logit a draw goes by is the largest there is |
| `Samplers.NeverExcludedIff` | crates/xabe-engine/src/sampling.rs:161-262 | whatever the selection, no excluded token is drawn if and only if the draw is above zero, top-p or min-p cuts, the row has as many left as top-k takes, or with no filter its first one is left |
| `Samplers.ExcludedTokenDrawn` | crates/xabe-engine/src/sampling.rs:252-257 | an excluded token drawn by a zero |
| `Ropes.ValidatePlacements` | crates/xabe-engine/src/image.rs:125-147 | accepts exactly the sorted, separate, non-empty placements inside the prompt |
| `Ropes.AssignPositions` | crates/xabe-kernels/src/mrope.rs:84-129 | the reference sweep gives every token the position its placement implies, and the base decoding goes on from |
| `Ropes.FillTriples` | crates/xabe-engine/src/image.rs:91-123 | a chunk's triples, from the placements alone, are those positions |
| `Ropes.ScalarChunk` | crates/xabe-engine/src/runtime.rs:2276-2287 | a chunk clear of images needs only the lag where it starts |
| `Ropes.PrefillPositions` | crates/xabe-engine/src/runtime.rs:2282-2312 | chunk after chunk, for any cut, the positions are the whole prompt's and each image token gets its row |
| `Ropes.CutsDoNotMatter` | crates/xabe-engine/src/image.rs:94-97 | the reference and the chunked form agree for every cut |
| `RopeLaws.FirstIsNothing` | crates/xabe-engine/src/image.rs:115-120 | text begins at position nothing |
| `RopeLaws.TextGoesOn` | crates/xabe-engine/src/image.rs:115-120 | from one text token to the next every component goes on by one |
| `RopeLaws.CellsAre` | crates/xabe-engine/src/image.rs:106-114 | an image's cells share its time, row and column counting from there |
| `RopeLaws.TextThenImage` | crates/xabe-engine/src/image.rs:106-120 | an image behind text begins one further on |
| `RopeLaws.ImageThen` | crates/xabe-engine/src/image.rs:73-82 | what follows an image is as far on as the longer side of its grid |
| `Ropes.BelowNext` | crates/xabe-kernels/src/mrope.rs:116-118 | no component inside an image reaches the next token's base |
| `Ropes.ReachesNext` | crates/xabe-kernels/src/mrope.rs:20-22 | the last token of an image comes next to that base |
| `Ropes.StageRows` | crates/xabe-engine/src/runtime.rs:2296-2310 | each image token of a chunk is given the row of its own, and no other token any |
| `Ropes.RowsApart` | crates/xabe-engine/src/runtime.rs:2296-2310 | no two tokens share an embedding row |
| `Ropes.RowsAllUsed` | crates/xabe-engine/src/runtime.rs:2296-2310 | and every row goes to some token |
| `GgufTypes.SizeExactIff` | crates/xabe-gguf/src/types.rs:102-113 | a tensor's size comes out right if and only if it is whole blocks and neither its elements nor its bytes overflow 64 bits |
| `GgufTypes.TooLargeIsEmpty` | crates/xabe-gguf/src/file.rs:345-353 | two dimensions of 2^32 make a tensor of no bytes |
| `GgufBytes.BlockLayouts` | crates/xabe-gguf/src/types.rs:56-81 | every type's blocks take what their scales and bits add up to |
| `GgufBytes.EntryOpens` | crates/xabe-gguf/src/file.rs:319-363 | what each type's number in a directory entry opens as, byte by byte, and that no other does |
| `GgufBytes.TagsOpen` | crates/xabe-gguf/src/file.rs:387-408 | what each number's or truth value's tag opens as, byte by byte, and that no tag past 12 does |
| `GgufBytes.TagOfStrings` | crates/xabe-gguf/src/file.rs:396-396 | a string is a length of eight bytes and so many bytes |
| `GgufBytes.TagOfArrays` | crates/xabe-gguf/src/file.rs:397-438 | an array is a tag, a count of eight bytes and its items, and not of arrays |
| `GgufBytes.HeaderOpens` | crates/xabe-gguf/src/file.rs:276-299 | four letters, version 3, and two counts with their sign bits off, byte by byte |
| `GgufBytes.DimensionsAre` | crates/xabe-gguf/src/file.rs:327-338 | four dimensions at most, none zero or negative |
| `GgufBytes.LoneTensorFile` | crates/xabe-gguf/src/file.rs:105-143 | a file of one tensor of any type, byte by byte: its bytes start at the first multiple of 32 past the metadata, and it opens if they are all there |
| `GgufBytes.AlignmentGiven` | crates/xabe-gguf/src/file.rs:310-317 | the alignment is the number under `general.alignment` |
| `Gguf.SpellReads` | crates/xabe-gguf/src/reader.rs:62-92 | a number written little-endian reads back |
| `Gguf.ValueCut` | crates/xabe-gguf/src/reader.rs:37-47 | a value cut anywhere ends too soon, and cut after its end reads the same |
| `Gguf.ValuePrints` | crates/xabe-gguf/src/file.rs:382-439 | every kind of value and array, written, reads back, whatever follows it |
| `GgufMeta.TensorsPrint` | crates/xabe-gguf/src/file.rs:319-363 | a directory of distinct names, written, reads back |
| `GgufMeta.MetaCut` | crates/xabe-gguf/src/file.rs:273-375 | metadata cut anywhere end too soon, and cut after their end read the same |
| `GgufMeta.MetaPrints` | crates/xabe-gguf/src/file.rs:565-573 | metadata and directory, written, read back whatever follows |
| `GgufFiles.AlignUpIsLeast` | crates/xabe-gguf/src/file.rs:377-380 | masking the low bits off gives the least multiple of the alignment that is not below |
| `GgufFiles.OpenedIsInPlace` | crates/xabe-gguf/src/file.rs:105-125 | every tensor of a file that opened lies inside it |
| `GgufFiles.CutShort` | crates/xabe-gguf/src/file.rs:105-125 | a file that opened, cut short, ends too soon if cut in its metadata, has a tensor out of bounds if cut in a tensor, and otherwise opens as it did |
| `GgufFiles.RoundTrip` | crates/xabe-gguf/src/file.rs:451-582 | a container written opens as what it was, its tensors' bytes at an aligned offset, and of every tensor the bytes written for it come back |
| `GgufReader.Cursor.Take` | crates/xabe-gguf/src/reader.rs:37-47 | so many bytes and past them, or an end too soon and nothing moved past the file |
| `GgufReader.Cursor.Array` | crates/xabe-gguf/src/file.rs:410-439 | the loop reads the array its bytes stand for, or fails as they do |
| `GgufReader.Cursor.Metadata` | crates/xabe-gguf/src/file.rs:301-308 | the loop fills a table with the pairs its bytes stand for, refusing a key that comes twice |
| `GgufReader.Cursor.Directory` | crates/xabe-gguf/src/file.rs:319-363 | the loop reads the directory its bytes stand for, refusing a name that comes twice |
| `GgufReader.OpenFile` | crates/xabe-gguf/src/file.rs:105-143 | opening a file gives the tables its bytes stand for, or the first thing wrong with it |

## Left out

- HandedOnlyOwnPrefix: not for snapshots that go back to a request which lost a token between admission and registration, because the code lets one be lost there; `LostTokenMisleads` is such a run, `IntactIff` and `ChainExactIff` say exactly when. Not every such snapshot is handed out wrongly.
- StepKeepsInv: a worker's step may report any snapshots of its sequences' own streams that name what follows there; that the runtime reports no others is proved apart, by `Serving.RuntimeSequence.Reports` for every step and `Driving.Serve` for whole runs.
- AdmitRestored: the snapshot's buffers are of the same arena; one handed over from another worker's is not modelled.
- Interleave: the sequences are there from the start, or join between turns (`Enrol`, `EnrolRestored`); that a finished one leaves, and that handles it gave out are dropped, is not part of it.
- RunInTurn: a chooser is any that picks as `ChooseUnder` does while masking; what it carries besides the text it has read and the generator's next number is left open.
- ServeResumed: while a sequence runs alone, only its own captures take slots. When it shares the arena (`Interleave`), others may take the slot at the prompt's end, so there it is left open whether a sampler's first token was drawn twice.
- SameName: hashing is taken to be injective; names are free terms, and collisions of 64-bit hashes or 32-bit image digests are not modelled.
- Next: what the prefix tree answers and when entries are reclaimed or evicted is left open in the protocol, so reference counts play no part in its safety; the tree is proved by itself.
- SpeculationIsExact: the target model is a function from the tokens fed to a row of logits, the same in every pass shape; numerics, aliasing and streams of the device are not modelled.
- VerifyStep: one sequence at a time; the other sequences of a batch share only the pass, and device errors part-way through a batch are not modelled.
- ExecutePrefill: image embedding and the draft heads' catch-up are not part of it; positions and rows of images are proved apart, in `Rope.dfy`.
- TrimDraft: what the n-gram, MTP and DFlash drafters propose is any sequence of tokens shorter than the window; how they propose and learn is not modelled.
- Capture: reference counts are a multiset of handles held outside plus one reference per child; each snapshot is one key and value stretch and one recurrent state, not one per layer.
- Mask: bit words are sets of positions below 64 and logits are reals or negative infinity; not-a-number is not modelled.
- Compile: state indices are unbounded where the code has 32 bits.
- Sample: over the reals, with the generator's number a parameter; the bit arithmetic of the generator, floating-point underflow and temperatures of zero or less, which never reach the sampler, are not modelled.
- FormsAgree: over the reals with any positive exponential; rounding and grouped heads are not modelled.
- AssignPositions: positions are unbounded integers; 32-bit truncation is not modelled.
- OpenFile: whether bytes are UTF-8 is a parameter, numbers are their bits, and arithmetic wraps as in a release build; memory mapping and capacity hints are not modelled.
- The scheduler, the router's scores, block pools and worker reservations.
- Reading JSON schemas into tool specs, and HTTP.
- CUDA kernels, graph capture, weight loading and vision.
- Wall-clock behaviour, lock fairness and logging.
