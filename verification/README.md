# A verified model of DiffGraph's hard core

DiffGraph reviews pull requests with LLM agents. This Dafny project models the
parts of it whose correctness is hardest to see from the code, and proves what
they promise. `dafny verify dfyconfig.toml` checks everything.

**Diffs.** A full-context unified diff is turned into lines with three
coordinates - L, old and new - by which every diff tool navigates. The
reference is an abstract edit script (keep, delete, add) and its printer, which
follows IEEE Std 1003.1-2017, `diff` utility, "Diff -u or -U Output Format",
with git's marker for a missing final newline. Both parsers of the repository,
the coordinates, the changes-only view and the two-pass outline are proved
against it (`EditScript`, `HunkHeader`, `VirtualFs`, `DiffRoundTrip`,
`Coordinates`, `DiffParser`, `ParserAgreement`, `ChangesOnly`, `Outline`).

**The ReAct loop.** `ReactLoop` defines a run as a function of an environment
that may answer anything: the model's replies, the tools' results, the clock,
injected messages, callbacks of finished children. `Agent` holds the objects of
the source, which update their fields, and proves that they compute that
function. The whole-run theorems are about every environment (`Messages`,
`Condensation`, `Budget`, `Escalation`, `Cadence`, `ReactTheorems`, `ReactLog`,
`ReactHistory`, `ReactBudget`, `ReactStep`).

**Asynchronous children.** `AsyncDelivery` is a state machine with one action
per critical section of the child thread, the callback drain and `agent_await`.
The invariant is proved for every interleaving, with any number of awaits in
flight at once, since the tool calls of one step run in parallel. `AsyncReturns`
says which children a call returns and that a drain leaves nobody behind.

**Comment threads.** A nested reply tree is flattened with an explicit stack and
rebuilt from parent links; several loops look for the root of a thread;
listings group, page and render (`CommentTree`, `CommentTools`,
`CommentRebuild`, `RootFinders`, `CommentThreads`, `CommentRender`,
`RenderAgreement`, `ThreadPages`).

**Repository addresses.** Printer, parser and the comparison of printed forms
(`RepoUri`).

## Where the code keeps less than it promises

The model follows the code, also where a comment or docstring says otherwise.
Each point below is a lemma.

- `build_virtual_file` recovers the two files exactly when no deleted line
  starts with `--`, no added line with `++` and no file lacks its final newline
  (`DiffRoundTrip.RoundTrip`). The parser of `diff_parser.py` needs none of this
  (`ParserAgreement.SectionRoundTrip`), so the two agree on the changed lines
  only where none is skipped (`ParserAgreement.LinesAgree`), and on the changed
  numbers exactly where the shifts by markers and by skipped added lines leave
  the set as it is (`ParserAgreement.NumbersAgree`; that the two shifts can cancel
  out is `ParserAgreement.ShiftsCancel`).
- The comments on `_drain_async_callbacks` and `agent_await` say that a child is
  not reported again. It is in three ways, each with a concrete run. The drain
  repeats it when an await returned it between its publish and its enqueue
  (`AsyncDelivery.LateEnqueueRepeats`; `AsyncDelivery.DrainRepeats` says exactly
  when). An await for its run_id repeats it whenever it was handed over before,
  since that branch does not look at `_async_collected`
  (`AsyncDelivery.ByIdRepeats`), and an await-all when another await returned it
  in the meantime (`AsyncDelivery.ParallelAwaitsRepeat`); `AsyncDelivery.AwaitRepeats`
  says exactly when for both. `AsyncDelivery.BothChannels` covers both orders of
  the two channels, `AsyncDelivery.RepeatsExactly` whole runs.
- A `require_tool` guard does not hold a run back when its message is empty
  (`ReactTheorems.EmptyMessageBreaks`).
- Condensation by summary or by window can leave tool results without the calls
  they answer (`Condensation.CondensePairing` says exactly when). A configuration
  keeps every run's log paired exactly when condensation is off, only truncates,
  or preserves no message (`ReactLog.RunsStayPaired`); the defaults break it in the
  third one-call step (`ReactLog.DefaultsOrphanRun`, a concrete run).
- A negative `before` or `after` hides changed lines from the changes-only view
  (`ChangesOnly.OmittedIsContext`).
- The root finders agree exactly when no ancestor is missing
  (`RootFinders.WalkChainUp`); the walk of `pr_read_thread` ends exactly when no
  reply chain loops (`CommentRender.WalkEndsIff`); rebuilding a flattened thread
  gives it back exactly when the feed has its replies in the order they were posted
  (`CommentRebuild.FlattenThenRebuild`); the two renderers of a thread agree exactly when its replies are listed in the order they were posted
  (`RenderAgreement.RenderersAgree`).
- The time axis narrows the tools exactly when the limit passes between the
  loop's check and the pusher's reading of the clock (`ReactBudget.TimeAxisForces`);
  the token axis never does (`ReactBudget.TokenAxisNeverForces`).
- The docstring of `ContextBudgetPusher` speaks of a FORCE_DONE level at 0.85;
  the class has none (`ReactBudget.ContextAxisNeverForces`). The comment that
  ratios only climb is false of `context_ratio`; the latches do not need it
  (`Escalation.FiresInOrder`).
- For an ill-formed context the comparison of printed addresses can take one
  repository for another (`RepoUri.IllFormedContextConfuses`);
  `RepoUri.StructuralUnlessConfusing` says for which contexts.
- With fewer than ten steps the step axis never narrows the tools before the
  loop ends, so the headroom its docstring promises does not exist
  (`ReactBudget.CapWithinLoop`).

## Model

| member | source | states |
|---|---|---|
| `HunkHeader.NumberOfDecimal` | diffsearch/virtual_fs.py:147-148 | reading the decimal digits of a line number gives the number back |
| `HunkHeader.MatchOfPrint` | diffgraph/diff_parser.py:78 | the hunk-header pattern reads both start numbers back from any header the printer writes, for all counts (a count of one is not printed) and headings |
| `HunkHeader.MatchIff` | diffgraph/diff_parser.py:78 | a line is read as a hunk header exactly if it has the form of the expression, in whatever way the expression may split it, and the numbers are the digits of its two groups |
| `VirtualFs.ParseLines` | diffsearch/virtual_fs.py:126-174 | the parsing loop yields exactly the lines read off the raw lines: skipped, hunk header, or body with its marker and three numbers |
| `VirtualFs.ReadOfPrinted` | diffsearch/virtual_fs.py:132-171 | a printed edit is read back as itself, except a deleted `--...` or an added `++...`, which is ignored as a file header |
| `VirtualFs.ReadOfMarker` | diffsearch/virtual_fs.py:167-174 | git's no-newline marker is read as a context line |
| `DiffRoundTrip.LinesSkipHeader` | diffsearch/virtual_fs.py:132-152 | nothing before the first hunk header reaches the file |
| `DiffRoundTrip.ParsedDiff` | diffsearch/virtual_fs.py:125-178 | parsing a printed full-context diff gives the numbered script as the parser sees it, for every script |
| `DiffRoundTrip.HunksThen` | diffsearch/virtual_fs.py:143-174 | any number of printed hunks, with whatever text behind: each is numbered from its own header, L runs on |
| `DiffRoundTrip.SectionsParsed` | diffsearch/virtual_fs.py:125-174 | a diff of any number of files with any number of hunks: exactly the lines of the hunks, the lines git prints above them left out |
| `DiffRoundTrip.RoundTrip` | diffsearch/virtual_fs.py:125-178 | base and source file come back exactly when no changed line is skipped and no marker is printed; then the whole script does, numbered |
| `Coordinates.VirtualFile.BuildMappings` | diffsearch/virtual_fs.py:201-213 | the four dictionaries are those of the (L, number) pairs of the lines, in both directions |
| `Coordinates.BuildPlainFile` | diffsearch/virtual_fs.py:181-198 | an unchanged file has every line of its text without marker and with L = old = new counting from 1; one git cannot show, or that is not text, is empty |
| `Coordinates.BuildVirtualFile` | diffsearch/virtual_fs.py:106-178 | a blank diff gives the plain file, any other the parsed lines, each with its dictionaries |
| `Coordinates.AnyDiff` | diffsearch/virtual_fs.py:132-174 | whatever text is parsed, L runs without gaps and the marker says which of the two numbers a line has |
| `Coordinates.LineAt` | diffsearch/virtual_fs.py:154-174 | where each line of a script stands: its numbers count the lines of each side above it |
| `Coordinates.Offsets` | diffsearch/virtual_fs.py:154-174 | L is the old number plus the added lines above, and the new number plus the deleted lines above |
| `Coordinates.PairsOfNumbered` | diffsearch/virtual_fs.py:207-213 | one (L, number) pair per line of a side, numbers counting up by one while L grows |
| `Coordinates.DictOfIncreasing` | diffsearch/virtual_fs.py:207-213 | with growing keys no dictionary entry is overwritten and every pair is found again |
| `Coordinates.DictOfAny` | diffsearch/virtual_fs.py:207-213 | on any pairs: exactly their keys, each with the value of the last pair that has it |
| `Coordinates.Dictionaries` | diffsearch/virtual_fs.py:201-213 | for a full-file diff the numbers are exactly 1 to the file's length, and the dictionaries are strictly increasing and mutually inverse |
| `DiffParser.ParseFileSection` | diffgraph/diff_parser.py:115-169 | the index-driven loop returns every hunk of the section and the sorted set of changed line numbers |
| `DiffParser.ParseHunk` | diffgraph/diff_parser.py:121-159 | the inner loop stops at the next hunk or file and returns the deleted and added lines, the deletion positions and the changed numbers of that body |
| `ParserAgreement.SectionThenRest` | diffgraph/diff_parser.py:115-161 | from any printed hunks, whatever hunk or file follows, the parser recovers deleted and added lines, start numbers, deletion positions and changed numbers, whatever the lines contain |
| `ParserAgreement.SectionRoundTrip` | diffgraph/diff_parser.py:118-161 | so a section of printed hunks comes back as it is |
| `ParserAgreement.GatheredFromPrinted` | diffgraph/diff_parser.py:131-151 | one hunk body: the changed numbers are those of the added lines and the number current at each deletion of a file that still exists |
| `ParserAgreement.LinesAgree` | diffgraph/diff_parser.py:135-142 | the two parsers agree on deleted and added lines exactly when the virtual file skips none of them |
| `ParserAgreement.NumbersAgree` | diffsearch/virtual_fs.py:132-174 | for every script: they agree on the changed numbers exactly when shifting the shown changes by the markers and skipped added lines above them gives the same set; without skipped lines that is: no line changes after a marker; without a change after a marker: none after a skipped added line, and every skipped change shares its number with a shown one |
| `ParserAgreement.SeenIsShifted` | diffsearch/virtual_fs.py:132-174 | the numbers the virtual file gives to the changed lines of any script, in closed form |
| `ParserAgreement.ShiftsCancel` | diffsearch/virtual_fs.py:132-174 | a script with a skipped line and a change after a marker on which the two still agree |
| `ChangesOnly.RenderChangesOnly` | diffsearch/tools.py:145-213 | exactly the lines within `before`/`after` of a changed line are printed, ascending and once each, with a separator exactly where neighbours are not adjacent |
| `ChangesOnly.Expand` | diffsearch/tools.py:155-160 | the window of every changed line, cut to the file |
| `ChangesOnly.Layout` | diffsearch/tools.py:192-211 | the printing loop keeps the positions and separates exactly those that are not adjacent |
| `ChangesOnly.OmittedIsContext` | diffsearch/tools.py:155-160 | every omitted line is unchanged context exactly when neither bound is negative |
| `Outline.BlankedRemains` | diffsearch/outline.py:70-81 | taking the blanked positions out of a pass leaves the source, respectively the base file |
| `Outline.PassSeesSide` | diffsearch/outline.py:189-192 | each pass shows every line of its side at its L, and the real line number for an L names that very line of the side's file; blanked positions have none |
| `Outline.MergeSymbols` | diffsearch/outline.py:195-248 | the recursive merge ends on any trees: one entry per sibling name, ranges and numbers of the last symbol of that name on each side, changed exactly when a changed L lies in the hull of both ranges, children likewise |
| `Outline.DistinctNames` | diffsearch/outline.py:204-206 | names come once each, in the order of their first appearance |
| `Outline.EntrySays` | diffsearch/outline.py:202-246 | for each entry and side: a range exactly if some symbol of that side has the name, and then range, ends, kind and children are those of the last one that has it |
| `Outline.ChangesReachUp` | diffsearch/outline.py:230-244 | when symbols nest, a changed entry makes every entry around it changed |
| `Outline.UnchangedIsShared` | diffsearch/outline.py:67-81 | an entry is unmarked exactly when every line of its hull exists on both sides with the same text |
| `Messages.PairedAppend` | orchestra/agent.py:825-900 | what may follow a paired log: it stays paired exactly when what is appended is paired |
| `Messages.PairedSuffix` | orchestra/condensation.py:60-62 | a paired log may be cut exactly where a message other than a tool result follows |
| `Messages.PlainAfter` | orchestra/agent.py:1018-1042 | messages without tool traffic neither break a log they follow nor mend it |
| `Messages.ShapePaired` | orchestra/condensation.py:132-146 | pairing does not depend on the content of tool results |
| `Condensation.EstimateTokens` | orchestra/condensation.py:20-31 | a quarter of the characters of contents and call arguments |
| `Condensation.DropCondense` | orchestra/condensation.py:124-148 | the loop truncates old tool results over 200 characters, and nothing else |
| `Condensation.DropIsIdempotent` | orchestra/condensation.py:132-146 | message count, order and kinds are kept, the leading system message and the last messages verbatim, and a second pass changes nothing |
| `Condensation.CondensedForm` | orchestra/condensation.py:52-165 | what every strategy returns: the log as it is, exactly when it is short; the log with long old tool results cut; or the leading system message, one user message and the last `preserve_last` messages |
| `Condensation.CondenseKeeps` | orchestra/condensation.py:52-165 | whatever the strategy, a leading system message stays first, the last `preserve_last` messages stay word for word, and a summary leaves at most two messages more |
| `Condensation.CondensesWhen` | orchestra/agent.py:1785-1796 | nothing happens unless a quarter of the characters exceeds the trigger |
| `Condensation.CharsOfOne` | orchestra/condensation.py:20-31 | every character of a content and of the arguments of every call counts once |
| `Condensation.CutKeepsPairing` | orchestra/condensation.py:89-94 | a summary in front of the last messages leaves a paired log exactly when the first of them is no tool result |
| `Condensation.CondensePairing` | orchestra/condensation.py:49-165 | for each strategy: a paired log stays paired exactly when the cut does not orphan a tool result |
| `Condensation.DefaultsOrphan` | orchestra/types.py:70-75 | with the default strategy and its five preserved messages any paired log followed by three one-call steps is cut between a call and its result |
| `Budget.BudgetState.UpdateTokens` | orchestra/budget.py:994-1009 | the token fields are replaced; the delta, or after a drop the whole cost, is added to the paid total |
| `Budget.StepCosts` | orchestra/budget.py:84-88 | an output token costs one, an input token one unless cached, the cached ones together their discounted number, cut down |
| `Budget.RatioReaches` | orchestra/budget.py:90-128 | each ratio reaches a share exactly when that share of its limit is used: paid tokens, steps, wall clock, input tokens of the last call |
| `Budget.ExhaustedIff` | orchestra/budget.py:130-144 | the budget is exhausted exactly when one of the four limits is used up |
| `Budget.LastCall` | orchestra/budget.py:994-1009 | the token counts of an account are those of the last call |
| `Budget.PaidIsPeaks` | orchestra/budget.py:1003-1009 | after any sequence of updates the paid total is the sum of the last costs of the maximal non-decreasing stretches |
| `Budget.PaidBounds` | orchestra/budget.py:84-94 | the paid total never decreases, is at least every step's cost, at most their sum, and the last cost if costs never drop |
| `Escalation.SortSorts` | orchestra/budget.py:491-495 | the levels are sorted by threshold and none is lost |
| `Escalation.RatioEscalationPusher.constructor` | orchestra/budget.py:439-495 | the configured levels, sorted, none fired |
| `Escalation.RatioEscalationPusher.Apply` | orchestra/budget.py:497-513 | exactly the unfired levels at or below the ratio fire, are latched and emit their action, in order |
| `Escalation.FiredIff` | orchestra/budget.py:497-513 | a level is latched exactly when some earlier application saw a ratio at or above its threshold |
| `Escalation.EmittedActs` | orchestra/budget.py:497-513 | one application emits exactly the kinds and messages of the levels that are due, in order |
| `Escalation.FiresInOrder` | orchestra/budget.py:491-513 | the latches are always a prefix of the sorted levels, even if the ratio falls, and over a run the levels of that prefix fired once each, in order |
| `Cadence.ReflectCadenceCounter.OnStepDone` | orchestra/budget.py:271-286 | a valid reflect restarts the counter with the other calls of the step, otherwise they are added |
| `Cadence.ReflectCadencePusher.Apply` | orchestra/budget.py:706-737 | latches re-armed by a strict drop, then at most one action: a forced reflect first if configured, else a nudge |
| `Cadence.CounterCounts` | orchestra/budget.py:271-286 | the counter is the number of calls other than reflect and done since and including the last step with a valid reflect |
| `Cadence.NonReflectCounts` | orchestra/budget.py:246-300 | every call counts once, valid or not, except `reflect` and `done` |
| `Cadence.LatchesMean` | orchestra/budget.py:706-737 | the nudge latch is set exactly when the counter was high since its last strict drop |
| `Cadence.NudgeIff` | orchestra/budget.py:706-737 | a nudge comes exactly when the counter is at or above the threshold for the first time since its last strict drop |
| `Cadence.ForceIff` | orchestra/budget.py:706-737 | with a multiplier a reflect is forced exactly when the counter reaches the multiplied threshold for the first time since it last dropped |
| `Cadence.NudgesBounded` | orchestra/budget.py:667-737 | over a run there are at most as many nudges as steps with a valid reflect, plus one |
| `Agent.RatioPusher.Apply` | orchestra/budget.py:383-398 | each configured threshold that the ratio has reached and that has not fired fires once, in order |
| `Agent.BudgetTracker.constructor` | orchestra/budget.py:860-924 | the default chain with the thresholds of each axis, nothing fired |
| `Agent.BudgetTracker.ApplyHandlers` | orchestra/budget.py:1011-1015 | producers in chain order, then their actions on the messages and the tools; every latch advanced as specified |
| `Agent.ApplyActions` | orchestra/budget.py:804-818 | non-empty nudges are appended as user messages, forced ends narrow the tools, nothing else changes |
| `Agent.CheckRequireToolGuards` | orchestra/agent.py:1124-1146 | the first required tool not called and with a retry left gives its message and spends that retry |
| `Agent.ProcessCalls` | orchestra/agent.py:825-973 | one assistant message with all calls, one result per call in order, and the output of the last valid closing call |
| `Agent.ReactAgent.RunReact` | orchestra/agent.py:599-1042 | the loop with its mutable budget, pushers, guards and log computes the specified run, for every environment |
| `Agent.ReactAgent.TakeStep` | orchestra/agent.py:612-1013 | one step: exhaustion, injected messages, pushers, model call, accounting, then text or tools |
| `Agent.ReactAgent.UseTools` | orchestra/agent.py:825-1013 | results, counter, then the end, a guard message, or condensation and the next step |
| `Agent.ReactAgent.RepromptText` | orchestra/agent.py:799-819 | a text reply is re-prompted by the text guard or else by a required tool, and otherwise ends the run |
| `ReactTheorems.CallsBounded` | orchestra/agent.py:612-724 | before step k at most k model calls were made, exactly k while the loop runs |
| `ReactTheorems.RunCallsBounded` | orchestra/agent.py:612-1042 | at most `max_steps` calls in the loop and one more, only in a run without AGENT_DONE |
| `ReactTheorems.SpentBounded` | orchestra/agent.py:1124-1164 | retries never exceed two for the text guard and two per required tool |
| `ReactTheorems.RepromptsBounded` | orchestra/agent.py:799-817 | whatever the model returns, at most 2 + 2G steps are re-prompted, G being the number of required tools |
| `ReactTheorems.GuardContract` | orchestra/agent.py:987-995 | a run that ended with AGENT_DONE has called every required tool or used its guard up |
| `ReactTheorems.RunGuardContract` | orchestra/agent.py:987-1010 | the same of the returned result; and, without condensation, the guard message of a tool never called stands in the log at least twice |
| `ReactTheorems.EmptyMessageBreaks` | orchestra/agent.py:812-819 | whenever the condition on the guard messages fails, a model can end the run with a required tool neither called nor asked for twice |
| `ReactLog.PromptedPaired` | orchestra/agent.py:627-652 | injected messages and nudges keep a paired log paired |
| `ReactLog.TextTurnPaired` | orchestra/agent.py:799-819 | a text reply with its guard message keeps a paired log paired |
| `ReactLog.ToolTurnPaired` | orchestra/agent.py:825-1013 | a step with tool calls keeps the log paired exactly when its condensation, if any, cuts no block |
| `ReactLog.TurnPaired` | orchestra/agent.py:612-1013 | one step of the loop keeps the log paired exactly when its condensation cuts no block |
| `ReactLog.LogPaired` | orchestra/agent.py:612-1013 | for every strategy: before every step of a run every message with calls is followed at once by its results, same ids, same order, exactly as long as no step's condensation has cut a block |
| `ReactLog.RunPaired` | orchestra/agent.py:599-1042 | the log a run returns is paired, after the force-done message too, if no step has cut a block - always without condensation, with truncation only, or when no message is preserved |
| `ReactLog.CondensationBreaks` | orchestra/condensation.py:56-175 | for every other configuration and every starting log a model and its tools can make the run return an unpaired log |
| `ReactLog.RunsStayPaired` | orchestra/agent.py:599-1042 | from a paired log all runs of a configuration return a paired log exactly when its condensation is one of those three, or it has no step to make |
| `ReactLog.DefaultsOrphanRun` | orchestra/agent.py:1785-1796 | a concrete run with the default condensation whose third step leaves a tool result without its call |
| `ReactStep.DeliveredNudges` | orchestra/budget.py:804-808 | what the consumer of the chain appends: one user message per nudge with a text, same texts, same order, nothing else |
| `ReactStep.PromptSays` | orchestra/agent.py:627-652 | the model reads the old log, then the injected texts, then the callbacks of finished children, then the nudges of the chain |
| `ReactStep.ChainActs` | orchestra/budget.py:376-398 | the actions of the chain are those of the configured pushers and of the levels that are due, in chain order, and at most one cadence nudge |
| `ReactStep.LevelReachesModel` | orchestra/budget.py:497-513 | in a run the nudge of a level stands before the model in the step that first sees its threshold reached |
| `ReactStep.PusherReachesModel` | orchestra/budget.py:383-398 | the same for a configured pusher |
| `ReactStep.CadenceReachesModel` | orchestra/budget.py:706-737 | the cadence nudge stands before the model when the counter is high for the first time since it dropped |
| `ReactStep.CallbackReachesModel` | orchestra/agent.py:1751-1756 | injected messages and callbacks stand before the model in the step that drains them |
| `ReactStep.TextStep` | orchestra/agent.py:799-819 | a reply without calls is followed by the message of the guard that may ask, the text guard first, or ends the run |
| `ReactStep.CallStep` | orchestra/agent.py:825-1013 | a reply with calls puts one assistant message and one result per call behind the prompt; then the run ends with the output delivered, a guard message follows, or the log is condensed |
| `ReactStep.RunReturns` | orchestra/agent.py:984-1042 | a run returns the output of the last valid `done` or `answer` of its last reply exactly if no guard message followed; nothing exactly if that reply had no calls and was not re-prompted; otherwise what the force-done call gives, if the agent has `done` |
| `ReactStep.CalledInRun` | orchestra/agent.py:769-773 | the tools called are those named in the replies of the steps made |
| `ReactStep.GuardsInReplies` | orchestra/agent.py:987-1010 | a run that ends with AGENT_DONE has a reply that calls each required tool, or its guard is spent and, without condensation, stands in the log twice |
| `ReactStep.SystemPromptStays` | orchestra/agent.py:1785-1796 | the system message a log starts with stays its first message in every state of every run and in the log returned |
| `ReactStep.RecentStay` | orchestra/agent.py:1013 | after a step that goes on the last `preserve_last` messages of its log stand unchanged at the end |
| `ReactBudget.Tables` | orchestra/budget.py:428-649 | the thresholds of the four axes, after sorting |
| `ReactBudget.AxisForcesFirst` | orchestra/budget.py:497-513 | in a run an axis with a third level forces the end exactly at the first step that sees its threshold reached |
| `ReactBudget.StepAxisForces` | orchestra/budget.py:497-513 | at a step that calls the model the step axis forces the end exactly at the cap step, the first with nine tenths of the steps used |
| `ReactBudget.CapWithinLoop` | orchestra/budget.py:635-649 | the cap step lies within the loop exactly for ten steps or more |
| `ReactBudget.TokenAxisNeverForces` | orchestra/budget.py:516-546 | the token level at 1.0 never fires: exhaustion ends the loop first |
| `ReactBudget.ContextAxisNeverForces` | orchestra/budget.py:571-619 | the context axis never narrows the tools |
| `ReactBudget.TimeAxisForces` | orchestra/budget.py:549-568 | the time axis forces the end exactly when its reading of the clock is at or past the limit and its level has not fired; a limit already past at the loop's check ends the loop instead |
| `ReactBudget.TimeLatches` | orchestra/budget.py:102-107 | that level has fired exactly if the pusher of an earlier step read the clock past the limit |
| `ReactBudget.ConfiguredForcesFirst` | orchestra/budget.py:383-398 | the configured pushers force the end exactly at a step where one of kind FORCE_DONE sees its threshold reached for the first time |
| `ReactBudget.ToolsOffered` | orchestra/agent.py:612-692 | in every run every model call is offered the whole tool list, except exactly at the cap step, at the step whose pusher first reads the clock past the limit and where a configured FORCE_DONE pusher fires: there it is `done` alone if the agent has it |
| `ReactBudget.DoneAlone` | orchestra/budget.py:843-851 | where the tools are narrowed and the agent has `done`, it is all that is offered; everywhere else the whole list is |
| `ReactHistory.HistoriesOfRun` | orchestra/agent.py:612-1013 | in every state of every run, ended ones included, the account, the counter, the cadence latches, the latches of all four axes and the configured pushers fired are those of the histories of the steps made |
| `ReactHistory.AxisLatches` | orchestra/budget.py:497-513 | in every state of a run a level of an axis is latched exactly if one of its steps saw the threshold reached |
| `ReactHistory.StepSays` | orchestra/agent.py:902-908 | a step reflects exactly if its reply has a `reflect` call without validation error; what counts are the calls other than `reflect` and `done` |
| `ReactHistory.PaidOfRun` | orchestra/budget.py:994-1009 | what a run has paid when it returns is the sum of the last costs of the stretches without a drop, at least every cost, at most their sum, and the last cost if none dropped |
| `ReactHistory.PaidNeverFalls` | orchestra/budget.py:1003-1009 | the paid total never decreases during a run |
| `ReactHistory.EscalationOfRun` | orchestra/budget.py:491-513 | over a whole run each axis emits a prefix of its levels, once each, in threshold order, and ends with exactly those latched |
| `ReactHistory.NudgesOfRun` | orchestra/budget.py:706-737 | over a whole run there are at most as many cadence nudges as steps with a valid reflect, plus one |
| `AsyncDelivery.Step` | orchestra/agent.py:1299-1541 | every atomic step of children, drain and awaits keeps the invariant |
| `AsyncDelivery.Reachable` | orchestra/agent.py:1299-1541 | the invariant holds in every state of every interleaving |
| `AsyncDelivery.EnqueuedIsDelivered` | orchestra/agent.py:1319-1322 | a child that has enqueued is queued, in the hands of a drain, or handed over: nothing is lost, and it is in one place |
| `AsyncDelivery.AtMostOnce` | orchestra/agent.py:1387-1400 | the drain hands over each child once; await-all never a drained one, and one twice only as a rival of the await that returned it |
| `AsyncDelivery.CollectedIsHandedOver` | orchestra/agent.py:1510-1519 | in every reachable state `_async_collected` holds exactly the children handed over |
| `AsyncDelivery.AwaitRepeats` | orchestra/agent.py:1484-1519 | an await hands over every target whose result is there, and for the second time exactly if it is in `_async_collected`; for an await-all, exactly if another await handed it over while this one was in flight |
| `AsyncDelivery.DrainRepeats` | orchestra/agent.py:1387-1400 | the child a drain hands over next has been handed over before exactly if an await's queue filter ran between its publish and its enqueue |
| `AsyncDelivery.RepeatsExactly` | orchestra/agent.py:1299-1541 | a run reports a child more than once exactly when one of its steps hands over a child already collected |
| `AsyncDelivery.SequentialAwaits` | orchestra/agent.py:1484-1519 | where no two awaits met, await-all hands over each child at most once |
| `AsyncDelivery.NoRivals` | orchestra/agent.py:1484-1489 | if no await is opened while another is in flight, no two awaits meet |
| `AsyncDelivery.SequentialSchedule` | orchestra/agent.py:1484-1519 | under such a schedule await-all hands over no child that any channel has handed over before |
| `AsyncDelivery.ParallelAwaitsRepeat` | orchestra/agent.py:1484-1519 | a concrete run in which two await-all calls in flight together both return one child |
| `AsyncDelivery.BothChannels` | orchestra/agent.py:1484-1530 | a child is returned by an await and later drained exactly when an await's queue filter ran between its publish and its enqueue and a drain took it afterwards; it is drained and later returned by an await exactly when an await for its run_id collects it after the drain |
| `AsyncDelivery.LateEnqueueRepeats` | orchestra/agent.py:1308-1325 | a concrete run that delivers one child twice |
| `AsyncDelivery.ByIdRepeats` | orchestra/agent.py:1484-1519 | a concrete run in which an await for its run_id returns a child already drained, with no race |
| `AsyncReturns.AwaitTargets` | orchestra/agent.py:1484-1492 | an await-all waits for exactly the children spawned and not handed over yet, an await for a run_id for that child if it was spawned, in the order they were spawned; without any it answers at once |
| `AsyncReturns.AwaitReturns` | orchestra/agent.py:1484-1519 | from the call to its collection: it returns exactly those of them whose result has been published by then, each once, in that order |
| `AsyncReturns.DrainsInOrder` | orchestra/agent.py:1387-1400 | drains hand children over in the order in which they enqueued |
| `AsyncReturns.DrainIsComplete` | orchestra/agent.py:1387-1400 | when a drain ends, every child that had enqueued when it began has been handed over |
| `AsyncReturns.OnlyCallbacksDrained` | orchestra/agent.py:1319-1322 | only children spawned with a callback whose result is published are ever drained |
| `CommentTree.Flatten` | diffgraph/bitbucket.py:463-509 | the explicit-stack loop emits the recursive preorder with parent ids and depths |
| `CommentTree.PushReplies` | diffgraph/bitbucket.py:508-509 | replies pushed in reverse are popped in order |
| `CommentTree.ParentsInside` | diffgraph/bitbucket.py:490-509 | every parent id of the flat list below the top level is a comment of the same block |
| `CommentTools.BuildChildrenMap` | diffgraph/comment_tools.py:106-115 | the map holds, for exactly the comments with replies, their replies sorted by id |
| `CommentTools.ByIdOfAny` | diffgraph/comment_tools.py:252 | on any comments the index has their ids but 0, each with the last comment that carries it |
| `CommentTools.SortIsStable` | diffgraph/comment_tools.py:112-115 | replies come out ascending, none lost, equal ids in their order |
| `CommentTools.SnapshotOfAny` | diffgraph/comment_tools.py:88-91 | on any comments the snapshot keeps, in order, exactly the comments with an id up to the maximum |
| `CommentTools.WalkInto` | diffgraph/comment_tools.py:263-269 | the recursive closure appends exactly the depth-first walk |
| `CommentTools.DirectReplies` | diffgraph/comment_tools.py:106-115 | in the flat list exactly the direct replies name a comment as their parent |
| `CommentRebuild.WalkTree` | diffgraph/comment_tools.py:263-272 | walking the root of a block over the rebuilt map lists the block with its replies in ascending order of id |
| `CommentRebuild.PostedMeans` | diffgraph/comment_tools.py:112-115 | that listing has the same records, its replies ascend, and it is the block itself exactly when the replies below the root already ascend |
| `CommentRebuild.PreorderInjective` | diffgraph/bitbucket.py:463-509 | the flat list with its depths determines the forest, texts included |
| `CommentRebuild.FlattenThenRebuild` | diffgraph/comment_tools.py:260-272 | on any forest with distinct ids, roots in any order: flatten, rebuild, walk gives each root's block in posting order, and is the identity on it exactly when the replies below that root ascend |
| `RootFinders.RootOf` | diffgraph/comment_tools.py:94-103 | the climb stops where specified on any data, cyclic or not, and at the topmost known comment when parents are older than replies |
| `RootFinders.ClimbFinds` | diffgraph/orchestrator.py:453-462 | the visited set changes nothing when parents are older |
| `RootFinders.ChainTopClimbs` | diffgraph/bitbucket_fake.py:505-519 | on any data, cyclic or not, this climb and that of `_root_of` take the same way and part only where an ancestor is missing |
| `RootFinders.WalkChainUp` | diffgraph/bitbucket_fake.py:505-519 | so on any data it finds the same comment, except that it answers 0 when an ancestor is missing; with older parents that comment is the topmost ancestor |
| `RootFinders.ThreadChain` | diffgraph/bitbucket.py:622-645 | on any data the way up, reversed, until a link is missing or leads back; a failing lookup exactly when it leaves the known comments; with older parents it starts at the same root |
| `CommentThreads.SnapshotWellFormed` | diffgraph/comment_tools.py:88-91 | cutting at the snapshot's maximum id keeps the comments well formed and drops exactly the newer ones |
| `CommentThreads.WalkEnds` | diffgraph/comment_tools.py:263-269 | on well-formed comments the recursion ends |
| `CommentThreads.WalkVisits` | diffgraph/comment_tools.py:263-269 | a walk visits exactly the comments below its start, each once |
| `CommentThreads.ThreadIsGroup` | diffgraph/comment_tools.py:143-153 | walking a root lists exactly the comments grouped under it, so a thread has the size the listing shows |
| `CommentThreads.GroupByRoot` | diffgraph/comment_tools.py:143-148 | on any comments: one group per root that occurs, in order of first occurrence, its comments in list order, and the sizes sum to the number of comments |
| `CommentThreads.GroupPicks` | diffgraph/comment_tools.py:143-148 | a group is exactly the comments with that root, in list order |
| `CommentThreads.RootsOccur` | diffgraph/comment_tools.py:143-153 | on well-formed comments the roots that occur are exactly the comments without a parent |
| `CommentThreads.GroupStep` | diffgraph/orchestrator.py:463-468 | each turn of the grouping loop puts one comment into the group of its root |
| `CommentThreads.WalkParentsFirst` | diffgraph/comment_tools.py:263-272 | every comment comes after the one it answers, one level deeper |
| `CommentThreads.PrReadThread` | diffgraph/comment_tools.py:251-272 | on any comments: nothing for one outside the snapshot; the walk from its root, or the recursion limit exceeded exactly when a reply chain is longer than the limit; on well-formed comments the walk is the whole thread, each comment once, parents first |
| `CommentThreads.ThreadsEnd` | diffgraph/comment_tools.py:259-272 | on well-formed comments that walk ends |
| `CommentRender.WalkEndsIff` | diffgraph/comment_tools.py:263-269 | the recursion from a comment ends exactly when no way down comes back to itself |
| `CommentRender.FileChildren` | diffgraph/bitbucket_fake.py:527-530 | every id is filed under its parent, in list order |
| `CommentRender.ListedPicks` | diffgraph/bitbucket_fake.py:527-530 | the ids under a parent are those of the comments that name it, in list order |
| `CommentRender.IndexOfAny` | diffgraph/bitbucket_fake.py:501-502 | on any comments each id is indexed with the last comment that carries it |
| `CommentRender.Rendered` | diffgraph/bitbucket_fake.py:535-553 | on any data, cyclic or not, the guarded recursion ends, keeps what was printed and prints each comment at most once |
| `CommentRender.RenderThread` | diffgraph/bitbucket_fake.py:522-555 | the method with its visited set computes that |
| `RenderAgreement.RenderedAgrees` | diffgraph/bitbucket_fake.py:535-553 | on well-formed comments the visited guard never triggers: the guarded recursion prints exactly the walk in list order |
| `RenderAgreement.VisitAnswers` | diffgraph/comment_tools.py:263-269 | a walk shows the replies of every comment it meets in exactly the order in which it takes them |
| `RenderAgreement.RenderersAgree` | diffgraph/bitbucket_fake.py:535-553 | it prints what the walk of `pr_read_thread` visits, same order, same depth, exactly if the replies of every comment of the thread are listed in the order they were posted |
| `ThreadPages.FollowedIsRest` | diffgraph/comment_tools.py:193-231 | from any start on, the hinted pages are the rest of the list |
| `ThreadPages.HintsCover` | diffgraph/comment_tools.py:192-231 | following the hints from the start reads every thread once, in order, exactly for a positive page size |
| `ThreadPages.PageShows` | diffgraph/comment_tools.py:193 | a page is the stretch of exactly the positions between its bounds, negative ones counted from the end |
| `RepoUri.PrintOfParse` | diffgraph/repo_uri.py:74-102 | a parsed address is well formed and prints as the text without its trailing slashes |
| `RepoUri.ParseOfPrint` | diffgraph/repo_uri.py:65-102 | parsing a printed address returns it exactly when it is well formed |
| `RepoUri.ParseAccepts` | diffgraph/repo_uri.py:74-102 | the parser accepts exactly printed well-formed addresses with any number of slashes behind |
| `RepoUri.ParseComplains` | diffgraph/repo_uri.py:82-97 | which complaint malformed text gets: wrong scheme, no handle, more than two slashes, a segment missing |
| `RepoUri.PrintInjective` | diffgraph/repo_uri.py:65-71 | printing is injective on well-formed addresses |
| `RepoUri.SearchSegments` | diffgraph/repo_uri.py:116-130 | what the URL pattern captures are segments, so the context is well formed |
| `RepoUri.SearchReads` | diffgraph/repo_uri.py:40-43 | the search gives project and repository, in this order, of the leftmost repository path in the URL, and nothing exactly when there is none |
| `RepoUri.CtxOfUrl` | diffgraph/repo_uri.py:116-130 | so the context is the repository the URL names |
| `RepoUri.ResolveAnswers` | diffgraph/repo_uri.py:144-173 | a value left out, empty or `default` gives the context; any other the address it prints, or the parser's complaint |
| `RepoUri.ResolveIsStructural` | diffgraph/repo_uri.py:144-173 | an explicit value is tolerated exactly when it parses to the repository of the pull request's URL |
| `RepoUri.StructuralUnlessConfusing` | diffgraph/repo_uri.py:144-173 | for an arbitrary context the values tolerated are exactly those that parse to it, unless it is ill formed and its printed form parses and has no trailing slash |
| `RepoUri.IllFormedContextConfuses` | diffgraph/repo_uri.py:171-172 | for an ill-formed context the comparison of printed forms is not structural |

## Left out

- Running git, reading and writing files, temporary directories: a diff is a sequence of lines, a file a sequence of lines, already split.
- The path and status lines a file section starts with (diffgraph/diff_parser.py:86-113): only hunks and changed lines are modelled.
- Regular expressions: `\d` means the ten ASCII digits; Python also accepts other Unicode digits. White space that makes a diff blank is space, tab and carriage return.
- HTTP, tokens, configuration, event emission, tracing, the prompt compiler, the CLI and the benchmark code.
- tree-sitter: symbol trees are arbitrary input to the merge.
- Text layout: headers, columns, truncation hints, author labels and caps of the renderers; which lines and comments come out, and in which order, is modelled.
- The order of the thread summaries (newest, oldest, most active): the pages are over whatever order the sort leaves.
- Tool execution: a call's result, its cleaned form and the output a closing call delivers are part of the environment; mocks, validation and parallel dispatch inside one step are not modelled.
- Guards are keyed by a datatype instead of strings such as `require_tool:done`; messages are taken after interpolation.
- Agent.ApplyActions: a custom action changes nothing; in the source its configured handler is called and may rewrite the log.
- `RatioPusher` keeps its fired set itself; in the source it lives in the budget state, where nothing else touches it.
- Ratios and thresholds are reals, not IEEE floats; the clock is read at the three places where the loop and the pushers read it, with arbitrary values.
- `FailedReflectGuard` (not in the default chain), `allocate_child`, `debit_child`; in a whole run the cadence has no reflect-forcing multiplier, which is the default.
- The fields `_done_called` and `_done_output` besides the output they deliver.
- `agent_await`'s polling, timeout and returned status: an await may collect at any moment.
- Message ids: an id is an integer, 0 stands for a missing one; comments without an id only appear in `ById` and `FilterSnapshot`.
- The interpreter's recursion limit is a parameter that counts the comments on a reply chain, not stack frames.
- The handle configuration and the `pr=` parameter of the address module.
