# Verified models of the CodeQL extension for Visual Studio Code

The extension has no single central algorithm.  It has parsers, small protocols between asynchronous functions,
analyses of evaluation logs and transformations of model files, each of them a few dozen lines whose correctness
is not obvious.  This project models the hardest of them in Dafny and proves what they are for.
`dafny verify dfyconfig.toml` checks everything.

| file | models |
|---|---|
| `SarifMessage.dfy` | parsing and unescaping of plain text messages with embedded links |
| `SplitStream.dfy` | the buffer that splits a text stream into lines while it arrives |
| `TextMate.dfy` | the expansion of rule references when the grammar is built |
| `DebugSession.dfy` | the debug adapter: requests, evaluations, events |
| `CliQueue.dfy` | the command queue of the CLI server and its restarts |
| `Discovery.dfy` | the coalescing discovery loop |
| `JoinOrder.dfy` | the iteration over a recursive component and its accumulated tuple counts |
| `SummarySymbols.dfy` | the line loop that finds the relational algebra blocks of a summary |
| `MethodGrouping.dfy` | grouping of decoded result tuples into methods |
| `DataExtensions.dfy` | printing and loading of data extension rows |
| `ModelFiles.dfy` | merging new models into the existing ones, file by file |
| `ExtensionPacks.dfy` | saving and loading the files of an extension pack on a disk |
| `LibraryFilename.dfy` | the file name for a library |
| `FileTree.dfy`, `FileTreeDirectory.dfy` | sorting and collapsing a tree of files, on values and in place on objects |
| `ModelingStore.dfy`, `Candidates.dfy`, `AutoModel.dfy`, `AutoModelJobs.dfy` | automatic modeling: the store, the candidates, the batches, the concurrent jobs |
| `Groups.dfy`, `Wrappers.dfy` | grouping by key, shared by several of these; optional values |

Asynchronous code is modeled as a state machine: the code between two awaits is one step, `Step` gives its effect on
a value that holds the whole state, and `Run` performs any list of steps, so the lemmas about runs hold for every
interleaving.  A class with the fields of the source performs the same steps in place; the contracts of its methods
tie the new fields to `Step`.  Loops of the source are methods with invariants, proved against a specification that
the lemmas are then about.

Where the code and its documentation disagree, the model follows the code:

- `finish` is documented to remove empty directories, but discards the result of its filter
  (`extensions/ql-vscode/src/common/file-tree-nodes.ts:66-69`); the model keeps them.  It also sorts before it
  renames, so names need not be sorted after a collapse.
- `refresh` is documented to return a promise that resolves when the refresh is complete, including any retries
  (`extensions/ql-vscode/src/common/discovery.ts:29-34`); for a refresh that falls between the check of the flag and
  the clearing of the promise this is not so, and the lemmas say exactly when it is.
- `saveModeledMethods` is documented, in the comments of the merge, not to remove existing models
  (`extensions/ql-vscode/src/model-editor/yaml.ts:120-132`).  It does remove those of every file that it writes under a
  name which the CLI does not list: the name with which a file is saved, always starting with `models/`
  (`extensions/ql-vscode/src/model-editor/yaml.ts:189-226`), is looked up as a string among the listed names
  (`extensions/ql-vscode/src/model-editor/yaml.ts:124`), which the operating system spells
  (`extensions/ql-vscode/src/model-editor/modeled-method-fs.ts:115`).  Where that is `models\lib.model.yml`, or where
  case does not matter, a listed file can be one that the lookup misses.  So names and locations are kept apart here,
  and the lemmas say exactly when models are lost.
- `getCandidates` is documented to respect a candidate limit
  (`extensions/ql-vscode/src/model-editor/auto-model.ts:11-19`); it has none, and neither has the model.

## Model

| member | source | states |
|---|---|---|
| `SarifMessage.UnescapeIsOneScan` | extensions/ql-vscode/src/common/sarif-utils.ts:32-37 | On every string the three successive global replaces give what one left-to-right scan gives that consumes `\[`, `\]` and `\\` as pairs, so no later replace disturbs the result of an earlier one. |
| `SarifMessage.UnescapeUndoesEscape` | extensions/ql-vscode/src/common/sarif-utils.ts:32-37 | Unescaping gives back any text whose backslashes and brackets were escaped. |
| `SarifMessage.LookbehindIsParity` | extensions/ql-vscode/src/common/sarif-utils.ts:48-49 | The two nested lookbehinds hold exactly where an even number of backslashes stands directly before the position. |
| `SarifMessage.DigitsAre` | extensions/ql-vscode/src/common/sarif-utils.ts:48-57 | The digits of a link number are the ten ASCII digits, with their values. |
| `SarifMessage.LinkAtIsTheRegex` | extensions/ql-vscode/src/common/sarif-utils.ts:48-49 | A deterministic scan finds a link at a position with a given end exactly if the declarative reading of the regular expression (lookbehind, link text, digits) allows it; in particular a match at a position is unique. |
| `SarifMessage.FirstLinkIsFirstMatch` | extensions/ql-vscode/src/common/sarif-utils.ts:52-52 | The link found from a position on is the leftmost of all matches, in both directions. |
| `SarifMessage.SpansAreTheOnlyScan` | extensions/ql-vscode/src/common/sarif-utils.ts:52-58 | The spans visited by the loop are the only sequence of leftmost matches without overlap and without a link left out in a gap. |
| `SarifMessage.ParseSarifPlainTextMessage` | extensions/ql-vscode/src/common/sarif-utils.ts:39-61 | The loop ends and returns the components of the message that the other lemmas are about. |
| `SarifMessage.ParsedReadsTheScan` | extensions/ql-vscode/src/common/sarif-utils.ts:52-60 | The k-th link of the result is the k-th span of the scan, with its number and unescaped text; the k-th text is the unescaped stretch between the spans around it; there is one more text than links. |
| `SarifMessage.ParsedAlternates` | extensions/ql-vscode/src/common/sarif-utils.ts:39-61 | Every result has odd length, with texts at the even and links at the odd positions. |
| `SarifMessage.EscapedTextIsSkipped` | extensions/ql-vscode/src/common/sarif-utils.ts:48-52 | No link starts inside escaped text, and the text leaves the parity of the backslashes even, so that a link directly after it is recognised. |
| `SarifMessage.PrintedLinkMatches` | extensions/ql-vscode/src/common/sarif-utils.ts:48-57 | A printed link is matched where it stands, to its full length, with its own number and text. |
| `SarifMessage.ParsingUndoesPrinting` | extensions/ql-vscode/src/common/sarif-utils.ts:39-61 | For every alternating list of arbitrary texts and links, printing it as SARIF 2.1.0 section 3.11.6 prescribes and parsing it gives the list back. |
| `SarifMessage.CanonicalSpelling` | extensions/ql-vscode/src/common/sarif-utils.ts:39-61 | Every message, well escaped or not, has the same parse as its canonical spelling. |
| `SplitStream.FirstSeparatorIsChosen` | extensions/ql-vscode/src/common/split-stream.ts:68-75 | The separator found at a position is the first in list order that stands there, and no other. |
| `SplitStream.SplitIsUnique` | extensions/ql-vscode/src/common/split-stream.ts:59-88 | The declarative description of the lines of a text (no separator starts inside a line, each line ends at the first applicable separator, no empty last line) has only one solution, the computed one. |
| `SplitStream.SplitExists` | extensions/ql-vscode/src/common/split-stream.ts:59-88 | The computed lines satisfy that description for every text and every list of non-empty separators. |
| `SplitStream.SplitIs` | extensions/ql-vscode/src/common/split-stream.ts:59-88 | So the lines of a whole text are exactly those that the description demands of it, in both directions. |
| `SplitStream.SplitRejoins` | extensions/ql-vscode/src/common/split-stream.ts:59-88 | Lines and separators put together again are the text: nothing is lost or invented. |
| `SplitStream.SeparatorIsLocal` | extensions/ql-vscode/src/common/split-stream.ts:60-66 | As far from the end as the held-back tail demands, later input cannot change which separator is found. |
| `SplitStream.Advance` | extensions/ql-vscode/src/common/split-stream.ts:67-76 | Moving the search index past a position without separator keeps the emitted lines right for every continuation. |
| `SplitStream.Emit` | extensions/ql-vscode/src/common/split-stream.ts:69-74 | Cutting a line at a separator keeps the emitted lines right for every continuation. |
| `SplitStream.Receive` | extensions/ql-vscode/src/common/split-stream.ts:24-26 | So does receiving a chunk. |
| `SplitStream.Finish` | extensions/ql-vscode/src/common/split-stream.ts:79-84 | At the end of the stream, the rest of the text, if any, is the last line of the one-shot split. |
| `SplitStream.EmittedIsFinal` | extensions/ql-vscode/src/common/split-stream.ts:59-88 | Lines emitted before the end are the first lines of the split of every text that can still follow. |
| `SplitStream.CutProgress` | extensions/ql-vscode/src/common/split-stream.ts:69-74 | Every returned line makes the buffer shorter, except an empty line cut off by an empty separator, which leaves the buffer as it was. |
| `SplitStream.PollIsPrompt` | extensions/ql-vscode/src/common/split-stream.ts:64-67 | Before the end of the stream, with n the length of the longest separator, a poll returns a line if and only if a separator stands in the buffer at or after the search index with n characters received from there on: no line is held back longer than needed, and none is cut earlier. |
| `SplitStream.NothingWasFound` | extensions/ql-vscode/src/common/split-stream.ts:64-77 | The same for a poll that returns nothing, for every position and separator: none stands at a position that leaves room for all of them. |
| `SplitStream.LoopIsPrompt` | extensions/ql-vscode/src/common/split-stream.ts:104-110 | Nor does one stand anywhere in the whole buffer that a polling loop leaves before the end, whatever was searched before. |
| `SplitStream.StreamIsPrompt` | extensions/ql-vscode/src/common/split-stream.ts:97-117 | So after every chunk of a stream each line that is followed by a separator with that room behind it has been returned. |
| `SplitStream.EmptyLineRepeats` | extensions/ql-vscode/src/common/split-stream.ts:69-74 | A poll that returns an empty line and leaves the state as it was is repeated for ever: no number of polls ends the loop. |
| `SplitStream.StreamEndsIff` | extensions/ql-vscode/src/common/split-stream.ts:97-120 | The exact condition under which all polling loops end, for every list of separators, empty ones included, and every list of chunks: no separator is empty, or the whole text is made up of separators that take precedence over the empty one and either some separator is not empty or there is no chunk. |
| `SplitStream.MatchAt` | extensions/ql-vscode/src/common/split-stream.ts:68-75 | The inner loop stops at the first separator of the list that stands at the position, or past the end if there is none. |
| `SplitStream.SplitBuffer.constructor` | extensions/ql-vscode/src/common/split-stream.ts:14-18 | A new buffer has received and emitted nothing, and agrees with the split if no separator is empty. |
| `SplitStream.SplitBuffer.AddChunk` | extensions/ql-vscode/src/common/split-stream.ts:24-26 | A chunk is appended to the text and the buffer; agreement is kept. |
| `SplitStream.SplitBuffer.End` | extensions/ql-vscode/src/common/split-stream.ts:31-34 | The end of the stream is recorded; agreement is kept. |
| `SplitStream.SplitBuffer.GetNextLine` | extensions/ql-vscode/src/common/split-stream.ts:59-88 | The result and the new state are those of one poll of the value model.  Either a line is cut from the buffer at a separator, or the rest is returned at the end, or nothing changes but the search index, and that (`NothingWasFound`) only if no separator stands where there is room for every separator; agreement is kept: the emitted lines are final, and the rounds of the search loop never exceed the number of characters received (plus one if the list of separators is empty). |
| `SplitStream.SplitBuffer.CutLine` | extensions/ql-vscode/src/common/split-stream.ts:70-73 | The line before the separator found is returned and appended to the emitted ones, with agreement kept. |
| `SplitStream.SplitBuffer.Skip` | extensions/ql-vscode/src/common/split-stream.ts:76-76 | The search moves on by one, which changes neither the result of the poll nor the agreement. |
| `SplitStream.SplitBuffer.TakeRest` | extensions/ql-vscode/src/common/split-stream.ts:79-84 | At the end the rest of the buffer is returned as the last line, with agreement kept. |
| `SplitStream.TakeLines` | extensions/ql-vscode/src/common/split-stream.ts:104-110 | The polling loop ends whenever the polls of the value model do, after as many lines, in the state that these polls leave; after the end of the stream the buffer is empty; agreement is kept, and if a separator is empty every line is. |
| `SplitStream.SplitStreamAtSeparators` | extensions/ql-vscode/src/common/split-stream.ts:97-120 | On exactly the streams that end (`StreamEndsIff`): for non-empty separators the lines yielded are those of the whole text, however the stream is cut into chunks; if a separator is empty they are empty lines, one for each separator that the text is made of. |
| `TextMate.GroundedIsAcyclic` | extensions/ql-vscode/gulpfile.ts/textmate.ts:14-29 | A text whose references can be followed to the bottom at any depth can be followed to the bottom within as many steps as there are rules. |
| `TextMate.RankedIsGrounded` | extensions/ql-vscode/gulpfile.ts/textmate.ts:14-29 | If the rules can be ranked so that each refers only to lower ones, every text is acyclic. |
| `TextMate.DepthIsIrrelevant` | extensions/ql-vscode/gulpfile.ts/textmate.ts:22-24 | The full expansion, and the number of replacements it takes, do not depend on the depth allowed. |
| `TextMate.ExpansionHasNoKnown` | extensions/ql-vscode/gulpfile.ts/textmate.ts:22-27 | A full expansion contains no reference to a known rule. |
| `TextMate.ExpandIs` | extensions/ql-vscode/gulpfile.ts/textmate.ts:22-24 | The expansion works token by token: a known reference becomes `(?:`, the expansion of its rule, and `)`, and everything else stays as it is. |
| `TextMate.ReplaceFirstPreserves` | extensions/ql-vscode/gulpfile.ts/textmate.ts:23-23 | One replacement keeps the full expansion and lowers the weight of the text (a reference weighs one more than its body) by exactly one if it replaced something. |
| `TextMate.RoundPreserves` | extensions/ql-vscode/gulpfile.ts/textmate.ts:22-24 | A round over all keys keeps the full expansion, and lowers the weight unless it changes nothing. |
| `TextMate.QuietRound` | extensions/ql-vscode/gulpfile.ts/textmate.ts:21-27 | A round after which the text has the same length changed nothing and found no reference to any key. |
| `TextMate.ReplaceReferencesWithStrings` | extensions/ql-vscode/gulpfile.ts/textmate.ts:14-29 | On acyclic references the repeat-until-unchanged loop ends; its result is the full recursive expansion whatever the order of the keys, and holds no reference to a known rule. |
| `TextMate.GroundedStops` | extensions/ql-vscode/gulpfile.ts/textmate.ts:20-28 | The loop ends after at most as many rounds as the weight of the text. |
| `TextMate.StopsIffAcyclic` | extensions/ql-vscode/gulpfile.ts/textmate.ts:20-28 | The loop ends if and only if no reference in the text leads into a cycle. |
| `TextMate.Rule.ReplaceInMatches` | extensions/ql-vscode/gulpfile.ts/textmate.ts:128-142 | Every match property of the rule is replaced by its full expansion (`ExpandMatchesIs`); the others stay absent. |
| `TextMate.ExpandMatchesIs` | extensions/ql-vscode/gulpfile.ts/textmate.ts:128-142 | Each of the four match properties becomes its own expansion; none appears, disappears or changes place. |
| `TextMate.AlternativeAt` | extensions/ql-vscode/gulpfile.ts/textmate.ts:61-66 | The alternatives of a rule are its includes that are not `null`, each spelled as a reference, in their order: an include stands behind as many alternatives as such includes precede it. |
| `TextMate.JoinAt` | extensions/ql-vscode/gulpfile.ts/textmate.ts:68-68 | The k-th alternative stands at the even place 2k, a bar at every odd place in between, and nothing else. |
| `TextMate.NodeMatchTextIs` | extensions/ql-vscode/gulpfile.ts/textmate.ts:54-72 | A rule with a match has that as its text, whatever its patterns; a rule with neither has none. |
| `TextMate.NodeMatchTextAt` | extensions/ql-vscode/gulpfile.ts/textmate.ts:58-68 | The text of a rule with patterns, by index: `(?:`, then the includes that are not `null`, in their order, with a bar between any two, then `)`. |
| `TextMate.GatherIs` | extensions/ql-vscode/gulpfile.ts/textmate.ts:81-89 | Every rule of the repository, and nothing else, has its text gathered under its name. |
| `TextMate.ExpandTwice` | extensions/ql-vscode/gulpfile.ts/textmate.ts:203-207 | Expanding a rule that has been expanded changes nothing, so a rule that is visited twice comes out as if visited once. |
| `TextMate.ExpandReferences` | extensions/ql-vscode/gulpfile.ts/textmate.ts:201-207 | The references stand for the texts that `GatherIs` and `NodeMatchTextAt` describe.  After the pass over all rules, every visited rule is the expansion of its original text with respect to the original rules, although the pass overwrites those very rules. |
| `DebugSession.StepKeepsInvariant` | extensions/ql-vscode/src/debugger/debug-session.ts:293-619 | Every handler and every resumption of `evaluate` keeps: at most one evaluation is in flight, exactly in state running; a stopped session is not to terminate; a session detached from its query is about to terminate and has cancelled it; the messages sent follow the protocol. |
| `DebugSession.EveryRunKeepsInvariant` | extensions/ql-vscode/src/debugger/debug-session.ts:293-619 | So the invariant holds after every run from a fresh session. |
| `DebugSession.CompletionAnswersStart` | extensions/ql-vscode/src/debugger/debug-session.ts:549-589 | In every run a completion event answers the start event of the same evaluation, with no other start or completion in between. |
| `DebugSession.StartsAreSeparated` | extensions/ql-vscode/src/debugger/debug-session.ts:549-589 | Between two start events the first evaluation completes. |
| `DebugSession.TerminatedIsLast` | extensions/ql-vscode/src/debugger/debug-session.ts:611-619 | In every run `terminated` is directly followed by `exited`, and after that only responses to requests are sent. |
| `DebugSession.ExitFollowsTerminated` | extensions/ql-vscode/src/debugger/debug-session.ts:611-619 | In every run `exited` is sent only directly after `terminated`. |
| `DebugSession.TerminatedOnce` | extensions/ql-vscode/src/debugger/debug-session.ts:611-619 | In every run each of the two events is sent at most once. |
| `DebugSession.StopRequestsEnding` | extensions/ql-vscode/src/debugger/debug-session.ts:343-360 | A terminate or disconnect request during a query requests its cancellation and the end of the session; a disconnect also detaches from the query. |
| `DebugSession.EndingRun` | extensions/ql-vscode/src/debugger/debug-session.ts:343-360 | From there on, whatever happens, the session waits for that one evaluation or has terminated; once detached it sends no progress and no log output. |
| `DebugSession.DisconnectSilences` | extensions/ql-vscode/src/debugger/debug-session.ts:321-360 | After a disconnect of a running query no run sends progress or log output of it, and when its evaluation is over the session is terminated. |
| `DebugSession.EveryRequestIsAnswered` | extensions/ql-vscode/src/debugger/debug-session.ts:281-541 | In every run there are as many responses as requests, whatever the states in which the requests came. |
| `DebugSession.RefusedExactly` | extensions/ql-vscode/src/debugger/debug-session.ts:281-541 | A request is refused exactly in the states that do not accept it, and a refused request changes nothing but for its answer. |
| `DebugSession.AcceptedRequests` | extensions/ql-vscode/src/debugger/debug-session.ts:293-541 | What an accepted request sends, in order, and the state it leads to; a launch stores whether the session is to terminate with its evaluation. |
| `DebugSession.StopRequests` | extensions/ql-vscode/src/debugger/debug-session.ts:321-360 | A terminate or disconnect request cancels a running query and marks the session to end with it, ends a stopped session at once, with the last result as exit code, and is otherwise only answered. |
| `DebugSession.CancellationReaches` | extensions/ql-vscode/src/debugger/debug-session.ts:458-471 | A cancellation reaches the running query, and it alone, if it names it; a disposal always does. |
| `DebugSession.QueryMessages` | extensions/ql-vscode/src/debugger/debug-session.ts:205-228 | What a query sends while it runs and when it settles, unless the session has detached from it. |
| `DebugSession.CompletionSends` | extensions/ql-vscode/src/debugger/debug-session.ts:583-619 | The messages of a completion, in order, with the result that settled, and the state it leads to. |
| `DebugSession.LaunchDecidesTheEnd` | extensions/ql-vscode/src/debugger/debug-session.ts:371-372 | In every run after an accepted launch, a completed evaluation terminates the session, with `terminated` and `exited` as its last messages, if and only if the launch was without debugging or a stop request has met a running query; otherwise it ends with `stopped` and the session stays open. |
| `DebugSession.RestsAsLaunched` | extensions/ql-vscode/src/debugger/debug-session.ts:371-372 | In every run without a stop request after the launch, a session at rest is terminated if the launch was without debugging, and stopped otherwise. |
| `DebugSession.CompletionReportsTheResult` | extensions/ql-vscode/src/debugger/debug-session.ts:572-589 | In every run each completion event carries the result with which the query of that very evaluation settled. |
| `DebugSession.ExitCodeIsTheLastResult` | extensions/ql-vscode/src/debugger/debug-session.ts:586-616 | In every run the exit code is the result in the last completion event before it. |
| `DebugSession.QLDebugSession.constructor` | extensions/ql-vscode/src/debugger/debug-session.ts:254-266 | A fresh session. |
| `DebugSession.QLDebugSession.SendMessage` | extensions/ql-vscode/src/debugger/debug-session.ts:345-359 | The message is appended to what was sent, nothing else changes. |
| `DebugSession.QLDebugSession.SendFromQuery` | extensions/ql-vscode/src/debugger/debug-session.ts:560-566 | Events of a query are sent only while the session is connected to one. |
| `DebugSession.QLDebugSession.CancelToken` | extensions/ql-vscode/src/debugger/debug-session.ts:234-236 | Cancellation is requested of this query only. |
| `DebugSession.QLDebugSession.InitializeRequest` | extensions/ql-vscode/src/debugger/debug-session.ts:293-319 | Fields and messages after the call are those of the `Initialize` step of the runs above. |
| `DebugSession.QLDebugSession.DisconnectRequest` | extensions/ql-vscode/src/debugger/debug-session.ts:321-330 | ... of the `Disconnect` step. |
| `DebugSession.QLDebugSession.TerminateRequest` | extensions/ql-vscode/src/debugger/debug-session.ts:332-341 | ... of the `Terminate` step. |
| `DebugSession.QLDebugSession.TerminateOrDisconnectRequest` | extensions/ql-vscode/src/debugger/debug-session.ts:343-360 | ... of both, depending on `force`. |
| `DebugSession.QLDebugSession.LaunchRequest` | extensions/ql-vscode/src/debugger/debug-session.ts:362-386 | ... of the `Launch` step, up to the first await of `evaluate`; `AcceptedRequests`, `LaunchDecidesTheEnd` and `RestsAsLaunched` say what that step does and what becomes of it. |
| `DebugSession.QLDebugSession.StepAnyRequest` | extensions/ql-vscode/src/debugger/debug-session.ts:420-434 | ... of the step requests. |
| `DebugSession.QLDebugSession.ContinueRequest` | extensions/ql-vscode/src/debugger/debug-session.ts:436-456 | ... of the `Continue` step. |
| `DebugSession.QLDebugSession.QuickEvalRequest` | extensions/ql-vscode/src/debugger/debug-session.ts:520-541 | ... of the `QuickEval` step. |
| `DebugSession.QLDebugSession.CancelRequest` | extensions/ql-vscode/src/debugger/debug-session.ts:458-471 | ... of the `Cancel` step: only the running query, and only if it has the given id. |
| `DebugSession.QLDebugSession.DisposeSession` | extensions/ql-vscode/src/debugger/debug-session.ts:268-272 | ... of the `Dispose` step. |
| `DebugSession.QLDebugSession.Evaluate` | extensions/ql-vscode/src/debugger/debug-session.ts:549-572 | ... of the start of an evaluation. |
| `DebugSession.QLDebugSession.SettleQuery` | extensions/ql-vscode/src/debugger/debug-session.ts:205-228 | ... of the step in which the query settles or its exception becomes a result. |
| `DebugSession.QLDebugSession.ContinueEvaluation` | extensions/ql-vscode/src/debugger/debug-session.ts:572-577 | ... of the step in which `evaluate` resumes. |
| `DebugSession.QLDebugSession.Complete` | extensions/ql-vscode/src/debugger/debug-session.ts:583-598 | Last result type and messages of a completion, then stopped or terminated. |
| `DebugSession.QLDebugSession.Report` | extensions/ql-vscode/src/debugger/debug-session.ts:600-609 | Stopped or terminated, as `terminateOnComplete` says. |
| `DebugSession.QLDebugSession.Exit` | extensions/ql-vscode/src/debugger/debug-session.ts:611-619 | Terminated, with both events, in this order. |
| `CliQueue.StepKeepsInvariant` | extensions/ql-vscode/src/codeql-cli/cli.ts:285-606 | Every step keeps: an idle server has an empty queue, restarts stand first in the queue, commands are accounted for, and the process and the running command are as recent as the last restart unless a restart is pending. |
| `CliQueue.EveryRunKeepsInvariant` | extensions/ql-vscode/src/codeql-cli/cli.ts:285-606 | So the invariant holds after every run from a fresh server. |
| `CliQueue.CommandsAreServedInOrder` | extensions/ql-vscode/src/codeql-cli/cli.ts:444-606 | In every run the guard against a second running command never fires; an idle server has an empty queue; the submitted commands are exactly those finished, running and queued, in the order of submission; they are started in that order. |
| `CliQueue.StartedOnce` | extensions/ql-vscode/src/codeql-cli/cli.ts:347-350 | No command is started twice. |
| `CliQueue.StepKeepsAlive` | extensions/ql-vscode/src/codeql-cli/cli.ts:257-301 | Every step keeps: a process that has executed a command is the current one or has been killed; a killed process executes nothing and is not killed again; no process older than the last restart request lives when a command starts; the process of a failed command has been killed by the end of the command. |
| `CliQueue.LaunchedOnce` | extensions/ql-vscode/src/codeql-cli/cli.ts:353-355 | In every run a process number stands for one launch. |
| `CliQueue.RestartTakesEffect` | extensions/ql-vscode/src/codeql-cli/cli.ts:285-301 | A command started after a restart request is executed by a process whose one launch began after the request too, so never by the process to be replaced. |
| `CliQueue.OldProcessIsKilled` | extensions/ql-vscode/src/codeql-cli/cli.ts:285-301 | In every run, a process that was launched before a restart request and executes a command is killed, after that execution and before any command that is started after the request. |
| `CliQueue.RestartWaits` | extensions/ql-vscode/src/codeql-cli/cli.ts:294-300 | A restart request while a command runs touches neither the command nor its process; it goes to the front of the queue. |
| `CliQueue.RestartActs` | extensions/ql-vscode/src/codeql-cli/cli.ts:294-300 | While no command runs, it kills the process at once and does nothing else. |
| `CliQueue.PendingRestartActs` | extensions/ql-vscode/src/codeql-cli/cli.ts:444-459 | When a command has succeeded, its process stays if and only if no restart is pending; a pending one kills it directly after the end of the command, before anything else happens. |
| `CliQueue.RestartWaitsForCommand` | extensions/ql-vscode/src/codeql-cli/cli.ts:282-301 | In every run without a disposal, however many restarts are requested meanwhile, the process of a command that succeeds is killed only after the command has ended. |
| `CliQueue.FailedProcessIsRetired` | extensions/ql-vscode/src/codeql-cli/cli.ts:419-421 | In every run the process of a failed command is killed before the command is finished, and never executes a command again. |
| `CliQueue.CommandEndsAsSettled` | extensions/ql-vscode/src/codeql-cli/cli.ts:405-448 | A command that succeeds is finished as such at once; for one that fails the process is killed, if there still is one, and then it is finished as failed, with no process left. |
| `CliQueue.LaunchEndsAsSettled` | extensions/ql-vscode/src/codeql-cli/cli.ts:353-371 | A launch that fails fails its command; one that succeeds executes the command on the new process. |
| `CliQueue.SubmissionStartsOrWaits` | extensions/ql-vscode/src/codeql-cli/cli.ts:584-606 | A command that is submitted while another one runs waits behind all others; otherwise it is started at once, on the process if there is one, and else with a launch. |
| `CliQueue.DisposalKills` | extensions/ql-vscode/src/codeql-cli/cli.ts:253-280 | A disposal kills the process, if there is one, and does nothing else. |
| `CliQueue.CodeQLCliServer.constructor` | extensions/ql-vscode/src/codeql-cli/cli.ts:228-236 | A fresh server. |
| `CliQueue.CodeQLCliServer.KillProcessIfRunning` | extensions/ql-vscode/src/codeql-cli/cli.ts:257-280 | The process, if any, is killed and gone. |
| `CliQueue.CodeQLCliServer.RunNextJob` | extensions/ql-vscode/src/codeql-cli/cli.ts:454-459 | The first job of the queue is taken and run; a restart goes on to the next one. |
| `CliQueue.CodeQLCliServer.RestartCliServer` | extensions/ql-vscode/src/codeql-cli/cli.ts:285-301 | State after the call is that of the restart request of the runs above: at the front of the queue while a command runs, immediate otherwise. |
| `CliQueue.CodeQLCliServer.RunCodeQlCliCommand` | extensions/ql-vscode/src/codeql-cli/cli.ts:584-606 | ... of a submission: at the end of the queue while a command runs, immediate otherwise. |
| `CliQueue.CodeQLCliServer.RunCodeQlCliInternal` | extensions/ql-vscode/src/codeql-cli/cli.ts:347-354 | ... of the start of a command, up to its first await, including the throw if one runs. |
| `CliQueue.CodeQLCliServer.ContinueAfterLaunch` | extensions/ql-vscode/src/codeql-cli/cli.ts:353-371 | ... of the step in which the launch of the process succeeds or fails. |
| `CliQueue.CodeQLCliServer.ContinueAfterCommand` | extensions/ql-vscode/src/codeql-cli/cli.ts:371-448 | ... of the step in which the command succeeds or fails, with the outcome that `CommandEndsAsSettled` states. |
| `CliQueue.CodeQLCliServer.FinishCommand` | extensions/ql-vscode/src/codeql-cli/cli.ts:444-448 | The outer `finally`: the server is idle and runs the next job. |
| `CliQueue.CodeQLCliServer.DisposeServer` | extensions/ql-vscode/src/codeql-cli/cli.ts:253-255 | The process, if any, is killed; queue and running command stay. |
| `DiscoveryLoop.StepKeepsInvariant` | extensions/ql-vscode/src/common/discovery.ts:35-87 | Every step keeps what is owed to each caller whose promise is pending, and what was delivered to the others. |
| `DiscoveryLoop.EveryRunKeepsInvariant` | extensions/ql-vscode/src/common/discovery.ts:35-87 | So it holds after every run. |
| `DiscoveryLoop.AtMostOneDiscovery` | extensions/ql-vscode/src/common/discovery.ts:52-86 | In every run at most one `discover` call is pending, and there are never more of them than refreshes. |
| `DiscoveryLoop.ServedUnlessLate` | extensions/ql-vscode/src/common/discovery.ts:52-86 | When a promise resolves, a `discover` call that started after the refresh has ended, if and only if the refresh did not come between the check of the flag and the clearing of the promise. |
| `DiscoveryLoop.LateRefreshIsNotServed` | extensions/ql-vscode/src/common/discovery.ts:57-78 | The exception is real: a concrete run in which a late refresh gets a promise that resolves without another `discover` call. |
| `DiscoveryLoop.LeftoverFlagRestarts` | extensions/ql-vscode/src/common/discovery.ts:78-86 | The flag that such a refresh leaves makes the next refresh run `discover` twice. |
| `DiscoveryLoop.WaitingSeesTheEnd` | extensions/ql-vscode/src/common/discovery.ts:25-27 | When a promise that was pending at some moment resolves, every `discover` call that had started by that moment has ended, and so has the one that the flag was about to cause. |
| `DiscoveryLoop.RefreshStartsOrJoins` | extensions/ql-vscode/src/common/discovery.ts:35-50 | A refresh either starts a round, with a call of `discover` and a new promise, or sets the flag and joins the round that is pending. |
| `DiscoveryLoop.DiscoverRestartsOrReturns` | extensions/ql-vscode/src/common/discovery.ts:71-87 | When `discover` ends and the flag is set, it is called again and the flag is cleared; otherwise the calls begin to return. |
| `DiscoveryLoop.PromiseResolvesAfter` | extensions/ql-vscode/src/common/discovery.ts:52-59 | Each nested call takes one resumption to return, during which the promise is still pending; the last one resolves it. |
| `DiscoveryLoop.Discovery.constructor` | extensions/ql-vscode/src/common/discovery.ts:15-19 | Nothing pending. |
| `DiscoveryLoop.Discovery.WaitForCurrentRefresh` | extensions/ql-vscode/src/common/discovery.ts:25-27 | The promise is resolved at once exactly if nothing is pending, and then every `discover` call has ended; otherwise it has not been resolved yet. |
| `DiscoveryLoop.Discovery.RefreshAll` | extensions/ql-vscode/src/common/discovery.ts:35-62 | State after the call is that of the `Refresh` step of the runs above, and the promise returned is the pending one. |
| `DiscoveryLoop.Discovery.LaunchDiscovery` | extensions/ql-vscode/src/common/discovery.ts:69-71 | ... of the start of a `discover` call. |
| `DiscoveryLoop.Discovery.ContinueAfterDiscover` | extensions/ql-vscode/src/common/discovery.ts:71-87 | ... of the step in which `discover` settles, well or not, and the flag is checked. |
| `DiscoveryLoop.Discovery.ContinueUnwinding` | extensions/ql-vscode/src/common/discovery.ts:57-59 | ... of the steps from there to the clearing of the promise. |
| `JoinOrder.ComputePointwiseSum` | extensions/ql-vscode/src/log-insights/join-order.ts:87-119 | The loop fills the array with the sums of the two, the shorter one padded with zeros, `-1` where both have a line and one is `-1`, and wrapped to 32 bits. |
| `JoinOrder.AccumulateLine` | extensions/ql-vscode/src/log-insights/join-order.ts:87-119 | After any number of runs, a line is `-1` if any run has `-1` there, whatever overflows; any other line holds the sum of its counts if and only if that sum fits into 32 bits. |
| `JoinOrder.AccumulateIsOrderFree` | extensions/ql-vscode/src/log-insights/join-order.ts:87-119 | Without overflow the accumulated counts do not depend on the order of the runs. |
| `JoinOrder.OverflowDependsOnOrder` | extensions/ql-vscode/src/log-insights/join-order.ts:110-115 | With overflow they do: concrete runs whose sum wraps to `-1` and is then taken for an absent count. |
| `JoinOrder.AccumulateLineIs` | extensions/ql-vscode/src/log-insights/join-order.ts:87-119 | What any line holds, overflow or not: `-1` if a count is absent or if the sum of the runs so far is ever -1 modulo 2^32, and otherwise the sum modulo 2^32. |
| `JoinOrder.OrdersAgreeIff` | extensions/ql-vscode/src/log-insights/join-order.ts:87-119 | Two orders of the same runs agree on a line if and only if a count is absent there, or both or neither of them wrap it to `-1` on the way. |
| `JoinOrder.OrderIsFreeIff` | extensions/ql-vscode/src/log-insights/join-order.ts:87-119 | A line comes out the same in every order of the runs if and only if a count is absent there, or no part of the runs adds up to -1 modulo 2^32, or every order comes across such a part. |
| `JoinOrder.IterateScc` | extensions/ql-vscode/src/log-insights/join-order.ts:318-348 | The cursors of the loop visit exactly the listed runs in the listed order. |
| `JoinOrder.EveryRunIsVisitedOnce` | extensions/ql-vscode/src/log-insights/join-order.ts:333-347 | The k-th visit of a predicate is its k-th run, at its k-th iteration that was not skipped, and there are as many visits as such iterations. |
| `JoinOrder.VisitsAreDue` | extensions/ql-vscode/src/log-insights/join-order.ts:333-347 | A visit takes place if and only if the predicate was not skipped in that iteration, and it is then to the run whose number is that of the iterations not skipped before. |
| `JoinOrder.VisitsAreOrdered` | extensions/ql-vscode/src/log-insights/join-order.ts:333-347 | The visits come iteration by iteration, and within one in the order of the predicates. |
| `JoinOrder.AnalysisSucceedsIff` | extensions/ql-vscode/src/log-insights/join-order.ts:342-344 | The visitor gets through a component without an exception if and only if no predicate has more iterations that were not skipped than pipeline runs. |
| `JoinOrder.SampleAt` | extensions/ql-vscode/src/log-insights/join-order.ts:442-484 | What the k-th visit contributes: the predicate of its event, order and counts of its run, and the delta size of its iteration, missing if the event has none for it. |
| `JoinOrder.FillBuckets` | extensions/ql-vscode/src/log-insights/join-order.ts:456-497 | There is a bucket for each predicate and order that was visited, holding the accumulation of exactly its samples. |
| `JoinOrder.BucketLine` | extensions/ql-vscode/src/log-insights/join-order.ts:478-484 | A line of a bucket, in terms of the runs that went into it: `-1` or the sum, as above. |
| `JoinOrder.ResultSizesAddUp` | extensions/ql-vscode/src/log-insights/join-order.ts:485-485 | The result size of a bucket is the sum of its delta sizes, and not a number exactly if one of them is missing; the sums of all buckets add up to the sizes of all visited deltas. |
| `JoinOrder.MergedSizesAddUp` | extensions/ql-vscode/src/log-insights/join-order.ts:487-491 | A dependent predicate is listed in a bucket if and only if some sample lists it, with the sum of its sizes. |
| `JoinOrder.DeltasAddUp` | extensions/ql-vscode/src/log-insights/join-order.ts:442-485 | The delta sizes that go into all buckets together are those of all events in all their iterations that were not skipped. |
| `JoinOrder.BucketIs` | extensions/ql-vscode/src/log-insights/join-order.ts:456-497 | A bucket in terms of the events alone: it exists if and only if some iteration was evaluated with this predicate and order; its result size is the sum of the delta sizes of these iterations, not a number exactly if one is missing; its counts accumulate lines that add up, over these iterations, to the counts of their runs, and that are absent where one of these is. |
| `JoinOrder.BadnessInputsForRecursiveDelta` | extensions/ql-vscode/src/log-insights/join-order.ts:449-499 | The whole analysis of a component: it throws if and only if a run is missing, and otherwise yields a bucket for exactly the evaluated pairs of a predicate and an order, with the accumulation of its samples (`SampleAt`, `BucketIs`) and, in terms of the events, the sum of the delta sizes of its iterations. |
| `SummarySymbols.BlocksAreExact` | extensions/ql-vscode/src/log-insights/summary-parser.ts:83-122 | The blocks that the loop recognises are exactly those of the declarative description: a header that is not inside another block, up to the first return line after it. |
| `SummarySymbols.BlocksAreDisjoint` | extensions/ql-vscode/src/log-insights/summary-parser.ts:83-122 | The blocks are disjoint intervals in increasing order, each with its start before its end. |
| `SummarySymbols.EntryIsLastBlock` | extensions/ql-vscode/src/log-insights/summary-parser.ts:104-115 | The entry for a predicate and iteration is the last block with that header. |
| `SummarySymbols.NoEntryWithoutBlock` | extensions/ql-vscode/src/log-insights/summary-parser.ts:104-115 | Without a complete block there is no entry. |
| `SummarySymbols.GenerateSummarySymbols` | extensions/ql-vscode/src/log-insights/summary-parser.ts:74-124 | The loop over the lines records the blocks, one after the other. |
| `SummarySymbols.SymbolsAreLastBlocks` | extensions/ql-vscode/src/log-insights/summary-parser.ts:74-124 | Of the generated symbols: a lookup finds the last complete block with that header, with `raStartLine = startLine + 1 <= raEndLine`, and nothing if and only if there is no complete block. |
| `MethodGrouping.DecodeBqrsToMethods` | extensions/ql-vscode/src/model-editor/bqrs.ts:8-105 | One method for each distinct signature, in the order of first occurrence, with the fields of the first tuple and the usages of all tuples with that signature, in order. |
| `MethodGrouping.MethodsAreDistinct` | extensions/ql-vscode/src/model-editor/bqrs.ts:75-104 | No two methods share a signature, and each carries the usages of exactly the tuples with its own. |
| `MethodGrouping.MethodIs` | extensions/ql-vscode/src/model-editor/bqrs.ts:75-104 | What a method says of itself, field by field, comes from the first tuple with its signature, and its usages, with their classification, from all of them, in order. |
| `MethodGrouping.LibraryIs` | extensions/ql-vscode/src/model-editor/bqrs.ts:56-73 | The library is taken as it stands unless it is a jar or has no version; then name and version are read off the file name, where no version there leaves the one of the tuple; an empty version counts as none. |
| `MethodGrouping.UsagesAddUp` | extensions/ql-vscode/src/model-editor/bqrs.ts:90-104 | There are as many usages in all as tuples. |
| `DataExtensions.ReadUndoesGenerate` | extensions/ql-vscode/src/model-editor/predicates.ts:16-153 | Reading a generated row gives the model back up to what a row cannot carry: the input of a source, the output of a sink, both of a neutral model, and a signature that does not belong to the other fields. |
| `DataExtensions.ReadIsNormal` | extensions/ql-vscode/src/model-editor/predicates.ts:16-153 | What is read from any row is already in that normal form, and has the type of its predicate. |
| `DataExtensions.WrittenColumns` | extensions/ql-vscode/src/model-editor/predicates.ts:16-153 | The columns of each predicate, in order, as they are written. |
| `DataExtensions.ReadColumns` | extensions/ql-vscode/src/model-editor/predicates.ts:16-153 | The columns as they are read; what a predicate has no column for is empty, and the signature belongs to the other fields. |
| `DataExtensions.SignatureIsSpelled` | extensions/ql-vscode/src/model-editor/predicates.ts:12-14 | The spelling of a signature, missing and other values included. |
| `DataExtensions.PredicateNames` | extensions/ql-vscode/src/model-editor/predicates.ts:16-153 | The names of the four predicates; a lookup by any other name finds none. |
| `DataExtensions.CreateDataExtension` | extensions/ql-vscode/src/model-editor/yaml.ts:36-69 | Four extensions in a fixed order, each with the rows of the models of its type, in order; models of type "none" have no row. |
| `DataExtensions.PrintedFileIs` | extensions/ql-vscode/src/model-editor/yaml.ts:56-64 | The k-th extension has the package and name of the k-th predicate, and as its j-th row the row of the j-th model of that type. |
| `DataExtensions.LoadDataExtension` | extensions/ql-vscode/src/model-editor/yaml.ts:241-279 | Throws if and only if a row holds a `null`; otherwise yields the models of all rows of the four predicates, grouped by signature in the order of first occurrence; other extensions are skipped. |
| `DataExtensions.ReadAllIs` | extensions/ql-vscode/src/model-editor/yaml.ts:252-275 | One model is read from each row of a known predicate, extension by extension, in order, and none from any other. |
| `DataExtensions.ReadExtensions` | extensions/ql-vscode/src/model-editor/yaml.ts:248-278 | The two loops over the extensions and their rows build these groups. |
| `DataExtensions.PrintedFileLoads` | extensions/ql-vscode/src/model-editor/yaml.ts:36-69 | A printed file can be loaded again if and only if no model in it misses a value that its row carries. |
| `DataExtensions.LongRowsAreComplete` | extensions/ql-vscode/src/model-editor/predicates.ts:16-153 | A model that was read from a valid row misses such a value if and only if the row was too short. |
| `DataExtensions.ReadOfPrinted` | extensions/ql-vscode/src/model-editor/yaml.ts:36-69 | Reading a printed file gives the normal forms of the models that were printed, stably ordered by type. |
| `DataExtensions.ReloadKeepsModels` | extensions/ql-vscode/src/model-editor/yaml.ts:241-279 | Loading a printed file keeps every model that is not of type "none" exactly once, under its signature, stably ordered by type. |
| `DataExtensions.KeysAreStable` | extensions/ql-vscode/src/model-editor/yaml.ts:241-279 | Writing the groups out and loading them again does not change the order of the signatures. |
| `DataExtensions.ReloadIsIdempotent` | extensions/ql-vscode/src/model-editor/yaml.ts:241-279 | Loading after printing is idempotent, keys, groups and their order included. |
| `DataExtensions.PrintingReachesFixpoint` | extensions/ql-vscode/src/model-editor/yaml.ts:36-69 | After one round of printing and loading, further rounds print the same file. |
| `ModelFiles.EmptyFiles` | extensions/ql-vscode/src/model-editor/yaml.ts:114-118 | Exactly the files of known methods with new models get an entry, in the order in which the methods give rise to them. |
| `ModelFiles.NamesInOrder` | extensions/ql-vscode/src/model-editor/yaml.ts:114-118 | Of two files the one comes first whose first method with new models comes first. |
| `ModelFiles.CopyEntries` | extensions/ql-vscode/src/model-editor/yaml.ts:125-127 | A dictionary copied key by key is the same dictionary, order included. |
| `ModelFiles.AddExisting` | extensions/ql-vscode/src/model-editor/yaml.ts:121-129 | Each file to be written holds what it held before. |
| `ModelFiles.AddNew` | extensions/ql-vscode/src/model-editor/yaml.ts:133-141 | Each file to be written maps a signature to its new models if a known method with that signature belongs to that file and has new models, and otherwise to its existing ones. |
| `ModelFiles.PrintFiles` | extensions/ql-vscode/src/model-editor/yaml.ts:143-152 | Every merged file is printed, and no other. |
| `ModelFiles.CreateFiles` | extensions/ql-vscode/src/model-editor/yaml.ts:100-153 | The three loops and the printing together: exactly the files with new models, each with its merged entries. |
| `ModelFiles.ReloadEntry` | extensions/ql-vscode/src/model-editor/yaml.ts:241-279 | After printing and loading a dictionary of files' models, every signature has its own models, in normal form. |
| `ModelFiles.LoadedIsKeyed` | extensions/ql-vscode/src/model-editor/yaml.ts:264-275 | In a loaded file every model is filed under its own signature, and is in normal form. |
| `ModelFiles.ExistingModelsSurvive` | extensions/ql-vscode/src/model-editor/yaml.ts:131-141 | Existing models that are printed and loaded again are the same models, up to their order. |
| `ModelFiles.AppendEntries` | extensions/ql-vscode/src/model-editor/modeled-method-fs.ts:90-96 | The inner loop appends each list to the one of the same signature; new signatures come last. |
| `ModelFiles.GroupedAppend` | extensions/ql-vscode/src/model-editor/modeled-method-fs.ts:89-97 | Appending the groups of one list to those of another is grouping the two lists as one. |
| `ExtensionPacks.ExtensionPack.LoadModeledMethodFiles` | extensions/ql-vscode/src/model-editor/modeled-method-fs.ts:44-75 | The loaded dictionaries of the files that the CLI lists, each read from the location that its listed name denotes and kept under that name; throws if and only if one of them does not exist or is not valid. |
| `ExtensionPacks.ExtensionPack.LoadModeledMethods` | extensions/ql-vscode/src/model-editor/modeled-method-fs.ts:77-100 | What the listed files say of each signature, in the order of the files, exactly as if they were one file; throws under the same condition. |
| `ExtensionPacks.ExtensionPack.WriteFiles` | extensions/ql-vscode/src/model-editor/modeled-method-fs.ts:37-39 | The printed files are written to the locations that their names denote, one after the other. |
| `ExtensionPacks.LastWriteWins` | extensions/ql-vscode/src/model-editor/modeled-method-fs.ts:37-39 | Of several names for one location the last is what remains there; a location that no name denotes stays as it was. |
| `ExtensionPacks.WriterIs` | extensions/ql-vscode/src/model-editor/modeled-method-fs.ts:37-39 | Which name that is: the file of a method with new models that goes to the location, such that no other file that goes there is first met later; there is none exactly if no such method goes there. |
| `ExtensionPacks.ExtensionPack.SaveModeledMethods` | extensions/ql-vscode/src/model-editor/modeled-method-fs.ts:15-42 | If loading the listed files throws, nothing is written.  Otherwise exactly the locations that the names of the files with new models denote are written, and every other location is left alone.  A written location holds the merge for the last name that denotes it: it can be loaded again exactly if no merged model misses a value, and it says of every signature the new models, or else what a file listed under this very name said, in normal form, provided the new models are filed under their own signatures. |
| `ModelFiles.MergedFileLoads` | extensions/ql-vscode/src/model-editor/modeled-method-fs.ts:37-39 | A merged file, once printed, is valid if and only if no merged model misses a value. |
| `ModelFiles.MergedFileReads` | extensions/ql-vscode/src/model-editor/modeled-method-fs.ts:37-39 | A merged file, once printed and read again, says of every signature its merged models in normal form. |
| `ExtensionPacks.SaveLosesNothing` | extensions/ql-vscode/src/model-editor/modeled-method-fs.ts:23-39 | After a save, what the file at a location said of a signature that is not overridden there it still says, up to the order of the models, if the save does not write the location, or writes it under a name that is, as a string, one of the listed names. |
| `ExtensionPacks.UnlistedFileIsOverwritten` | extensions/ql-vscode/src/model-editor/modeled-method-fs.ts:23-39 | A file that is written under a name that the CLI does not list loses everything that is not overridden under that name, even if the CLI lists the file under another spelling. |
| `ExtensionPacks.ModelsSurviveIff` | extensions/ql-vscode/src/model-editor/modeled-method-fs.ts:23-39 | The exact condition, for every location: what its file said of a signature that is not overridden survives a save if and only if the location is not written, or the last written name that denotes it is, as a string, one of the listed names, or the file said nothing of the signature; otherwise all of it is gone. |
| `ExtensionPacks.UnlistedNameLosesModels` | extensions/ql-vscode/src/model-editor/modeled-method-fs.ts:23-39 | Such a loss is real, without further assumptions: a concrete disk, a save of one model, and the disk it leaves, from which the model of another method is gone; both when the file is not listed at all and when it is listed as `models\lib.model.yml` and saved as `models/lib.model.yml`. |
| `ExtensionPacks.NewModelsAreSaved` | extensions/ql-vscode/src/model-editor/modeled-method-fs.ts:15-42 | New models for a signature are, in normal form, what the location of their file says of it, if the name of the file is the last one for the location. |
| `ExtensionPacks.SavedPackModels` | extensions/ql-vscode/src/model-editor/modeled-method-fs.ts:15-100 | End to end: whatever files the CLI lists after a save, loading finds for every signature the merged models of the written files and the old models of all others, in the order of the list. |
| `ExtensionPacks.LoadingIsUnchangedIff` | extensions/ql-vscode/src/model-editor/modeled-method-fs.ts:15-100 | Loading after a save finds the same models for a signature that was not saved, up to their order, if and only if each of the files is spared in the sense of `ModelsSurviveIff`. |
| `ExtensionPacks.SavedPackLoads` | extensions/ql-vscode/src/model-editor/modeled-method-fs.ts:15-75 | The files that the CLI lists after a save can be loaded if and only if none of the merged models of the written ones misses a value, and the others could be loaded before. |
| `ExtensionPacks.PackLoadsAgainIff` | extensions/ql-vscode/src/model-editor/modeled-method-fs.ts:15-75 | So a pack that could be loaded for the save can be loaded again if and only if no merged model misses a value in a file whose name is the last for its location. |
| `LibraryFilename.CreateFilenameForLibrary` | extensions/ql-vscode/src/model-editor/yaml.ts:189-214 | The file name is prefix, name part, suffix and `.yml`, and the name part is in normal form. |
| `LibraryFilename.NameIsNormal` | extensions/ql-vscode/src/model-editor/yaml.ts:194-211 | For every library the name part has only the allowed characters, no dot or hyphen at either end, no doubled dot and no doubled hyphen. |
| `LibraryFilename.NormalIsFixed` | extensions/ql-vscode/src/model-editor/yaml.ts:194-211 | A name is left as it is if and only if it is in normal form. |
| `LibraryFilename.NameIsIdempotent` | extensions/ql-vscode/src/model-editor/yaml.ts:194-211 | Naming a name changes nothing. |
| `LibraryFilename.NameKeepsLetters` | extensions/ql-vscode/src/model-editor/yaml.ts:194-211 | Of any library, in normal form or not, the name keeps all letters and digits of its lower case, in order, and adds none. |
| `LibraryFilename.HyphenationIsOneScan` | extensions/ql-vscode/src/model-editor/yaml.ts:200-200 | A hyphen is written once for each run of white space and underscores, and everything else stays. |
| `LibraryFilename.KeepAllowedIs` | extensions/ql-vscode/src/model-editor/yaml.ts:203-203 | The characters that are kept. |
| `LibraryFilename.StripIs` | extensions/ql-vscode/src/model-editor/yaml.ts:206-206 | What is stripped: the dots and hyphens before the first and after the last other character. |
| `LibraryFilename.CollapsesAreOneScan` | extensions/ql-vscode/src/model-editor/yaml.ts:209-211 | The two replacements of doubles do not disturb each other: together they are one scan that drops what repeats its predecessor. |
| `FileTree.SortedIndicesDifferent` | extensions/ql-vscode/src/common/file-tree-nodes.ts:70-72 | Sorting takes every child once. |
| `FileTree.SortedIndicesSorted` | extensions/ql-vscode/src/common/file-tree-nodes.ts:70-72 | Under a total order of names, sorting puts the children in order. |
| `FileTree.SortedIndicesStable` | extensions/ql-vscode/src/common/file-tree-nodes.ts:70-72 | The sort is stable. |
| `FileTree.FinishedChildren` | extensions/ql-vscode/src/common/file-tree-nodes.ts:65-89 | The children of a finished directory are its finished children in the stable order of their names before, where a child whose only child is a directory is replaced by a directory with the path and the children of that child and with both names. |
| `FileTree.CollapseKeepsTrails` | extensions/ql-vscode/src/common/file-tree-nodes.ts:79-86 | A collapse keeps every leaf, with its path, its data and the names on the way to it: the joined name says what the two names said. |
| `FileTree.FinishKeepsTrails` | extensions/ql-vscode/src/common/file-tree-nodes.ts:65-89 | So does finishing a whole tree, as a multiset of leaves. |
| `FileTree.FinishSettles` | extensions/ql-vscode/src/common/file-tree-nodes.ts:73-88 | Afterwards no directory below the root, at any depth, has a directory as its only child. |
| `FileTree.SettledOnlySorts` | extensions/ql-vscode/src/common/file-tree-nodes.ts:65-89 | A tree without such a directory is only sorted. |
| `FileTree.FinishTwiceOnlySorts` | extensions/ql-vscode/src/common/file-tree-nodes.ts:65-89 | So a second `finish` collapses nothing more. |
| `FileTreeObjects.FileTreeDirectory.constructor` | extensions/ql-vscode/src/common/file-tree-nodes.ts:35-42 | A directory without children. |
| `FileTreeObjects.FileTreeDirectory.Replacing` | extensions/ql-vscode/src/common/file-tree-nodes.ts:80-85 | The replacement has the given path and name and the children of the directory it replaces. |
| `FileTreeObjects.FileTreeDirectory.Sort` | extensions/ql-vscode/src/common/file-tree-nodes.ts:70-72 | The children are sorted in place, the value of the directory is that with sorted children. |
| `FileTreeObjects.FileTreeDirectory.FinishTree` | extensions/ql-vscode/src/common/file-tree-nodes.ts:65-89 | The objects are changed in place, and afterwards the value of the directory is the finished value that the lemmas are about. |
| `FileTreeObjects.FileTreeDirectory.FinishChild` | extensions/ql-vscode/src/common/file-tree-nodes.ts:73-88 | One round of the loop replaces the value of one child by its finished and collapsed value, and no other. |
| `FileTreeObjects.FileTreeDirectory.FinishDirectory` | extensions/ql-vscode/src/common/file-tree-nodes.ts:74-74 | The recursive call finishes that child only. |
| `FileTreeObjects.FileTreeDirectory.CollapseChild` | extensions/ql-vscode/src/common/file-tree-nodes.ts:75-87 | The child is replaced exactly if its only child is a directory. |
| `ModelingStores.ModelingStore.constructor` | extensions/ql-vscode/src/model-editor/modeling-store.ts:111-115 | No database is open. |
| `ModelingStores.ModelingStore.InitializeStateForDb` | extensions/ql-vscode/src/model-editor/modeling-store.ts:170-185 | The database gets a blank state; the others keep theirs. |
| `ModelingStores.ModelingStore.RemoveDb` | extensions/ql-vscode/src/model-editor/modeling-store.ts:195-209 | An open database loses its state, the others keep theirs; for any other it fails and nothing changes. |
| `ModelingStores.ModelingStore.AddModeledMethods` | extensions/ql-vscode/src/model-editor/modeling-store.ts:328-344 | The new entries are added under those that already hold a model; fails, with nothing changed, if the database is not open. |
| `ModelingStores.ModelingStore.SetModeledMethods` | extensions/ql-vscode/src/model-editor/modeling-store.ts:346-353 | All models of the database are replaced, with the same failure. |
| `ModelingStores.ModelingStore.UpdateModeledMethods` | extensions/ql-vscode/src/model-editor/modeling-store.ts:355-365 | The models of one signature are replaced, with the same failure. |
| `ModelingStores.ModelingStore.AddModifiedMethods` | extensions/ql-vscode/src/model-editor/modeling-store.ts:376-387 | The signatures are added to the modified ones, with the same failure. |
| `ModelingStores.ModelingStore.AddInProgressMethods` | extensions/ql-vscode/src/model-editor/modeling-store.ts:429-439 | The signatures are added to those in progress, with the same failure. |
| `ModelingStores.ModelingStore.RemoveInProgressMethods` | extensions/ql-vscode/src/model-editor/modeling-store.ts:441-452 | The signatures are removed from those in progress, with the same failure. |
| `Candidates.GroupMethods` | extensions/ql-vscode/src/model-editor/shared/sorting.ts:5-20 | Every group holds the methods with its key, in order. |
| `Candidates.UiOrderPermutes` | extensions/ql-vscode/src/model-editor/auto-model.ts:26-30 | Grouping, sorting the group names, sorting the groups and putting them together keeps every method as often as it was given, whatever the two comparisons are. |
| `Candidates.InUiOrderIs` | extensions/ql-vscode/src/model-editor/auto-model.ts:26-30 | The order of the interface: the groups in the order of their names, each with its own methods in order. |
| `Candidates.GroupKeyIs` | extensions/ql-vscode/src/model-editor/shared/sorting.ts:11-13 | Methods are grouped by package in framework mode and by library otherwise. |
| `Candidates.SortedMethods` | extensions/ql-vscode/src/model-editor/auto-model.ts:26-30 | The sorted methods are a permutation of the methods given. |
| `Candidates.GetCandidates` | extensions/ql-vscode/src/model-editor/auto-model.ts:20-53 | The candidates are exactly the methods that are neither modeled nor supported, each as often as it was given. |
| `AutoModel.BatchesConcatenate` | extensions/ql-vscode/src/model-editor/auto-modeler.ts:123-135 | The batches, none empty and none longer than the batch size, make up the list of candidates if and only if the size is positive or there is no candidate; with a negative setting no batch is made. |
| `AutoModel.FilledIsComplete` | extensions/ql-vscode/src/model-editor/auto-modeler.ts:214-231 | After the fill the models are those of the response, unchanged, and a neutral one for each candidate it does not mention; nothing else. |
| `AutoModel.NeutralSinkIs` | extensions/ql-vscode/src/model-editor/auto-modeler.ts:214-231 | The neutral model, field by field; it survives saving and loading if and only if the signature of the candidate belongs to its parts. |
| `AutoModel.LoadedIsModeled` | extensions/ql-vscode/src/model-editor/auto-modeler.ts:201-208 | Every signature that a response mentions comes with a real model. |
| `AutoModel.AddedBatch` | extensions/ql-vscode/src/model-editor/auto-modeler.ts:205-233 | Adding the models of a batch models every candidate of the batch, leaves what was modeled unchanged, and gives the rest the models of the response or else the neutral one. |
| `AutoModelJobs.OneJobPerPackage` | extensions/ql-vscode/src/model-editor/auto-modeler.ts:60-77 | A package has one job at a time in each auto-modeler: a running job keeps its candidates until it has ended, goes away only by ending, and a package that has a job gets no other one. |
| `AutoModelJobs.StepIsLocal` | extensions/ql-vscode/src/model-editor/auto-modeler.ts:28-44 | A step of one auto-modeler does the same to its own jobs and to the store whatever jobs other auto-modelers of the database still run, so the lemmas about runs cover editors that are closed and opened again. |
| `AutoModelJobs.StepIsSound` | extensions/ql-vscode/src/model-editor/auto-modeler.ts:54-168 | Every step keeps, for every job: it works on a batch that exists; it ends its loop early only if it was stopped, if a batch got no models or if the store threw because the database was closed. |
| `AutoModelJobs.StartTakesTheCandidates` | extensions/ql-vscode/src/model-editor/auto-modeler.ts:54-78 | A package without a job gets one with exactly the methods neither modeled nor supported, in the order of the interface, and the batch size of the setting, or 10; with a job, nothing happens. |
| `AutoModelJobs.BeginTakesUp` | extensions/ql-vscode/src/model-editor/auto-modeler.ts:112-152 | A job that begins takes up its first batch and shows it as in progress, unless it was stopped, makes no batches or the database is closed. |
| `AutoModelJobs.ContinueTakesUp` | extensions/ql-vscode/src/model-editor/auto-modeler.ts:127-166 | After a batch its methods are no longer in progress and the next batch is taken up, or the loop ends: when all batches are through, when the job was stopped, when the batch threw, or when the database is closed. |
| `AutoModelJobs.NoModelsForTheBatch` | extensions/ql-vscode/src/model-editor/auto-modeler.ts:188-208 | A batch without a response, or with one that cannot be loaded or stored, changes nothing in the store; without a response the job goes on, otherwise its loop will end. |
| `AutoModelJobs.StopMarksExactly` | extensions/ql-vscode/src/model-editor/auto-modeler.ts:80-99 | A stop marks the job of its package, a stop of all those of its auto-modeler, and neither does anything else. |
| `AutoModelJobs.JobsEnd` | extensions/ql-vscode/src/model-editor/auto-modeler.ts:122-168 | Every own step of a job brings it closer to its end, and no step of another job, of the user or of the store sets it back. |
| `AutoModelJobs.StopStartsNoBatch` | extensions/ql-vscode/src/model-editor/auto-modeler.ts:80-131 | After a stop of its package, or of all, a job takes up no further batch in any run until it has ended, and the next time it resumes it ends its loop. |
| `AutoModelJobs.ProgressIsTheCurrentBatches` | extensions/ql-vscode/src/model-editor/auto-modeler.ts:126-166 | In every run in which jobs that run together share no candidates, whether or not the editor is closed and opened again meanwhile, the methods in progress are at every moment exactly those in the current batches that were taken up since the database was last opened. |
| `AutoModelJobs.WorkingIsTheCurrentBatch` | extensions/ql-vscode/src/model-editor/auto-modeler.ts:126-152 | As long as the database is not opened again, these are all current batches of the running jobs. |
| `AutoModelJobs.OverlapHidesWork` | extensions/ql-vscode/src/model-editor/auto-modeler.ts:140-165 | When jobs do share candidates, the step of one hides what another is working on if and only if it clears a method of the other's batch that it does not take up itself. |
| `AutoModelJobs.NothingIsLeftInProgress` | extensions/ql-vscode/src/model-editor/auto-modeler.ts:160-166 | However a job ended its loop (done, stopped, failed, or with its database closed or opened again), none of its candidates is in progress. |
| `AutoModelJobs.EndClears` | extensions/ql-vscode/src/model-editor/auto-modeler.ts:160-166 | The step that ends the loop clears all candidates of the job, even when jobs share candidates. |
| `AutoModelJobs.IdleShowsNothing` | extensions/ql-vscode/src/model-editor/auto-modeler.ts:140-166 | In every run, reopened editors included, when no job of any auto-modeler is left, nothing is in progress. |
| `AutoModelJobs.ModelsAreKept` | extensions/ql-vscode/src/model-editor/modeling-store.ts:328-344 | A step keeps the models of a method that is modeled if and only if it does not close or open the database, is not an edit of this method to other models, and is not a replacement of all models that lacks or changes them. |
| `AutoModelJobs.ModelsAreKeptInRuns` | extensions/ql-vscode/src/model-editor/modeling-store.ts:328-344 | So in any run without such a step the models of the method stay as they are. |
| `AutoModelJobs.ResponseModelsTheBatch` | extensions/ql-vscode/src/model-editor/auto-modeler.ts:205-233 | The step in which a response comes in models every candidate of the batch, changes nothing that was modeled, and marks the signatures of the response and of the batch as modified. |
| `AutoModelJobs.CompleteJobLeavesNoCandidates` | extensions/ql-vscode/src/model-editor/auto-modeler.ts:122-166 | After a job that was not stopped, got models for each of its batches and saw its database opened no other time, in any interleaving with other jobs, edits and replacements, all candidates have been through a batch, and none of them is a candidate again for any list of methods, unless an edit or a replacement left it without a model. |
| `AutoModelJobs.AutoModeler.constructor` | extensions/ql-vscode/src/model-editor/auto-modeler.ts:31-44 | No jobs. |
| `AutoModelJobs.AutoModeler.StartModeling` | extensions/ql-vscode/src/model-editor/auto-modeler.ts:54-78 | State after the call is that of the `Start` step of the runs above: nothing if the package has a job, else a new job with the candidates. |
| `AutoModelJobs.AutoModeler.StopModeling` | extensions/ql-vscode/src/model-editor/auto-modeler.ts:84-90 | ... of the `Stop` step. |
| `AutoModelJobs.AutoModeler.StopAllModeling` | extensions/ql-vscode/src/model-editor/auto-modeler.ts:95-99 | ... of the `StopAll` step. |
| `AutoModelJobs.AutoModeler.BeginModelPackage` | extensions/ql-vscode/src/model-editor/auto-modeler.ts:112-152 | ... of the step in which the progress task begins. |
| `AutoModelJobs.AutoModeler.ModelBatch` | extensions/ql-vscode/src/model-editor/auto-modeler.ts:127-152 | ... of the head of one round of the batch loop, or of the end of the loop. |
| `AutoModelJobs.AutoModeler.LeaveLoop` | extensions/ql-vscode/src/model-editor/auto-modeler.ts:160-166 | ... of the `finally` block. |
| `AutoModelJobs.AutoModeler.FillNeutral` | extensions/ql-vscode/src/model-editor/auto-modeler.ts:214-231 | The loop fills in a neutral model for each candidate that the response does not mention. |
| `AutoModelJobs.AutoModeler.EndModelCandidates` | extensions/ql-vscode/src/model-editor/auto-modeler.ts:188-233 | ... of the step in which the requests for a batch end with nothing, with a response, or with an exception. |
| `AutoModelJobs.AutoModeler.ContinueModelPackage` | extensions/ql-vscode/src/model-editor/auto-modeler.ts:154-166 | ... of the step in which the loop resumes after a batch. |
| `AutoModelJobs.AutoModeler.EndModeling` | extensions/ql-vscode/src/model-editor/auto-modeler.ts:75-77 | ... of the step in which the job is removed. |
| `AutoModelJobs.ModelEditorView.constructor` | extensions/ql-vscode/src/model-editor/model-editor-view.ts:69-86 | Opening a view is the `Reopen` step for the database and makes an auto-modeler without jobs; alone, it is a state from which the runs above start. |
| `AutoModelJobs.ModelEditorView.SetModeledMethods` | extensions/ql-vscode/src/model-editor/model-editor-view.ts:721-728 | State after the call is that of the `Edit` step of the runs above. |
| `AutoModelJobs.ModelEditorView.AddModeledMethods` | extensions/ql-vscode/src/model-editor/model-editor-view.ts:712-719 | ... of the `AddModels` step. |
| `AutoModelJobs.ModelEditorView.LoadExistingModeledMethods` | extensions/ql-vscode/src/model-editor/model-editor-view.ts:391-405 | ... of the `ReplaceAll` step with what loading the extension pack finds, or unchanged if that throws. |
| `AutoModelJobs.ModelEditorView.OnDidDispose` | extensions/ql-vscode/src/model-editor/model-editor-view.ts:99-100 | ... of the `Close` step; fails exactly if the database was closed already. |

## Left out

- SarifMessage.ParsingUndoesPrinting: link targets are natural numbers; the rounding of numbers above 2^53 and the UTF-16 encoding of text are not modeled.
- SplitStream.SplitStreamAtSeparators: chunks are decoded text; the UTF-8 decoder is not modeled, nor is the truncation of positions to 32 bits.
- TextMate.ReplaceReferencesWithStrings: a text is a list of literals and references, not a string; that replacing inside a string finds the same references, and the special meaning of `$` in replacement strings, are not modeled.
- TextMate.ExpandReferences: macros, `beginPattern` and `endPattern`, and the regex options of the grammar are not modeled; the rules are given in the order in which they are visited.
- DebugSession.StepKeepsInvariant: the construction of a query run is assumed not to throw, and sending a message not to call a handler; stack traces, unknown custom requests and the contents of messages are not modeled.
- CliQueue.CommandsAreServedInOrder: the process, its streams and the `onLine` callback are not modeled; launching and running a command succeed or fail in a step of their own.
- DiscoveryLoop.ServedUnlessLate: `discover` is assumed not to call `refresh` before it first awaits.
- JoinOrder.BadnessInputsForRecursiveDelta: the sizes of the dependent predicates are an input (extracting them from the relational algebra is not modeled); the floating point metric and the problem reports are left out.
- SummarySymbols.GenerateSummarySymbols: a line is given as the three regular expressions classify it, and iteration numbers are natural numbers.
- MethodGrouping.DecodeBqrsToMethods: reading a version off a library file name is a parameter.
- DataExtensions.LoadDataExtension: YAML text is left out, and of the schema only what it says of the values in a row; a number is given by its decimal text.
- ExtensionPacks.ModelsSurviveIff: the new models are assumed to be filed under the signature that belongs to their fields, as the editor files them.
- ExtensionPacks.ExtensionPack.LoadModeledMethods: the list of files that the CLI finds comes from the caller, without duplicates but otherwise arbitrary, and so does the location that a name denotes; files that are not YAML are not modeled.
- LibraryFilename.NormalIsFixed: lower case and white space are parameters that leave the allowed characters alone.
- FileTree.SortedIndicesSorted: the comparison of names by locale is a parameter, assumed total for this lemma only.
- FileTreeObjects.FileTreeDirectory.FinishTree: creating directories for a relative path is not modeled, and a tree is assumed to be a tree: no directory occurs twice in it.
- Candidates.GetCandidates: the two comparisons of the user interface are parameters; only that sorting permutes is used.
- ModelingStores.ModelingStore.AddModeledMethods: the order of the keys in the store, its change events, the active database and the selected method are left out.
- AutoModelJobs.CompleteJobLeavesNoCandidates: queries and requests to the model service are steps that yield a response, nothing or an exception; a batch size that is not an integer is not modeled.
- The user interface, commands, settings, telemetry, logging and progress bars.
- Locations and regions in SARIF results, result formatting, paging, query history, variant analysis, distribution download: no state or arithmetic as hard as the above.
