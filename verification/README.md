# Verified model of itsmay

This project models the parts of itsmay (the Scrappy assistant) that hold state across
many steps, and proves what they keep over all inputs, all ways of cutting a stream, and
all interleavings. `dafny verify dfyconfig.toml` checks everything.

| file | models |
|---|---|
| `PyText.dfy`, `Options.dfy` | the pieces of Python's `str` the rest relies on, and `None` |
| `InlineToolCalls.dfy` | the parser that strips `<function=...>` markers out of a stream |
| `EmotionStream.dfy` | the incremental parser of `{"emotion": ..., "response": ...}` |
| `Wrap.dfy`, `ReplyRenderer.dfy` | word wrapping and the streaming terminal renderer |
| `KeyPool.dfy`, `RetryLoop.dfy` | the key scheduler, and the request loop that rotates keys |
| `ToolLoop.dfy` | the tool loop, the approval gate and the nested expert loop |
| `WorkerBridge.dfy` | the hand-off between agents and polling workers |
| `SemanticSearch.dfy`, `SemanticExactness.dfy`, `SqliteSearch.dfy` | the two memory searches against the exact ranking |
| `Vault.dfy` | export and import of memories as a merge on content hashes |
| `Goals.dfy` | the goal ledger under planner ticks and operator calls |
| `Vad.dfy` | speech onset, pre-roll and end of a recording |

Classes have the fields the program's objects have; each method is tied to a function of
the old state, and the lemmas are about those functions. Time, model replies, provider
answers, connector behaviour, audio frames, write failures and fresh ids are parameters, so
each theorem holds for all of them. JSON decoding of whole documents, hashing, the Markdown
rules and `int(digits, 16)` are function parameters with their laws stated as predicates
(`Lawful`, `HexLaw`, `Digests`).

What the code does that its documentation does not say:

- A character of a response that is spelled as a surrogate pair (`\uD83D\uDE00`) is spoken
  as two surrogates. The response is spoken exactly if and only if no character of it is
  spelled that way (`EmotionStream.PrintThenParse`); the emotion has no such restriction.
- `core/memory/semantic.py:86-88` says that the two stages give the same ranking. They do
  not; a returned memory can rank half as high as one that is left out, and never lower
  (`SemanticSearch.QualityBound`, `SemanticSearch.BoundIsTight`). On which tables and
  queries the ranking is the exact one, ties included, is the subject of
  `SemanticExactness.AlwaysExactIff`; for a given pool, of `SemanticExactness.ExactIff`;
  and what can be told from pool and answer alone, of `SemanticSearch.ConclusiveIff`.
- The SQLite search drops sub-floor rows after truncating, so it can return fewer rows than
  the exact answer. For a floor that is not positive, the default of zero included, it drops
  nothing, so it can also return rows the exact answer does not have
  (`SqliteSearch.ZeroFloorFails`), though the comment at
  `core/memory/sqlite_store.py:396-398` claims parity with the other store.
  `SqliteSearch.PrefixOfExact`, `SqliteSearch.PrefixForEveryK` and
  `SqliteSearch.ZeroFloorIff` say exactly when it does what.
- `WorkerBridge.complete` can return True and the submitter still get the timeout text: with
  `asyncio.wait_for` as of Python 3.12, which the Dockerfile installs, a timer that fires
  after the result is set but before the submitter resumes cancels the submitter
  (`WorkerBridge.AcceptedIsLost`). `WorkerBridge.AcceptedIsDelivered` says exactly when the
  output arrives.
- `wrap` measures what is visible, so a hanging indent that ends in `ESC [` can be completed
  by a word, and then greedy wrapping is not optimal (`Wrap.OptimalIff`).
- The merge rules promise that identities resolve by revision. `import_bundle` resolves
  against no identity at all and writes none, and yet every import that is not a dry run
  reports the bundle's identity as applied. As a report of what the documented rule would
  do, that is right for a host exactly under the condition of `Vault.IdentityFlagIff`, and
  wrong for a tie (`Vault.TieIsReportedAsApplied`).
- A goal can have two unresolved tasks: FAILED counts as resolved when a second one is
  added, and a failed one may then be reopened. `Goals.AlwaysAtMostOneIff` says exactly
  which calls do this.

## Model

| member | source | states |
|---|---|---|
| InlineToolCalls.InlineToolCallParser.Feed | core/brain/llm.py:47-81 | each delta emits exactly what is newly safe, holding back less than a marker, and the whole parser state is a function of the text fed so far, however it was cut |
| InlineToolCalls.InlineToolCallParser.Flush | core/brain/llm.py:83-92 | what remains comes out verbatim, a half-open marker included, and completes the visible text; the calls stay |
| InlineToolCalls.InlineToolCallParser.CommitTag | core/brain/llm.py:94-111 | a body without `>` adds nothing; else one call is added, numbered, with trimmed name, and with the empty object, the JSON value, or the raw text as arguments |
| InlineToolCalls.ScanAppend | core/brain/llm.py:47-81 | the one-shot scanner can be suspended after any prefix and resumed from its remainder alone |
| InlineToolCalls.ParseStream | core/brain/llm.py:355-400 | for every list of deltas, text and calls are those of a one-shot first-occurrence scan of the whole |
| InlineToolCalls.HalfOpenVerbatim | core/brain/llm.py:83-92 | a marker that never closes comes back character for character and yields no call |
| InlineToolCalls.ScanPrinted | core/brain/llm.py:40-111 | scanning printed segments and calls finds exactly the segments and the bodies, in order |
| InlineToolCalls.PrintThenParse | core/brain/llm.py:40-111 | segments and printed calls, cut anywhere, parse back to exactly those segments and calls: ids in order, trimmed names, and arguments decoded, empty or raw as the text is |
| EmotionStream.EarlierEndsEarlier | core/companion/emotion_stream.py:16-17 | of two matches of either pattern, the one that starts first also ends first |
| EmotionStream.SearchStable | core/companion/emotion_stream.py:58-80 | a search that has succeeded keeps its answer whatever text arrives later |
| EmotionStream.EmotionResponseParser.Feed | core/companion/emotion_stream.py:49-115 | emotion, decoder registers and spoken text are functions of the concatenated stream; the emotion is reported by the feed that completes it |
| EmotionStream.EmotionResponseParser.ScanBuffer | core/companion/emotion_stream.py:74-114 | the scanning loop is the decoder run over the unread part of the buffer, up to the closing quote |
| EmotionStream.EmotionResponseParser.ScanChar | core/companion/emotion_stream.py:77-112 | one character moves the escape registers and speaks exactly what one decoder step says |
| EmotionStream.SayIs | core/companion/emotion_stream.py:77-112 | one decoder step, case by case, for escapes that RFC 8259 does not allow as well |
| EmotionStream.EmotionVerbatim | core/companion/emotion_stream.py:58-65 | an emotion that is no valid JSON string is reported as it stands |
| EmotionStream.QuadIs | core/companion/emotion_stream.py:80-90 | four characters read as a code point exactly when they are its hexadecimal digits, in either letter case |
| EmotionStream.SpelledReads | core/companion/emotion_stream.py:19-28 | the decoder's tables read every spelling of section 7 of RFC 8259 as the character spelled |
| EmotionStream.EmotionResponseParser.Flush | core/companion/emotion_stream.py:117-139 | the fallback speaks only when streaming never began, and may supply the emotion |
| EmotionStream.ParseAll | core/companion/emotion_stream.py:49-139 | for every cutting, malformed streams included, spoken text, final emotion and reports depend on the concatenation only |
| EmotionStream.LoadsSpelled | core/companion/emotion_stream.py:58-65 | decoding any RFC 8259 spelling of a text gives the text, surrogate pairs included |
| EmotionStream.SpeakSpelled | core/companion/emotion_stream.py:77-112 | the stream decoder says each spelled character, and the two halves of a pair separately |
| EmotionStream.SaidExactly | core/companion/emotion_stream.py:80-90 | what is said is the text if and only if no character is spelled as a pair |
| EmotionStream.NoEarlierResponse | core/companion/emotion_stream.py:17 | nothing in the emotion key, its content or around it can be taken for the response key |
| EmotionStream.PrintThenParse | core/companion/emotion_stream.py:49-115 | any printed emotion is reported exactly once and exactly; the response is spoken exactly iff it has no pair; later keys are never spoken |
| EmotionStream.PairIsSpokenApart | core/companion/emotion_stream.py:80-90 | a concrete spelling that is spoken as two surrogates |
| Wrap.WrapText | apps/cli/render.py:73-92 | the loop prints the words in a layout that the width allows and that has the fewest lines, the first line behind the indent and the others behind the hanging indent; and the two special results for a text without words |
| Wrap.GreedyAllowed | apps/cli/render.py:82-92 | the layout keeps the word sequence exactly and every line fits or holds a single word |
| Wrap.GreedyAhead | apps/cli/render.py:84-90 | continuing greedily from a later word never needs more lines than any allowed layout of all words |
| Wrap.OptimalIff | apps/cli/render.py:73-92 | wrapping is optimal for all words, widths and first-line indents iff the hanging indent does not end in the beginning of an escape sequence |
| Wrap.NotOptimal | apps/cli/render.py:68-92 | otherwise: concrete words that take three lines where two are enough |
| Wrap.GreedyOptimal | apps/cli/render.py:73-92 | no other in-order layout with the same indents uses fewer lines |
| Wrap.WrapOptimal | apps/cli/render.py:73-92 | the same for the lines printed for a text, default hanging indent included |
| Wrap.VisibleAppend | apps/cli/render.py:68-70 | visible length is additive wherever no escape sequence is cut |
| Wrap.VisibleEscape | apps/cli/render.py:68-70 | an escape sequence counts nothing |
| Wrap.WrapKeepsWords | apps/cli/render.py:73-92 | the printed lines show exactly the words of the text |
| PyText.SplitCongruence | apps/cli/render.py:160-166 | words that follow a prefix depend only on its words and its open end |
| PyText.SplitJoin | apps/cli/render.py:225 | joining words with blanks and splitting gives them back |
| PyText.StripIs | core/brain/llm.py:99-100 | stripping takes only whitespace away, and all of it at both ends |
| PyText.AsciiSpace | apps/cli/render.py:78 | which ASCII characters are whitespace |
| PyText.DecimalIs | core/brain/llm.py:107 | a number printed in decimal digits reads back as that number |
| ReplyRenderer.ReplyRenderer.Feed | apps/cli/render.py:155-167 | printed words plus buffered words stay the words fed, a word that could still grow stays buffered, every line fits or shows a single word, and the loops terminate on any text |
| ReplyRenderer.ReplyRenderer.Drain | apps/cli/render.py:198-226 | nothing is drained up to three times the width; afterwards that much is left at most, unless no line can be drained |
| ReplyRenderer.ReplyRenderer.DrainLine | apps/cli/render.py:208-225 | an iteration prints at least one whole word of the buffer and never the last one; of plain text, as many words as fit and not one more |
| ReplyRenderer.ReplyRenderer.TakeWords | apps/cli/render.py:214-219 | a drained line takes words up to the first candidate that is too wide |
| ReplyRenderer.ReplyRenderer.Emit | apps/cli/render.py:228-240 | a finished plain line is an empty line if blank, else laid out with the fewest lines; the tail of a spilled one goes on behind its hanging indent; `wrote_any` follows |
| ReplyRenderer.ReplyRenderer.Flush | apps/cli/render.py:169-176 | afterwards every word fed has been printed, and the last line is laid out like any other |
| ReplyRenderer.RenderStream | apps/cli/render.py:155-240 | for text without Markdown characters and digits, for every cutting, cuts inside words included: the words printed are exactly those of the text, every line fits or shows a single word, and if no line of the text is longer than three times the width, each is laid out with the fewest lines and blank ones are empty lines |
| ReplyRenderer.ItemsAreLawful | apps/cli/render.py:19-20 | the two list patterns have the laws the renderer relies on: on one line an item's body is a suffix, and nothing matches without a Markdown character or digit |
| KeyPool.KeyPool.SelectIdx | core/util/keypool.py:197-217 | the loop finds the key that the cyclic specification picks |
| KeyPool.PickLaw | core/util/keypool.py:197-217 | that key is the first eligible one going round, else the first one with least cooldown |
| KeyPool.KeyPool.Lease | core/util/keypool.py:219-229 | a lease names the picked key and its index: one off cooldown and above both floors if there is any, else one with least cooldown |
| KeyPool.KeyPool.SecondsUntil | core/util/keypool.py:238-247 | the wait is the least remaining cooldown, at least zero |
| KeyPool.NoWaitIff | core/util/keypool.py:238-247 | no wait is announced exactly when a lease taken now is off cooldown |
| KeyPool.WaitSuffices | core/util/keypool.py:238-247 | after the announced wait, the next lease is off cooldown |
| KeyPool.KeyPool.UpdateFromHeaders | core/util/keypool.py:249-284 | quota is recorded on the leased key and nowhere else |
| KeyPool.KeyPool.MarkRateLimited | core/util/keypool.py:286-305 | the key cools down for the retry-after time or 60 seconds, and the index moves behind it |
| KeyPool.KeyPool.MarkInvalid | core/util/keypool.py:307-318 | the key cools down for an hour, and the index moves behind it |
| KeyPool.LeasesNameKeys | core/util/keypool.py:58-69 | under any interleaving of callers every lease keeps naming the key at its index |
| KeyPool.CooldownLandsOnLease | core/util/keypool.py:286-305 | a cooldown recorded with a lease changes the leased key only, however far the pool rotated |
| RetryLoop.NextLease | core/util/keypool.py:197-229 | while a key that was eligible is untried, the next lease is fresh and passes over none |
| RetryLoop.StillFirstRound | core/brain/llm.py:247-279 | while every reply rotates, the request has either used every key that was eligible when it started, or is in its first round and has passed over none |
| RetryLoop.FairRotation | core/brain/llm.py:247-279 | whatever the replies, retry-after values and passage of time: no key is used twice before every key eligible at the start was used, and more attempts than keys reach all of them |
| RetryLoop.SendOnce | core/brain/llm.py:248-279 | 429, or 401 with at least two keys, cools the leased key down and asks for another try; any other reply leaves all cooldowns alone |
| RetryLoop.OpenStream | core/brain/llm.py:236-285 | the loop goes on after 429, and after 401 with at least two keys; it returns the first other reply, or gives up after `n + 2` attempts with the last status; keys used and pool are functions of the replies; giving up means every key eligible at the start was used |
| ToolLoop.Invoke | core/connectors/registry.py:109-141 | the text for unknown, client-side, unapproved and raising tools; a tool runs only if registered for the server and approved |
| ToolLoop.ExecuteServer | core/brain/orchestrator.py:55-70 | delegation, then the approval gate, then the connector; an expert is held to its namespaces; the outcome of every case is fixed by the replies and behaviours met |
| ToolLoop.RunAgent | core/agents/registry.py:85-97 | an expert starts exactly when the arguments have a task and there is a model, and the other cases have fixed outcomes; it runs what its own passes say and starts no other expert |
| ToolLoop.RunSubagent | core/agents/runner.py:91-148 | the expert asks the model until a reply raises or requests no tool, or its cap is reached, and comes back with the stripped text of exactly those replies |
| ToolLoop.SpokenByPasses | core/agents/runner.py:117-132 | the tokens among the events of a run are the text of its replies; nothing else is spoken |
| ToolLoop.ExecuteCall | core/brain/agent_loop.py:218-257 | start, narration, an approval request exactly when the gate blocks, result; one answer with the call's id and name; the progress channel is closed afterwards |
| ToolLoop.RunPass | core/brain/agent_loop.py:165-257 | the client gets exactly the calls of tools that run elsewhere and the server all others, in the reply's order; the pass adds exactly its events and messages, and its server calls come to what replies and behaviours say |
| ToolLoop.RunToolLoop | core/brain/agent_loop.py:146-260 | the records of the passes are what replies and behaviours say, and events, transcript, the prompt of every model call, the tools run, the passes made and the end of the run are functions of the records |
| ToolLoop.TranscriptGrammar | core/brain/agent_loop.py:214-257 | each assistant tool request is followed at once by one answer per call, same ids and names, same order |
| ToolLoop.EventGrammar | core/brain/agent_loop.py:218-257 | an independent automaton accepts the events of any list of passes |
| ToolLoop.RunAllowed | core/connectors/registry.py:109-141 | in any run so described, an expert's nested runs included, every connector tool that ran was allowed to |
| ToolLoop.RunBounded | core/agents/runner.py:91-148 | in any run so described, experts make at most the cap of passes per top-level server call, and start at most once per call |
| ToolLoop.NamespaceIs | core/agents/runner.py:82-88 | a tool name lies in exactly one namespace, the one before its first dot |
| ToolLoop.RunOutcomes | core/brain/orchestrator.py:49-70 | in every pass of a run the calls are split so, and each server call comes to what its case says: blocked, unknown, run with the connector's answer, or delegated within the expert's namespaces and cap |
| ToolLoop.LastReported | core/brain/agent_loop.py:165-200 | the token counts of `Done` are the last ones any reply reported |
| ToolLoop.Request | core/brain/orchestrator.py:25-70 | over whole nested runs, with every output fixed by the records of the passes and the records by replies and behaviours: approval safety, well-formed prompts, event grammar with one final count, no onward delegation, and the bound on model passes |
| WorkerBridge.WorkerBridge.SubmitCommand | core/worker/bridge.py:111-125 | the command is pending and last in the queue |
| WorkerBridge.WorkerBridge.FinishSubmit | core/worker/bridge.py:126-135 | the submitter returns the resolved output, or the timeout text if its timer fired, and is no longer pending |
| WorkerBridge.WorkerBridge.TimerFires | core/worker/bridge.py:126-128 | the timer cancels a waiting future, and marks a resolved one whose submitter has not resumed |
| WorkerBridge.WorkerBridge.NextCommand | core/worker/bridge.py:138-144 | a poll takes the oldest queued command or nothing; a poll that times out takes nothing |
| WorkerBridge.WorkerBridge.CompleteCommand | core/worker/bridge.py:146-152 | an output is accepted exactly when the command is pending and its future waits |
| WorkerBridge.WorkerBridge.PostProgress | core/worker/bridge.py:154-171 | the sink fires exactly for a command in flight that has one; a raising sink reports False |
| WorkerBridge.StepIs | core/worker/bridge.py:91-171 | each step case by case: what is queued, polled, accepted, fired and returned |
| WorkerBridge.TimeoutTextIs | core/worker/bridge.py:129-133 | the timeout text names the command's own timeout |
| WorkerBridge.StepInv | core/worker/bridge.py:91-171 | every step keeps the correspondence between futures, pending table, queue and history |
| WorkerBridge.BridgeGuarantees | core/worker/bridge.py:91-171 | in every interleaving: FIFO and at most one poll per command, at most one accepted output, the submitter returns exactly it unless its timer fired, and the timeout text if it did, silence after acceptance |
| WorkerBridge.AcceptedIsDelivered | core/worker/bridge.py:126-152 | over every run: an accepted output is what the submitter returns iff its timer does not fire between the acceptance and the resumption |
| WorkerBridge.AcceptedIsLost | core/worker/bridge.py:126-152 | a run from the empty bridge on which an accepted output is lost |
| WorkerBridge.OthersUntouched | core/worker/bridge.py:146-171 | no operation affects any submitter but its own |
| SemanticSearch.QualityBound | core/memory/semantic.py:93-120 | every returned memory ranks at least half as high as any eligible one left out, or twice its rank if that is negative; any floor |
| SemanticSearch.ExactWhen | core/memory/semantic.py:93-120 | the answer is exact when the pool is not full, reaches below the floor, or nothing as similar as its last row could rank above the worst row returned |
| SemanticSearch.ConclusiveIff | core/memory/semantic.py:80-120 | and only then is it certain: otherwise the same pool and answer also arise from a table on which the answer is not exact |
| SemanticSearch.SearchHasAnswer | core/memory/semantic.py:93-120 | every query on every table has a pool and an answer |
| SemanticSearch.AnswersAre | core/memory/semantic.py:93-120 | an answer holds the asking user's eligible rows only, from a pool of the nearest, at most `k`, best first by similarity and importance, and leaves none out for want of room |
| SemanticExactness.ExactIff | core/memory/semantic.py:80-120 | an answer is exact iff every eligible row its pool misses has `k` eligible rows of the pool before it |
| SemanticExactness.AlwaysExactIff | core/memory/semantic.py:80-120 | the ranking is the exact one, whatever pool and answer the database gives, iff a count over the table says so for each eligible row that is not in every pool |
| SemanticExactness.FewestBounds | core/memory/semantic.py:104-117 | that count bounds from below how many rows of any pool come before a row the pool misses |
| SemanticExactness.FewestAttained | core/memory/semantic.py:104-117 | and some pool attains it |
| SemanticSearch.BoundIsTight | core/memory/semantic.py:80-90 | both sides of the bound are attained, so the two-stage ranking is not the exact one |
| SqliteSearch.ArgSortLaw | core/memory/sqlite_store.py:393-395 | the stable sort orders all candidates by rank, ties by position |
| SqliteSearch.SortedUnique | core/memory/sqlite_store.py:393-395 | there is only one such order |
| SqliteSearch.PrefixOfExact | core/memory/sqlite_store.py:384-402 | for every floor: when the result is a prefix of the exact answer and when it is the exact answer, in terms of how many candidates rank before those below and above the floor |
| SqliteSearch.PrefixForEveryK | core/memory/sqlite_store.py:384-402 | the prefix law, and the floor, hold for every `k` iff the floor is positive or no candidate is below it |
| SqliteSearch.ZeroFloorIff | core/memory/sqlite_store.py:333-402 | at the default floor of zero the exact answer is a prefix of the result, and equal to it iff at least `k` candidates reach zero or all do |
| SqliteSearch.ZeroFloorFails | core/memory/sqlite_store.py:333-402 | one candidate on which the prefix law fails at floor zero |
| SqliteSearch.FloorEnforcedIff | core/memory/sqlite_store.py:396-402 | every returned row reaches the floor iff the floor is positive or every candidate below it has `k` candidates ranking before it |
| SqliteSearch.SqliteStore.Search | core/memory/sqlite_store.py:340-427 | the found rows are those of the specification over the selected rows, and exactly their usage counters are bumped |
| SqliteSearch.SearchIs | core/memory/sqlite_store.py:340-427 | the rows found are eligible rows of the asking user, at most `k`, best first by similarity and importance, and no eligible row left out ranks higher |
| SqliteSearch.TouchedIs | core/memory/sqlite_store.py:404-415 | exactly the rows found are stamped and counted |
| Vault.HashIgnoresWrapping | core/vault/schema.py:58-64 | two texts hash alike iff they have the same words, for a collision-free digest |
| Vault.ScanLaw | core/vault/import_.py:162-179 | a scan invents no hash, and misses none unless a page cannot be read |
| Vault.KnownHashes | core/vault/import_.py:162-179 | the paging loop collects what the scan sees, unreadable pages included |
| Vault.ImportBundle | core/vault/import_.py:89-148 | the loop is the merge fold over the known hashes, scanned or given; the reported identity ignores revisions |
| Vault.MergedIs | core/vault/import_.py:106-134 | one record, case by case: known, counted in a dry run, failed, or written in front of the store |
| Vault.HighestRevisionWins | docs/VAULT_PROTOCOL.md:116-117 | what the documented rule would give hosts if they applied it, which no import does: the highest revision met, its own if that has it, else the earliest bundle that has it |
| Vault.IdentityFlagIff | core/vault/import_.py:136-139 | the reported flag is the one the merge rule promises a host iff it is a dry run, or the host has no identity, or the bundle's revision is higher |
| Vault.TieIsReportedAsApplied | core/vault/import_.py:136-139 | a tie keeps the local identity, and is reported as applied |
| Vault.MergeConserves | core/vault/import_.py:109-134 | whatever fails, every record is counted once and nothing is removed |
| Vault.KnownAreStored | core/vault/import_.py:109-134 | with well-formed digests the known hashes are those of the rows stored, failures included |
| Vault.ImportIsJoin | core/vault/import_.py:109-134 | the hashes end as the union, each new one is added once, and a dry run predicts the counts |
| Vault.ImportIdempotentCommutative | core/vault/import_.py:109-134 | a second import adds nothing, and the order of two imports does not matter for the hashes |
| Vault.BuildBundle | core/vault/export.py:113-156 | paging exports exactly the newest rows up to the cap, and fails iff something secret-shaped is among them or a page it reads cannot be read |
| Vault.TravelsIntact | core/vault/import_.py:151-159 | an exported and imported memory keeps kind, content and importance, and its source names the vault and the host |
| Vault.ExportedIs | core/vault/export.py:135-150 | an exported row keeps its fields, the host, and the hash of its words |
| Vault.WindowIs | core/vault/export.py:127-129 | an export takes the newest fifty thousand rows |
| Vault.ExchangeConverges | core/vault/export.py:127-156 | two hosts that import each other's exports end with equal hashes |
| Vault.StoredAfter | core/vault/import_.py:106-134 | for any bundle, the hashes stored after an import are the old ones and the content hashes of the records whose digest was new, the first of each digest |
| Vault.IdempotentIff | core/vault/import_.py:106-134 | for any bundle, a second import adds nothing iff each digest is a hash of the store or of the content of a record that the first import adds; told from store and bundle |
| Vault.MalformedIsNotIdempotent | core/vault/import_.py:110-134 | a record with a wrong digest, imported alone, is added again |
| Goals.GoalManager.EnsurePrimaryGoal | core/goals/manager.py:84-115 | a live goal is returned unchanged, else one is appended |
| Goals.GoalManager.AddGoalTask | core/goals/manager.py:131-166 | the error cases in order, else one ready task appended to the goal |
| Goals.GoalManager.SetState | core/goals/manager.py:168-191 | the transition table decides; only the named task of its goal moves |
| Goals.GoalManager.SetStatus | core/goals/manager.py:193-204 | an ended goal cannot be resumed; only the named goal changes |
| Goals.EnsurePrimaryIs | core/goals/manager.py:84-115 | an active or paused goal is returned; without one, a goal with the stripped objective of 1 to 4000 characters is founded |
| Goals.AddTaskIs | core/goals/manager.py:131-166 | each error says what is wrong, and else a ready task with the cleaned texts is added to an active goal whose tasks are all completed, failed or cancelled |
| Goals.SetTaskStateIs | core/goals/manager.py:29-48 | a task that exists moves exactly when its move is permitted, and nothing else does |
| Goals.SetGoalStatusIs | core/goals/manager.py:193-204 | a goal that exists takes any status, unless it has ended with another one |
| Goals.TickCheckIs | core/goals/planner.py:119-123 | a tick asks for a proposal exactly when the goal it saw was active and has nothing unresolved |
| Goals.ValidatedIsAccepted | core/goals/planner.py:43-57 | a proposal that passes validation is never refused for its text, and is stored as validated |
| Goals.InitiativeRuntime.PlanOnce | core/goals/planner.py:119-137 | nothing is planned beside unresolved work; otherwise the proposal is added, or fails for its text only |
| Goals.InitiativeRuntime.Tick | core/goals/runtime.py:88-107 | an undisturbed tick takes the ledger where the step system takes it, and fails only for the mission, the proposer or the text |
| Goals.StepInv | core/goals/manager.py:84-204 | each operator call and each part of a tick keeps the ledger invariant and evolves it monotonically |
| Goals.RunInv | core/goals/runtime.py:88-104 | over every interleaving, ended goals and completed or cancelled tasks stay, and nothing is removed |
| Goals.LedgerGuarantees | core/goals/manager.py:84-204 | from the empty ledger: one live goal at most, `completed_at` iff COMPLETED, unresolved at most one more than reopenings |
| Goals.AtMostOneIff | core/goals/manager.py:149-175 | a step keeps "at most one unresolved" iff it does not reopen a failed one beside other unresolved work |
| Goals.AlwaysAtMostOneIff | core/goals/planner.py:119-137 | the same over whole runs of ticks and operator calls |
| Goals.TwoUnresolved | core/goals/models.py:41-45 | a run from the empty ledger on which the stronger claim fails |
| Vad.LeakIsMaxSurplus | apps/mac_agent/vad.py:76-85 | the leaky counter is the largest surplus of speech over all suffixes |
| Vad.OnsetIff | apps/mac_agent/vad.py:76-85 | recording starts exactly at the first frame at which some suffix has the surplus |
| Vad.Listen | apps/mac_agent/vad.py:50-99 | the returned audio is the slice from the pre-roll on, complete and not a frame longer; otherwise nothing was complete yet |
| Vad.RecordingBounds | apps/mac_agent/vad.py:86-95 | the slice ends in the required silence or at the cap, and is never longer than the cap or the pre-roll plus one |
| Vad.RecordWebRtc | apps/mac_agent/vad.py:26-99 | the WebRTC recorder, with stop requests obeyed, short reads skipped and a raising classifier counted as no speech |
| Vad.RecordEnergy | apps/mac_agent/vad.py:208-262 | the energy recorder, from its calibration frames and two thresholds, with stop requests obeyed |
| Vad.MedianLaw | apps/mac_agent/vad.py:225-230 | the noise floor is the mean of the two middle energies, each told by how many are louder and quieter |
| Vad.BargeIn | apps/mac_agent/vad.py:141-173 | after the warm-up, detection fires exactly at the first sustained speech, unless a stop comes first |

## Left out

- OpenStream: other callers of the pool are not interleaved with one request; interleavings are the subject of `KeyPool.LeasesNameKeys`.
- RenderStream: words are conserved only for text without `*`, `` ` ``, `#`, `-`, `+` and decimal digits, because the Markdown rules drop or rewrite those; the rules themselves are parameters.
- WrapOptimal: asks that the hanging indent does not end in the beginning of an escape sequence, because it is false otherwise (`Wrap.OptimalIff`); every caller passes blanks.
- Lone surrogates in a printed emotion or response; the round trip is about texts of Unicode characters. Streams being parsed may hold anything.
- Direct: the `repr` of a refused tool name is modelled as the name between single quotes.
- Both microphone recorders share one loop in the model; the original repeats it.
- Redis hydration and persistence of the key pool; start from arbitrary cooldowns instead.
- The native tool-call deltas of a provider and the merging of both kinds of calls; only the inline marker parser is modelled.
- Cancellation from outside, abandoned generators, and the Ollama stream.
- The approximation of the vector index (stage one is an exact pull), SQL engines, vectors and cosine arithmetic; similarities are real numbers.
- Embeddings, the secret patterns, the vault file format and its version rules.
- Registration of connectors, availability of experts, and the choice of an expert's model.
- Headings, lists and run-on-list styling beyond the laws the renderer needs.
- The presence window of workers, routers, command-line front ends, voice output and the web console.
