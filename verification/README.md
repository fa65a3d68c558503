# Verified model of the MundusX node agent

This project models the parts of the node agent that carry the most state, and proves what they promise over every
input, every run and every interleaving. `dafny verify dfyconfig.toml` checks all of it.

**Streaming, from the model's first byte to the client.** A native tool turn assembles OpenAI message deltas per call
index (`NativeStream`), streams prose at once, holds tool fragments back until the whole batch is valid and retries once
(`NativeTurn`); `TurnAnswers` says from the provider's events alone when it answers. A text turn holds back a tail of 32
characters (`TextStream`). Deltas leave the worker as hexadecimal lines among its diagnostics (`DeltaLines`, over the
UTF-8 of `Encoding`) and are posted, numbered and batched, over a lossy link (`Relay`). `TurnDelivery` compares what was
delivered with what was answered, `RemainderAlgebra` is the theory of the missing suffix, and `EndToEnd` puts the four
stages together.

**The bounded coding harness.** `BoundedLoop` is the model/tool loop with its five budgets, `LoopBudgets` what every run
of it keeps, `LoopDecisions` what each iteration decides from its collaborators' answers. `Executor` is the workspace
tools and one whole assignment, `ToolAnswers` what they answer over a whole run; `ValidatedPublishing` proves the
validate-before-publish gate. `Publishing` is the fast-forward publish, `RepositoryEdits` the compare-and-swap edits,
`RepositorySearch` the explicit-stack search and `SearchListing` what it lists, told by following names through the tree;
`Paths` are the path rules. `ControlPlane` reports an attempt under an optimistic version, `VersionAgreement` proves what
that version says and `ClaimAnswers` what the control plane hears.

**Slots and jobs.** `SlotPool` is the compare-and-swap counter as interleaved atomic steps of any number of calls;
`JobScheduler` is the refill and reap loop beside it.

**Two data cores.** `Heartbeat` is a text log that stands for a record list; `Compaction` a byte bound over UTF-8.

## How the model is built

Code that changes state step by step is a class or a method with loops, proved equal to a function of its inputs or old
state; the theorems are about those functions, and for each main operation some of them say what it answers, and when,
without those functions. What lies outside the modelled code is an input: the network is a function
from the number of attempts so far to a fate, other threads are arbitrary sequences of their own steps, and the clock, the
model, the tools' processes and the observer are arbitrary functions on a world `W` or `R` they share. Since the theorems
hold for all such functions, they hold for every behaviour of the outside.

- SHA-256 is a function parameter. Where identity of content matters it is taken as collision-free and printed in lower case (`IsDigest`); every other result holds for any function.
- JSON is not parsed. Chunks, deltas and tool inputs arrive as datatypes, or through function parameters for which only `decode(encode(x)) == x` and, for log lines, that they are one non-blank line is used.
- A Git revision is the commit it names, so a commit identifier never stands for two trees. Each Git command can run or not as an input says; the fetch and the fast-forward merge act on HEAD, working tree and object store, and other programs may do anything to the project between them. The complete diff is taken to be empty exactly when the workspace holds the base (`ShowsChanges`).
- `usize` and `u64` counters that are only compared and incremented by one are unbounded; widths are explicit where they matter (`LoopBudgets`, `SlotPool`, `Heartbeat`).
- A world that both the loop and the tools act on carries a history (`trail`, `posted`, `sent`). No code of the agent reads it; the link uses the number of requests so far to pick a fate, and old requests to deliver late.

## Where the code differs from what one would expect

Each has its exact condition and an input that shows it.

- Index gaps: `NativeStream::message` closes gaps between call indices, so a single call at index 1 is answered at place 0 and a cut relay cannot be repaired (`CutRecoveryExactly`, `GapLosesCall`).
- Output bytes: the budget check saturates while the counter wraps, so at the largest `u64` budget, and only there, the loop may report less than it produced (`AccountingExactly`, `FloodWraps`).
- Tail hold: when the model's text ends in more than 32 whitespace characters, the relayed text may hold whitespace that the answer does not (`TailHoldExactly`, `LongTailShowsSpace`).
- Files at the root: the tools resolve the parent directory for writing as well, so no file at the workspace root can be edited, nor one that is itself an allowed prefix (`FreshEditSucceedsExactly`, `RootAndPrefixFilesRefused`).
- Empty prefix list: the tools read it as no restriction, the publishing check as no permission (`ToolEditsPassExactly`, `UnrestrictedEditDenied`).
- Quoted names: Git quotes a changed path with a space, a quote, a backslash or a character outside ASCII, and the publishing check then denies what the tools have written (`ToolEditsPassExactly`, `SpacedNameDenied`).
- Rewound projects: the HEAD that is checked is not the one that is merged into, so a project that others rewind in between moves from there (`PublishIsAllOrNothing`, `RewoundProjectMoves`).
- Lost answers: when the answer to an accepted report is lost the client never catches up with the server's version, and nothing further of that attempt is recorded, not even its failure (`LostAnswerEndsRecord`, `LostTurnExample`).
- Undated heartbeats: a heartbeat whose timestamp does not parse takes all earlier ones with it and is itself dropped by the next save (`SaveRefines`, `UndatedSaveIsLost`).

## Model

| member | source | states |
|---|---|---|
| NativeStreams.NativeStream.PushCall | agents/node/src/native_stream.rs:29-44 | One fragment appends to each field of its index's entry, created on demand, up to the first malformed field; an index that is missing or at least 128 fails |
| NativeStreams.NativeStream.Push | agents/node/src/native_stream.rs:20-46 | A delta appends its text, then its fragments in order until one fails |
| NativeStreams.NativeStream.Message | agents/node/src/native_stream.rs:47-54 | The message lists the held calls in index order, without gaps |
| NativeStreams.NativeStream.Remainder | agents/node/src/native_stream.rs:55-110 | Succeeds exactly when text and every held call are field-by-field prefixes of the final message and no held index lies beyond it; the answer is exactly the missing suffixes; otherwise which of the two errors |
| RemainderAlgebra.PushSucceedsExactly | agents/node/src/native_stream.rs:20-46 | Fragments are accepted exactly when every one has an index below 128 and text or nothing in each field |
| RemainderAlgebra.PushGathers | agents/node/src/native_stream.rs:29-44 | However fragments of different calls interleave, each call ends up with exactly the concatenation of its own fragments, and no other call appears |
| RemainderAlgebra.PushAllAppend | agents/node/src/native_stream.rs:20-46 | Assembling in two parts is assembling at once |
| RemainderAlgebra.IndicesFitExactly | agents/node/src/native_stream.rs:47-54 | The assembled message accounts for the highest index exactly when the held indices are 0, 1, 2 and so on |
| RemainderAlgebra.RemainderCompletes | agents/node/src/native_stream.rs:55-110 | Pushing the remainder is accepted exactly when no non-empty final call sits at index 128 or above; it then completes text and calls, and a second remainder is the empty delta |
| RemainderAlgebra.RemainderRestoresMessage | agents/node/src/native_stream.rs:47-110 | After that the client reads the final message itself exactly when no final call is both empty and unheld |
| NativeTurns.ValidateAcceptsExactly | agents/node/src/worker.rs:2218-2278 | A batch is accepted exactly when it is empty, or was not cut off and every call has an id, a name, a JSON object for arguments, and no oversized arguments for an editing tool |
| NativeTurns.NativeTurn.ParseStream | agents/node/src/worker.rs:2285-2361 | Prose goes out chunk by chunk, fragments only after the terminal event and a valid batch; a retry sends no prose; each failure has its own error |
| NativeTurns.NativeTurn.RunAttempts | agents/node/src/worker.rs:2193-2216 | At most one retry, only for a batch rejected as recoverable and only when there is a conversation, which grows by one message |
| TurnAnswers.PushAllIs | agents/node/src/native_stream.rs:20-46 | Deltas assemble exactly when every one is sound (text or nothing, well-formed fragments below index 128), to the concatenation of their texts |
| TurnAnswers.CallsAreGathered | agents/node/src/native_stream.rs:20-54 | The message they assemble to holds one call for each index that any fragment names, in index order, each the concatenation of what its own fragments carry |
| TurnAnswers.AttemptAnswersExactly | agents/node/src/worker.rs:2285-2361 | From the provider's events alone: an attempt answers if and only if nothing before the terminal event fails, every delta assembles, a terminal event and a finish reason were given, and the batch is empty or was not cut off and is all executable, and not empty on a retry nor under `tool_calls`; the answer is the prose, the gathered calls and the last reason; each other end has its one cause |
| TurnAnswers.TurnAnswersExactly | agents/node/src/worker.rs:2193-2216 | A turn is retried exactly when there is a conversation and the first attempt brought a whole message with calls that were cut off or whose first faulty call is mendable; it answers exactly when the first attempt does, or it is retried and the second does |
| TurnDelivery.ParsesHeard | agents/node/src/worker.rs:2285-2361 | The parser's state is what an independent reading of the events up to the terminal one gives: all deltas assembled, tool parts pending, text parts sent |
| TurnDelivery.DeliveredIsAnswer | agents/node/src/worker.rs:2193-2395 | For every turn that answers, assembling every emitted delta gives exactly the returned message: first-attempt prose once, no retry prose, and only the accepted attempt's calls, all executable |
| TurnDelivery.FailedTurnReleasesNothing | agents/node/src/worker.rs:2193-2361 | A turn that ends in an error has emitted no tool call entry |
| TurnDelivery.CutRecoveryExactly | agents/node/src/native_stream.rs:20-110 | For every answered turn: every prefix of its deltas can be completed by the remainder of the final message, which is accepted and restores exactly the final state, if and only if the call indices are contiguous from 0 |
| TurnDelivery.GapLosesCall | agents/node/src/native_stream.rs:47-54 | An input that fails: one valid call at index 1 is answered, and cannot be recovered |
| TextStreams.TextRelay.ParseStream | agents/node/src/worker.rs:2405-2483 | The loop over events emits, holds back and answers as its specification has it, with each error case |
| TextStreams.ReadsInput | agents/node/src/worker.rs:2405-2462 | What is read is the concatenation of all chunk contents before the first event that ends the stream, with the last finish reason |
| TextStreams.AnswersExactly | agents/node/src/worker.rs:2463-2483 | From that concatenation: the stream answers if and only if no failing event comes first, the trimmed text is not empty and a terminal event or a finish reason was seen; the answer is the trimmed text, marked as truncated exactly when the last reason is `length`; each error has its one cause |
| TextStreams.LagIsBounded | agents/node/src/worker.rs:2440-2462 | After every event fewer than 160 characters of the text are left unsent, whatever the timing |
| TextStreams.UndueSendsBursts | agents/node/src/worker.rs:2440-2462 | While the timer is never due, nothing shorter than 128 characters goes out before the end |
| TextStreams.EveryStreamHoldsTail | agents/node/src/worker.rs:2405-2462 | For every chunking and timing the emitted text is a prefix of the left-trimmed input that leaves at least 32 characters until the end |
| TextStreams.FailureShowsPrefix | agents/node/src/worker.rs:2405-2483 | A failed stream has shown only such a prefix |
| TextStreams.SuccessShowsAnswer | agents/node/src/worker.rs:2463-2483 | On success the trimmed text is a prefix of the emitted text, and anything more is whitespace |
| TextStreams.TimingKeepsAnswer | agents/node/src/worker.rs:2440-2462 | Timing never changes what was read or how the stream ended |
| TextStreams.TailHoldExactly | agents/node/src/worker.rs:2463-2483 | The emitted text equals the answer under every timing if and only if the input ends in at most 32 whitespace characters |
| TextStreams.LongTailShowsSpace | agents/node/src/worker.rs:2440-2483 | One chunk of `x` and 33 spaces: a space is relayed that the answer does not have |
| Encoding.DecodeEncoded | agents/node/src/worker.rs:3861-3862 | Decoding UTF-8 (section 3 of RFC 3629) inverts encoding, for every text |
| Encoding.EncodeDecoded | agents/node/src/worker.rs:3861-3862 | Only the encoding of a text decodes to it |
| Encoding.CutReadsExactly | agents/node/src/worker.rs:3861-3862 | The first bytes of an encoded text decode if and only if they end where a character does, and then to those characters |
| DeltaLines.HexRoundTrip | agents/node/src/worker.rs:3714 | Lower-case Base 16 (section 8 of RFC 4648) decodes to the same bytes |
| DeltaLines.DeltaLineCarries | agents/node/src/worker.rs:3709-3717 | A delta's line is one line whatever the delta holds, and carries exactly that delta |
| DeltaLines.StderrReader.Run | agents/node/src/worker.rs:3849-3876 | The reader loop sends on the deltas of the input in order and keeps every other line as it came |
| DeltaLines.RecoversExactly | agents/node/src/worker.rs:3709-3876 | For every interleaving of delta lines and whole diagnostic lines, deltas and diagnostic bytes are recovered exactly if and only if no diagnostic line reads as a delta line |
| DeltaLines.UnmarkedDiagnosticsKeepDeltas | agents/node/src/worker.rs:3849-3876 | So diagnostics that do not begin with the marker, in any interleaving, leave every delta and every diagnostic byte in place |
| DeltaLines.CutStreamIsHeard | agents/node/src/worker.rs:3849-3876 | A stream that breaks off anywhere is heard as its whole lines, and then whatever the broken line reads as |
| DeltaLines.CutLineReadsExactly | agents/node/src/worker.rs:3858-3869 | A delta's line that breaks off reads as a delta if and only if it does so after the marker at the end of a character, and then as the beginning of the delta |
| DeltaLines.CutStreamBegins | agents/node/src/worker.rs:3849-3876 | Wherever the stream breaks off, the deltas heard are the first ones written, and at most a part of the next |
| Relays.Relay.CoalesceStreamDeltas | agents/node/src/main.rs:1623-1638 | A batch is one JSON piece, or text taken while it was below 4096 bytes and more was waiting, and nothing less |
| Relays.Relay.PostStreamDelta | agents/node/src/main.rs:1595-1621 | Every attempt repeats the same request; giving up means a failure that may not be retried, or three unheard attempts |
| Relays.Relay.RelayJobDeltas | agents/node/src/main.rs:1640-1671 | Over a link that may lose requests and answers and deliver old requests late: numbers are applied 1 to n in order, each once, no delta is ever refused, and the relay ends with everything applied or because the link failed for good; it rides out retryable failures unless three in a row |
| Relays.Relay.DeliverLate | agents/node/src/main.rs:1640-1671 | Late and repeated deliveries of earlier requests, in any order and after the end too, keep all of that |
| Relays.RetriesRepeat | agents/node/src/main.rs:1595-1621 | Two attempts with one number carry the same payload, and there are at most three |
| Relays.AppliedIsPrefix | agents/node/src/main.rs:1640-1671 | The applied text is a prefix of the produced text, and all of it once everything is delivered |
| Relays.JsonNeverMerged | agents/node/src/main.rs:1623-1630 | In a stream of JSON values, of which the last may have been cut short, each applied delta is one produced value |
| EndToEnd.NativeTurnReachesClient | agents/node/src/main.rs:1640-1671 | Turn, delta lines and relay together: at every moment, and wherever the worker stops, the control plane has applied exactly the first deltas of the turn and at most a part of the next, and for contiguous indices the remainder of the final message completes them to exactly that message |
| EndToEnd.TextReachesClient | agents/node/src/main.rs:1640-1671 | The same for text: what is applied is always the beginning of what all chunks before the terminal event say together, left-trimmed |
| BoundedLoops.RunBoundedLoop | agents/node/src/harness_loop.rs:129-248 | The loop terminates for every collaborator and computes what its step function says |
| BoundedLoops.TakeToolResult | agents/node/src/harness_loop.rs:219-247 | Checking, metering, comparing and repairing of one result, in that order |
| LoopDecisions.AdvanceBegins | agents/node/src/harness_loop.rs:157-210 | From what the collaborators answer in an iteration: the request goes to the tools if and only if the turn is in time and recorded, a call is left, the operation is allowed and a side-effecting one has a usable key; the loop completes exactly on a recorded summary that is not blank and fits; budget, operation, key and cancellation exits have exactly these causes |
| LoopDecisions.AdvanceContinues | agents/node/src/harness_loop.rs:211-247 | A result is taken in if and only if it was answered and recorded, matches its request, carries a SHA-256 and fits; the loop goes on exactly when it was and neither a stall nor a failed validation beyond the repairs ends it; a collaborator's code is reported exactly when it failed |
| LoopDecisions.EveryRunIsDecided | agents/node/src/harness_loop.rs:157-248 | Every run is a sequence of such iterations from its start to its end |
| LoopBudgets.RunKeeps | agents/node/src/harness_loop.rs:157-248 | What one iteration keeps, a whole run keeps, and every run ends |
| LoopBudgets.BudgetsAndAuthority | agents/node/src/harness_loop.rs:157-210 | Tool calls never exceed turns nor their budget, turns never theirs, and every executed request was allowed and, if side-effecting, had a non-blank key of at most 160 bytes |
| LoopBudgets.StopsAtFirstStall | agents/node/src/harness_loop.rs:227-237 | The loop stops for lack of progress exactly when the last four accepted results share a digest, and no earlier four did |
| LoopBudgets.RepairsWithinLimit | agents/node/src/harness_loop.rs:238-244 | Repairs count the failed validations and exceed their limit, by one, exactly on the retry-exhausted exit |
| LoopBudgets.TurnsBeginInTime | agents/node/src/harness_loop.rs:157-176 | Every run is a number of iterations of which all but the last begin uncancelled, within wall time and turn budget, and the turns it reports are the iterations that did |
| LoopBudgets.EveryRunConcludes | agents/node/src/harness_loop.rs:157-255 | Every run ends, with a summary that is not blank if it completed and a code exactly if it did not: partial for an exhausted budget, a stall or exhausted repairs, cancelled for a cancellation, and failed for every other code |
| LoopBudgets.AccountingExactly | agents/node/src/harness_loop.rs:184-227 | Reported bytes equal those of accepted results and summary, within budget, for every run if and only if the budget is not the largest `u64` |
| LoopBudgets.ReportsWhatItProduced | agents/node/src/harness_loop.rs:184-227 | The same for every world of collaborators below that budget |
| LoopBudgets.EveryRunKeeps | agents/node/src/harness_loop.rs:157-248 | All of these at once, with accepted results answering the executed requests one for one in order |
| Paths.NormalizeIsNormal | agents/node/src/harness.rs:526-546 | An accepted path has components, none of them empty, `.` or `..` |
| Paths.NormalizeExactly | agents/node/src/harness.rs:526-546 | Any text, as pieces between slashes, is accepted if and only if the first piece is neither empty nor a dot and no piece is two dots; its components are then exactly the other pieces that are neither empty nor a dot, in order |
| Paths.NormalizeJoin | agents/node/src/harness.rs:526-546 | Printing a normal path and reading it back gives the path |
| RepositoryEdits.RepositoryToolRunner.ApplyReplacement | agents/node/src/harness_tools.rs:198-301 | One edit with every refusal in order, that of its parent directory included, as a change of tree and key record |
| RepositoryEdits.DigestIdentifies | agents/node/src/harness_tools.rs:887-897 | Two inputs hash alike exactly when they are the same edit, a missing and an empty expected digest being the same |
| RepositoryEdits.FreshEditSucceedsExactly | agents/node/src/harness_tools.rs:198-301 | A fresh key's edit succeeds if and only if key and content are acceptable, the path has a directory part that is itself allowed and free of other files, the file system goes along, and the current content is named |
| RepositoryEdits.FreshEditAnswers | agents/node/src/harness_tools.rs:235-301 | A fresh success answers the digest and size of the file now in the tree, the digest of the file it replaced or none, and the path as given |
| RepositoryEdits.AnsweredDigestNamesFile | agents/node/src/harness_tools.rs:235-301 | While the written file is unchanged, a later edit that names the answered digest under a fresh key passes the naming check, whatever happened elsewhere |
| RepositoryEdits.EditRefusesExactly | agents/node/src/harness_tools.rs:198-262 | Each refusal has exactly its cause: the key, the content, a conflicting earlier edit, an expected digest that is missing or not that of the file, and otherwise the path |
| RepositoryEdits.RootAndPrefixFilesRefused | agents/node/src/harness_tools.rs:256-262 | Two inputs that are refused for that: a file at the workspace root, and a file that is itself the allowed prefix |
| RepositoryEdits.WritesOnlyWhatWasNamed | agents/node/src/harness_tools.rs:235-301 | A fresh success writes one allowed file and replaces only the content the caller named; every other call changes nothing |
| RepositoryEdits.KeyWritesOnce | agents/node/src/harness_tools.rs:214-234 | Over any sequence of calls a key writes at most once: later uses leave the tree alone, replay the stored result for the same edit and answer the conflict error to any other acceptable one |
| RepositorySearch.Search | agents/node/src/harness_tools.rs:107-196 | The explicit stack terminates on every finite tree and answers what the recursive walk answers |
| RepositorySearch.ScanDirectory | agents/node/src/harness_tools.rs:137-194 | One directory's entries: files are scanned in order, open subdirectories go on the stack, a link or an unreadable entry ends the search |
| RepositorySearch.ScanLines | agents/node/src/harness_tools.rs:172-192 | The scan of one file takes matching lines up to the first that exceeds a budget |
| RepositorySearch.SearchIsLongestPrefix | agents/node/src/harness_tools.rs:133-195 | The answer is the longest prefix of the recursive match list that fits both budgets, or the first fault before a match that does not fit |
| RepositorySearch.QuietTreesAnswer | agents/node/src/harness_tools.rs:133-195 | On a readable tree without symbolic links every valid search answers |
| SearchListing.AnswersAreFound | agents/node/src/harness_tools.rs:137-195 | Every answered match is line i+1 of a readable file of at most two megabytes, reached through readable directories none of which is named `.git`; the line holds the query, the match has its path and excerpt, and matches come in order: files first, then subdirectories from the last to the first |
| SearchListing.QuietSearchAnswersAll | agents/node/src/harness_tools.rs:133-195 | On a readable tree without links there is one list of every such line, each once and in that order, and the answer is its longest beginning within both budgets |
| SearchListing.ExcerptShows | agents/node/src/harness_tools.rs:847-870 | A line that holds a secret marker in any case is shown as redacted, any other by its first 500 characters |
| SearchListing.SearchRefusesExactly | agents/node/src/harness_tools.rs:107-132 | A search is turned down exactly for a blank or oversized query, limits out of range, or a root that is no directory |
| Publishing.SourceRepository.PublishValidatedChanges | agents/node/src/harness.rs:261-364 | The publish with its checks in order, then commit, fetch and fast-forward merge, with other programs acting on the project before the fetch and before the merge |
| Publishing.SourceRepository.MergeFastForward | agents/node/src/harness.rs:358-361 | The fast-forward merge: refused for an unknown commit, a HEAD that is no ancestor of it or a touched file that was changed, nothing to do for a commit already in the history, otherwise HEAD and the touched files move |
| Publishing.PublishIsAllOrNothing | agents/node/src/harness.rs:261-364 | Whatever others do in between, HEAD moves if and only if every check and command went through, the commit is still in the store, HEAD is then the recorded base or one of its ancestors and no touched file was changed; it moves to one child of the base, and otherwise the project is as others left it |
| Publishing.PublishAnswersExactly | agents/node/src/harness.rs:261-364 | Each answer of a publish by its cause, from an unowned workspace to a merge that is refused; success exactly when every check and command goes through and the merge fast-forwards or has nothing to do |
| Publishing.PublishTouchesOnlyChanges | agents/node/src/harness.rs:358-361 | Against whatever others do, a publish that moves HEAD changes exactly the files in which HEAD and the workspace differ, to what the workspace holds, and every other file stays as others left it |
| Publishing.AlonePublishes | agents/node/src/harness.rs:261-364 | When nobody else acts, the project moves from the recorded base only and ends clean at the workspace tree, or keeps HEAD and files |
| Publishing.RewoundProjectMoves | agents/node/src/harness.rs:313-361 | A project that others rewind between the check of its HEAD and the merge moves all the same, from whatever ancestor of the base they chose |
| Publishing.RewoundExample | agents/node/src/harness.rs:313-361 | One such project of two commits |
| Publishing.PathCheckExactly | agents/node/src/harness.rs:272-293 | The check on the text of `git status` lets a change through exactly when Git prints every changed path as it is and each extends an allowed prefix component by component |
| Publishing.EditsStayAllowed | agents/node/src/harness.rs:460-474 | Any edits through the tools change allowed paths only and delete nothing |
| Publishing.ToolEditsPassExactly | agents/node/src/harness.rs:272-293 | Such edits pass the publishing check if and only if a prefix is named and Git prints every changed path as it is |
| Publishing.SpacedNameDenied | agents/node/src/harness.rs:272-293 | With `src` allowed, `src/a b` is written by the tools and then denied by the check |
| Publishing.UnrestrictedEditDenied | agents/node/src/harness.rs:272-293 | With no prefix named, `src/a` is written by the tools and then denied by the check |
| Executors.WorkspaceTools.Execute | agents/node/src/harness_executor.rs:100-257 | Every operation with its errors, on tree, key record, pass flag and the rest of the world |
| Executors.WorkspaceTools.Patch | agents/node/src/harness_executor.rs:150-163 | The pass is revoked before anything of the patch is looked at |
| Executors.WorkspaceTools.Validation | agents/node/src/harness_executor.rs:164-224 | The flag becomes whether the validation passed, once it ran, and may be followed by a failing diff |
| Executors.ExecuteHarnessAssignment | agents/node/src/harness_executor.rs:259-362 | One assignment from preparation to publishing and its report, with every early return |
| ValidatedPublishing.ToolCalls | agents/node/src/harness_executor.rs:100-257 | A patch attempt always revokes an earlier pass, reads keep tree and flag, an answered validation sets the flag to its verdict |
| ToolAnswers.EveryCallIsAnswered | agents/node/src/harness_executor.rs:100-257 | A read answers what the workspace says of its tree; a patch needs an input that can be read and a key, and answers its edit or that edit's code; a validation runs exactly under a profile that is allowed and configured, and answers its verdict and diff; the result has succeeded exactly for a passing validation or an output without a status |
| ToolAnswers.EveryRunIsAnswered | agents/node/src/harness_executor.rs:284-312 | Over a whole run each step answers so on the tree and key record that the step before it left, from the base on, and what the loop takes in are those answers in order |
| ToolAnswers.RunKeyWritesOnce | agents/node/src/harness_executor.rs:150-163 | Over a whole run, validations included, once a patch has succeeded no other patch under its key changes the tree |
| ToolAnswers.AssignmentAnswersExactly | agents/node/src/harness_executor.rs:259-362 | Each answer of an assignment by its cause: a run that did not fail is refused for want of validation if and only if it was to persist a change that its history does not end by validating; a report carries the outcome, the digest and byte length of the diff, the changed paths and the published commit |
| ValidatedPublishing.RunHistory | agents/node/src/harness_executor.rs:284-312 | Over a whole run the tree changes only in `patch.apply` and `validation.run` steps, and every step was authorised |
| ValidatedPublishing.PublishesExactlyValidated | agents/node/src/harness_executor.rs:259-362 | HEAD moves if and only if the run was to persist and completed, the last patch or validation of its history is a passing validation that left the published tree, the project was found clean at the base, evidence, path check and Git go through, and what others left before the merge still fast-forwards |
| ValidatedPublishing.CompletedPatchIsPublished | agents/node/src/harness_executor.rs:330-361 | A completed persisted run with a patch is never reported without a commit of the validated tree that is in the project's history |
| ValidatedPublishing.EditedRunPassesPathCheckExactly | agents/node/src/harness_executor.rs:342-350 | When validations only read, a whole run's changes pass the publishing path check if and only if a prefix is named and Git prints every changed path as it is |
| ControlPlanes.ControlPlaneObserver.PostEvidence | agents/node/src/harness_client.rs:634-650 | One request under the client's version, which follows only when the acceptance is heard |
| ControlPlanes.ControlPlaneObserver.ModelTurn | agents/node/src/harness_client.rs:510-550 | A turn polls for cancellation and then records itself |
| ControlPlanes.ControlPlaneObserver.ToolCall | agents/node/src/harness_client.rs:552-605 | A tool call records itself, and `validation.run` its verdict besides |
| ControlPlanes.ClaimClient.Transition | agents/node/src/harness_client.rs:608-632 | A stage change: it succeeds only from agreement and takes over the version the server answers with, so that client and server agree one higher; otherwise the client's version stays |
| ControlPlanes.ClaimClient.PostEvidence | agents/node/src/harness_client.rs:634-650 | The patch evidence, after which the client counts on by itself |
| ControlPlanes.ClaimClient.ExecuteClaim | agents/node/src/harness_client.rs:328-500 | The whole attempt: stages, run, evidence and ending, with every early return and the code sent with a failed stage |
| ClaimAnswers.TurnObservedExactly | agents/node/src/harness_client.rs:510-550 | A turn is recorded by one request exactly when the control plane says to go on, and let through exactly when the acceptance is heard; a cancellation refuses it with its own code and makes no request |
| ClaimAnswers.CallObservedExactly | agents/node/src/harness_client.rs:552-605 | A call is recorded by one request, and a validation whose record was heard by a second that says passed exactly when the result has succeeded |
| ClaimAnswers.CancellationEndsRun | agents/node/src/harness_client.rs:510-528 | In whichever iteration the control plane cancels, the run ends there with that code, and neither a tool is called nor a request made |
| ClaimAnswers.ClaimEndsEarlyExactly | agents/node/src/harness_client.rs:328-362 | A claim of another runner or without its repository makes no request, a cancelled one makes one, the cancelled stage; the project is touched only after both opening stages are heard |
| ClaimAnswers.FaithfulEnding | agents/node/src/harness_client.rs:419-500 | On a link that loses nothing the last requests are what the assignment came to: failed with the code of its refusal, validating and failed with the code of its outcome, or validating, the patch if there is one, and succeeded |
| VersionAgreement.FaithfulAttempt | agents/node/src/harness_client.rs:328-605 | On a link that loses nothing every request carries exactly the server's version and is accepted; the requests are the opening stages, one for each turn, one more for each answered tool call, two for an answered validation, and the ending the outcome calls for |
| VersionAgreement.SucceededOnlyFromCompleted | agents/node/src/harness_client.rs:431-500 | Over every link the server accepts consecutive versions, and the succeeded stage only last, from a completed loop whose patch, if it was to be kept, is in the project's history |
| VersionAgreement.LostAnswerEndsRecord | agents/node/src/harness_client.rs:328-650 | Over every link and run, an attempt ends with client and server at one version if and only if no answer to a request that arrived was lost; otherwise the first such request is the last one accepted, and every later one is stale |
| VersionAgreement.LostTurnExample | agents/node/src/harness_client.rs:510-550 | Attempts that lose only the answer to their first recorded turn: three requests are accepted, and not even the failure is recorded |
| SlotPools.SlotPool.TryAcquire | agents/node/src/local_api.rs:60-80 | The exchange loop, with other threads and spurious failures between its steps, is one interleaving of the atomic steps and ends with a permit or a refusal |
| SlotPools.SlotPool.Release | agents/node/src/local_api.rs:84-88 | Dropping a permit is one atomic subtraction |
| SlotPools.AlwaysSound | agents/node/src/local_api.rs:34-88 | In every interleaving of any number of calls the counter is the number of live permits and never exceeds the capacity asked for, or one if that was zero |
| SlotPools.ReleaseNeverUnderflows | agents/node/src/local_api.rs:84-88 | The wrapping subtraction never wraps |
| SlotPools.RefusedOnlyWhenFull | agents/node/src/local_api.rs:60-80 | A call that got no permit had begun when all of them were live |
| SlotPools.UndisturbedCallExactly | agents/node/src/local_api.rs:60-88 | After any interleaving a call that is not disturbed gets a permit if and only if one is free, and dropping it puts the pool back as it was |
| SlotPools.RepeatedOnlyWhenMoved | agents/node/src/local_api.rs:60-80 | An exchange that does not fail spuriously has to be repeated only when another call moved the counter meanwhile |
| JobSchedulers.JobLoop.ReapFinishedJobs | agents/node/src/main.rs:1838-1848 | Swap-removal in place joins exactly the finished threads and keeps exactly the others |
| JobSchedulers.JobLoop.Refill | agents/node/src/main.rs:1885-1895 | There are never more threads than slots, each thread runs the job claimed for its permit, every permit taken is handed to a thread or given back, and slots stay open only when the pool refused or no job came |
| HeartbeatLogs.HeartbeatLog.SaveHeartbeat | agents/node/src/storage.rs:196-215 | On the records the file stands for, a save keeps all earlier ones or none as their dates have it, and the saved heartbeat is what is loaded next |
| HeartbeatLogs.HeartbeatLog.LoadLastHeartbeat | agents/node/src/storage.rs:248-268 | Loading takes the last non-blank line, else the agent state, else nothing |
| HeartbeatLogs.LoadedExactly | agents/node/src/storage.rs:248-268 | A heartbeat is loaded if and only if it is what the last line that is not blank reads as or, where there is no such line, what the agent state reads as; nothing is loaded exactly when both are missing, and text that cannot be read is an error |
| HeartbeatLogs.SaveRefines | agents/node/src/storage.rs:218-246 | Whatever text the log holds, saving acts on the record list it stands for: all earlier records stay, or none does |
| HeartbeatLogs.LogHoldsLatestRun | agents/node/src/storage.rs:196-246 | From no file, after any saves, the text stands for exactly the saves since the last reset, each within the time to live of the first, and that reset had its reason |
| HeartbeatLogs.LatestIsLoaded | agents/node/src/storage.rs:196-268 | Whatever the log held, the heartbeat saved last is the one loaded |
| HeartbeatLogs.UndatedSaveIsLost | agents/node/src/storage.rs:218-246 | An undated save between two dated ones wipes out the first and is wiped out by the second |
| Compactions.CompactTranscript | packages/agent-core/src/context.rs:8-28 | The scan for a character boundary takes at most three steps |
| Compactions.BoundariesExactly | packages/agent-core/src/context.rs:20-22 | Byte boundaries of UTF-8 text are exactly the places between its characters |
| Compactions.KeepsLongestSuffix | packages/agent-core/src/context.rs:17-27 | A compacted transcript is the marker and the longest whole-character suffix that fits, at most three bytes short of the limit |
| Compactions.CompactingTwiceIsOnce | packages/agent-core/src/context.rs:8-28 | The bound, at least 1024 bytes, holds always; exactly a transcript over it is compacted, to a text that begins with the marker, and compacting again changes nothing |

## Left out

- HTTP, TLS, timeouts, signing and the JSON text itself: replies are inputs and messages are datatypes.
- Process control (spawning, groups, resource limits, containers, runtimes and health probes): a validation is an arbitrary result that may leave any tree behind. A validation that rewrites the workspace's own Git metadata is not modelled.
- File-system effects: canonicalisation, symbolic links on write, partial writes and crashes. A successful edit is one step, although the code removes the old file before it renames the new one.
- Concurrent `apply_replacement` calls, which the harness never makes: the code releases its lock between the key check and the insertion.
- Files that Git ignores and the workspace's `.git` directory: the tree of the model is what `git add --all` stages.
- Git's index apart from the working tree: a file of the project that differs from HEAD is one that a merge touching it refuses.
- Removal of the workspace after a run: `execute_harness_assignment` returns before it on two error paths.
- The order in which a directory lists its entries: the code sorts them by path, the model takes the sorted list.
- Non-streaming native turns, prompts, error texts and the wording of the retry message.
- The capacity arithmetic and capability tables of `main.rs` and `recommended_parallel_slots`: pure clamps and thresholds that say little beyond their bodies.
- The outer loop of `process_pending_jobs`, its heartbeats and configuration reloads: its two inner loops are modelled.
- The local lease manager: a renewal error forgets the lease, so no release property holds of it.
- Claiming a task, resolving its repository and the polling endpoint's own state: found or not, as an input says.
- Executors.ExecuteHarnessAssignment: the changed paths are taken as `git status` gives them; that they are the lines past their third character is not modelled.
- Relays.ControlPlane.Receive: the control plane is not in the repository; it is taken to accept the next number and to report earlier ones as duplicates.
- ControlPlanes.ClaimClient.ExecuteClaim: the texts of the errors it returns are not kept, only that it returns one.
- SlotPools.SlotPool.TryAcquire: other threads act between its steps a finite number of times, as a run that ends has it; nothing bounds the weak exchange's spurious failures.
