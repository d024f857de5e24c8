# Verification models

Models, in Dafny, of the parts of this repository whose correctness is hard to see, with proofs of what they are meant
to guarantee. Each module states what one component promises over all inputs, runs or interleavings.

| module | component |
|---|---|
| `SseLines`, `SseEvents`, `SseStandard` | the incremental SSE decoder of the Python SDK, and its standard |
| `Interrupt`, `SharedResume` | replay of a node on every resume, and one resume value among several tasks |
| `SyncQueue`, `Futures` | the runner's blocking queue, and the chaining of futures across event loops |
| `Configs` | merging of runnable configs |
| `DeltaWalk` | recovery of delta channels from stored checkpoints |
| `Ignore`, `UvPaths`, `UvCopy`, `UvGraph`, `UvSources`, `UvPlanner` | the uv workspace planner of the CLI |
| `Versions` | selection of a published API version |
| `Breaker` | circuit breaker over retry in the sales agent |
| `AgentPolicy`, `AgentAds`, `AgentCourse`, `AgentRun`, `AgentTurn`, `Ranking` | what the sales agent may do, ask and spend |
| `Trend`, `Aggregate` | its trend line and its aggregation of sales |
| `Prelude` | datatypes and sequence helpers |

Objects that the source updates in place are classes, and its loops are loops; each such method is proved against a
function on values, about which the properties are then proved. Protocols of threads and callbacks are step relations.
Money, times and measurements are real numbers. Clocks, answers of the network, random ids and text patterns are
parameters. `dafny verify dfyconfig.toml` checks the project.

## Where the code and its description part

- SSE: the client differs from sections 9.2.5 and 9.2.6 of the HTML Living Standard in six ways, and
  `SseStandard.LinesAgreeIff` and `SseStandard.BodyAgreesIff` show that there is no other: it joins several data lines
  without LF; drops an unnamed block whose data is empty; reports a named one without data, with or without data
  lines; drops an unnamed block whose data reads as null; dispatches an unfinished last block; and reads past the
  first line behind a byte order mark (`SseStandard.OrderMark`).
- SSE: a CR followed by an empty line that ends in LF reads as one CRLF, so a text that mixes line ends in that way
  cannot be read back (`SseLines.SplitRender`).
- Interrupts: a single value is said to resume the next interrupt, but is not removed from the checkpoint when used,
  so in a node that pauses again it answers the next question, too, when the graph is invoked again without one, or
  with one addressed by a resume map (`Interrupt.AnsweredAsGivenIff`).
- Interrupts: within one invocation it can answer twice, exactly because a task called after another was saved looks
  for it in a copy of the pending writes, which tasks of subgraphs do not (`SharedResume.AnswersOnceIff`); and with
  several interrupts pending it is refused only if two of them belong to tasks never answered before
  (`SharedResume.OpenWhomIff`).
- Queue: a thread in `wait` consumes a notification without taking an item, so a thread in a blocking `get` can sleep
  on beside a free item (`SyncQueue.LostWakeup`); this cannot happen exactly under the condition of
  `SyncQueue.NeverStuckIff`.
- Future chaining: a cancellation is passed on without asking whether the source's loop is closed, which raises if it
  is, and the check for the destination's loop leaves a window; a callable of threads that raises StopIteration leaves
  an asyncio destination pending where asyncio refuses it, up to Python 3.11; later versions replace it by a
  RuntimeError (`Futures.NeverFaultsIff`, `Futures.ChainDelivers`).
- Delta channels: an old plain value `true` cannot be told from a snapshot (`DeltaWalk.LegacyTrue`).
- Breaker: only integration errors count; other exceptions get through a half-open circuit without limit
  (`Breaker.OtherUnlimited`).
- uv workspaces: a member nested in a package of the closure, but not itself in it, is copied along with that package,
  although its paths are not rewritten (`UvCopy.MemberCopyIsRewritten`).
- uv workspaces: a members pattern with `..` finds packages outside the project root; a target that reaches one ends
  in a ValueError and not in one of the planner's own errors (`UvPlanner.PlannedPaths`).
- Ignore files: the hints take a literal negation as a path from the root, while the ignore patterns are git's, for
  which a name alone matches at any depth and a directory with all that is below it. A file that is re-included in
  that way below an ignored directory is not copied (`UvCopy.CoveredIff`, `UvCopy.DeepReincludeMissed`).
- Aggregation: a sale made on the last day of the window is in the gross revenue but not in the daily series
  (`Aggregate.EndDayIsOutside`).
- Configs: grouping shows in a merge of three exactly when `lc_versions` mixes mappings and other values
  (`Configs.ThreeConfigs`).
- Versions: releases are compared as tuples, so 1 comes before 1.0, which PEP 440 holds equal
  (`Versions.PaddedOrderIff`).
- Agent: level L1 is said never to execute, yet asks about a refund above the limit and then requests it
  (`AgentTurn.RecommendExecutesIff`). No code in the repository proposes a refund; the policy and the executor provide
  for it.
- Agent: the limit on refunds is compared with the value in the payload, while the request names the transaction alone
  (`AgentTurn.CallsAreOrdered`).
- Agent: an ambiguous reply is said to reject what it does not approve, yet any free text that contains an id approves
  that action (`AgentRun.NamedIdApproves`).
- Agent: a failing action is said to be isolated while the others go on, yet an exception outside the agent's own
  classes leaves the node, and all results with it (`AgentRun.ResultsIff`).

## Model

| member | source | states |
|---|---|---|
| `SseLines.BytesLineDecoder.Decode` | libs/sdk-py/langgraph_sdk/sse.py:29-66 | one chunk: what it returns, and the start of a line and the CR it keeps, stand for the whole text read so far, whatever comes next |
| `SseLines.BytesLineDecoder.Feed` | libs/sdk-py/langgraph_sdk/sse.py:42-66 | the same for the part of `decode` behind the treatment of a trailing CR |
| `SseLines.BytesLineDecoder.Flush` | libs/sdk-py/langgraph_sdk/sse.py:68-75 | delivers exactly what was kept and leaves the decoder empty |
| `SseLines.LinesAfterScan` | libs/sdk-py/langgraph_sdk/sse.py:20-23 | the part of a text that has been read for good can be split without seeing what follows, except after a final CR followed by LF |
| `SseLines.IterLinesRaw` | libs/sdk-py/langgraph_sdk/sse.py:151-157 | chunk invariance: however a body is cut, the lines are those of `splitlines` on the whole body |
| `SseLines.SplitRender` | libs/sdk-py/langgraph_sdk/sse.py:20-23 | printing lines with LF, CR or CRLF ends and splitting again gives the same lines if and only if no CR is followed by an empty line ending in LF |
| `SseLines.SplitCount` | libs/sdk-py/langgraph_sdk/sse.py:20-23 | a printed text is never read as more lines than were printed, and as fewer when it is ambiguous |
| `SseLines.LinesAreClean` | libs/sdk-py/langgraph_sdk/sse.py:20-23 | no delivered line contains a terminator |
| `SseEvents.SSEDecoder.Decode` | libs/sdk-py/langgraph_sdk/sse.py:91-139 | one line: which part is dispatched, and the fields afterwards, only the last id surviving a dispatch |
| `SseEvents.PartsConcat` | libs/sdk-py/langgraph_sdk/sse.py:91-139 | decoding a list of lines in two pieces, the state carried over, is decoding it in one |
| `SseEvents.StreamParts` | libs/sdk-py/langgraph_sdk/_sync/http.py:257-278 | the client's loop, its final empty line and its dropping of unnamed parts without data or with null included: the parts it yields depend on the body and not on how it was cut into chunks |
| `SseEvents.AfterLastId` | libs/sdk-py/langgraph_sdk/sse.py:128-132 | the last id after any lines is the last id field free of NUL, or else the id carried in |
| `SseEvents.BlockIndependence` | libs/sdk-py/langgraph_sdk/sse.py:94-114 | what is dispatched behind an empty line depends on the earlier text through the last id alone |
| `SseEvents.RoundTrip` | libs/sdk-py/langgraph_sdk/sse.py:29-139 | a list of messages, printed with any unambiguous line ends and cut anywhere, is received as the same messages in order, ids carried forward |
| `SseEvents.UniformEnds` | libs/sdk-py/langgraph_sdk/sse.py:29-75 | line ends of one kind throughout are never ambiguous |
| `SseEvents.DataJoin` | libs/sdk-py/langgraph_sdk/sse.py:126-127 | data values are glued together without LF, which is the join of section 9.2.6 of the HTML Living Standard if and only if there is at most one |
| `SseEvents.FieldParsed` | libs/sdk-py/langgraph_sdk/sse.py:116-122 | a line is cut at its first colon, with one leading space of the value dropped and no more; without a colon it is all name |
| `SseEvents.EmptyDataDispatch` | libs/sdk-py/langgraph_sdk/sse.py:94-107 | where the decoder holds no data it dispatches exactly when it holds a name or a retry time or remembers an id; the client drops the part exactly when it is unnamed |
| `SseStandard.StandardBlock` | libs/sdk-py/langgraph_sdk/sse.py:91-110 | the standard's events for a finished block: none without a data line, else one with the data lines joined by LF |
| `SseStandard.ClientBlock` | libs/sdk-py/langgraph_sdk/_sync/http.py:257-278 | the client's part for a finished block, in terms of the values in it and the id carried in |
| `SseStandard.BlockAgreesIff` | libs/sdk-py/langgraph_sdk/sse.py:91-139 | a finished block gives the same under both if and only if it has no data line and no name, or one data line that is not empty and, in an unnamed block, does not read as null |
| `SseStandard.LinesAgreeIff` | libs/sdk-py/langgraph_sdk/_sync/http.py:257-278 | a list of lines gives the same events under both if and only if every finished block does and the client dispatches no unfinished one; disagreements never cancel out |
| `SseStandard.BodyAgreesIff` | libs/sdk-py/langgraph_sdk/_sync/http.py:257-278 | the same for every body without byte order mark, however it is cut |
| `SseStandard.OrderMark` | libs/sdk-py/langgraph_sdk/sse.py:119-137 | behind a byte order mark, which section 9.2.5 drops, the client reads past the whole first line |
| `SseStandard.OrderMarkAgreesIff` | libs/sdk-py/langgraph_sdk/sse.py:119-137 | so with a byte order mark the condition is on the other lines, provided the first says nothing |
| `SseStandard.OrderMarkBlock` | libs/sdk-py/langgraph_sdk/sse.py:119-137 | with any first line behind the mark, the client reads its block without that line and the standard with it |
| `SseStandard.MarkedDataDisagrees` | libs/sdk-py/langgraph_sdk/sse.py:119-137 | a data line behind the mark whose block has more data always makes a difference |
| `SseStandard.MarkedBlockSame` | libs/sdk-py/langgraph_sdk/sse.py:119-137 | where both report that block and agree on the body, the line behind the mark changed neither name nor id nor data |
| `SseStandard.AccidentalAgreement` | libs/sdk-py/langgraph_sdk/_sync/http.py:257-278 | an input on which a lost first block and an unfinished last one make up for each other |
| `Interrupt.Scratchpad.Interrupt` | libs/langgraph/langgraph/types.py:910-934 | one call: answered from the stored values, from a pending resume value that is then consumed and stored, or not at all; the assertion fails only for a pending value behind a gap |
| `Interrupt.Invoke` | libs/langgraph/langgraph/types.py:910-934 | one invocation, started over from the beginning, ends as one direct run on all answers it can use, never in a failed assertion, and stores exactly those answers when it pauses |
| `Interrupt.RunSession` | libs/langgraph/langgraph/types.py:811-934 | a whole session: every invocation ends as one direct run on the answers used by then would, and the assertion `len(resume) == idx` never fails |
| `Interrupt.StandsIff` | libs/langgraph/langgraph/pregel/_loop.py:415-500 | a value without an address stays with the checkpoint from the invocation that brings it, unless that one saves on exit |
| `Interrupt.AnsweredAsGivenIff` | libs/langgraph/langgraph/types.py:768-772 | every invocation uses what was given in it and nothing else new, if and only if each one behind an invocation that leaves its value brings a new value without an address, and the first addresses nobody |
| `Interrupt.StaleAnswer` | libs/langgraph/langgraph/pregel/_algo.py:1289-1331 | the failing input: a value given once answers the next question, too, when the graph is invoked again without one |
| `Interrupt.DirectWaits` | libs/langgraph/langgraph/types.py:811-908 | an invocation pauses exactly when the node asks one question more than it has answers, and it pauses on that question |
| `SharedResume.MovedReplays` | libs/langgraph/langgraph/types.py:910-934 | one call of `interrupt` beside others keeps the replay of its task, and the value leaves a list exactly when this task takes it from there |
| `SharedResume.InvStep` | libs/langgraph/langgraph/pregel/_algo.py:1280-1345 | every step of any task, tasks opened and lists copied on the way included, keeps: all tasks replay, and no two have taken the value from one list |
| `SharedResume.EveryTaskReplays` | libs/langgraph/langgraph/types.py:821-823 | in every interleaving of any tasks, called ones and those of subgraphs included, each ends as a direct run on its own answers, at most one of which is the shared value |
| `SharedResume.OneAnswer` | libs/langgraph/langgraph/pregel/_algo.py:1320-1331 | in a run in which no task that is called in the loop itself is opened while a copy of the writes is current that still holds the value, it answers at most one question of one task, and one as soon as some task asks more than it has answers for |
| `SharedResume.TwoAnswers` | libs/langgraph/langgraph/pregel/_loop.py:433-457 | the failing input: a task that failed before is saved first, the one that waits takes the value, and a task that it calls finds it again in the copy |
| `SharedResume.RiskyDoubles` | libs/langgraph/langgraph/pregel/_loop.py:550-590 | after such an opening, of a task with any node, a continuation in which the value answers a question below the new task and one of another task |
| `SharedResume.AnswersOnceIff` | libs/langgraph/langgraph/pregel/_loop.py:550-590 | whatever happens next in such a run, a continuation of the same kind with two answers exists if and only if it is itself such an opening; tasks of subgraphs, and those they call, are harmless |
| `SharedResume.AnyoneMayTake` | libs/langgraph/langgraph/types.py:918-926 | each task that waits is given the value in some run |
| `SharedResume.OpenWhomIff` | libs/langgraph/langgraph/pregel/_loop.py:818-919 | whom the value answers is open exactly when several tasks wait; it is refused then when none of them was answered before, and never when all were |
| `SyncQueue.HeadsStep` | libs/langgraph/langgraph/_internal/_queue.py:47-114 | how each step of a thread changes the numbers of threads that are releasing, popping or awake |
| `SyncQueue.BalancedStep` | libs/langgraph/langgraph/_internal/_queue.py:79-106 | every step keeps: queue length = permits + threads between append and release + threads between acquire and pop; a thread about to pop finds an item |
| `SyncQueue.InOrderStep` | libs/langgraph/langgraph/_internal/_queue.py:79-106 | every step keeps: popped items followed by queued ones are the items appended, in order |
| `SyncQueue.QueueSafety` | libs/langgraph/langgraph/_internal/_queue.py:70-114 | all of this in every state reachable by any interleaving of any number of threads; `popleft` never finds the queue empty |
| `SyncQueue.GetOutcome` | libs/langgraph/langgraph/_internal/_queue.py:88-106 | in every reachable state a `get` acquires if and only if a permit is free, and there is an item then; else it sleeps if and only if it may, and raises `Empty` otherwise |
| `SyncQueue.PopOutcome` | libs/langgraph/langgraph/_internal/_queue.py:88-106 | a thread that acquired is given the head of the queue at its pop |
| `SyncQueue.WaitOutcome` | libs/langgraph/langgraph/_internal/_queue.py:47-67 | a `wait` sleeps if and only if it may and no permit is free, and takes nothing |
| `SyncQueue.PollFailsIffEmpty` | libs/langgraph/langgraph/_internal/_queue.py:88-106 | with no thread between two steps, a poll fails if and only if the queue is empty |
| `SyncQueue.Wakes` | libs/langgraph/langgraph/_internal/_queue.py:79-86 | a release wakes the first sleeper, and a timeout the one whose time is over |
| `SyncQueue.PollsDrain` | libs/langgraph/langgraph/_internal/_queue.py:79-106 | from any reachable state with no other thread between two steps, polling once per item hands out everything ever put, in order, and leaves the queue empty |
| `SyncQueue.LostWakeup` | libs/langgraph/langgraph/_internal/_queue.py:47-67 | a run in which a thread in `wait` takes the only notification and leaves the item, while another thread sleeps on |
| `SyncQueue.NeverStuckIff` | libs/langgraph/langgraph/_internal/_queue.py:44-114 | no thread can be left asleep without a timeout beside a free item if and only if `wait` never blocks or at most one thread ever blocks |
| `Futures.Future.SetFrom` | libs/langgraph/langgraph/_internal/_future.py:43-58 | copying into a concurrent future: the state it ends in, or an error when it was not pending or cancelled |
| `Futures.Future.CopyFrom` | libs/langgraph/langgraph/_internal/_future.py:61-79 | copying into an asyncio future: nothing if done, else cancelled, or the converted outcome as the future accepts it, or an error if it refuses a StopIteration |
| `Futures.Future.SetOutcome` | libs/langgraph/langgraph/_internal/_future.py:75-79 | an outcome is set as it is, except that a StopIteration is refused or replaced by a RuntimeError, as the version of asyncio has it |
| `Futures.InvStep` | libs/langgraph/langgraph/_internal/_future.py:100-124 | every step, callbacks queued across loops included, keeps the invariant of the chain, and raises an error exactly when it passes a cancellation on to a closed loop, a loop closes under a copy, or the destination refuses the copy |
| `Futures.ChainSafety` | libs/langgraph/langgraph/_internal/_future.py:82-124 | in every reachable state the destination was completed at most once, what it holds is the converted outcome of the source as it accepts it, and a cancellation came from the source or a user |
| `Futures.TouchedAtHome` | libs/langgraph/langgraph/_internal/_future.py:106-121 | a future of a loop is changed by callbacks on its own open loop only |
| `Futures.StartedResists` | libs/langgraph/langgraph/_internal/_future.py:106-111 | a source that runs is not cancelled by the chain |
| `Futures.FaultIff` | libs/langgraph/langgraph/_internal/_future.py:76-121 | in a run the chain raises an error if and only if one of those three steps occurs in it |
| `Futures.LostCancellation` | libs/langgraph/langgraph/_internal/_future.py:106-111 | a run in which the source's loop closes, the destination is cancelled, and passing that on raises: the source is never asked |
| `Futures.LostCopy` | libs/langgraph/langgraph/_internal/_future.py:118-121 | a run in which the destination's loop closes between the check and the scheduling of the copy |
| `Futures.RefusedCopy` | libs/langgraph/langgraph/_internal/_future.py:61-79 | a run in which a callable of threads raises StopIteration: the copy is refused and the destination left pending, with all loops open |
| `Futures.NeverFaultsIff` | libs/langgraph/langgraph/_internal/_future.py:61-124 | no run raises an error if and only if both have the same home; with callbacks taken as one step, if and only if they have, or the source belongs to threads and the destination replaces a StopIteration; without StopIteration besides, if and only if they have, or the source belongs to threads |
| `Futures.ChainDelivers` | libs/langgraph/langgraph/_internal/_future.py:61-124 | once the callbacks have run on open loops, a settled source has settled the destination exactly unless it refuses the outcome and no user cancelled, and then with the outcome delivered; a user's cancellation has asked the source to cancel |
| `Futures.ResultArrives` | libs/langgraph/langgraph/_internal/_future.py:43-79 | once all has run on open loops without a user's cancellation, a result of the source is the result of the destination |
| `Futures.ExceptionArrives` | libs/langgraph/langgraph/_internal/_future.py:31-40 | and an exception arrives with its arguments, in asyncio's class of its kind if it is one of the three of concurrent.futures, else in its own |
| `Futures.StopArrives` | libs/langgraph/langgraph/_internal/_future.py:61-79 | and a StopIteration arrives as it is at threads, as a RuntimeError at a loop that replaces it, and not at all at one that refuses it |
| `Futures.CancellationArrives` | libs/langgraph/langgraph/_internal/_future.py:100-111 | a user's cancellation that nobody resists cancels source and destination |
| `Futures.FiringEnds` | libs/langgraph/langgraph/_internal/_future.py:106-124 | every callback that runs, whether or not it raises, uses up part of a finite amount of work, so the callbacks run out |
| `Futures.ChainOfChains` | libs/langgraph/langgraph/_internal/_future.py:31-40 | a chain onto the destination of another chain delivers the outcome that a single chain would, if and only if no StopIteration passes a loop in the middle on its way to threads |
| `DeltaWalk.AcyclicEnds` | examples/delta-channel-dump/dump.py:298-328 | in a finite store without cycles every walk ends within as many steps as there are checkpoints |
| `DeltaWalk.StoredIsRead` | examples/delta-channel-dump/dump.py:189-242 | a value stored as a wrapped snapshot, inline, or in a blob is read back, and called a snapshot in the first case only |
| `DeltaWalk.WalkChannel` | examples/delta-channel-dump/dump.py:280-330 | the backward walk with one final reversal returns the seed, its place and the writes oldest first, as a recursion from the oldest checkpoint does |
| `DeltaWalk.WalkParentChain` | examples/delta-channel-dump/dump.py:333-366 | every requested channel is recovered from the parent of the target; a missing target is an error |
| `DeltaWalk.WritesAre` | examples/delta-channel-dump/dump.py:299-318 | the writes recovered are exactly those stored for the checkpoints down to the first that holds a seed, that one included |
| `DeltaWalk.FoldLast` | examples/delta-channel-dump/dump.py:280-330 | the reducer is applied once for each write, the newest last |
| `DeltaWalk.RecoveryIsReplay` | examples/delta-channel-dump/dump.py:280-330 | folding the reducer over seed and writes gives the value of forward replay from the root, wherever correct seeds are |
| `DeltaWalk.ReplayIgnoresSeeds` | examples/delta-channel-dump/dump.py:245-277 | forward replay does not look at seeds |
| `DeltaWalk.SnapshotIndependence` | examples/delta-channel-dump/dump.py:189-242 | two stores that differ only in where correct seeds are recover the same value |
| `DeltaWalk.LegacyTrue` | examples/delta-channel-dump/dump.py:199-226 | corollary: an old plain value `true` is read back right if and only if a stored blob of the same version holds it |
| `Breaker.CircuitBreaker.IsOpen` | apps/hotmart-ebook-agent/hotmart_agent/errors.py:94-102 | rejects exactly within the reset time of the last opening; after it the circuit is half-open |
| `Breaker.CircuitBreaker.RecordFailure` | apps/hotmart-ebook-agent/hotmart_agent/errors.py:108-114 | counts, and opens at the threshold |
| `Breaker.Retry` | apps/hotmart-ebook-agent/hotmart_agent/errors.py:138-167 | how many raw calls are made, and that the result is that of the last one: all before it failed retryably, and it is the last allowed or did not fail so |
| `Breaker.RetryUnique` | apps/hotmart-ebook-agent/hotmart_agent/errors.py:138-167 | that description leaves one number of calls |
| `Breaker.HttpClient.Send` | apps/hotmart-ebook-agent/hotmart_agent/integrations/base.py:71-101 | guard, retry and recording together: rejected without a call, or run and recorded |
| `Breaker.PlayPaced` | apps/hotmart-ebook-agent/hotmart_agent/integrations/base.py:71-101 | each recorded failure beyond the threshold is paid for with a reset time |
| `Breaker.PlayCounts` | apps/hotmart-ebook-agent/hotmart_agent/integrations/base.py:81-101 | the tally of the bound counts what requests really cost |
| `Breaker.SendAll` | apps/hotmart-ebook-agent/hotmart_agent/integrations/base.py:71-101 | sending a list of requests through one client leaves the breaker, and costs the failures and calls, that the tally of the bound says |
| `Breaker.RateBound` | apps/hotmart-ebook-agent/hotmart_agent/integrations/base.py:71-101 | in any sequential run of failing requests since a success, at most threshold + T / reset get through within T of the first, and raw calls are at most the attempts times that |
| `Breaker.QuarantineHolds` | apps/hotmart-ebook-agent/hotmart_agent/errors.py:116-120 | corollary: while the circuit is open a request changes nothing and makes no call |
| `Breaker.HalfOpenTest` | apps/hotmart-ebook-agent/hotmart_agent/errors.py:97-101 | corollary: after the reset time, the request behind the test request is rejected exactly if the test request ended in an integration error |
| `Breaker.OtherUnlimited` | apps/hotmart-ebook-agent/hotmart_agent/integrations/base.py:81-100 | other exceptions are recorded nowhere: after the reset time, requests that end in them get through without limit |
| `Breaker.SuccessCloses` | apps/hotmart-ebook-agent/hotmart_agent/integrations/base.py:81-101 | after a success, whatever came before, requests are served until as many ended in an integration error as the threshold says |
| `Ignore.ExcludedIff` | libs/cli/langgraph_cli/_ignore.py:8-20 | excluded is exactly what lies in, or is, a directory of one of the seven names, at any depth |
| `Ignore.AddParents` | libs/cli/langgraph_cli/_ignore.py:95-124 | adds exactly the directories above a literal pattern |
| `Ignore.BuildNegationHints` | libs/cli/langgraph_cli/_ignore.py:65-124 | the hints of a file are those of its negations, line by line |
| `Ignore.PartsOfPattern` | libs/cli/langgraph_cli/_ignore.py:95-98 | stripping a pattern changes nothing: its parts are those between slashes that are neither empty nor `.` |
| `Ignore.NothingIff` | libs/cli/langgraph_cli/_ignore.py:83-92 | a line re-includes something exactly when it begins with an exclamation mark, spaces around it aside |
| `Ignore.NegationReadBack` | libs/cli/langgraph_cli/_ignore.py:83-124 | a printed negation is read back: the whole path without a glob, else all below the names before the first glob |
| `Ignore.ReincludedIsWalked` | libs/cli/langgraph_cli/_ignore.py:29-35 | every directory above a file that some negation names by its whole path, or may re-include by a glob, has to be walked |
| `Ignore.LiteralWalk` | libs/cli/langgraph_cli/_ignore.py:65-124 | negations without a glob ask for exactly the directories above what they name |
| `Ignore.LiteralWalkAbove` | libs/cli/langgraph_cli/_ignore.py:116-118 | with such negations all directories above a file are walked if and only if it lies at the top or one of them names something in, or below, its directory |
| `UvPaths.GuardMeaning` | libs/cli/langgraph_cli/uv_lock.py:544-562 | the guard fires exactly when a deeper member holds the path |
| `UvPaths.ResolveContainerPath` | libs/cli/langgraph_cli/uv_lock.py:520-541 | a path is rewritten if and only if its innermost workspace member is in the closure, and then to its place under /deps/workspace |
| `UvPaths.ResolvedInjective` | libs/cli/langgraph_cli/uv_lock.py:520-541 | no two paths are rewritten to one place |
| `UvCopy.IterEntries` | libs/cli/langgraph_cli/uv_lock.py:476-515 | the recursive walk returns the entries of the tree, in name order |
| `UvCopy.EntriesAreChosen` | libs/cli/langgraph_cli/uv_lock.py:476-515 | without recursion: a path is an entry if and only if it exists, is taken where it is met, and every directory above it is entered |
| `UvCopy.EntriesDistinct` | libs/cli/langgraph_cli/uv_lock.py:476-515 | no entry twice |
| `UvCopy.EntriesNotNested` | libs/cli/langgraph_cli/uv_lock.py:472-517 | no entry lies inside another |
| `UvCopy.EntriesAvoidMembers` | libs/cli/langgraph_cli/uv_lock.py:473-484 | no entry is, contains or lies inside another workspace member |
| `UvCopy.KeepableIsCopiedOnce` | libs/cli/langgraph_cli/uv_lock.py:480-515 | every file that is not ignored, outside members and built-in exclusions, whose ignored ancestors all require a walk, lies under exactly one entry |
| `UvCopy.CoveredIff` | libs/cli/langgraph_cli/uv_lock.py:480-515 | a kept file lies under an entry if and only if every ignored directory above it that is passed by lies in one that is copied whole |
| `UvCopy.DeepReincludeMissed` | libs/cli/langgraph_cli/_ignore.py:116-118 | an ignored directory and a negation that names a file in it by its name alone, which git's patterns match at any depth: nothing covers the file |
| `UvCopy.ReincludedIsCopied` | libs/cli/langgraph_cli/_ignore.py:29-124 | with the hints of the actual file: a kept file that a negation names by its whole path, or may re-include by a glob, lies under exactly one entry |
| `UvCopy.PackageCopyItems` | libs/cli/langgraph_cli/uv_lock.py:448-517 | the copy items of a package, or the error for an excluded member |
| `UvCopy.CopyAgreesWithRewriting` | libs/cli/langgraph_cli/uv_lock.py:434-562 | path rewriting agrees with copying: a covered path is put where the rewriting says, whenever it rewrites the path |
| `UvCopy.RootCopyIsRewritten` | libs/cli/langgraph_cli/uv_lock.py:472-562 | everything the root package copies is rewritten, to where it is copied |
| `UvCopy.MemberCopyIsRewritten` | libs/cli/langgraph_cli/uv_lock.py:457-470 | what another package copies is rewritten if and only if no nested member outside the closure holds it |
| `UvCopy.NestedMemberCopiedNotRewritten` | libs/cli/langgraph_cli/uv_lock.py:457-470 | that case occurs: files of a nested member outside the closure are copied with the outer package but not rewritten |
| `UvGraph.ReachStaysInside` | libs/cli/langgraph_cli/uv_lock.py:690-693 | a set closed under dependencies holds all that its elements reach |
| `UvGraph.FinishNode` | libs/cli/langgraph_cli/uv_lock.py:676-694 | appending a package whose dependencies are all visited keeps the order of the search tidy |
| `UvGraph.OrderIsReachable` | libs/cli/langgraph_cli/uv_lock.py:672-696 | when the search is over, the order lists exactly what the target reaches |
| `UvSources.ValidateSourceEntry` | libs/cli/langgraph_cli/uv_lock.py:132-237 | the workspace references of an entry of any nesting, or the first error in it |
| `UvSources.SourceDepsAreOwnName` | libs/cli/langgraph_cli/uv_lock.py:132-237 | an accepted entry contributes its own name and no other, exactly when it refers to the workspace at some depth |
| `UvSources.AcceptedIff` | libs/cli/langgraph_cli/uv_lock.py:132-237 | an entry is accepted if and only if every reference in it, at any depth, is good: a buildable member, or a relative path inside the project to a buildable package of that name; else the error names something that is so |
| `UvSources.EnabledMeans` | libs/cli/langgraph_cli/uv_lock.py:240-255 | a package is buildable unless its `[tool.uv]` has a `package` that is not true; the two errors otherwise |
| `UvSources.ValidatePackage` | libs/cli/langgraph_cli/uv_lock.py:304-347 | validation stores the enabled flag, dependencies and workspace dependencies in the package, or reports the error and stores nothing |
| `UvSources.CollectDeps` | libs/cli/langgraph_cli/uv_lock.py:324-340 | all applicable source entries are collected |
| `UvSources.AllDepsMeaning` | libs/cli/langgraph_cli/uv_lock.py:324-340 | the collected names are those contributed by some applicable entry, and each is a dependency |
| `UvSources.WorkspaceDependencies` | libs/cli/langgraph_cli/uv_lock.py:304-347 | the workspace dependencies of a valid package are those of its dependencies for which some source entry refers to the workspace, each a buildable member |
| `UvSources.SourcesAreSeen` | libs/cli/langgraph_cli/uv_lock.py:258-301 | the merged sources are the package's own entries, starting from its directory, and the root's under the keys it has none for, starting from the project root |
| `UvSources.FoundInFiles` | libs/cli/langgraph_cli/uv_lock.py:304-347 | told from the parsed files: validation finds exactly the dependencies that a specification names and that have a seen source referring to the workspace |
| `UvSources.InvalidIff` | libs/cli/langgraph_cli/uv_lock.py:304-347 | a package is invalid if and only if its dependencies are no list of readable specifications, a sources table is none, a seen source of a dependency is bad, or its own flag is |
| `UvSources.PathsLead` | libs/cli/langgraph_cli/uv_lock.py:186-213 | in a valid package the paths of its own entries start from its directory, those of the root's from the project root, and lead to the member of that name |
| `UvPlanner.Planner.Plan` | libs/cli/langgraph_cli/uv_lock.py:656-696 | planning fails exactly when the target is not buildable or reaches an invalid package; otherwise the install order is right, and every package in it is enabled |
| `UvPlanner.Planner.Visit` | libs/cli/langgraph_cli/uv_lock.py:676-694 | `visit` on mutable state does what the search does on values, cyclic graphs included; it ends because packages are visited once |
| `UvPlanner.Planner.VisitDependencies` | libs/cli/langgraph_cli/uv_lock.py:690-693 | the loop over the dependencies |
| `UvPlanner.ViewIsClosed` | libs/cli/langgraph_cli/uv_lock.py:232-236 | every dependency that validation finds is a buildable member |
| `UvPlanner.VisitSound` | libs/cli/langgraph_cli/uv_lock.py:676-694 | a search from any state finishes what it newly visits, only packages reachable from its start, and keeps the order tidy |
| `UvPlanner.VisitIsRight` | libs/cli/langgraph_cli/uv_lock.py:672-696 | the order lists exactly the packages reachable from the target, once each, the target last, and every package comes after each of its dependencies unless that dependency reaches it back |
| `UvPlanner.DeclaredIsOrdered` | libs/cli/langgraph_cli/uv_lock.py:672-696 | what the files of a planned package declare as a workspace dependency is in the order, and before it unless it depends on that package itself |
| `UvPlanner.OrderedIsDeclared` | libs/cli/langgraph_cli/uv_lock.py:672-696 | each planned package but the target is declared as a workspace dependency in the files of another planned one |
| `UvPlanner.PlannedPaths` | libs/cli/langgraph_cli/uv_lock.py:698-705 | the paths of the plan cannot be made, which is a ValueError, if and only if the target reaches a package outside the project root; else the plan meets what the path rewriting needs, and a path is rewritten exactly when its innermost member is reachable from the target |
| `Trend.SpreadPositive` | apps/hotmart-ebook-agent/hotmart_agent/modules/analytics.py:152-156 | the guard against a zero denominator never acts on three or more days |
| `Trend.ErrorApart` | apps/hotmart-ebook-agent/hotmart_agent/modules/analytics.py:150-158 | by how much any line is worse than the computed one |
| `Trend.LeastSquares` | apps/hotmart-ebook-agent/hotmart_agent/modules/analytics.py:150-158 | the computed slope with the intercept through the means minimises the sum of squared residuals over all lines, and is the only line that does |
| `Trend.ShapeIff` | apps/hotmart-ebook-agent/hotmart_agent/modules/analytics.py:155-170 | growth is a slope of more than a twentieth of the mean along with it, a fall one of more than that against it; at mean zero and otherwise the series is stable, below three days too short |
| `Trend.ExactLine` | apps/hotmart-ebook-agent/hotmart_agent/modules/analytics.py:150-158 | a series that is a line has that line's slope |
| `Trend.ReverseNegates` | apps/hotmart-ebook-agent/hotmart_agent/modules/analytics.py:143-170 | reversing a series negates its slope and turns its shape around |
| `Trend.ScaleKeepsShape` | apps/hotmart-ebook-agent/hotmart_agent/modules/analytics.py:143-170 | scaling a series by a factor other than zero scales its slope and keeps its shape |
| `Aggregate.AddSale` | apps/hotmart-ebook-agent/hotmart_agent/integrations/hotmart.py:143-171 | what one sale adds to the window and to the three dictionaries |
| `Aggregate.Aggregated` | apps/hotmart-ebook-agent/hotmart_agent/integrations/hotmart.py:137-184 | every field is the sum or count over the sales that its name announces, the daily series in order, the best affiliate a maximum |
| `Aggregate.DailyIs` | apps/hotmart-ebook-agent/hotmart_agent/integrations/hotmart.py:154-179 | each day's entry is the revenue of the approved sales dated on it, the first day's with those without a date |
| `Aggregate.EveryCategory` | apps/hotmart-ebook-agent/hotmart_agent/integrations/hotmart.py:152-171 | approved, refunded, charged back, pending and unrecognised sales add up to all of them |
| `Aggregate.SourcesConserve` | apps/hotmart-ebook-agent/hotmart_agent/integrations/hotmart.py:158-160 | units and revenue summed over the sources are the totals |
| `Aggregate.TopBelowGross` | apps/hotmart-ebook-agent/hotmart_agent/integrations/hotmart.py:174 | no affiliate's revenue exceeds the gross revenue when prices are not negative |
| `Aggregate.DailyConserves` | apps/hotmart-ebook-agent/hotmart_agent/integrations/hotmart.py:175-179 | the daily series adds up to the gross revenue less that of approved sales dated outside the window |
| `Aggregate.DailyCompleteIff` | apps/hotmart-ebook-agent/hotmart_agent/integrations/hotmart.py:175-179 | with positive prices it adds up to all of it if and only if no approved sale is dated outside |
| `Aggregate.EndDayIsOutside` | apps/hotmart-ebook-agent/hotmart_agent/integrations/hotmart.py:175-179 | corollary: a sale made on the last day of the window is dated outside |
| `Configs.MergeMetadata` | libs/langgraph/langgraph/_internal/_config.py:87-116 | metadata: newer keys win, and only two mappings under `lc_versions` are merged one level deeper |
| `Configs.MetadataAssociativeIff` | libs/langgraph/langgraph/_internal/_config.py:87-116 | merging metadata is associative on a triple if and only if it does not have a mapping, another value and a mapping under `lc_versions`, the first with a key the last lacks |
| `Configs.MergeConfigs` | libs/langgraph/langgraph/_internal/_config.py:147-191 | merging a list says under each key what the list says: tags and callbacks joined, settings overlaid, false values and the default limit skipped, settings always present |
| `Configs.MergeCallbacks` | libs/langgraph/langgraph/_internal/_config.py:119-144 | lists are concatenated, with one manager the list's handlers are added to it in order, two managers are merged |
| `Configs.MergeValue` | libs/langgraph/langgraph/_internal/_config.py:165-188 | the branch for one key |
| `Configs.MergeIgnoresGrouping` | libs/langgraph/langgraph/_internal/_config.py:147-191 | any grouping of any number of configs merges to the same config, when `lc_versions` entries are mappings and callbacks lists |
| `Configs.ThreeConfigs` | libs/langgraph/langgraph/_internal/_config.py:147-191 | with list callbacks the two groupings of any three configs agree if and only if their metadata does not clash |
| `Configs.MergedContents` | libs/langgraph/langgraph/_internal/_config.py:165-188 | the merged tags are all tags in order; each setting and metadata entry is the last one given; a plain key has its last true value, the recursion limit the last that is not the default |
| `Configs.MergedRegularContents` | libs/langgraph/langgraph/_internal/_config.py:105-114 | list callbacks are all kept in order, and of each package the last version listed |
| `Configs.FindsCoordinate` | libs/langgraph/langgraph/_internal/_config.py:355-367 | found exactly when some explicit config has a checkpoint coordinate that is not empty |
| `Configs.EnsureKnown` | libs/langgraph/langgraph/_internal/_config.py:371-406 | the known keys of one config |
| `Configs.EnsureExtras` | libs/langgraph/langgraph/_internal/_config.py:407-409 | the other keys of one config become settings |
| `Configs.EnsureConfig` | libs/langgraph/langgraph/_internal/_config.py:322-420 | the settings are the surviving ambient ones under the explicit ones, some are copied to metadata that lacks them, and every other key is gathered in order |
| `Configs.EnsuredItems` | libs/langgraph/langgraph/_internal/_config.py:338-405 | the tags are the ambient ones followed by all explicit ones in order, and list callbacks likewise |
| `Configs.EnsuredMetadata` | libs/langgraph/langgraph/_internal/_config.py:384-419 | a metadata entry is the last explicit one, else the ambient one, else for the copied keys the setting of that name if it is true |
| `Configs.EnsuredPlain` | libs/langgraph/langgraph/_internal/_config.py:331-406 | a plain known key has the last explicit value that is not empty, else the ambient one, else the default; an unknown key keeps its ambient value |
| `Configs.EnsuredSettings` | libs/langgraph/langgraph/_internal/_config.py:355-409 | a setting is the last explicit one, unknown keys of explicit configs included, else the ambient one unless a checkpoint coordinate is named |
| `Configs.AmbientIndependenceIff` | libs/langgraph/langgraph/_internal/_config.py:346-367 | the settings are independent of the ambient config if and only if some explicit config names a checkpoint coordinate that is not empty |
| `Configs.EnsureAgreesWithMerge` | libs/langgraph/langgraph/_internal/_config.py:373-383 | with known keys and no ambient config, ensuring gives the settings that merging gives |
| `Versions.OrderTotal` | libs/cli/langgraph_cli/config.py:188-195 | of two versions exactly one comes first unless they are the same |
| `Versions.OrderTransitive` | libs/cli/langgraph_cli/config.py:188-195 | the order is transitive |
| `Versions.StagesInOrder` | libs/cli/langgraph_cli/config.py:65-69 | of one release all dev releases come before all candidates, by their numbers, and these before the release itself, as in PEP 440 |
| `Versions.PaddedOrderIff` | libs/cli/langgraph_cli/config.py:188-195 | comparing releases as tuples differs from PEP 440, which reads missing parts as zero, exactly when one is the other with zeros added |
| `Versions.PrefixComparison` | libs/cli/langgraph_cli/config.py:213 | cutting a release to the length of the bound does not change how it compares with it |
| `Versions.CompatibleIff` | libs/cli/langgraph_cli/config.py:205-220 | `~=` accepts exactly the versions not below the floor that share all its parts but the last (PEP 440, section "Compatible release") and obey the rule on dev releases; `>~=` adds exactly the later stable ones |
| `Versions.Candidates` | libs/cli/langgraph_cli/config.py:278-286 | collects all accepted versions in order and nothing else; unreadable texts are passed over |
| `Versions.Greatest` | libs/cli/langgraph_cli/config.py:294 | the first of the greatest candidates |
| `Versions.Resolve` | libs/cli/langgraph_cli/config.py:250-294 | a text that is no range is returned as it is; each error in the order of the checks; otherwise the first greatest accepted version, or an error if and only if none is accepted |
| `Versions.ChosenUnique` | libs/cli/langgraph_cli/config.py:294 | that leaves one answer |
| `Versions.MorePublished` | libs/cli/langgraph_cli/config.py:278-294 | publishing more versions never lowers the answer and never leaves none |
| `Versions.WiderRange` | libs/cli/langgraph_cli/config.py:271-294 | `>~=` resolves to at least what `~=` resolves to |
| `Versions.DevFloor` | libs/cli/langgraph_cli/config.py:218-219 | with a dev floor the answer is the floor itself or no dev release |
| `AgentPolicy.ResolveMode` | apps/hotmart-ebook-agent/hotmart_agent/policy.py:93-138 | comparing ranks gives the mode of the documented decision: observation, then the two money limits, then the table of autonomy and risk |
| `AgentPolicy.FollowsTableIff` | apps/hotmart-ebook-agent/README.md:365-374 | within the cost limit the mode is that of the documented table if and only if the action is not a refund above its limit at level L1 or L3 |
| `AgentPolicy.ActionsFromFindings` | apps/hotmart-ebook-agent/hotmart_agent/policy.py:238-283 | signals become pauses and budget changes, in order |
| `AgentPolicy.FindingsCreateNothing` | apps/hotmart-ebook-agent/hotmart_agent/policy.py:238-283 | and nothing else: no signal creates a campaign |
| `AgentPolicy.FindingsGetActions` | apps/hotmart-ebook-agent/hotmart_agent/policy.py:238-283 | each signal that asks for something and names a campaign gets one action, in order: that pause, or a raise by the settings' share at the cost of the difference; the others get none |
| `AgentPolicy.ActionsFromEmails` | apps/hotmart-ebook-agent/hotmart_agent/policy.py:145-212 | each mail gets one action, in order, by the limit that the mails before it have left |
| `AgentPolicy.MailActionIs` | apps/hotmart-ebook-agent/hotmart_agent/policy.py:149-211 | flagged and hostile mails are escalated, and no others; else the answer written is sent if it may be and the limit is not reached, or kept as a draft |
| `AgentPolicy.SentIsLeast` | apps/hotmart-ebook-agent/hotmart_agent/policy.py:147-177 | of the answers that may be sent as many are as the limit allows |
| `Ranking.SortedRight` | apps/hotmart-ebook-agent/hotmart_agent/policy.py:302 | sorting rearranges into descending priority and keeps the order among equals |
| `AgentPolicy.RankActions` | apps/hotmart-ebook-agent/hotmart_agent/policy.py:286-302 | every action has its mode, and the list is sorted by priority |
| `AgentPolicy.RankedEntries` | apps/hotmart-ebook-agent/hotmart_agent/policy.py:286-302 | the sorted entries are the proposals with their right modes, in descending priority |
| `AgentAds.Available` | apps/hotmart-ebook-agent/hotmart_agent/models.py:337-349 | unbounded exactly for a post-paid account without cap; otherwise never negative and within cap and prepaid balance |
| `AgentAds.SelectCampaigns` | apps/hotmart-ebook-agent/hotmart_agent/modules/ads.py:400-449 | the approved plans, the notes and every plan's final budget, updated in place; an inactive account gets none |
| `AgentAds.SelectionSound` | apps/hotmart-ebook-agent/hotmart_agent/modules/ads.py:421-447 | chosen plans number at most the limit, are capped, have positive scores and catalogue order, and three days of all of them fit the account |
| `AgentAds.SelectionMaximal` | apps/hotmart-ebook-agent/hotmart_agent/modules/ads.py:421-447 | a plan of positive score is left out only at the limit or when it would not fit even beside the plans finally chosen |
| `AgentRun.ParseMeaning` | apps/hotmart-ebook-agent/hotmart_agent/graph.py:553-580 | corollary: every pending id and no other gets a decision, and it is approved exactly when the reply grants it |
| `AgentRun.ContainsIff` | apps/hotmart-ebook-agent/hotmart_agent/graph.py:566-567 | naming an id is having it as a part of the text |
| `AgentRun.NamedIdApproves` | apps/hotmart-ebook-agent/hotmart_agent/graph.py:558-567 | every free text that contains an action's id, other than the set refusals, approves that action |
| `AgentRun.RefusalByIdApproves` | apps/hotmart-ebook-agent/hotmart_agent/graph.py:564-567 | such a text: one that refuses an action by naming its id |
| `AgentRun.Perform` | apps/hotmart-ebook-agent/hotmart_agent/graph.py:583-613 | the calls made for an action, up to the first that is not fine, and none for a budget above the cap; an error the agent knows, or any other exception, ends it as the last call made does |
| `AgentRun.ExecuteOne` | apps/hotmart-ebook-agent/hotmart_agent/graph.py:437-489 | the result of one action for every mode, decision, dry run and outcome, or none if an exception leaves it |
| `AgentRun.ResultExplained` | apps/hotmart-ebook-agent/hotmart_agent/graph.py:437-489 | each result says what became of its action: done is that all its calls went well or the run was dry, failed that one ended in a known error with all before it well, skipped that it was not to be done |
| `AgentRun.Execute` | apps/hotmart-ebook-agent/hotmart_agent/graph.py:431-495 | the results of all actions in order, or none at all if an exception leaves the node; the calls made stay made |
| `AgentRun.ResultsIff` | apps/hotmart-ebook-agent/hotmart_agent/graph.py:476-495 | one result for each action in order if and only if no call made ended in an exception the agent does not know, which is then that of the last call |
| `AgentRun.ResultsLost` | apps/hotmart-ebook-agent/hotmart_agent/graph.py:482-485 | such a run: two drafts, the second of which raises, are both attempted and nothing is reported |
| `AgentCourse.ResultsInOrder` | apps/hotmart-ebook-agent/hotmart_agent/graph.py:437-489 | one result for each item of the loop, in order, unless it was ended |
| `AgentCourse.EndedIff` | apps/hotmart-ebook-agent/hotmart_agent/graph.py:476-485 | the loop is ended if and only if a call made raised, and then it was the last one made |
| `AgentCourse.EndsAt` | apps/hotmart-ebook-agent/hotmart_agent/graph.py:476-485 | the calls of an ended loop are those of the first items in full and of one more up to the call that raised |
| `AgentRun.Approve` | apps/hotmart-ebook-agent/hotmart_agent/graph.py:375-426 | approval is asked exactly when something is pending, and every action asked about has its answer from this reply, older approvals staying underneath |
| `AgentRun.Conclude` | apps/hotmart-ebook-agent/hotmart_agent/graph.py:375-495 | from decision to results: results are lost if and only if a call made raised an unknown exception; else refused are exactly the actions asked about and not granted, and none is left pending |
| `AgentRun.AnsweredAllows` | apps/hotmart-ebook-agent/hotmart_agent/graph.py:451-474 | what goes ahead depends on this reply alone, whatever was approved before |
| `AgentTurn.CallsAuthorised` | apps/hotmart-ebook-agent/hotmart_agent/graph.py:437-480 | every call made, also by an execution that an exception ends, belongs to an action that was automatic or approved, never in a dry run |
| `AgentTurn.CallsAreOrdered` | apps/hotmart-ebook-agent/hotmart_agent/graph.py:583-613 | every call carries the payload of an order that was let through; a mail is marked as answered only right behind its answer, sent without an error, and a budget set within the cap |
| `AgentTurn.OrdersAreCarriedOut` | apps/hotmart-ebook-agent/hotmart_agent/graph.py:583-613 | where every call goes well, every order that was let through is carried out |
| `AgentTurn.AuthorisedBegins` | apps/hotmart-ebook-agent/hotmart_agent/graph.py:437-480 | every such action whose turn comes is begun |
| `AgentTurn.SomethingHappens` | apps/hotmart-ebook-agent/hotmart_agent/graph.py:437-480 | where some such action stands for a call, some call is made, whatever is raised |
| `AgentTurn.AllowedIff` | apps/hotmart-ebook-agent/hotmart_agent/policy.py:93-138 | what each level of autonomy lets through, in full |
| `AgentTurn.SilentRuns` | apps/hotmart-ebook-agent/hotmart_agent/graph.py:464-474 | a dry run and level L0 call nothing |
| `AgentTurn.RecommendExecutesIff` | apps/hotmart-ebook-agent/hotmart_agent/config.py:21 | level L1, documented as never executing, calls something if and only if a refund above its limit, within the cost limit, is granted outside a dry run |
| `AgentTurn.RecommendCanRefund` | apps/hotmart-ebook-agent/hotmart_agent/policy.py:113-121 | a run at L1 that does |
| `AgentTurn.SpendsProposed` | apps/hotmart-ebook-agent/hotmart_agent/graph.py:476-480 | no more campaigns are created and no more budget committed than was proposed |
| `AgentTurn.ProposedRearranged` | apps/hotmart-ebook-agent/hotmart_agent/policy.py:302 | sorting does not change what is proposed |
| `AgentTurn.CallWithinCap` | apps/hotmart-ebook-agent/hotmart_agent/graph.py:597-608 | no call creates or sets a daily budget above the cap |
| `AgentTurn.TurnWithinLimits` | apps/hotmart-ebook-agent/hotmart_agent/policy.py:215-235 | campaigns created number at most the limit, and three days of all of them fit the account, whatever the reply, the priorities and the answers of the outside world, exceptions included |
| `AgentTurn.PlannedAre` | apps/hotmart-ebook-agent/hotmart_agent/graph.py:331-349 | the campaigns a turn plans are plans of the old catalogue of positive score, budgets cut to the cap, in order; one is missing only where there is no room, and none is planned without an active account or the wish |
| `AgentTurn.Turn` | apps/hotmart-ebook-agent/hotmart_agent/graph.py:319-495 | a whole turn from collected data to results decides on one action for each mail, one campaign for each plan chosen from the old catalogue and what the signals ask for, by priority, and keeps all of the above; results are lost if and only if a call raised an unknown exception |

## Left out

- The Pregel engine, all HTTP, mail, database, Docker and command-line code, and report and Dockerfile texts; only the
  data that crosses their boundary is modelled.
- `SseEvents`: JSON and UTF-8 decoding of data and id, and `int` on a retry field, which is a parameter; which data
  reads as the JSON null is a parameter, and data is taken to be JSON at all, which the standard does not ask;
  reconnection, and the asynchronous client, whose loop is the same.
- `Interrupt`: a session is one of a single task in one step, its writes stored as they were put; the call counter is
  taken to count from zero in each execution; going back to an older checkpoint, which drops resume values.
- `SharedResume`: one invocation and one step, with the value saved or just given at its start; a call of `interrupt`
  is one step, as it shares nothing but the removal of the value; subgraphs are taken to have no such value of their
  own; tasks that fail, and their error handlers.
- `SyncQueue`: `AsyncQueue.wait`, which rests on `asyncio.Queue`; a timeout may fire at any moment, and clocks are not
  compared.
- `Futures`: `_ensure_future` and `run_coroutine_threadsafe`, and a destination completed by anyone but the chain
  except by cancelling it; the error that a user gets who settles a future of a closed loop. Callbacks of threads run
  at once in the source and may run later here. A destination that is an asyncio task, which takes no result from
  outside; the text of a RuntimeError that replaces a StopIteration, whose arguments stand for its cause.
- `Configs`: what callback managers of langchain_core do with handlers and with one another; the environment override
  of the default recursion limit; the order of dictionary keys; values of other types than the ones declared for the
  keys treated specially.
- `DeltaWalk`: SQL and blob decoding; the rows of a checkpoint are taken in the order the query asks for; where a
  parent row is missing the code takes its child for a root, and so does the replay, so on a pruned chain both give
  what the rows left say.
- `Breaker`: waiting between attempts, the parsing of responses, and one breaker used by several threads at once.
- `SseStandard.OrderMarkAgreesIff`: a line behind the mark that says nothing; for one that says something there is
  `SseStandard.OrderMarkBlock`, and no condition on that block alone, as agreement can be an accident of what follows.
- `Ignore.ReincludedIsWalked`: literal negations by their whole path only, as for others the statement is false.
- `UvCopy.ReincludedIsCopied`: likewise (`UvCopy.DeepReincludeMissed`); `UvCopy.CoveredIff` is the condition for all
  files.
- `Ignore`, `UvCopy`: the pathspec patterns themselves (the ignore rule is any predicate on paths), reading files, and
  symbolic links; a tree has unique names in each directory, listed in order.
- `UvSources`: TOML loading, which gives tables without double keys, globbing of members and the parsing of dependency
  specifications; inference of the target package, the working directory and its error messages.
- `Versions`: the regular expressions, and the request to the package index, whose answer is a parameter.
- `AgentPolicy`: titles and reasons; the priority of an action, by which `rank_actions` sorts, is a parameter; the
  triage of mail and the answers written are taken as given, and signals in the order `prioritize` gave them; the
  rounding of a raised budget.
- `AgentAds`: `build_campaign_catalog`; a catalogue is any list of different plans.
- `AgentTurn.Turn`: budgets of the catalogue and the cap are not negative, as the catalogue builder makes them when
  the cap is not; without that, subsets of the chosen campaigns could cost more than all of them.
- `AgentRun`: stripping and lower-casing of a text reply happens before the model; a payload has the fields its type
  needs; running the node again after an exception left it, with its calls already made.
- `Trend`: rounding, and the volatility figure, which does not bear on the shape.
- `Aggregate`: reading the nested record of a sale, where absent values get their defaults.
- Container names of real packages, cache keys, `ReplayState`, `AnyValue` and `RunControl`: too small, or not claimed
  by the code.
