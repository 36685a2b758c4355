# Verified models of the agent platform's core algorithms

A Dafny 4.11 model of the parts of the platform that are plain data plus loops once I/O is cut away:
the DAG layering of parallel subagents, the asyncio queues and their event broadcaster, the patch
repair passes and the file reader and editor of the dev agent, the Observer loop (task graph builder
and goal validation), the incremental code index, the Chrome bridge, and four text algorithms. Each
loop of the source is a method proved against a function or a stated property, each class whose
methods update fields is a class, and each asynchronous protocol is a step system whose steps are
also the methods of a class with the source's fields. The main results speak of every input, every
run or every interleaving.

`dafny verify dfyconfig.toml` checks the whole project.

| files | what they model |
|---|---|
| `DagLayers` | Kahn-style layering with a fallback for cycles |
| `BackgroundQueue`, `RequestQueue`, `RequestHistory`, `Broadcaster` | the queues of `task_queue.py`, interleaved at every `await` |
| `PatchCleanup`, `NumberForms`, `PatchPaths`, `PathsTwice`, `HeaderForms`, `HeaderRepair`, `PathHints`, `HunkCounts`, `HunkTexts` | the passes of `apply_patch` one by one |
| `PatchPipeline`, `WellFormedDiff`, `DiffsKept` | the passes composed, and when they keep a diff |
| `FileEdits`, `EditForms`, `LineNumbers` | numbered reading and search-and-replace editing |
| `TaskGraph`, `GraphContents`, `GoalValidation`, `ValidationRules`, `ObserverRun` | the Observer's rounds: build the graph, validate the goal |
| `CodeIndex`, `IndexContents` | the hash-skipping index over a keyed store |
| `ChromeBridge` | request/response correlation with timeouts and disconnects |
| `JsonRepair`, `JsonTexts`, `ToolCallStream`, `Chunking` | bracket repair, streamed tool calls, overlapping windows and transcript splitting |
| `Text`, `Lines`, `Decimal`, `Options`, `Seqs` | Python string operations and shared facts |

## What was found

Where the code does not do what its documentation or its callers expect, the model keeps the code's
behaviour and proves exactly when the expectation is met.

- The header pass inserts a second pair of file headers in front of a hunk that has no file header
  among the three lines before it, so a diff with a second hunk is spoiled unless the first hunk has
  a one-line body (`SecondHunkSpoilsDiff`). A well-formed diff goes through unchanged exactly when
  every hunk is near a header in this sense, no body line looks like a file header, fewer than six in
  ten body lines look numbered, and no path has a ".." component (`PipelineKeepsDiffIff`).
- A removed line `-- x` or an added line `++ x` looks like a file header. `_repair_hunk_counts` ends
  the hunk's body there, which spoils counts that were right (`CountsRightIff`,
  `RemovedCommentSpoilsCounts`), and `_normalize_patch_prefixes` rewrites the line unless its text
  names a null marker or a path with a side: `--- note` becomes `--- a/note` (`NormalizedStaysIff`,
  `RemovedCommentRewritten`).
- `_strip_patch_fences` drops the opening fence only when no line break precedes it and the closing
  fence only when none follows it; otherwise the fence stays behind as a line of the patch
  (`FencesDropped`).
- `_repair_patch_headers` is idempotent on lines; on texts exactly when the text does not end in a
  blank line (`RepairTextTwiceIff`). `_convert_absolute_paths_to_relative` is idempotent exactly when,
  besides, no file header outside the hunks has a second side or slash behind the first
  (`ConvertTwiceIff`); `--- a/a/x` becomes `--- a/x` and then `--- x` (`SecondSideGoesToo`).
- The scan for a path above a bare hunk, meant for paths given as comments, passes over every line
  that begins with `#`: exactly the nearest other line with a slash counts (`BareHunkTakesHint`,
  `InsertsIff`, `CommentIsNoHint`).
- A numbered block pasted into `edit_file` is found, with one exception: a single blank line pasted
  without its line break (`PastedBlockFoundIff`).
- `chunk_text` ends exactly when the overlap is smaller than the window or one window suffices, for
  all its comment about an infinite loop (`LoopEndsIff`); `_split_transcript` ends exactly for a
  positive limit or an empty text (`SplitEndsIff`).
- `_repair_truncated_json` completes a truncated text exactly when the open brackets are all braces
  followed by all brackets; `[{` is the smallest failure (`RepairCompletes`, `BracketThenBraceFails`).
- The index keys of files are distinct exactly when no project id with its colon begins another one
  or an untagged path (`KeysTellFilesIff`); file `b` of project `a` and the untagged `a:b` share
  theirs (`ColonsCollide`).
- A stream loses tool-call deltas exactly when some come after its last flush (`DeltasLostIff`,
  `UnflushedCallLost`).
- `validate_goal` asks for a new plan only when every step of the old one is done (`RevisePlanIff`),
  and its advisory-answer check can never block (`ImplementationMetIff`).

## Model

| member | source | states |
|---|---|---|
| DagLayers.BuildDagLayers | scripts/test-parallel-subagent.py:87-114 | terminates; the layers hold every task id once; what a task depends on is in an earlier layer, except in the last layer when the tasks have a cycle; a task that reaches no cycle is at its chain depth; the fallback fires exactly when there is a cycle, and its layer is the last and holds exactly the tasks that reach one |
| DagLayers.ReadyLayer | scripts/test-parallel-subagent.py:96-105 | lists exactly the remaining tasks whose in-set dependencies are all scheduled |
| DagLayers.ListSet | scripts/test-parallel-subagent.py:106-109 | the fallback layer lists every remaining task once |
| DagLayers.MarkScheduled | scripts/test-parallel-subagent.py:110-112 | the layer moves from the remaining to the scheduled tasks |
| DagLayers.UndoneIffReachesCycle | scripts/test-parallel-subagent.py:94-112 | the ready rule never schedules a task exactly when a cycle is reachable from it (pigeonhole on the task set) |
| DagLayers.RoundIffLongestChain | scripts/test-parallel-subagent.py:94-112 | round k + 1 takes exactly the tasks whose longest dependency chain has k + 1 tasks |
| DagLayers.StuckIffReachesCycle | scripts/test-parallel-subagent.py:105-108 | when no task is ready, those left are exactly the ones from which a cycle is reachable |
| DagLayers.NoScheduleIsEarlier | scripts/test-parallel-subagent.py:87-114 | no schedule that respects the dependencies places a task before its chain depth |
| DagLayers.ScheduleIsShortest | scripts/test-parallel-subagent.py:87-114 | so the layering is as short as possible |
| DagLayers.DependenciesFirst | scripts/test-parallel-subagent.py:99-104 | a dependency that reaches no cycle is in an earlier layer than its dependent |
| DagLayers.EdgeIff | scripts/test-parallel-subagent.py:98-103 | one task depends on another exactly when the first task with its id lists the other and some task has that id |
| RequestQueue.StepKeepsInv | packages/shared_utils/task_queue.py:196-258 | every step of a submitter, worker or timer keeps lists, queue, workers, lock and futures in agreement; the list being broadcast under the lock does not change |
| RequestQueue.Conservation | packages/shared_utils/task_queue.py:196-258 | in every run the pending ids are the multiset of requests not yet claimed, pending and current together are submitted minus finished, and no more are current than there are workers |
| RequestQueue.TakenByOneWorker | packages/shared_utils/task_queue.py:225-258 | no request is held by two workers or processed twice, even one whose waiter timed out |
| RequestQueue.OwnOutcome | packages/shared_utils/task_queue.py:211-215 | a caller gets back only the outcome of the call made with its own payload |
| RequestQueue.FutureIsFinal | packages/shared_utils/task_queue.py:241-253 | a completed or cancelled future never changes again |
| RequestQueue.NoDeadlock | packages/shared_utils/task_queue.py:225-258 | with a worker, an unfinished request always leaves some queue step possible |
| RequestQueue.MaximalRunsFinish | packages/shared_utils/task_queue.py:225-258 | exactly-once completion: a run that only another submission can continue has finished every request after one call and answered or timed out every waiter, in six queue steps for each request |
| RequestQueue.SixStepsPerRequest | packages/shared_utils/task_queue.py:196-258 | every run takes six queue steps for each request, less those its unfinished requests still need, so runs without new submissions end |
| RequestHistory.FirstPutFirstTaken | packages/shared_utils/task_queue.py:204-228 | in every run the requests put are those taken, in the same order, and then those in the queue |
| RequestHistory.RequestsAreSubmissions | packages/shared_utils/task_queue.py:194-200 | the requests are the ids and payloads submitted, in order, and keep them |
| RequestHistory.AnswerIsTheCalls | packages/shared_utils/task_queue.py:211-254 | the calls made for a request have the payload submitted with it; a waiter gets the outcome of the one call its worker made, and a finished request that did not time out has it in its future |
| RequestHistory.WaitersEnd | packages/shared_utils/task_queue.py:211-215 | a waiter has its outcome exactly if it resumed, and is timed out, its future cancelled, exactly if its timer fired |
| RequestHistory.ListsInOrder | packages/shared_utils/task_queue.py:198-236 | with distinct ids the pending list shows the unclaimed requests in the order submitted, the current list those claimed and unfinished in the order claimed |
| RequestQueue.Queue.SubmitLocked | packages/shared_utils/task_queue.py:198-202 | the whole new state of listing a request under the lock |
| RequestQueue.Queue.PutRequest | packages/shared_utils/task_queue.py:204 | the request joins the end of the queue |
| RequestQueue.Queue.GetRequest | packages/shared_utils/task_queue.py:228 | the head of the queue goes to the worker |
| RequestQueue.Queue.ClaimRequest | packages/shared_utils/task_queue.py:230-236 | the id moves from the pending list to the current one, under the lock |
| RequestQueue.Queue.ReleaseLock | packages/shared_utils/task_queue.py:230-238 | after the broadcasts the lock is free and the worker goes on |
| RequestQueue.Queue.ProcessRequest | packages/shared_utils/task_queue.py:239-254 | the future is completed with the outcome unless it is done already |
| RequestQueue.Queue.FinishRequest | packages/shared_utils/task_queue.py:255-258 | the id leaves the current list and the worker is free |
| RequestQueue.Queue.ReceiveOutcome | packages/shared_utils/task_queue.py:211-212 | a waiter resumes with the outcome in its future |
| RequestQueue.Queue.TimeOut | packages/shared_utils/task_queue.py:211-215 | a waiter gives up and cancels its future |
| BackgroundQueue.StepKeepsInv | packages/shared_utils/task_queue.py:71-145 | every step keeps each key's places in agreement, and the list being broadcast under the lock does not change |
| BackgroundQueue.Conservation | packages/shared_utils/task_queue.py:115-145 | in every run each accepted occurrence of a key is finished or stands exactly once in the order list or as current; accepted equals finished plus outstanding |
| BackgroundQueue.AlwaysDisplayed | packages/shared_utils/task_queue.py:122-127 | a key in the queue or with the worker is always displayed: there is no moment when a claimed key is in neither place |
| BackgroundQueue.NoDeadlock | packages/shared_utils/task_queue.py:115-145 | an unfinished key always leaves some step possible |
| BackgroundQueue.MaximalRunsFinish | packages/shared_utils/task_queue.py:71-145 | a run that only another enqueue can continue has finished every key as often as it was accepted, in five steps for each |
| BackgroundQueue.FiveStepsPerKey | packages/shared_utils/task_queue.py:71-145 | every run takes five steps for each key accepted, less the steps its unfinished keys still need |
| BackgroundQueue.FirstInFirstOut | packages/shared_utils/task_queue.py:71-80 | keys finish in the order accepted and the displayed order is the run order, in every run that puts the listed keys in order |
| BackgroundQueue.PromptPutsInOrder | packages/shared_utils/task_queue.py:73-78 | a run in which each listed key is put before the next is listed is such a run; the code makes no others, since leaving the lock and putting into an unbounded queue do not suspend |
| BackgroundQueue.OrderAgreesIff | packages/shared_utils/task_queue.py:71-80 | over all runs of the model, displayed and run order agree at every point exactly when the keys are put in the order listed |
| BackgroundQueue.AcceptedAreNew | packages/shared_utils/task_queue.py:73-77 | what is accepted is what was enqueued while its key was neither listed nor current, in order |
| BackgroundQueue.Queue.EnqueueLocked | packages/shared_utils/task_queue.py:73-77 | a present key is skipped with position 0, another one is appended and its position returned |
| BackgroundQueue.Queue.PutKey | packages/shared_utils/task_queue.py:78 | a listed key joins the queue |
| BackgroundQueue.Queue.GetKey | packages/shared_utils/task_queue.py:122 | the head of the queue goes to the worker |
| BackgroundQueue.Queue.ClaimKey | packages/shared_utils/task_queue.py:124-129 | the key leaves the order list and becomes current in one step |
| BackgroundQueue.Queue.ReleaseLock | packages/shared_utils/task_queue.py:128-138 | after the broadcasts the worker goes on to process the key |
| BackgroundQueue.Queue.FinishKey | packages/shared_utils/task_queue.py:143-145 | the key is finished and nothing is current, whether it was processed, failed or skipped |
| Broadcaster.NoGaps | packages/shared_utils/task_queue.py:31-47 | in every run what a subscriber has read or can still read is a gap-free stretch of the events from its subscription on, up to now while it is subscribed |
| Broadcaster.DroppedIff | packages/shared_utils/task_queue.py:36-47 | a queue is no longer subscribed exactly when it was unsubscribed or a broadcast found 100 events in it |
| Broadcaster.LogIsEvents | packages/shared_utils/task_queue.py:39-47 | the log those stretches are taken from is what was broadcast |
| Broadcaster.StepKeepsInv | packages/shared_utils/task_queue.py:31-47 | every step keeps that for each queue |
| Broadcaster.SSEBroadcaster.BroadcastEvent | packages/shared_utils/task_queue.py:39-47 | the event reaches every subscriber with room, and exactly the full ones are dropped |
| Broadcaster.SSEBroadcaster.SubscribeNew | packages/shared_utils/task_queue.py:31-34 | a new empty queue is subscribed |
| Broadcaster.SSEBroadcaster.UnsubscribeQueue | packages/shared_utils/task_queue.py:36-37 | the queue is no longer subscribed, whether it was or not |
| PatchCleanup.OneBreakAtEnd | services/dev_agent/service.py:265-282 | the fence pass leaves nothing, or a text that ends in exactly one line break |
| PatchCleanup.FencesDropped | services/dev_agent/service.py:265-282 | a fenced patch loses its opening fence exactly when no line break precedes it, its closing fence exactly when none follows it, and the whitespace at both ends of what is left |
| PatchCleanup.StripLineNumberPrefixes | services/dev_agent/service.py:296-330 | the two loops compute the threshold test and the cleaned lines |
| PatchCleanup.UntouchedIff | services/dev_agent/service.py:305-312 | a patch is left alone exactly when fewer than six in ten body lines look numbered |
| NumberForms.CleanedIff | services/dev_agent/service.py:285-312 | a patch is changed exactly when it has body lines and at least six in ten of them are digits with a bar or colon behind them, perhaps after a sign and spaces |
| PatchCleanup.StripUndoesNumbering | services/dev_agent/service.py:285-330 | a diff whose body lines were copied with the reader's numbers is given back without them |
| NumberForms.MarkIsTaken | services/dev_agent/service.py:294 | spaces, digits, spaces and a bar or colon are taken off with one space behind them |
| NumberForms.OnlyMarksAreTaken | services/dev_agent/service.py:294 | and nothing else is |
| NumberForms.SignedLineIsCleaned | services/dev_agent/service.py:314-327 | behind its sign a line loses the mark |
| NumberForms.UnsignedLineIsCleaned | services/dev_agent/service.py:322-325 | a marked line without a sign becomes a line of context |
| NumberForms.UnfencedTextStays | services/dev_agent/service.py:268-273 | a text without a fence keeps all but its last line breaks, of which one is left |
| PatchPaths.ConvertAbsolutePathsToRelative | services/dev_agent/service.py:362-409 | the loop with its header flag converts exactly the file headers outside hunks |
| PatchPaths.NormalizePatchPrefixes | services/dev_agent/service.py:477-507 | the loop normalizes every line that looks like a file header |
| PatchPaths.ValidatePatchPaths | services/dev_agent/service.py:332-360 | the first refused file header outside hunks is reported, nothing when there is none |
| PatchPaths.HeaderRoundTripIff | services/dev_agent/service.py:373-408 | for a header line with side and path, normalizing what was converted gives the line back exactly when the path has no side or slash in front, no backslash, no spaces at its ends and is no null marker |
| PathsTwice.ConvertTwiceIff | services/dev_agent/service.py:362-409 | converting a converted patch changes nothing exactly when it does not end in a blank line and every file header outside its hunks is or becomes a null marker, or has nothing more to take off: behind the first side and slash no second one, no spaces |
| PathsTwice.HeaderTwice | services/dev_agent/service.py:377-408 | the same of one header line; its first four characters stay |
| PathsTwice.SecondSideGoesToo | services/dev_agent/service.py:392-404 | a path behind two sides loses one with each pass |
| PatchPaths.NormalizedStaysIff | services/dev_agent/service.py:485-506 | the prefix pass leaves a line that looks like a file header alone exactly when its name is a null marker, or has its side and no spaces around it |
| HeaderForms.SpellingConverts | services/dev_agent/service.py:373-408 | the path pass takes off one side and one slash or /workspace/, turns backslashes over and keeps the time stamp |
| HeaderForms.SideIsGiven | services/dev_agent/service.py:485-506 | the prefix pass gives a name its side if it has none and keeps the time stamp |
| HeaderForms.SpellingsAgree | services/dev_agent/service.py:362-507 | absolute in either way, relative, with a side or with backslashes: after both passes the header is the one git writes |
| HeaderForms.MarkerStays | services/dev_agent/service.py:332-507 | a null marker in whatever case goes through both passes and the check as it is |
| HeaderForms.RefusedIff | services/dev_agent/service.py:340-360 | a header with or without time stamp is refused exactly when what stands behind its side is absolute or has a component ".." |
| PatchPaths.PlainHeaderAccepted | services/dev_agent/service.py:347-360 | a header for such a path is accepted exactly when no component is ".." |
| PatchPaths.InsertedHeadersStand | services/dev_agent/service.py:446-448 | the headers inserted for a path are its old and new side in order, and the prefix pass leaves them |
| HeaderRepair.RepairPatchHeaders | services/dev_agent/service.py:412-474 | the loop and its three backward searches compute the repaired lines |
| HeaderRepair.RepairOnlyInserts | services/dev_agent/service.py:412-474 | the pass only inserts pairs of file headers, and only before hunks |
| HeaderRepair.RepairTwice | services/dev_agent/service.py:412-474 | repairing repaired lines changes nothing |
| HeaderRepair.RepairTextTwiceIff | services/dev_agent/service.py:419-474 | repairing a repaired text changes nothing exactly when the text does not end in a blank line |
| HeaderRepair.NamedHunksHaveHeaders | services/dev_agent/service.py:427-448 | afterwards every ordinary hunk whose nearest diff --git line names a path has a file header among the three lines before it |
| HeaderRepair.NothingAddedIff | services/dev_agent/service.py:427-471 | no line is added exactly when nothing would go in before any hunk, and then nothing changes |
| PathHints.BareHunkTakesHint | services/dev_agent/service.py:450-468 | without a path from a diff --git line a bare hunk gets the headers of the nearest of the four lines before it that looks like a path, its text without the spaces around it |
| PathHints.InsertsIff | services/dev_agent/service.py:427-468 | headers are inserted exactly before a hunk without a file header near it whose path is named or hinted at |
| PathHints.HeadersGoBeforeHunks | services/dev_agent/service.py:425-472 | the pass inserts only before lines that begin with two `@` and no third, and keeps every line |
| PathHints.CommentIsNoHint | services/dev_agent/service.py:456-463 | a path given as a comment is passed over |
| HunkCounts.RepairHunkCounts | services/dev_agent/service.py:510-563 | the nested loops give every hunk header the counts of the body after it and copy every other line |
| HunkCounts.CountBody | services/dev_agent/service.py:534-555 | the inner loop finds the body's end and its counts, branch by branch |
| HunkCounts.ParseFormat | services/dev_agent/service.py:518-557 | the header pattern reads back starts, counts and trailing text from the header written |
| HunkCounts.RepairIsIdempotent | services/dev_agent/service.py:510-563 | the number of lines and every line that is no hunk header are kept, and a second repair changes nothing |
| HunkCounts.RepairTextTwice | services/dev_agent/service.py:519-563 | the same for whole texts |
| HunkCounts.CountsRightIff | services/dev_agent/service.py:534-557 | a hunk's header gets its true numbers of old and new lines exactly when no removed line begins with "-- " and no added line with "++ " |
| HunkCounts.RemovedCommentSpoilsCounts | services/dev_agent/service.py:537-539 | a removed comment line makes right counts wrong |
| HunkTexts.HeaderIsRead | services/dev_agent/service.py:518 | with either count present or absent the header is read to its starts, its counts and its trailing text |
| HunkTexts.HeaderIsWritten | services/dev_agent/service.py:518 | a line that is read as a header is written like one |
| HunkTexts.HeaderIsRecounted | services/dev_agent/service.py:518-557 | a header so written is rewritten with both counts: those of the lines up to the first that begins a hunk, file or diff; a line without a sign, even an empty one, counts as old and as new |
| HunkTexts.BareHeaderRecounted | services/dev_agent/service.py:518-557 | git's header for one-line hunks, with a line added |
| PatchPipeline.ApplyPatch | services/dev_agent/service.py:750-778 | the passes run in this order: empty patch, refused path, or the text handed to git |
| PatchPipeline.NoPhantomLine | services/dev_agent/service.py:750-773 | the lines whose hunks are counted are the patch's own after the passes, the last one not empty |
| PatchPipeline.ReadyLines | services/dev_agent/service.py:750-773 | the text handed on is those lines with repaired headers and has no line break at its end |
| DiffsKept.PipelineKeepsDiffIff | services/dev_agent/service.py:750-778 | a well-formed diff is handed on unchanged, less its final line break, exactly when fewer than six in ten body lines look numbered, no body line looks like a file header, every hunk has a file header among the three lines before it, and no path has ".." |
| DiffsKept.ContaminatedChanges | services/dev_agent/service.py:296-330 | a line that loses its number is not given back by any later pass |
| DiffsKept.LookalikeChanges | services/dev_agent/service.py:534-557 | a body line that looks like a file header changes the counts of its hunk, whatever the other passes do |
| DiffsKept.RemovedCommentRewritten | services/dev_agent/service.py:485-506 | the prefix pass gives a removed comment a side |
| DiffsKept.SecondHunkSpoilsDiff | services/dev_agent/service.py:427-448 | a correct diff of one file with two hunks that is not handed on unchanged |
| WellFormedDiff.PathPasses | services/dev_agent/service.py:764-770 | on a well-formed diff without lookalikes the prefix pass undoes the path pass |
| WellFormedDiff.InsertionIff | services/dev_agent/service.py:427-448 | the header pass leaves such a diff alone exactly when its hunks are near their headers |
| WellFormedDiff.BareHunkGetsHeaders | services/dev_agent/service.py:435-448 | a bare hunk gets the two headers of the old path of the nearest diff --git line |
| WellFormedDiff.AcceptedIff | services/dev_agent/service.py:332-360 | such a diff is accepted exactly when no path has ".." |
| LineNumbers.LabelTakenOff | services/dev_agent/service.py:711 | the number pattern takes off exactly the label that the reader prints, whatever follows |
| LineNumbers.LabelsAlignIff | services/dev_agent/service.py:918-921 | labels are nine characters wide, bar in the eighth column, exactly for line numbers below a million |
| FileEdits.ReadFile | services/dev_agent/service.py:898-966 | the text with header, numbered lines and footer, or the plain text, cut at 100000 characters, and the metadata that says which lines it shows |
| FileEdits.BeginningIsShown | services/dev_agent/service.py:936-952 | the answer without a start line begins with the lines its metadata names, up to the character limit; a file within both limits is shown as it is |
| FileEdits.ChunkIsShown | services/dev_agent/service.py:915-930 | a read from a line of the file is the note, the lines from there to the end asked for, 500 or the last one, each with its number, and the true numbers of lines left out above and below |
| FileEdits.ReadsJoin | services/dev_agent/service.py:911-937 | reading up to a line and on from the next gives the lines, numbers and next start of one read over both |
| FileEdits.FollowVisitsAll | services/dev_agent/service.py:911-937 | following the next start line selects every line once, in order, and ends after the expected number of chunks |
| FileEdits.StripUndoesNumbering | services/dev_agent/service.py:708-712 | taking the labels off any numbered lines gives exactly the lines |
| FileEdits.EditFile | services/dev_agent/service.py:700-741 | the matching chain and the replacement; success means at least one replacement |
| EditForms.ReplaceJoins | services/dev_agent/service.py:702-732 | the text is pieces with the old text between them, the result the same pieces with the new text, and the count the number of places |
| EditForms.PlacesFromTheLeft | services/dev_agent/service.py:732 | the places are taken from the left and none is left out |
| EditForms.ExactEdit | services/dev_agent/service.py:700-706 | a text that stands in the file is found as it is and with CRLF breaks, and every place is replaced |
| EditForms.ReturnsAreEdited | services/dev_agent/service.py:704-707 | a text with CRLF breaks that stands in the file only so is found and replaced as it is given |
| EditForms.SpacesAreForgiven | services/dev_agent/service.py:717-725 | lines pasted with other spaces at their ends are found all the same |
| FileEdits.OccursIff | services/dev_agent/service.py:704-713 | the count of a text is positive exactly when the text stands in the content |
| FileEdits.PastedBlockFoundIff | services/dev_agent/service.py:701-728 | a block of lines pasted as it was read, with or without its last break, finds a match exactly when it is more than one blank line without its break, or its label's text is in the file |
| FileEdits.NumberedEditIsPlainEdit | services/dev_agent/service.py:701-731 | an edit given with line numbers is the edit given without them |
| FileEdits.NumberedEditChangesTheBlock | services/dev_agent/service.py:701-731 | lines that stand once in the file are replaced by the new lines and the rest stays |
| FileEdits.ReplaceOnlyThere | services/dev_agent/service.py:730-731 | replacing a text that stands at one place changes only that place |
| TaskGraph.ReasoningGraph.Add | packages/reasoning_schema/models.py:179-180 | a node is appended |
| TaskGraph.ReasoningGraph.Link | packages/reasoning_schema/models.py:182-183 | an edge is appended |
| TaskGraph.ReasoningGraph.GetNodesByType | packages/reasoning_schema/models.py:191-192 | the nodes of a type, in order |
| TaskGraph.GraphBuilderService.BuildTaskGraph | services/graph_builder/service.py:105-192 | the mutable graph becomes the built one: goal and plan added if missing, then the new actions |
| TaskGraph.GraphBuilderService.EnsureGoal | services/graph_builder/service.py:117-132 | a goal node is added only if there is none |
| TaskGraph.GraphBuilderService.EnsurePlan | services/graph_builder/service.py:135-151 | the plan is added only if there is none |
| TaskGraph.GraphBuilderService.AppendActions | services/graph_builder/service.py:154-185 | one action per new result, with its edges |
| TaskGraph.CompleteKeepsShape | services/logic_engine/service.py:851-868 | a completion node and its edge leave the goal, plan and action subgraph as it is |
| TaskGraph.IncrementalEqualsBatch | services/graph_builder/service.py:114-185 | any builder calls on growing prefixes, with validations anywhere between, give up to node ids the subgraph of one call on the full list; ids are unique and every edge's ends are present |
| TaskGraph.GraphMatchesResults | services/graph_builder/service.py:153-185 | it has one goal, the plan's steps, and one action per result, in order |
| GraphContents.GoalIsShown | services/graph_builder/service.py:117-130 | the goal node has the request's texts; its title falls back from the problem to the raw input to "Unknown goal" |
| GraphContents.PlanIsShown | services/graph_builder/service.py:136-145 | the plan nodes have the steps' places and texts |
| GraphContents.ActionIsShown | services/graph_builder/service.py:158-176 | an action node has its result's tool, success and path, and the first 500 characters of its output |
| GraphContents.EdgesAreShown | services/graph_builder/service.py:146-185 | a step implements the goal; an action supports the goal and executes the first step if there is one; there are no other edges among them |
| GraphContents.CompletionsAreVerdicts | services/logic_engine/service.py:851-868 | the completion nodes are the verdicts of the validations that found a goal, in order |
| GoalValidation.LogicEngineService.PathFailureHeuristic | services/logic_engine/service.py:563-587 | the dictionary of counts finds exactly whether some missing path has five failures |
| GoalValidation.LogicEngineService.CountDone | services/logic_engine/service.py:601-640 | the loop counts the plan steps that are done and finds the first pending one |
| GoalValidation.LogicEngineService.ValidateGoal | services/logic_engine/service.py:482-889 | the verdict with its counts, next step and plan revision, and the graph after it; a completion node only when the end is reached |
| GoalValidation.ImplementationMetIff | services/logic_engine/service.py:677-790 | an implementation request is met exactly when every plan step is done, no action failed and the last is get_diff; the advisory check never blocks it |
| GoalValidation.OtherMetIff | services/logic_engine/service.py:588-770 | any other request is met exactly when a path is missing, or the plan is done and the actions ended well |
| GoalValidation.RevisePlanIff | services/logic_engine/service.py:870-882 | a new plan is asked for exactly when an implementation request has all plan steps done and twelve actions without a code change |
| ValidationRules.ToolUsedIff | services/logic_engine/service.py:53-96 | which tools a step needs, by its named tool and its wording, the tool names spelled out |
| ValidationRules.DoneIff | services/logic_engine/service.py:604-631 | a step is done exactly when it has its tools and more than three in ten of its verify words occur in the output of some action |
| ValidationRules.PlanIncompleteNames | services/logic_engine/service.py:640-673 | an unfinished plan is reported with the number of steps that have what they need, and names the first that has not |
| ValidationRules.CodeChangesIff | services/logic_engine/service.py:674-679 | the tools that count as a code change, spelled out |
| ValidationRules.AsksForImplementation | services/logic_engine/service.py:528-551 | a request is for an implementation if its intent says so or its title, description or a criterion has one of the listed words in whatever case |
| ValidationRules.CriteriaAreParts | services/logic_engine/service.py:516-522 | the caller's criteria count as they are, else those of the goal between semicolons, without blank ones |
| ValidationRules.PathIsMissingIff | services/logic_engine/service.py:563-588 | a path is reported missing exactly when five actions failed on it, whatever came between |
| ValidationRules.GivenPathCounts | services/logic_engine/service.py:565-587 | a failed read counts for the path it was given exactly when its output says that something is missing |
| ValidationRules.PathIsNamed | services/logic_engine/service.py:577-587 | without a path of its own it counts for the word behind the first marker in its output, with or without quotes |
| ValidationRules.SpellingsAgree | services/logic_engine/service.py:554-562 | with or without /workspace/ in front it is the same path |
| ValidationRules.NoPathIsLost | services/logic_engine/service.py:554-562 | the normal form is empty exactly for a path of spaces; the workspace keeps its own name |
| GoalValidation.DoneStays | services/logic_engine/service.py:53-96 | a plan step once done stays done when actions are appended |
| GoalValidation.DoneCountGrows | services/logic_engine/service.py:601-640 | the completed count never falls |
| GoalValidation.NextStepAdvances | services/logic_engine/service.py:650-670 | the next step named never goes back |
| GoalValidation.FailureIsForEver | services/logic_engine/service.py:681-760 | after one failed action an implementation request is never met |
| GoalValidation.MissingPathIsForEver | services/logic_engine/service.py:549-600 | a missing-path answer is repeated ever after |
| ObserverRun.ObserverService.Observe | services/observer-service/main.py:78-153 | a round builds, validates and hands the graph on, with either call failing; it answers whether the goal is met and whether to revise the plan |
| ObserverRun.GraphIsUpToDate | services/observer-service/main.py:78-140 | whatever calls failed, the graph handed on is the batch graph of the results of the last build that went through |
| ObserverRun.VerdictDependsOnResults | services/observer-service/main.py:78-140 | a round's verdict is the one on a graph freshly built from the known results, whatever rounds came before |
| ObserverRun.ProgressIsKept | services/observer-service/main.py:78-140 | over the rounds steps stay done, the completed count never falls and the next step never goes back |
| ObserverRun.NeverMetAfterFailure | services/observer-service/main.py:78-140 | after a failed action no round answers that an implementation goal is met |
| ObserverRun.MetIff | services/observer-service/main.py:103-153 | a round answers "met" for an implementation goal exactly when validation went through and the known results say so |
| ObserverRun.AsksForPlanIff | services/observer-service/main.py:103-153 | a round asks for a new plan exactly when validation went through and the known results show a finished plan and twelve actions without a code change |
| CodeIndex.KeysTellFilesIff | services/code_indexer/neo4j_client.py:57-64 | the file keys of any projects and untagged paths tell the files apart exactly when no project id with its colon begins another one or an untagged path |
| CodeIndex.ColonFreeIdsSuffice | services/code_indexer/neo4j_client.py:57-64 | ids and untagged paths without colons meet this, whatever the paths inside projects |
| CodeIndex.ScopesTellFiles | services/code_indexer/neo4j_client.py:57-64 | then all files of an indexing run are told apart |
| CodeIndex.SymbolKeysEqualIff | services/code_indexer/service.py:201-212 | symbol keys of names without colons are equal exactly for one file key, one name and one line |
| CodeIndex.ColonsCollide | services/code_indexer/neo4j_client.py:57-64 | a project's file and an untagged one share their key |
| CodeIndex.ReindexEffect | services/code_indexer/service.py:225-237 | what deleting and storing a file does to every part of the store |
| CodeIndex.DoomedAreOwn | services/code_indexer/neo4j_client.py:514-524 | deletion reaches exactly the file's own symbols |
| CodeIndex.ReindexKeepsInv | services/code_indexer/service.py:225-237 | afterwards the store says what the new content says, whatever was indexed before |
| CodeIndex.IncrementalEqualsForced | services/code_indexer/service.py:218-237 | any mix of forced and hash-skipped indexing leaves the store that forcing every call leaves, up to time stamps |
| CodeIndex.AgreesWithRebuild | services/code_indexer/service.py:218-237 | then a file's nodes are those of a forced index of its latest content in an empty store |
| IndexContents.FileIsShown | services/code_indexer/service.py:214-229 | the file node has the hash and details of the latest content that parsed, and the file's project |
| IndexContents.SymbolIsShown | services/code_indexer/service.py:201-233 | each symbol that no later one of its name and line replaces has its node, with the file's path and project |
| IndexContents.EdgesAreShown | services/code_indexer/service.py:231-233 | the file's CONTAINS edges lead to its symbols, ordered by line, and nowhere else |
| IndexContents.ImportsAreShown | services/code_indexer/service.py:235-237 | its IMPORTS edges are those of the content, and their modules are there |
| IndexContents.NoOtherSymbols | services/code_indexer/service.py:224-233 | a stored symbol is one of its file's latest content |
| IndexContents.NoOtherFiles | services/code_indexer/service.py:193-229 | a stored file is one whose content parsed at some time |
| IndexContents.TimeStampIsItsOwn | services/code_indexer/service.py:218-229 | the time stamp is that of an operation with this content, of the latest if that was forced |
| CodeIndex.OnlyItsOwnNodes | services/code_indexer/service.py:179-244 | indexing a file changes no other file's nodes, in its own project or another |
| CodeIndex.CollisionIsNeverIndexed | services/code_indexer/service.py:219-223 | a new content with the stored hash is never indexed without force |
| CodeIndex.CodeIndexerService.IndexFile | services/code_indexer/service.py:179-244 | the new store and the returned flag |
| CodeIndex.CodeIndexerService.IndexProject | services/code_indexer/service.py:147-177 | the new store, the number of files indexed and the texts of the errors; a missing directory is the one error |
| CodeIndex.EveryFileCounted | services/code_indexer/service.py:161-176 | every file found is counted once, as indexed or as an error |
| IndexContents.ErrorsNameFiles | services/code_indexer/service.py:166-171 | a file that is not indexed has an error with its path, in the order the files were found |
| CodeIndex.CodeGraphClient.StoreFileNode | services/code_indexer/neo4j_client.py:192-221 | the file node is merged on its path |
| CodeIndex.CodeGraphClient.StoreSymbolNode | services/code_indexer/neo4j_client.py:223-264 | the symbol node is merged and linked to its file if that is stored |
| CodeIndex.CodeGraphClient.StoreImportEdge | services/code_indexer/neo4j_client.py:266-287 | the module node and the edge to it are merged if the file is stored |
| CodeIndex.CodeGraphClient.DeleteFileNodes | services/code_indexer/neo4j_client.py:514-524 | the file, its symbols and their edges go |
| ChromeBridge.StepKeepsInv | services/dev_agent/chrome_bridge.py:35-104 | every step of a command, message, timer or connection keeps the pending map and the futures in agreement |
| ChromeBridge.OwnResponse | services/dev_agent/chrome_bridge.py:56-64 | in every run a command returns only a response with its own id |
| ChromeBridge.ResponseArrives | services/dev_agent/chrome_bridge.py:56-64 | the response to an open command completes its future and takes its id out of the map, and touches nothing else |
| ChromeBridge.ResponseIsReturned | services/dev_agent/chrome_bridge.py:97-98 | in whatever run follows, the command can resume once it waits, and when it resumes it returns this response |
| ChromeBridge.EndsAsTold | services/dev_agent/chrome_bridge.py:92-104 | a command that is out ends with the send error, the timeout, or its response or a connection error, exactly as its own step says |
| ChromeBridge.PhaseAsTold | services/dev_agent/chrome_bridge.py:92-99 | until then it is being sent, waits once sent, and expires once its timer fired |
| ChromeBridge.OutcomeIsFinal | services/dev_agent/chrome_bridge.py:70-104 | each command has at most one outcome |
| ChromeBridge.LateResponseIgnored | services/dev_agent/chrome_bridge.py:58-64 | a response to a finished command changes nothing |
| ChromeBridge.UnknownResponseIgnored | services/dev_agent/chrome_bridge.py:58-61 | a message with an unknown id changes nothing |
| ChromeBridge.DisconnectResolvesAll | services/dev_agent/chrome_bridge.py:42-50 | after disconnect nothing is pending and every command still out has a future that is done |
| ChromeBridge.DisconnectFailsUnresolved | services/dev_agent/chrome_bridge.py:46-48 | a command unresolved then never returns a result, even after a new connection |
| ChromeBridge.Bridge.DisconnectAll | services/dev_agent/chrome_bridge.py:42-50 | the loop fails exactly the futures that are not done, and the map is cleared |
| ChromeBridge.Bridge.HandleMessage | services/dev_agent/chrome_bridge.py:56-64 | the pending id is removed and its future completed unless it is done |
| ChromeBridge.Bridge.SendCommand | services/dev_agent/chrome_bridge.py:81-97 | raises at once when not connected, else a fresh id is pending |
| ChromeBridge.Bridge.AcceptConnection | services/dev_agent/chrome_bridge.py:35-40 | the bridge is connected and nothing else changes |
| ChromeBridge.Bridge.MarkSent | services/dev_agent/chrome_bridge.py:97-98 | the command waits for its future |
| ChromeBridge.Bridge.TimerFires | services/dev_agent/chrome_bridge.py:98-99 | a future that is not done is cancelled |
| ChromeBridge.Bridge.Resume | services/dev_agent/chrome_bridge.py:98-104 | the command returns its response, or drops its id and raises |
| ChromeBridge.Bridge.RaiseAfter | services/dev_agent/chrome_bridge.py:99-104 | the id leaves the map and the command ends with the error |
| JsonRepair.WellNestedIffScan | packages/shared_utils/json_utils.py:12-21 | the bracket grammar of sections 4 and 5 of RFC 8259 and the stack scan agree |
| JsonRepair.NetIsUnclosed | packages/shared_utils/json_utils.py:17-18 | the counts differ by the unclosed openers of each kind |
| JsonRepair.RepairBalances | packages/shared_utils/json_utils.py:12-21 | the repaired text has zero net braces and brackets exactly when the input has no surplus closers |
| JsonRepair.RepairCompletes | packages/shared_utils/json_utils.py:12-21 | a truncated well-nested text is repaired to zero net brackets, and to a well-nested text exactly when its unclosed openers are all braces followed by all brackets |
| JsonRepair.BracketThenBraceFails | packages/shared_utils/json_utils.py:20 | a brace left open inside a bracket is not repaired |
| JsonTexts.TrailingCommaGoes | packages/shared_utils/json_utils.py:19 | a comma with nothing but spaces before a closer goes, with the spaces |
| JsonTexts.OtherCommaStays | packages/shared_utils/json_utils.py:19 | any other comma stays |
| JsonTexts.LastCommaStays | packages/shared_utils/json_utils.py:19 | so does one with nothing but whitespace behind it |
| JsonTexts.RepairBegins | packages/shared_utils/json_utils.py:12-21 | the repaired text is the input without its trailing commas and then closers alone |
| JsonTexts.CompleteTextStays | packages/shared_utils/json_utils.py:12-21 | text without commas and unclosed openers is given back |
| JsonRepair.FindBraceEnd | packages/shared_utils/json_utils.py:110-118 | the depth loop finds the brace that returns to depth zero |
| JsonRepair.BraceScanFindsMatch | packages/shared_utils/json_utils.py:107-118 | in well-nested text that is the brace matching the first one |
| JsonRepair.ExtractCandidate | packages/shared_utils/json_utils.py:100-126 | the slice that is parsed, nothing when there is no opener |
| JsonRepair.CandidateIsFirstObject | packages/shared_utils/json_utils.py:100-126 | from text whose first bracket opens an object exactly that object is extracted |
| JsonTexts.NothingWithoutOpener | packages/shared_utils/json_utils.py:100-126 | there is nothing to parse exactly without an opener |
| JsonTexts.ListIsTaken | packages/shared_utils/json_utils.py:121-123 | if a list opens first, the text from there to the last ] is taken |
| JsonTexts.OpenListIsTaken | packages/shared_utils/json_utils.py:121-126 | without one, all from there on |
| JsonTexts.OpenObjectIsTaken | packages/shared_utils/json_utils.py:107-126 | an object never closed is taken up to the last } |
| JsonTexts.OpenBraceIsTaken | packages/shared_utils/json_utils.py:107-126 | without one, all from there on |
| ToolCallStream.Accumulator.Consume | packages/shared_utils/llm_client.py:966-998 | a chunk's deltas are accumulated and, when it says so, everything is flushed |
| ToolCallStream.Accumulator.Flush | packages/shared_utils/llm_client.py:986-998 | the calls in ascending index order, and an empty dictionary after |
| ToolCallStream.Stream | packages/shared_utils/llm_client.py:941-998 | the calls yielded over a whole stream |
| ToolCallStream.AccumulatesPerIndex | packages/shared_utils/llm_client.py:969-984 | each index is accumulated from its own deltas alone |
| ToolCallStream.FlushIsOrderedAndComplete | packages/shared_utils/llm_client.py:987-998 | a flush yields each index once, ascending, with the fragments since the last flush in arrival order |
| ToolCallStream.EmittedBySegments | packages/shared_utils/llm_client.py:941-998 | a stream yields what its segments between flushes yield |
| ToolCallStream.SegmentsCover | packages/shared_utils/llm_client.py:941-998 | the segments and what comes after the last flush are all deltas, in order |
| ToolCallStream.DeltasLostIff | packages/shared_utils/llm_client.py:941-998 | deltas are lost exactly when some come after the last flush |
| ToolCallStream.OutputDependsOnContentOnly | packages/shared_utils/llm_client.py:941-998 | streams whose segments agree index by index yield the same calls |
| ToolCallStream.SwapIsEquivalent | packages/shared_utils/llm_client.py:969-984 | swapping neighbouring deltas of different indices changes nothing |
| ToolCallStream.ResplitIsEquivalent | packages/shared_utils/llm_client.py:983-984 | splitting an argument fragment changes nothing |
| Chunking.ChunkText | services/artifact_service/embeddings.py:46-70 | the chunks of a text, from its words; none for no words |
| Chunking.SizesInWords | services/artifact_service/embeddings.py:52-54 | window and overlap are three quarters of the given sizes, rounded down, at least one and none |
| Chunking.SmallerOverlapEnds | services/artifact_service/embeddings.py:52-70 | an overlap at least two tokens below the chunk size makes the loop end for every text |
| Chunking.SplitGivesWords | services/artifact_service/embeddings.py:46-56 | splitting a text yields words, and they hold all its characters that are no whitespace |
| Chunking.WordStays | services/artifact_service/embeddings.py:48 | a word with whitespace behind it is split off whole, so no word is cut |
| Chunking.ChunkWindows | services/artifact_service/embeddings.py:56-70 | the loop takes exactly the windows |
| Chunking.ChunksJoinWindows | services/artifact_service/embeddings.py:60-62 | each chunk is the join of its window |
| Chunking.ChunksSplitBack | services/artifact_service/embeddings.py:58-62 | splitting a chunk gives the words of its window again |
| Chunking.OneSpaceBetween | services/artifact_service/embeddings.py:60 | one space stands between the words of a chunk |
| Chunking.WindowsOverlap | services/artifact_service/embeddings.py:59-63 | neighbouring windows share exactly the overlap |
| Chunking.GlueRebuilds | services/artifact_service/embeddings.py:56-70 | dropping the overlap from each later window rebuilds the word list |
| Chunking.WindowCount | services/artifact_service/embeddings.py:58-68 | one window if the words fit, else one more per step beyond the first, rounded up |
| Chunking.LoopEndsIff | services/artifact_service/embeddings.py:58-68 | the loop ends exactly when the overlap is smaller than the window or one window suffices |
| Chunking.SplitTranscript | services/artifact_service/service.py:430-446 | the loop yields the chunks |
| Chunking.FindCut | services/artifact_service/service.py:437-443 | the separators are tried in order from the right, beyond half the limit |
| Chunking.ChunksCover | services/artifact_service/service.py:430-446 | the chunks concatenate to the text, none is empty or too long, all but the last exceed half the limit |
| Chunking.ChunksCount | services/artifact_service/service.py:430-446 | so their number is bounded by the text's length |
| Chunking.CutIsBest | services/artifact_service/service.py:437-443 | the cut is after the last late line break, else sentence end, else space, else at the limit |
| Chunking.SplitEndsIff | services/artifact_service/service.py:430-446 | over all iterations and every whole number as limit: the loop ends exactly for a positive limit or an empty text |

## Left out

- HTTP endpoints, subprocesses, git, Neo4j, Redis, WebSocket transport and LLM calls: each is a parameter, an outcome or a step.
- `stop()` of both queues and cancellation by callers: a worker cancelled between `get` and the lock strands a key, so runs end before `stop()`.
- Overlapping bridge connections: the old socket's `disconnect` undoes the new `accept`, so one connection is open at a time.
- Interleavings inside a broadcast: `broadcast` has no inner `await`, and its event texts are not kept.
- Line separators other than "\n", and whitespace and digits outside ASCII: `splitlines`, `strip`, `isspace`, `\s` and `\d` are modelled for the rest.
- ReadFile: leaves out the two byte counts in the metadata and the file errors.
- Resolving and validating the paths of `read_file` and `edit_file`, and what git does with the patch.
- PipelineKeepsDiffIff: is about diffs as git writes them, without time stamps in file headers, and says what is changed, not into what; `StripUndoesNumbering` and `NormalizedStaysIff` say that of two passes.
- HeaderRoundTripIff: is about header lines without a tab, that is without a time stamp.
- BareHunkGetsHeaders: is about paths without spaces; the source takes the third word of the line.
- The 0.6 and 0.3 ratios and the 0.5 and 0.75 factors are compared exactly, without floating-point rounding.
- The wording patterns of `_infer_plan_step_tool_used` and the advisory markers: the truth of each is a field or an argument.
- ValidateGoal: leaves out the feedback texts, the confidence with the memory, rules and thoughts behind it, and each step's description and score: they change no verdict.
- Observe: leaves out the feedback with its overthinking note and the confidence it passes on.
- `_apply_constraints`, `_score`, `_validate`, `_normalize` and `_expand_hypotheses` of the logic engine: short passes without properties across calls.
- Titles and confidences of task-graph nodes, which repeat their other attributes; node ids are counters, not UUIDs.
- Files deleted from disk, which the indexer never removes from the store, and store calls that fail half-way; parsers are an oracle.
- IncrementalEqualsForced: leaves time stamps out, and needs that equal hashes of two contents at one path mean equal contents.
- `_repair_loose_json_object`, string literals inside JSON texts, and the attempts to parse: brackets are read outside strings.
- RepairCompletes: is about bracket nesting, not about the whole JSON grammar.
- The other event kinds of the streaming client and its transport: a stream is its list of chunks.
- The desktop shells, browser extensions, overlay, computer use and tree-sitter parsers: foreign calls and user interface.
