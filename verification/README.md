# Metalcraft Agent: a verified model

This project models, in Dafny, the parts of Metalcraft Agent that decide what happens next and what is remembered, and
proves that they keep their promises over every input, every run and every reachable state:

- **Project plans** (`TaskGraph`, `TaskStore`, `TaskProgress`): the task list of a project, the depth-first search for a
  dependency cycle, batches with forward references, derived readiness and progress. Every plan reachable through the store
  is usable, and a usable plan cannot deadlock.
- **Flows** (`FlowGraph`, `FlowPrompts`, `FlowExec`, `FlowResume`): routing along labelled edges, the two breadth-first
  searches, the executor that walks a possibly cyclic graph within a step budget, and the record through which a run pauses
  and resumes. Pausing is transparent.
- **JSON in answers** (`JsonScan`): finding a JSON value in a model's answer, against the grammar of RFC 8259.
- **Compaction** (`Messages`, `FileLedger`, `Compaction`, `Pieces`, `CompactionBlocks`, `CompactionRuns`): the append-only
  journal, the records over it, where history may be cut, and what each pass and each turn is given.
- **Diagnostics** (`Calendar`, `TurnLog`): the calendar formula against single-day steps, and replaying the delta log.
- **Guard and dedup** (`Guard`, `GuardRuns`, `GuardHistory`, `GuardWindow`, `GuardExamples`, `Dedup`): bounded windows that
  answer for an unbounded history, and exactly when they do.
- `Prelude` and `Text` hold options, results, trimming, decimal numbers and string order.

Objects that the program updates in place are classes whose methods are proved against functions on values; what is promised
over whole runs is proved about those functions. Model calls, node runners, JSON parsing and the call hash are arbitrary
functions, so every statement holds whatever they do.

Where a promise is not kept by the code, the code is modelled as it is, the failing input is a lemma, and the exact condition
under which the promise holds is proved:

- resuming a pause node along an `error` handle that no edge of the stored graph carries reports `completed`, where the node
  itself routing so would report `failed` (`FlowResume.UnwiredErrorDiffers`, `FlowResume.StatusesAgreeExactly`);
- the lint for unhandled errors warns of tools whose error a `default` edge takes, and not of tools that no edge leaves
  (`FlowGraph.DefaultEdgeIsOverwarned`, `FlowGraph.LoneToolIsUnderwarned`, `FlowGraph.ErrorLintIsExact`);
- a requested step budget is cut to 32 bits before it is clamped (`FlowExec.HugeRequestIsCutToOne`,
  `FlowExec.BudgetHonoursRequest`);
- an unled batch of parallel calls can be cut by a compaction (`CompactionBlocks.UnledBatchIsCut`,
  `CompactionBlocks.PlanBoundaryExactly`, `CompactionRuns.BoundariesExactly`);
- a next task id wraps at the top of `u32` in a release build (`TaskStore.NextIdReissued`, `TaskStore.NextIdFresh`);
- after a denial the guard's window can be too short to see a loop (`GuardExamples.RetractionUndercounts`,
  `GuardWindow.LoopStopsExactly`);
- a guard that goes on after it stopped a turn, as the session-long one of src/main.rs:354-357 does, never remembers the calls
  of the batch it stopped, and can stop again for a loop that is none (`GuardExamples.StopMakesUpLoop`,
  `GuardWindow.LoopStopsAreReal`, `GuardWindow.NotedIsHistory`);
- the guard and the delta log tell a new conversation by its length alone, so one as long as the one it replaces, which
  clearing or switching personas (src/main.rs:446, 631 and 726) can lead to under the same guard and log, goes unseen
  (`GuardExamples.ReplacedIsUnseen`, `GuardRuns.BatchIsNewExactly`; `TurnLog.ReplacedIsLost`, `TurnLog.ReplayRebuilds`).

## Model

| member | source | states |
|---|---|---|
| TaskGraph.FindCycle | src/project_tasks.rs:433-482 | Terminates on every list; returns none exactly when the dependency relation over listed rows has a topological rank, and otherwise a closed walk along consecutive dependency edges. |
| TaskGraph.CycleSearch.Visit | src/project_tasks.rs:443-473 | The recursive step: the three marks stay in agreement with the stack and with a rank of the finished ids, the stack comes back as it was, and a path it returns is a genuine cycle. |
| TaskGraph.StackClosesCycle | src/project_tasks.rs:453-458 | Meeting an id the search is still inside of closes a cycle out of the stack's tail. |
| TaskGraph.CycleRefutesRank | src/project_tasks.rs:433-482 | A cycle and a topological rank exclude each other. |
| TaskStore.CheckRows | src/project_tasks.rs:403-415 | The first pass passes exactly when ids and titles are non-blank and no id repeats; its complaint is true of the row it names. |
| TaskStore.CheckDeps | src/project_tasks.rs:416-425 | The second pass passes exactly when no row waits for itself or for a row that is not there; its complaint is true. |
| TaskStore.Validate | src/project_tasks.rs:399-430 | Accepts exactly the usable plans (bounded, unique non-blank ids, titled, dependencies present, acyclic) and every refusal explains itself. |
| TaskStore.NextIdFresh | src/project_tasks.rs:275-283 | The next id is unused if and only if the high-water mark is below the top of `u32` or `t0` is free. |
| TaskStore.NextIdReissued | src/project_tasks.rs:275-283 | The wrap is real: with the top of `u32` in use, the next id is an existing `t0`. |
| TaskStore.MintFresh | src/project_tasks.rs:275-283 | While ids fit `u32`, the ids minted for a batch are new, distinct and non-blank. |
| TaskStore.PlanBatch | src/project_tasks.rs:297-389 | The loops over a batch compute the outcome the other lemmas are about, refusals and their order included. |
| TaskStore.AddedRows | src/project_tasks.rs:297-389 | An accepted batch gives one row a request, with the minted id, the trimmed texts, an assignee and a gate only when they are not blank, exactly the dependencies asked for (indexes resolved), each once, and not started. |
| TaskStore.AddExactly | src/project_tasks.rs:297-389 | A batch is refused for being empty, for taking the plan past sixty rows, or for a row that cannot be made; otherwise only a cycle refuses it. |
| TaskStore.DepByIndex | src/project_tasks.rs:344-358 | A dependency printed as a number, spaces around it or not, is the row of the batch at that index, or refused as out of range or its own. |
| TaskStore.DepById | src/project_tasks.rs:344-358 | One that does not begin like a number is the id of a row that is there or of the batch, or refused as unknown or its own. |
| Text.NumbersExactly | src/project_tasks.rs:347 | What parses as a number is what prints as one up to the type's largest value, with or without a plus sign. |
| TaskStore.PlanStore.AddMany | src/project_tasks.rs:297-389 | Appends the built rows, or refuses and leaves the stored list as it was. |
| TaskStore.PlanStore.Update | src/project_tasks.rs:499-562 | Replaces one row by the patched one, or refuses and leaves the stored list as it was. |
| TaskStore.UpdateExactly | src/project_tasks.rs:499-562 | A row is updated if and only if the dependencies named are other listed rows, the title named is not blank and no cycle comes of it; otherwise the list stays. |
| TaskStore.PatchKeepsUnnamed | src/project_tasks.rs:517-552 | What a patch does not name stays, the id and the evidence always. |
| TaskStore.PatchTakesNamed | src/project_tasks.rs:517-552 | What it names is taken, texts without the spaces around them; a blank assignee or gate is none. |
| TaskStore.PlanStore.Complete | src/project_tasks.rs:571-596 | Marks one row done with its evidence when the gate allows it, or refuses and leaves the stored list as it was. |
| TaskStore.CompleteExactly | src/project_tasks.rs:571-607 | A row is completed if and only if the evidence is not blank and the row has no gate or has run evidence that says `exit 0`; otherwise the list stays. |
| TaskStore.CompleteRefuses | src/project_tasks.rs:571-587 | A completion names a missing row first, then missing evidence. |
| TaskStore.CompletedTells | src/project_tasks.rs:588-595 | The completed row is done, has the new evidence behind its old, waits for nothing, and is otherwise as it was. |
| TaskStore.UpdateKeepsPlan | src/project_tasks.rs:499-562 | An accepted update of a usable plan leaves a usable plan with the same ids in the same places. |
| TaskStore.UpdateIsIdempotent | src/project_tasks.rs:499-562 | A patch that does not count an attempt can be sent twice: the second time is answered like the first, accepted or refused, and changes nothing. |
| TaskStore.CompleteKeepsPlan | src/project_tasks.rs:571-596 | Completing a row of a usable plan leaves a usable plan with the same ids in the same places. |
| TaskStore.StepKeepsPlan | src/project_tasks.rs:297-596 | Every call keeps the plan usable and keeps the existing ids, in order, as a prefix. |
| TaskStore.ReachablePlansAreValid | src/project_tasks.rs:275-596 | Every list reachable from the empty one by any sequence of calls passes `validate`. |
| TaskStore.IdsNeverReissued | src/project_tasks.rs:272-283 | No row a later batch adds carries an id that any earlier list of the run had. |
| TaskProgress.Progress | src/project_tasks.rs:254-270 | Counts done and not-dropped rows; what is missing from the total is exactly the number of open rows. |
| TaskProgress.ReadyExactly | src/project_tasks.rs:231-243 | A row can start if and only if it is `Todo` and every row its dependencies name is done or dropped; names of no row hold nothing back. |
| TaskProgress.ReadyKeepsOrder | src/project_tasks.rs:246-252 | The startable rows stand in the order of the list. |
| TaskProgress.NoDeadlock | src/project_tasks.rs:231-252 | A usable plan with an open row, none of them blocked or waiting, has a row that is ready. |
| TaskProgress.SchedulesDrain | src/project_tasks.rs:231-270 | Completing ready rows in any order, each with any evidence that is accepted, lands one open row a step, and once nothing is ready the bar is full after as many steps as there were open rows. |
| TaskProgress.ScheduleExists | src/project_tasks.rs:246-252 | Such a schedule always exists, whatever non-blank evidence each row has. |
| TaskProgress.ScheduleRespectsDeps | src/project_tasks.rs:231-243 | Every listed dependency of a pick had landed before, or was picked earlier. |
| FlowGraph.RoutingFollowsEdges | src/flow_exec.rs:46-49 | Routing only ever follows an edge that leaves the node. |
| FlowGraph.RoutingTakesHandle | src/flow_exec.rs:46-49 | Routing by a handle takes the first edge out of the node that carries it, whatever unlabelled edges stand before. |
| FlowGraph.RoutingFallsBack | src/flow_exec.rs:1978-2006 | With no handle, or one that no edge carries, it takes the first unlabelled or `default` edge. |
| FlowGraph.RoutingEnds | src/flow_exec.rs:46-49 | It ends if and only if no edge out of the node carries the handle, is unlabelled or is a `default` one. |
| FlowGraph.FirstEntryIs | src/flow_exec.rs:1485-1491 | A run starts at the first entry node. |
| FlowGraph.Adjacency | src/flow_exec.rs:1643-1649 | The grouped edges give each node exactly its targets, in edge order. |
| FlowGraph.MarkReachable | src/flow_exec.rs:1643-1660 | The search that marks when it queues ends on every graph, and marks exactly the nodes some walk reaches. |
| FlowGraph.UnreachableNodes | src/flow_exec.rs:1637-1669 | A node is reported unreachable exactly when it is listed and no walk from the entry reaches it. |
| FlowGraph.UnhandledErrors | src/flow_exec.rs:1595-1635 | The lint's first pass names exactly the listed nodes of a kind that routes failures, some edge of which leaves but none takes an error, a branch only if it has no default handle. |
| FlowGraph.UncaughtIsWarned | src/flow_exec.rs:1597-1635 | Of a node that edges leave, none of which takes an error or is unlabelled, the lint complains exactly if it is a prompt, tool, http or sub-agent node, or a branch without a default handle. |
| FlowGraph.ErrorLintIsExact | src/flow_exec.rs:1595-1635 | A failure that a node routes fails the run if and only if the lint complains of the node and it has no `default` edge, or no edge at all leaves it, or it is a branch whose own default handle is an uncaught `error`. |
| FlowGraph.DefaultEdgeIsOverwarned | src/flow_exec.rs:1595-1613 | A flow of an entry, a tool and an end whose tool is warned of, although the executor routes its error along a `default` edge. |
| FlowGraph.LoneToolIsUnderwarned | src/flow_exec.rs:1606 | A tool that no edge leaves is not warned of, and a failure it routes fails the run. |
| FlowPrompts.CollectReachablePrompts | src/flows.rs:152-242 | The search that marks when it pops ends on cyclic graphs although it queues duplicates; it succeeds with every reachable node visited exactly once, at its shortest distance, nearest first, each prompt with its own persona or the entry's; it fails only for a reason some reachable node, or the number of entries, gives. |
| FlowPrompts.PromptHasItsPersona | src/flows.rs:191-216 | A prompt node gives its prompt under its own persona, or under the flow's if it names none, and is refused without a prompt. |
| FlowPrompts.OtherNodesGiveNoPrompt | src/flows.rs:191-234 | An entry gives nothing and any other kind is refused. |
| FlowPrompts.PromptsFollowVisits | src/flows.rs:212-215 | The prompts stand in the order of the visits. |
| FlowPrompts.PromptsOfOne | src/flows.rs:191-216 | A visit adds what its node gives. |
| FlowPrompts.SoleEntryIs | src/flows.rs:366-379 | A single entry is taken, several are refused. |
| FlowPrompts.WalkIsVisited | src/flows.rs:177-184 | Whatever a walk of `k` edges reaches is visited within `k`, unless the queue still holds work that near. |
| FlowPrompts.PopVisited | src/flows.rs:181-184 | Skipping a node that was visited before loses nothing. |
| FlowExec.BudgetHonoursRequest | src/flow_exec.rs:1495-1502 | A requested budget is honoured up to the ceiling if and only if it is a `u64` that cutting to 32 bits does not bring below the ceiling. |
| FlowExec.HugeRequestIsCutToOne | src/flow_exec.rs:1495-1502 | A request for 2^32 steps is given one. |
| FlowExec.BudgetByRequest | src/flow_exec.rs:1495-1502 | The budget by the number asked: as it is from 1 to 100000, cut at both ends, and 100 when nothing is asked. |
| FlowExec.ApplyAll | src/flow_runs.rs:102-117 | The store, under any saves and deletions, holds the records the next two rows are about. |
| FlowExec.LoadGivesLastSaved | src/flow_runs.rs:102-117 | After any saves and deletions a load gives the record last saved under the id, or none if it was deleted since. |
| FlowExec.LoadGivesUntouched | src/flow_runs.rs:102-117 | Saves and deletions under other ids leave a record as it was. |
| FlowExec.FlowExecutor.Resumed | src/flow_exec.rs:339-371 | A resumed executor starts with the stored steps and variables, and a fresh budget for the graph it is given. |
| FlowExec.FlowExecutor.PersistPaused | src/flow_exec.rs:529-567 | Stores node, variables, steps and the graph itself, and keeps the first creation time. |
| FlowExec.FlowExecutor.MarkTerminal | src/flow_exec.rs:571-587 | Closes the record of a run that paused before; a run that never paused leaves none. |
| FlowExec.FlowExecutor.Advance | src/flow_exec.rs:412-497 | One visit records the step and leaves the run where the specification of a visit does. |
| FlowExec.VisitTells | src/flow_exec.rs:412-497 | What each route of a node's runner stops the run with or where it sends it, under which outcome and detail the step is told, and with which variables: an end with its status, a pause at its node, a failure as failed, a handle along its edge. |
| FlowExec.FindNodeIs | src/flow_exec.rs:412-420 | A visit runs the first node with the id. |
| FlowExec.LastTextIs | src/flow_exec.rs:446-453 | A failure is told by the text a node left in `_last`, and by nothing if that is no text. |
| FlowExec.WiresTellApart | src/flow_exec.rs:428 | Steps of different core kinds are named differently. |
| FlowExec.FlowExecutor.RunFrom | src/flow_exec.rs:399-499 | The loop terminates, and its trace, stored records and answer are those of a drive from that node. |
| FlowExec.FlowExecutor.Run | src/flow_exec.rs:382-395 | A run is a drive from the first entry node, or an error that writes nothing. |
| FlowExec.ResumeFlow | src/flow_exec.rs:1373-1428 | Refuses and writes nothing unless the run is stored and paused; otherwise leaves the pause node by the chosen handle on the stored graph. |
| FlowExec.ResumeTakesUp | src/flow_exec.rs:1373-1428 | A resume drives from where its handle leads, or ends there if nowhere, with the stored steps and variables, except that a value it brings is the last output whatever was there; the snapshot is the graph, or the stored flow if there is none. |
| FlowExec.ResumeRefuses | src/flow_exec.rs:1379-1392 | A resume is refused exactly for no such run, one that is not paused, or one whose graph is gone. |
| FlowExec.PauseIsTold | src/flow_exec.rs:529-567 | A pause leaves on record where it stands, why, by what it may be resumed and when. |
| FlowExec.EndIsTold | src/flow_exec.rs:571-587 | The end of a resumed run leaves its record closed with its status, trace and variables, and no other touched. |
| FlowExec.AnswerTells | src/flow_exec.rs:404-410 | A caller is told which run of which flow ended how, the budget it ran out of, or the node that is not there. |
| FlowResume.DriveIsWalk | src/flow_exec.rs:399-499 | On any graph a drive stays within its budget, only ever extends the trace, and what it adds is a walk from its start. |
| FlowResume.RunsAvoidWarnedNodes | src/flow_exec.rs:1637-1669 | Every node a run visits is reachable from the entry, so none was warned of as unreachable. |
| FlowResume.FirstPauseIsRecorded | src/flow_exec.rs:529-567 | A drive that pauses leaves a record that resumes exactly where it stopped. |
| FlowResume.SessionStaysRecorded | src/flow_exec.rs:529-587 | However often a session resumes, its record keeps the flow, the configuration and the creation time of the first pause. |
| FlowResume.SegmentSimulates | src/flow_exec.rs:399-499 | One drive, however it ends, and the run that routes past its pauses stay in step from like traces. |
| FlowResume.PauseResumeTransparent | src/flow_exec.rs:1373-1428 | A session of any number of pauses and resumes, with or without values, whatever is edited on disk meanwhile and whether it is paused, over budget or ended, has visited the nodes, with the variables, that a run where each pause node takes the value and routes by the chosen handle visits in as many visits. |
| FlowResume.EndedAtPauseExactly | src/flow_exec.rs:1422-1427 | A session ends at a pause node if and only if no edge of the stored graph carries the handle of its last resume. |
| FlowResume.StatusesAgreeExactly | src/flow_exec.rs:1373-1428 | A session that came to its end reports the status of the routed run if and only if its last resume was not by `error` from a stored record whose graph has no edge for it. |
| FlowResume.UnwiredErrorDiffers | src/flow_exec.rs:1422-1427 | A concrete session that reports `completed` where the routed run reports `failed`. |
| FlowResume.SessionCompletes | src/flow_exec.rs:1373-1428 | Conversely, when the routed run ends within the budget, the session ends too, given enough resumes. |
| FlowResume.SessionIsWalk | src/flow_exec.rs:1373-1428 | The trace of any session, however it stands, is one walk from its start through reachable nodes. |
| FlowResume.FruitlessAttemptsLeaveNothing | src/flow_exec.rs:419-432 | Resumes that are refused, or whose drive meets a node the graph does not have, leave every record as it was: the next resume answers as if they had not been made. |
| FlowResume.FruitfulAfterFruitless | src/flow_exec.rs:1373-1428 | So a session that goes on after an unknown node continues the trace of its last pause by a walk from there, without the steps of the failed attempts. |
| JsonScan.FirstJsonValue | src/flow_exec.rs:1547-1577 | The scanning loop hands the parser the specified slice, or finds none. |
| JsonScan.ScanExact | src/flow_exec.rs:1547-1577 | After any prefix without an opening bracket and before any suffix, the slice of a printed object or array is exactly the printed text, whatever brackets, quotes or escapes its strings hold. |
| JsonScan.ValueIsNeutral | src/flow_exec.rs:1555-1574 | Every valid JSON text leaves the scan's depth and string state as they were and does not stop it early. |
| JsonScan.FenceStrips | src/flow_exec.rs:1530-1543 | A fenced text strips to its trimmed body, even when the body contains fences. |
| JsonScan.OneLineFenceStrips | src/flow_exec.rs:1530-1543 | A fence opened and closed on one line strips to what stands between. |
| JsonScan.UnclosedFenceStrips | src/flow_exec.rs:1530-1543 | A fence that is never closed strips to what follows its first line. |
| JsonScan.WholeAnswerIsTaken | src/flow_exec.rs:1515-1519 | An answer that parses but for the spaces around it is that value. |
| JsonScan.FencedValueSurvives | src/flow_exec.rs:1515-1543 | Any printed value in a fence is extracted whole, even if its strings contain backtick fences. |
| JsonScan.ProseValueSurvives | src/flow_exec.rs:1515-1577 | A printed object or array in prose is extracted whole. |
| JsonScan.FencedProseSurvives | src/flow_exec.rs:1515-1577 | A printed object or array in prose inside a fence is extracted whole. |
| JsonScan.FenceLineIsTriedLast | src/flow_exec.rs:1526 | One on the line of the fence itself is found when nothing behind that line is JSON. |
| Compaction.SafeSplit | src/context.rs:264-287 | The two walks back compute the specified cut. |
| Compaction.SplitIsIdempotent | src/context.rs:264-287 | What a cut keeps has nothing left to cut, even when it had walked back out of a tool block. |
| Compaction.PlanningIsIdempotent | src/context.rs:319-336 | For every journal and record list, planning again right after recording a plan finds nothing. |
| Compaction.TokensMeasureContext | src/context.rs:154-162 | The estimate measures exactly the context a turn is sent. |
| Compaction.CharsOfOne | src/context.rs:129-146 | A message costs the text that is sent for it, encrypted reasoning included. |
| Compaction.SummaryIsInView | src/context.rs:105-112 | A compacted context begins with a message that holds the newest summary, and nothing of older records. |
| Compaction.LedgerIsInView | src/context.rs:105-112 | That message holds the line of every listed path of its ledger, and the number of those left out. |
| Compaction.StaleBoundaryKeepsSummary | src/context.rs:181-191 | A boundary beyond the journal leaves the summary alone in view. |
| Compaction.SummarizerInput | src/context.rs:542-578 | The loop builds the specified transcript. |
| Compaction.InputCarriesRegion | src/context.rs:542-578 | The transcript contains the previous summary and the line of every message of the region. |
| Compaction.InputCarriesText | src/context.rs:551-556 | What a user or an assistant said in the region stands in the transcript in full. |
| Compaction.LinesTell | src/context.rs:557-571 | A call or a result is told by its tool's name and what it says, in full up to 200 or 500 characters. |
| Compaction.TranscriptKeepsOrder | src/context.rs:542-578 | A transcript tells the previous summary first and then its messages one after the other. |
| FileLedger.CollectFileOps | src/context.rs:485-503 | The loop folds a region into the two sets it starts from. |
| FileLedger.TouchAllJoins | src/context.rs:449-462 | Folding region after region is one pass over the regions joined. |
| FileLedger.TouchAllCollects | src/context.rs:485-503 | One pass from nothing collects exactly the paths of read calls and of write calls, in order. |
| FileLedger.RenderFileLedger | src/context.rs:511-534 | The loop renders the specified text. |
| FileLedger.LedgerIsExact | src/context.rs:511-534 | Lists the least min(20, total) of the distinct paths of both sets, each once, and the elided number reads back as exactly the rest. |
| FileLedger.RenderShows | src/context.rs:511-534 | The rendered text shows every listed path with how it was touched, and after the last of them says exactly how many are left out, or nothing. |
| FileLedger.ToolsAreTold | src/context.rs:490-502 | Which tools read a file, which write one, and that no other touches the ledger. |
| FileLedger.HowIsTold | src/context.rs:518-526 | A path is told as read, modified, or both, by the sets that hold it. |
| FileLedger.TwentyAreListed | src/context.rs:517 | All paths are listed up to twenty, and of more the first twenty. |
| CompactionBlocks.SplitIsBoundary | src/context.rs:264-287 | In a journal of plain messages and call batches, a cut falls between blocks if and only if the naive boundary is not inside an unled batch of two calls or more. |
| CompactionBlocks.PlanBoundaryExactly | src/context.rs:319-336 | A plan made from a block boundary ends at one if and only if its naive boundary is not inside an unled batch of two calls or more. |
| CompactionBlocks.BoundaryCutsNoBlock | src/context.rs:264-287 | At such a boundary every batch is folded whole or kept whole, so no kept result loses its call and no kept call its reasoning. |
| CompactionBlocks.UnledBatchIsCut | src/context.rs:264-287 | Two unled parallel calls with their results are cut after the first call. |
| CompactionRuns.CompactionLog.CompactWith | src/context.rs:430-479 | A pass appends one record with the specified boundary and ledger, or changes nothing. |
| CompactionRuns.CompactsExactly | src/context.rs:418-443 | A pass goes to the model if and only if there is something to fold and it is forced or the context has reached the threshold. |
| CompactionRuns.RecordHolds | src/context.rs:444-478 | The record holds the model's own answer to the last summary and the region behind the last boundary, and the size the context had. |
| CompactionRuns.AnnouncementAgrees | src/context.rs:383-396 | What is announced is exactly what a threshold pass then does. |
| CompactionRuns.Derive | src/context.rs:216-226 | Swaps the derived context in and keeps the journal aside, or touches nothing when there is no record. |
| CompactionRuns.RunTurn | src/context.rs:216-235 | Deriving, whatever the turn makes of the context, and restoring leave the specified journal. |
| CompactionRuns.TurnAppends | src/context.rs:216-235 | A turn adds exactly what it said to the journal, and never the derived summary, if and only if the conversation was compacted or the turn kept what it was given. |
| CompactionRuns.Converse | src/context.rs:216-235 | A run over the state and the log of records, turn by turn and pass by pass, is the run the other rows are about. |
| CompactionRuns.JournalConserved | src/context.rs:175-235 | Over any interleaving of derived turns, restores and passes the journal is everything said, in order, and is what is in view once the records are dropped. |
| CompactionRuns.NoSummaryEnters | src/context.rs:216-235 | No derived summary is ever in the journal unless a turn itself said one. |
| CompactionRuns.ContextIsLedBySummary | src/context.rs:175-192 | A compacted conversation's context begins with a derived summary and holds no other; an uncompacted one holds none. |
| CompactionRuns.RegionsTile | src/context.rs:319-336 | Over any run the folded regions are non-empty, follow one another, and tile exactly the journal before the newest boundary. |
| CompactionRuns.FoldedIsCovered | src/context.rs:430-479 | Every message behind the newest boundary is in the region of exactly one pass, whose input has the full text of a user or assistant message and the line of every other non-reasoning message, next to the summary before it. |
| CompactionRuns.SummariesChain | src/context.rs:445-447 | Each pass's input contains the summary of the pass before it, so the newest stands for all of them. |
| CompactionRuns.KeptIsVerbatim | src/context.rs:175-192 | Every message not behind the newest boundary is in the derived context verbatim, at its place. |
| CompactionRuns.LedgerEqualsOnePass | src/context.rs:449-478 | After any number of passes the newest record's sets are exactly the paths of read and of write calls before its boundary. |
| CompactionRuns.BoundariesExactly | src/context.rs:264-336 | In a conversation made of blocks, every boundary of any number of passes falls between blocks if and only if no pass was made whose naive boundary was inside an unled batch of two calls or more. |
| CompactionRuns.EveryBoundaryBetweenBlocks | src/context.rs:264-336 | So without such batches every boundary of any number of passes falls between blocks. |
| Calendar.YmdIsSteps | src/diagnostics.rs:449-462 | For every day number the formula gives the date that many single-day steps after 1970-01-01 on a Gregorian calendar (section 3.2.1 of ISO 8601:2004), with no intermediate below zero. |
| Calendar.FormulaFindsYear | src/diagnostics.rs:454 | The division formula for the year of an era finds the year that the calendar's own cycles give. |
| Calendar.TimestampsGoForward | src/diagnostics.rs:435-447 | Every date is a real one, and later seconds give a later timestamp, field by field. |
| Calendar.TimestampTells | src/diagnostics.rs:435-447 | The fields add up to the second they were made from. |
| TurnLog.DiagnosticsLogger.LogTurn | src/diagnostics.rs:140-160 | One step writes the specified delta and moves both counters. |
| TurnLog.LogRun | src/diagnostics.rs:140-160 | A whole run leaves the specified files. |
| TurnLog.FilesArePlaced | src/diagnostics.rs:140-154 | Each file says which step it is of, how long the list was and where its messages stand, and is marked rewritten exactly when the list got shorter. |
| TurnLog.DeltaRebuilds | src/diagnostics.rs:121-160 | From the right history a file rebuilds the next list if and only if the step extended the list or left a strictly shorter one. |
| TurnLog.ReplayRebuilds | src/diagnostics.rs:121-160 | Replaying the files rebuilds the list after every step of a run if and only if every step was of that kind. |
| TurnLog.ReplacedIsLost | src/diagnostics.rs:134-146 | A conversation replaced by another as long is not rebuilt. |
| Guard.GuardTracker.Check | src/guard.rs:87-254 | Collecting, retracting, counting and draining step by step leave the specified memory and verdict. |
| Guard.CountStreak | src/guard.rs:224-230 | Counts the most recent identical calls, up to the first that differs. |
| Guard.LoopsByTool | src/guard.rs:207-237 | By the configured numbers: a poll tool is held to the poll limit, any other to the ordinary one, and 0 is no limit. |
| Guard.WindowCoversLimits | src/guard.rs:239-251 | The window holds as many calls as the larger limit, and at least one. |
| Guard.DenialsByPhrase | src/guard.rs:264-268 | A result is a denial if and only if one of the three phrases stands in it. |
| Guard.ErrorsByPrefix | src/guard.rs:117 | A result is an error if and only if it begins with `ERROR:`. |
| Guard.OneSuccessClears | src/guard.rs:190-205 | One executed call that did not fail clears the error counter; a batch of failures alone raises it by one. |
| Guard.StopsSay | src/guard.rs:199-237 | A stop names the tool and how often it was called in a row, or how many turns failed. |
| GuardRuns.RunGuard | src/guard.rs:52-65 | A whole run of the guard gives the specified verdicts. |
| GuardRuns.BatchIs | src/guard.rs:88-95 | A check looks at what stands behind the length of the last list, or at the whole of a shorter one, and forgets everything exactly then. |
| GuardRuns.BatchIsNewExactly | src/guard.rs:88-95 | That is what is new in the list if and only if the list extends the one before or is strictly shorter. |
| GuardExamples.ReplacedIsUnseen | src/guard.rs:88-95 | A conversation replaced by one as long is not seen as new: its call is never inspected, and what was remembered stands. |
| GuardWindow.WindowIsSuffix | src/guard.rs:182-251 | In every run, stopped or not, the capped window is a suffix of the un-retracted history without the calls of stopped batches, and within its cap. |
| GuardWindow.NotedIsHistory | src/guard.rs:182-251 | Those calls are the whole history if and only if every call of a stopped batch has been denied or forgotten since. |
| GuardWindow.LoopStopsExactly | src/guard.rs:207-250 | Any check of any run stops for a loop if and only if it is no error spiral, the calls of unstopped batches repeat beyond the limit, and the window still holds as many calls as the limit. |
| GuardWindow.LoopStopsByTool | src/guard.rs:207-250 | The same by the configured numbers: `maxPollRepeats` for a poll tool, `maxIdenticalRepeats` for any other. |
| GuardWindow.SettledStopsExactly | src/guard.rs:207-250 | While every stopped batch is denied or forgotten, as in a run not stopped yet, the same holds of the whole history. |
| GuardWindow.UnstoppedIsSettled | src/guard.rs:193-240 | A run in which no check has stopped yet leaves nothing unsettled. |
| GuardWindow.LoopStopsAreReal | src/guard.rs:207-237 | At a loop stop the whole history does repeat beyond the limit if and only if the calls of stopped batches among its last `limit` are the same call again. |
| GuardWindow.UndeniedStopsExactly | src/guard.rs:207-250 | With no denials, the guard stops for a loop exactly when the unbounded history of unstopped batches would. |
| GuardWindow.WindowIsNewest | src/guard.rs:239-251 | With no denials, the window is exactly the newest calls of unstopped batches. |
| GuardExamples.RetractionUndercounts | src/guard.rs:182-188 | A concrete run with a denial that repeats beyond its limit and is not stopped. |
| GuardExamples.StopMakesUpLoop | src/guard.rs:231-240 | A concrete run without denials in which the check after a stop stops for a loop the history does not have. |
| GuardRuns.ErrorsAreStreak | src/guard.rs:190-197 | The error counter is the number of all-error batches at the end of the batches that had results since the last reset. |
| GuardRuns.SpiralStopsExactly | src/guard.rs:190-205 | The guard stops for an error spiral if and only if that many of the last batches with results were all errors. |
| GuardHistory.DenialErases | src/guard.rs:169-205 | A check with denials remembers, counts and answers as one of the batch and window without the denied calls and results. |
| GuardHistory.HistoryIsExecuted | src/guard.rs:88-188 | While each list extends the one before or is strictly shorter, as after a reset or a compaction, the history is the calls the list holds but for those it denies. |
| Dedup.DedupStore.Load | src/inbound_dedup.rs:31-44 | Loading gives the stored ids each once, with the set of them beside. |
| Dedup.DedupStore.Evict | src/inbound_dedup.rs:81-85 | The eviction loop leaves the newest ids, and the set stays the set of the window. |
| Dedup.DedupStore.IsDuplicate | src/inbound_dedup.rs:70-88 | Answers whether the trimmed non-empty id is in the window; a new one is recorded and written. |
| Dedup.WindowIsNewest | src/inbound_dedup.rs:31-88 | From any file, over any calls and restarts, the window is duplicate-free and is the newest `MAX_IDS` ids of the history (all of the first file until the first new id), and the file loads back to it. |
| Dedup.WindowIsBounded | src/inbound_dedup.rs:31-88 | From a file within the bound, the window stays within it. |
| Dedup.DuplicateMeansRecent | src/inbound_dedup.rs:64-88 | A call is a duplicate if and only if its trimmed non-empty id is remembered: from a file within the bound, among the last `MAX_IDS` ids of the history. |
| Dedup.SecondCopyIsCaught | src/inbound_dedup.rs:64-69 | An id recorded as new is caught again until `MAX_IDS` other ids have been recorded, whatever restarts come between. |
| Dedup.RunStore | src/inbound_dedup.rs:31-88 | A whole run of the store over calls and restarts, from any file, gives those answers. |
| Dedup.KeyIsTrimmed | src/inbound_dedup.rs:71-73 | Ids are told apart by what stands between the spaces around them; blank and missing ones are not told at all. |

## Left out

- Model calls, HTTP, tool execution, personas and prompt text: arbitrary functions, so no statement depends on them.
- Files, temporary names and renames, JSON serialization of records, clocks and UUIDs: stores are maps and sequences whose
  writes succeed, and times are parameters; a failed write of a pause record or of the dedup window is not modelled.
- Timestamps on task rows and evidence, and the trimming done when an evidence value is built.
- Locks, atomics and async tasks: components run one call at a time.
- `run_node` and the runners it calls: one arbitrary function of the configuration, the number of steps so far, the node and the
  variables; `interpolate_value` and the branch payload checks would only add easy members.
- `record_turn`, `record_outcome`, conversations, `chat_id`, warnings and logging around the executor.
- The template-reference part of the flow lint.
- FlowGraph.ErrorLintIsExact: is about failures a node routes; a runner that returns an error, on data that does not parse for
  instance, fails the run whatever is wired, and the lint says nothing of it.
- The wire names of node kinds come from a crate that is not part of this repository, and only label steps.
- `next_by_handle` is not part of this repository: it is modelled from the comments and tests at src/flow_exec.rs:46-49 and
  1978-2006 (the handle's own edge first, then the unlabelled or `default` one, then none).
- The text of error messages, the rendering of a plan and the path text of a cycle: errors are values that say what they are about.
- FlowResume.PauseResumeTransparent: the outcome label of a pause step differs from that of a routed step; a session ends at an
  unknown node, and what goes on after that is FlowResume.FruitfulAfterFruitless.
- FlowExec.FlowExecutor.MarkTerminal: a failing save is ignored by the code and not modelled.
- JsonScan.ScanExact: depth is unbounded, where the code counts in 32 bits; the parser is arbitrary; strings are sequences of
  characters, where the code scans bytes and compares only ASCII ones.
- JsonScan.ProseValueSurvives: asks that the whole answer does not parse and that no fence opens it, which the earlier branches of
  `extract_json` would take instead.
- Lengths of texts are counted in characters throughout, where the token estimate counts bytes; the compaction threshold, a product of
  floating-point configuration, is a number.
- Compaction.SafeSplit: keeps at least one recent message, because the code indexes `messages[split]`.
- CompactionRuns.LedgerEqualsOnePass: paths are those of calls with a string `path`; records read from older files are not modelled.
- FileLedger.LedgerIsExact: ordered sets are ordered sequences built by insertion.
- TaskStore.PlanStore.Update: an update may set any status, so no claim is made that a done row has evidence.
- `attempts` of a task row is unbounded.
- GuardWindow.LoopStopsExactly: identical means equal by the call's hash, which may collide; only the first new call of a batch is
  compared, as in the code.
- The guard's printing, the capped files of the other diagnostics and the session information.
- TurnLog.ReplayRebuilds: a file that exceeds the size cap and is replaced by a stub is not modelled.
- Key, integration, channel, preset and persona stores, lock files, findings, the approval prompt, the command line and the servers.
