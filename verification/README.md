# Verified model of megálos

megálos runs multi-step workflows for LLM clients: a session walks the steps of a workflow, may call
sub-workflows or be interrupted by digressions (both are *frames* on a stack above a *root* session), skips
steps by precondition, executes MCP steps in-line, and refuses to go on when its workflow document changed.
This project models that engine, its call-graph validator, its rate limiter, the panel's throttle and retry
loop, and the dry-run client, in Dafny 4.11, and proves what they keep over every run.

`dafny verify dfyconfig.toml` checks everything.

## How the project is laid out

* **Documents and stepping.** `Workflows` (documents and what the loader guarantees of them), `References`,
  `McpArguments`, `Stepping` (preconditions, the skipped list, the skip loop), `InlineExecution` (MCP steps).
* **Tables.** `Tables` is the pair of SQLite tables as one value, with every read and write of `state.py` as a
  function; `SessionStore` is the class that holds the tables, each method proved equal to its function.
* **Tools.** `ToolSpecs` says what each tool answers and leaves behind; `Engine` has the tools as methods over
  the store, each proved equal to its specification. What the specifications mean is proved without them:
  `Guardrails` (when a guardrail is due), `Submissions` (what accepted content asks for and gets), `ToolEffects` and
  `Creations` (for every tool, the guards in their order and every row it writes).
* **Stacks.** `StackView` and `StackWrites` relate the tables to the abstract view (a map from each root to the
  sequence of sessions above it); `StackSafety` is the theorem over runs, with the exact condition for every
  tool that does not guard itself; `Soundness` is what even careless runs with evictions keep; `StoreMeaning`
  says what the listings and the eviction mean.
* **Sessions over runs.** `SessionMoves` and `ToolMoves` reduce every tool call to the few ways it can move a
  session; `Versioning`, `Progress`, `Contents`, `Schemas` and `Nesting` are theorems over those moves. `Visits`
  says what the visit counters count over a run. `Handovers` decides on the tables before a submission what becomes
  of the session below; `Escalation` and `Stranding` build on it.
* **Counterexamples.** `Reaching` and `Scenarios` have concrete tables with the careful calls that reach them from
  empty ones, `Witnesses` what goes wrong from there. `Termination` says exactly when the engine's loops end, and
  `Divergence` has documents on which they never do.
* **Clients and threads.** `ReplySemantics` and `DryRun` are the two-party simulation of the dry-run client
  against the engine; `Transactions` is the interleaving model of `BEGIN IMMEDIATE`.
* **The rest.** `CallGraph` and `Validators` (load-time validation), `TokenBuckets`, `RateLimiting`,
  `StoreRefinement`, `DenyLog` (rate limiter), `Throttling` and `Retrying` (panel).

What comes from outside (JSON, JSON Schema, regular expressions, MCP servers, SHA-256, UTF-8 length) is the
record of functions `References.Env`. A clock reading is a parameter. Session ids are handed out by a counter.

## Where a promised property fails

Ten properties hold only under a condition. The code is kept as it is, the condition is proved exact for all
inputs and read off the tables before the call, and a lemma has an input that fails, in tables that careful calls
reach from empty ones.

* `pop_flow` of a session with a frame above it orphans that frame: `StackSafety.PopKeepsWellFormedIff`, with
  `Witnesses.PopUnderAFrame`.
* `delete_session` of a root with frames above orphans them: `StackSafety.DeleteKeepsWellFormedIff`, with
  `Witnesses.DeleteUnderFrames`.
* `revise_step` on a call-step removes one frame only: `StackSafety.ReviseKeepsWellFormedIff`, with
  `Witnesses.ReviseUnderTwoFrames`. It also accepts a call-step never reached while a child is in flight:
  `Progress.RevisionKeepsOrderIff`, with `Witnesses.ReviseToUnreachedCall`.
* Eviction at the session cap may take a parent and leave its child: `StoreMeaning.RootCreationKeepsWellFormedIff`
  and `StoreMeaning.ChildCreationKeepsWellFormedIff`, with `Witnesses.EvictionOfAParent`.
* Sessions that are not complete are said to be evicted in the order of their last updates, but one that was complete
  and then revised stands in the order by its old completion: `StoreMeaning.OpenEvictionIff`, with
  `Witnesses.EvictionOfTheRevised`.
* An escalated session is told to wait for its escalation to be resolved, and refuses submission, entering, pushing
  and popping (`Escalation.EscalatedRefuses`), but the hand-over of its called child does not look at the
  escalation: `Escalation.EscalatedMovesIff`, with `Witnesses.EscalatedCallerGoesOn`.
* Completion goes up one level per submission. A called session that completes because its own child was handed
  over stays framed, is refused by every tool, and never hands its artifact to its caller:
  `Stranding.CompletionIsStrandedIff` and `Stranding.StrandedRuns`, with `Witnesses.CompletionStopsHalfWay`. The
  dry-run client takes the reply for the end of the workflow and exits 0; the root is complete if and only if the
  client is left with one frame: `DryRun.Run`.
* When the skip loop raises while a parent advances, the child and its artifact are gone although the parent's row
  was not written: `Contents.HandoverStoresUnlessBlocked`, with `Witnesses.HandoverLosesArtifact`.
* Content accepted at an MCP step, where a revision or a halted in-line run leaves the pointer, is replaced by the
  envelope when the branch asked for leads the in-line run over that step again: `Contents.AcceptedContentIsStored`
  and `Contents.KeptUnlessRunAgain`, with `Witnesses.SubmissionOverwritten`.
* A denial's `retry_after_ms` is not exact when the cost exceeds the capacity or the clock is behind the bucket:
  `TokenBuckets.RetryAfterExactIff`, with `TokenBuckets.RetryAfterClockBehind` and `TokenBuckets.RetryAfterTooDear`.

Whether the two loops of the engine end depends on the document, and the loader does not check it: on the documents
of `Divergence.LoopNeverEnds` and `Divergence.SkipNeverEnds`, which `Divergence.LoopingLoads` and
`Divergence.RepeatingLoads` show to pass the loader's rules, they never do. The skip loop ends exactly when it ends
within two turns for every step (`Termination.SkipLoopEndsIff`), and always when ids are unique
(`Stepping.SkipLoopEnds`). With unique ids the in-line loop ends when the routing of MCP steps leads into no cycle
(`Termination.UntrappedEnds`); on documents without preconditions, repeated ids or not, it ends exactly then
(`Termination.RunEndsIff`, `Termination.AllRunsEndIff`).

## Model

| member | source | states |
|---|---|---|
| Workflows.FindStep | megalos_server/tools.py:291-296 | the first step with an id, or -1 exactly when no step has it |
| Workflows.PositionOfIdAt | megalos_server/tools.py:291-296 | in a document with unique ids, positions and ids are inverse to each other, completion being the position past the end |
| Validators.IndexSteps | megalos_server/schema.py:438-443 | the validator's index maps an id to its last occurrence, and only ids of steps |
| Validators.ValidatePreconditions | megalos_server/schema.py:436-486 | no errors exactly when no step deserves one by the rules in their order, and every error is deserved by some step |
| Validators.AcceptedIsBackward | megalos_server/schema.py:436-486 | an accepted document has strictly backward refs as the run-time engine resolves them, even with repeated ids; with unique ids it accepts exactly the documents with backward refs and structured sub-paths |
| Validators.ErrorsMean | megalos_server/schema.py:445-484 | which error a step deserves: a precondition on the first step, a ref to its last occurrence at or after the step, a sub-path into an earlier step with no schema, collection or MCP result |
| References.ResolveMeans | megalos_server/tools.py:66-86 | a ref is skipped exactly when its step is, and otherwise finds exactly what it holds: the stored string, or what one existing object key per segment leads to in the parsed one |
| McpArguments.TreeDecided | megalos_server/mcp_executor.py:60-123 | an args tree cascades exactly when some ref in it names a skipped step, and otherwise misses a value exactly when some ref is absent |
| McpArguments.DispatchDecided | megalos_server/mcp_executor.py:155-215 | an MCP server is called exactly when every ref resolves, with the resolved tree whose meaning the next row states; a cascade is raised exactly when a ref names a skipped step |
| McpArguments.DispatchMeans | megalos_server/mcp_executor.py:155-215 | when no ref names a skipped step the server is called with the args tree in which every ref is replaced by what it holds, position by position and key by key, or, when some ref holds nothing, is not called and the error has the path to the first such ref |
| Stepping.ComputeSkippedSteps | megalos_server/tools.py:107-128 | the loop computes the skipped list that the two fixpoint lemmas characterise |
| Stepping.SkippedIsFixpoint | megalos_server/tools.py:107-128 | a step is listed exactly when it is not stored and its precondition, judged against the whole list, does not run |
| Stepping.FixpointUnique | megalos_server/tools.py:107-128 | no other list of step ids satisfies that equation |
| Stepping.VerdictMeans | megalos_server/tools.py:89-104 | a step cascades exactly when its ref names a skipped step, and otherwise runs exactly when the ref holds a value equal to the expected one, or its step is stored |
| Stepping.SkippedMeans | megalos_server/tools.py:107-128 | a step is listed exactly when it is not stored and its precondition names a listed step or is not met by the step data |
| Stepping.ApplySkipLoop | megalos_server/tools.py:131-151 | on every document, repeated ids included, on which the while loop ends at all, it gives the answer reached turn by turn, and with unique ids the result whose meaning SkipLoopMeaning and SkipLoopStops state |
| Stepping.SkipLoopEnds | megalos_server/tools.py:131-151 | with unique ids the loop ends on every input, with that result |
| Termination.SkipLoopEndsIff | megalos_server/tools.py:131-151 | on every document the loop ends if and only if it ends within two turns for every step, always with the same answer |
| Stepping.SkipLoopMeaning | megalos_server/tools.py:131-151 | with backward refs and nothing stored from the pointer on, the loop returns the first step not listed (or complete) and raises exactly when it first meets a listed step whose precondition names a listed step |
| Stepping.SkipLoopStops | megalos_server/tools.py:131-151 | on any data, stored steps or not, the loop goes past the steps whose preconditions are not met, stops at the first that is met or has none, and raises at one that names a skipped step, whichever it meets first |
| Stepping.ApplySkipsForward | megalos_server/tools.py:131-151 | the loop never goes back and always answers a step of the workflow or complete |
| InlineExecution.AutoRunMeaning | megalos_server/tools.py:154-244 | the in-line run ends; executed steps are MCP steps at strictly increasing positions, each stored once, nothing else touched; without a cascade it stops at a non-MCP step or complete |
| InlineExecution.AutoRunJustified | megalos_server/tools.py:192-217 | every entry an MCP step leaves is the printed envelope of that step's own execution on the data and skipped steps as they stood at its turn |
| InlineExecution.EntryMeans | megalos_server/tools.py:192-217 | such an envelope is the server's answer to the step's args with every ref replaced by what it held at that turn, or has the path to the first ref that held nothing |
| InlineExecution.AutoRunTurn | megalos_server/tools.py:186-244 | one turn stores the envelope and goes on from where the skip loop leads after the default branch, completion or the next step, or ends the run with a cascade |
| InlineExecution.AutoRunPointer | megalos_server/tools.py:154-244 | with existing targets the run stops at a step of the workflow or complete |
| Termination.RunTurnIsRun | megalos_server/tools.py:154-244 | with unique ids and forward MCP steps one turn of the loop leads on to the rest of the in-line run |
| Termination.UntrappedEnds | megalos_server/tools.py:186-244 | with unique ids, from a pointer whose routing leads into no cycle of MCP steps, preconditions on the way counted as passable, the in-line loop ends within one turn per step and one more, for all servers and data |
| Termination.RunEndsIff | megalos_server/tools.py:186-244 | on a document without preconditions, repeated ids or not, the in-line loop ends from a pointer if and only if the routing leads from it into no cycle of MCP steps |
| Termination.AllRunsEndIff | megalos_server/tools.py:222-228 | on such a document it ends from every pointer on all data if and only if the routing of the MCP steps is acyclic |
| Termination.ForwardIsAcyclic | megalos_server/tools.py:222-228 | unique ids and MCP steps that route forward only make the routing acyclic, preconditions or not |
| Divergence.LoopNeverEnds | megalos_server/tools.py:154-244 | an MCP step that is its own default branch keeps the in-line loop going for every number of turns, whatever the server answers |
| Termination.SkipTurnIsSkip | megalos_server/tools.py:131-151 | with unique ids one turn of the skip loop leads on to the rest of it |
| Divergence.SkipNeverEnds | megalos_server/tools.py:131-151 | with a repeated id of a skipped step the skip loop returns to it for every number of turns |
| Divergence.LoopingLoads | megalos_server/schema.py:668-679 | the first of these documents passes the loader's rules for fields, targets and preconditions |
| Divergence.RepeatingLoads | megalos_server/schema.py:436-486 | so does the second |
| StackView.ViewUnique | megalos_server/state.py:220-256 | the tables determine at most one map from roots to stacks |
| StackView.AccessorsAgree | megalos_server/state.py:593-657 | parent_of and top_frame_for read the neighbours of a session in its stack |
| StackView.ParentTopInverse | megalos_server/state.py:593-657 | parent_of and top_frame_for undo each other |
| StackView.StackDepthAgrees | megalos_server/state.py:582-590 | stack_depth of a root is the length of its stack |
| StackView.PushKeepsWellFormedIff | megalos_server/state.py:220-256 | inserting a frame above a session keeps one session per depth if and only if there was none above it |
| StackView.RemovalKeepsWellFormedIff | megalos_server/state.py:184-199 | removing a set of sessions keeps the stacks if and only if none of them is directly below a frame that stays |
| StackView.SingleRemovalIff | megalos_server/state.py:830-845 | deleting one session keeps the stacks if and only if nothing is framed above it |
| StackWrites.LegacyColumnsFaithful | megalos_server/state.py:466-514 | called_session of p is c exactly when the frame directly above p is a call frame for c, and parent_session_id equals parent_of |
| StackWrites.EmptyIsGood | megalos_server/state.py:363-367 | empty tables are where the runs may start: one (empty) view, faithful columns |
| StackWrites.CallPushedGood | megalos_server/tools.py:1601-1608 | creating a called child and linking it extends its root's stack by one and keeps the legacy columns faithful |
| StackWrites.ChildPoppedGood | megalos_server/tools.py:730-731 | deleting a child and clearing the parent's link shortens the stack by one and keeps the legacy columns faithful |
| SessionStore.Store.UpdateSession | megalos_server/state.py:277-304 | exactly the named columns of one row change, completion is stamped, a missing row is reported |
| SessionStore.Store.IncrementVisit | megalos_server/state.py:433-450 | one count of one row grows by one and its new value is answered |
| SessionStore.Store.IncrementRetry | megalos_server/state.py:413-430 | one count of one row grows by one and its new value is answered |
| SessionStore.Store.Escalate | megalos_server/state.py:453-463 | the escalation of one row is set, a missing row is reported |
| SessionStore.Store.SaveArtifact | megalos_server/state.py:799-814 | one artifact of one step of one row is stored beside the others |
| SessionStore.Store.InvalidateSteps | megalos_server/state.py:370-410 | exactly the entries of the listed steps leave the row's step data |
| SessionStore.Store.Delete | megalos_server/state.py:830-845 | both rows of the session go, or nothing changes and a missing row is reported |
| SessionStore.Store.SetCalled | megalos_server/state.py:466-514 | linking stamps the child's frame; clearing drops exactly the frames one level above the parent |
| SessionStore.Store.TopFrameFor | megalos_server/state.py:593-620 | in sound tables the answer is the frame one level above, or none |
| SessionStore.Store.Parent | megalos_server/state.py:638-657 | in sound tables the answer is the frame or root one level below, or none |
| SessionStore.Store.Depth | megalos_server/state.py:582-590 | the number of frames of a root |
| SessionStore.Store.Active | megalos_server/state.py:760-767 | the number of sessions that are not complete |
| SessionStore.Store.FullStack | megalos_server/state.py:702-757 | a root entry, then every frame of the root exactly once in order of depth, its overloaded column under the key of its type |
| SessionStore.Store.DepthBreakdown | megalos_server/state.py:660-688 | every unframed session exactly once with its number of frames, deepest first, ids breaking ties |
| SessionStore.Store.SelectVictims | megalos_server/state.py:178-192 | the evicted rows are so many that one more fits under the cap, and none of them comes after a row that stays |
| SessionStore.Store.CreateSession | megalos_server/state.py:118-260 | eviction, row and frame in one transaction; a full stack leaves both tables as they were |
| SessionStore.Store.PeekFrame | megalos_server/state.py:570-579 | a frame of maximal depth, or none exactly when the root has no frames |
| SessionStore.Store.PushFrame | megalos_server/state.py:525-550 | the new frame is exactly one above the deepest of its root |
| SessionStore.Store.PopFrame | megalos_server/state.py:553-567 | the frame row goes and is answered, the session row stays |
| StoreMeaning.FullStackIsView | megalos_server/state.py:702-757 | full_stack lists the root and then its stack in the view, position by position |
| StoreMeaning.BreakdownIsView | megalos_server/state.py:660-688 | depth_breakdown lists exactly the roots of the view with the lengths of their stacks |
| StoreMeaning.PushFrameRaises | megalos_server/state.py:525-550 | push_frame of a bare session puts it on top of the root's stack |
| StoreMeaning.PopFrameLowers | megalos_server/state.py:553-567 | pop_frame of a top frame makes it a bare root again |
| StoreMeaning.CreationMeetsCap | megalos_server/state.py:178-199 | at or over the cap exactly max(cap, 1) sessions are left, the new one among them |
| StoreMeaning.ChildCreationMeetsCap | megalos_server/state.py:178-256 | the same for a created child |
| StoreMeaning.EvictionOrder | megalos_server/state.py:184-190 | no session that is not complete is evicted while a complete one survives, and within a class the order is that of the completion time, or of the last update where there is none |
| StoreMeaning.OpenEvictionIff | megalos_server/state.py:130-132 | sessions that are not complete are evicted in the order of their last updates, whatever the cap, if and only if the old completions of revised ones agree with that order |
| StoreMeaning.RootCreationKeepsWellFormedIff | megalos_server/state.py:178-219 | creating a root keeps the stacks if and only if no evicted session was directly below a survivor |
| StoreMeaning.ChildCreationKeepsWellFormedIff | megalos_server/state.py:178-256 | creating a child keeps the stacks if and only if, besides, its parent was not evicted |
| Engines.Engine.ResolveSession | megalos_server/tools.py:319-381 | the four refusals in their order, a differing stamp writing the terminal mark, or the row and its workflow |
| Engines.Engine.EvaluateGuardrails | megalos_server/tools.py:441-460 | none exactly when no guardrail is due, otherwise the first that is: a pattern matches, so many steps are stored with the new one counted, the step was visited so often, the content has more characters than allowed |
| Guardrails.FirstGuardrailMeans | megalos_server/tools.py:441-460 | the same of the specification |
| Engines.Engine.AutoExecute | megalos_server/tools.py:154-244 | the loop equals the in-line run and counts one visit per executed step |
| Engines.Engine.AdvanceTheParent | megalos_server/tools.py:463-536 | next step by default branch or order, skip loop, MCP steps, and the writes only when the skip loop did not raise |
| Engines.Engine.PropagateToParent | megalos_server/tools.py:666-735 | the four ways a finished child is withheld or handed over, with the tables each leaves; Handovers.DeliveredIff and Schemas.FinishedChildGoesIff say when it is which |
| Engines.Engine.ResumeAfterDigression | megalos_server/tools.py:576-633 | the digression goes, nothing else changes, the reply names where the outer session stands |
| Engines.Engine.ResumeOnComplete | megalos_server/tools.py:636-663 | digressions resume the outer session, everything else propagates |
| Engines.Engine.Submit | megalos_server/tools.py:981-1418 | the whole of submit_step: reply and tables equal the specification, guards in their order |
| Engines.Engine.Start | megalos_server/tools.py:822-900 | the whole of start_workflow, with an eviction only through the cap |
| Engines.Engine.Revise | megalos_server/tools.py:1422-1511 | the whole of revise_step |
| Engines.Engine.Enter | megalos_server/tools.py:1515-1623 | the whole of enter_sub_workflow |
| Engines.Engine.Push | megalos_server/tools.py:1627-1800 | the whole of push_flow, with the cap read again inside the transaction |
| Engines.Engine.Pop | megalos_server/tools.py:1804-1867 | the whole of pop_flow |
| Engines.Engine.Delete | megalos_server/tools.py:1877-1929 | the whole of delete_session |
| Submissions.OwnMoveMeans | megalos_server/tools.py:1292-1345 | accepted content moves its session as one pointer leads: a due force_branch's target, at branches the branch named or the default, otherwise the next step; nothing moves exactly when a due guardrail escalates or the branch is not one of the step's |
| Submissions.MoveMeans | megalos_server/tools.py:1334-1372 | a forced pointer skips nothing, any other goes where the skip loop leads or is blocked when it raises, and the in-line run follows |
| Submissions.StandsWhereSent | megalos_server/tools.py:1334-1372 | a session sent to a client step, forced or without precondition, stands there with nothing stored besides |
| Submissions.SubmissionGets | megalos_server/tools.py:1288-1418 | the whole row of the submitting session after accepted content: escalated with the first due guardrail's id where it stands, or carried by its movement, or untouched for a wrong branch; gone only by completing under another session; the reply names where it stands |
| Submissions.FailureGoesUp | megalos_server/tools.py:539-573 | accepted content that a guardrail escalates or whose movement raises escalates the session below, which changes nothing else, and the reply says so |
| Submissions.OneGuardrail | megalos_server/tools.py:1291-1312 | with one guardrail, which escalates, accepted content escalates its session exactly when that guardrail is due |
| Submissions.OutputLengthEscalates | megalos_server/tools.py:457-459 | so an output_length guardrail escalates exactly content of more than max_chars characters |
| Submissions.KeywordEscalates | megalos_server/tools.py:446-449 | a keyword_match guardrail exactly content that some pattern matches |
| Submissions.StepCountEscalates | megalos_server/tools.py:450-452 | a step_count guardrail exactly when so many steps are stored, the submitted one counted |
| Submissions.RevisitEscalates | megalos_server/tools.py:453-456 | a step_revisit guardrail exactly when the calls of the run from empty tables brought the pointer of the session to the step so many times |
| Visits.CallCounts | megalos_server/state.py:433-450 | over any call, evictions included, the visit count of a client step grows by one exactly when the call brought the pointer of its session there |
| Visits.VisitsAreArrivals | megalos_server/state.py:433-450 | over every run on unchanged workflows it grows by the number of such calls |
| ToolEffects.SubmitRefuses | megalos_server/tools.py:981-1062 | a submission is refused by the first guard that fails, in the order of the source, and writes at most the terminal mark; when all pass, it is accepted exactly when its content passes the checks of its step |
| ToolEffects.FailedTry | megalos_server/tools.py:1261-1286 | content the schema rejects counts one try and changes nothing else of the row; from the last allowed try on the tries are exhausted, or the session below is escalated |
| ToolEffects.ArtifactTaken | megalos_server/tools.py:1067-1132 | an unknown artifact and a rejected one leave no trace; any but the output artifact is taken, kept if its definition asks for it, and moves nothing |
| ToolEffects.ReviseMeans | megalos_server/tools.py:1422-1511 | a revision is refused by the first guard that fails; otherwise the pointer is at the step, later entries and a call-step's own are gone, the child above a call-step is gone, and nothing else changed |
| Creations.EnterMeans | megalos_server/tools.py:1515-1623 | entering is refused by the first guard that fails, among them a context ref that holds no value; otherwise a fresh child at the first step is framed above its caller with the call-step, linked, and named |
| Creations.PushMeans | megalos_server/tools.py:1627-1800 | pushing is refused by the first guard that fails, among them three frames and five open sessions; otherwise a fresh digression is framed with the step its outer session paused at, and no other row is written |
| Creations.StartMeans | megalos_server/tools.py:822-900 | starting is refused by the first guard that fails, among them five open sessions; otherwise a root begins where the in-line run at the front leaves off, stamped with the live fingerprint, and is named |
| Creations.PopMeans | megalos_server/tools.py:1804-1867 | popping is refused by the first guard that fails, its own or of the outer session; otherwise exactly the digression goes and the reply names the outer session, its step and what it is to call there |
| Creations.DeleteMeans | megalos_server/tools.py:1877-1929 | deletion asks only that the session is there and not framed, and takes exactly it |
| StackSafety.SubmitKeeps | megalos_server/tools.py:981-1418 | submit_step keeps the stacks, or takes the submitted session off the top of its stack |
| StackSafety.StartAddsRoot | megalos_server/tools.py:822-900 | start_workflow changes nothing or adds one root with an empty stack |
| StackSafety.EnterPushes | megalos_server/tools.py:1515-1623 | enter_sub_workflow changes no stack or frames one child directly above a caller that had nothing above it |
| StackSafety.PushPushes | megalos_server/tools.py:1627-1800 | push_flow changes no stack or frames one child directly above a session that had nothing above it |
| StackSafety.PopRemovesIff | megalos_server/tools.py:1821-1867 | a pop whose session and outer session resolve, of an unescalated digression, removes exactly that session; any other pop changes no stack |
| StackSafety.PopKeepsWellFormedIff | megalos_server/tools.py:1840-1867 | pop_flow keeps the stacks if and only if one of its guards refuses or nothing is framed above the popped session |
| StackSafety.DeleteKeepsWellFormedIff | megalos_server/tools.py:1900-1919 | delete_session keeps the stacks if and only if it refused or nothing was framed above |
| StackSafety.ReviseKeepsWellFormedIff | megalos_server/tools.py:1486-1495 | revise_step keeps the stacks if and only if one of its guards refuses, the target is no call-step, nothing is framed above, or the frame above has nothing above it; it takes that frame along exactly when it goes back to a call-step |
| StackSafety.CallKeepsGood | megalos_server/tools.py:576-735 | every careful call keeps one session per depth, unframed roots and faithful legacy columns, and changes the view at the end of at most one stack |
| StackSafety.RunsKeepStacks | megalos_server/tools.py:1422-1867 | the same over every careful run of tool calls below the session cap |
| Soundness.NeighboursUnique | megalos_server/state.py:593-657 | in sound tables the two neighbour queries have at most one answer |
| ToolMoves.ApplySound | megalos_server/tools.py:981-1929 | every tool call, careless or evicting, keeps the tables sound |
| ToolMoves.ApplyMoves | megalos_server/tools.py:981-1929 | after any call each session rested, got the terminal mark, stored, moved on from its current step, was revised by this call, or is new at its first step |
| Versioning.CallFreezes | megalos_server/tools.py:367-380 | no call on any session makes a session progress whose stamp is not current |
| Versioning.FrozenWhileStale | megalos_server/tools.py:367-380 | over any run, with the live maps changing, a session never met by its own fingerprint keeps its step data, and its position or gets the mark |
| Versioning.MarkIsFinal | megalos_server/tools.py:351-357 | once the terminal mark is written it stays until the session is removed, also when a child finishes |
| Versioning.AddressedIsMarked | megalos_server/tools.py:319-381 | a call addressed to a stale or marked session only writes the mark and answers workflow_changed, unless an empty argument is refused before that |
| Progress.SkipKeepsOrder | megalos_server/tools.py:131-151 | the skip loop ends with every earlier step stored or skipped and no later one stored |
| Progress.RunKeepsOrder | megalos_server/tools.py:154-244 | so does the in-line run of MCP steps, cascading or not |
| Progress.MovesKeepOrder | megalos_server/tools.py:1292-1375 | outside revision a call keeps the order of a session of a workflow without branches, and a changed position is strictly later |
| Progress.RevisionKeepsOrderIff | megalos_server/tools.py:1467-1497 | a revision keeps the order if and only if every step from the current one up to the target is stored or skipped |
| Progress.StoredTargetIsCovered | megalos_server/tools.py:1467-1480 | so it does when the target is stored or not after the current step |
| Progress.UnreachedTargetBreaksOrder | megalos_server/tools.py:1470-1471 | a call-step never reached is accepted while any child is in flight, and breaks the order; only a step whose id is empty cannot be named |
| Progress.AcceptedSubmissionGoesOn | megalos_server/tools.py:1292-1375 | every accepted submission strictly increases the position of the session its reply names |
| Progress.CallKeepsOrder | megalos_server/tools.py:981-1929 | one call, evictions included, keeps every session of such a workflow in order |
| Progress.RunsKeepOrder | megalos_server/tools.py:107-151 | over every run with covered revisions each step before the current one is in exactly one of step_data and the skipped list, and no later one is stored |
| Contents.AcceptedContentIsStored | megalos_server/tools.py:1288-1372 | every accepted submission, MCP steps included, stores exactly its content under its step, and a completed child's final artifact under its parent's call-step; only MCP envelopes are stored besides, and one takes the content's place only when the movement asked for executes that very step again |
| Contents.KeptUnlessRunAgain | megalos_server/tools.py:1288-1372 | the content stays unless the submitted step runs again, which takes an MCP step and a request for it or an earlier one, and then a printed envelope stays |
| Contents.LastStepIsTheArtifact | megalos_server/tools.py:684-685 | the artifact handed over is the submitted content when the submitted step is the child's last |
| Contents.HandoverStoresUnlessBlocked | megalos_server/tools.py:727-735 | a handed-over child is always removed; the parent's call-step holds the artifact unless the skip loop raised, and then the parent's row is unwritten |
| Schemas.RunsConform | megalos_server/tools.py:393-404 | over every run on unchanged workflows and schemas, evictions included, every stored entry meets the schema of its step |
| Schemas.StoredEntriesConform | megalos_server/tools.py:706-729 | from empty tables, an entry under a call-step with an output schema is one the schema accepts, so is an entry of any step without intermediate artifacts, and one of a step with them meets the schema of its output artifact |
| Schemas.FinishedChildGoesIff | megalos_server/tools.py:706-735 | a finished called child whose caller resolves and stands at a call-step is gone after the submission if and only if that step has no output schema or the schema accepts the artifact, and then the caller's whole row is that of the hand-over; otherwise it stays and the caller is escalated where it stands |
| Schemas.FinishedChildStays | megalos_server/tools.py:687-711 | under a caller that does not resolve or stands at no call-step a finished called child stays: the reply is that of the caller's guard, or the caller is escalated for the drift, and nothing is stored in it |
| Escalation.SubmitPair | megalos_server/tools.py:981-1418 | a submission only marks or refuses, or concerns the submitted session, which is not escalated, and the one below it |
| Escalation.EscalatedRefuses | megalos_server/tools.py:1002-1009 | an escalated session refuses submission, entering, pushing and popping without a trace |
| Escalation.MovesOnlyFromAbove | megalos_server/tools.py:687-735 | over any call, evictions included, a session keeps its position and data, except when it is revised, or it (unless escalated) or the session framed directly above it is submitted to |
| Escalation.EscalatedMovesIff | megalos_server/tools.py:687-735 | an escalated session moves exactly when the call is a revision every guard accepts, or a submission that passes every guard, check and guardrail of the called child above, finishes it, is taken by the escalated session, which resolves, stands at a call-step and has no schema against the artifact, and does not block its skip loop; then it stands where that revision or movement leads |
| Escalation.HandoverMovesOn | megalos_server/tools.py:463-536 | over a call-step without branches such a hand-over always ends strictly later |
| Handovers.DeliveredIff | megalos_server/tools.py:687-726 | a finished called child is handed over exactly when its caller resolves, stands at a call-step, and the schema of that step, if any, accepts the artifact |
| Handovers.SubmitOutcome | megalos_server/tools.py:666-735 | what a submission makes of the session below: the movement decided on the tables before the call, with the child gone and the reply that names it, or at most the terminal mark |
| Stranding.BelowStaysOpen | megalos_server/tools.py:1043-1062 | a session that is not complete does not complete while the session above it stays, whatever is called |
| Stranding.CompletionIsStrandedIff | megalos_server/tools.py:727-735 | a submission is answered with the completion of a session still framed exactly when it hands its own session over to a framed one whose movement ends at completion; a called one is then stranded |
| Stranding.StrandedRefuses | megalos_server/tools.py:1002-1017 | every tool addressed to a finished called session that is still framed refuses, and writes at most the terminal mark |
| Stranding.StrandedCall | megalos_server/tools.py:666-735 | one careful call keeps it framed above its caller, with what it has stored, and stores nothing in the caller, unless it revises the caller's call-step |
| Stranding.StrandedRuns | megalos_server/tools.py:666-735 | so does every careful run without such a revision: its artifact is never handed over |
| Stranding.UnlinkingEnds | megalos_server/tools.py:1486-1495 | such a revision removes it |
| CallGraph.UnknownTargets | megalos_server/schema.py:495-513 | the first pass reports one error for every step that calls a workflow that is not loaded, workflow by workflow in the order of the steps |
| CallGraph.AllUnknownMeans | megalos_server/schema.py:495-513 | those errors are exactly the calls of workflows that are not loaded |
| CallGraph.CycleFinder.Step | megalos_server/schema.py:526-546 | one turn of the loop keeps the grey nodes equal to the path on the stack and shrinks a measure |
| CallGraph.CycleFinder.Visit | megalos_server/schema.py:519-546 | a search from a white node ends with it black and nothing grey, adding only cycle errors |
| CallGraph.WalkDescends | megalos_server/schema.py:519-546 | along any walk that takes no reported edge the position in a callees-first finishing order strictly decreases |
| CallGraph.FinishingOrderExcludesCycles | megalos_server/schema.py:519-546 | a finishing order with callees first, but for the closing edges of reported cycles, leaves no closed walk without such an edge |
| CallGraph.ValidateWorkflowCalls | megalos_server/schema.py:489-551 | it ends, and returns no errors exactly when every call target is loaded and the call graph is acyclic; every reported cycle is a real closed path, every cycle of the graph takes the closing edge of a reported one, and every unknown target is reported |
| Nesting.EnterFrames | megalos_server/tools.py:1572-1608 | an accepted call frames the target of a call-step of its caller's workflow |
| Nesting.RunsFollowGraph | megalos_server/tools.py:1572-1608 | over every careful run on unchanged workflows call frames lie along edges of the call graph |
| Nesting.CallRunsAreBounded | megalos_server/schema.py:489-551 | when the call graph is acyclic, the workflow types along consecutive call frames are pairwise different and there are fewer such frames than workflows |
| Nesting.AcceptedRunsAreBounded | megalos_server/schema.py:489-551 | on workflows the validator accepts, every careful run of tool calls from empty tables leaves runs of call frames of pairwise different types, fewer than there are workflows |
| ReplySemantics.SubmitTells | megalos_server/tools.py:1019-1072 | submitting the current step of a top session is never refused as out of order, pending or needing enter, and an advance names the session now on top and its step |
| ReplySemantics.EnterTells | megalos_server/tools.py:1515-1623 | entering at the current call-step frames a child at the first step of the target, or is refused for another reason |
| DryRun.PopReturned | megalos_server/dryrun.py:682-693 | the pops take off exactly the frames above the named session |
| DryRun.Ascend | megalos_server/dryrun.py:682-705 | after the pops the client's stack is the root and the server's frames by depth, and its active step is the top session's current step |
| DryRun.Descend | megalos_server/dryrun.py:488-537 | a descent keeps the client in step or ends the run, and is never refused as out of step |
| DryRun.SubmitTop | megalos_server/dryrun.py:727-738 | tables and reply are those of submit_step for the top session with exactly this step, content and branch |
| DryRun.Proceed | megalos_server/dryrun.py:706-843 | one turn makes one call and keeps the client in step: a submission for the top session at the step it stands at, the typed response as its content, the operator's branch exactly when the step has branches and none on a second try; or the entering of the called workflow |
| DryRun.ResponseIsStored | megalos_server/dryrun.py:802-841 | an accepted turn at a client step leaves exactly the typed response under it, or hands the finished child over with it stored |
| DryRun.DoneMeans | megalos_server/dryrun.py:640-705 | when the client's top session is complete, the root is if and only if the client has one frame, and otherwise the completed session is stranded above its caller |
| DryRun.Run | megalos_server/dryrun.py:640-843 | for every input the loop ends and never receives out_of_order_submission, sub_workflow_pending or call_step_requires_enter_sub_workflow; the calls are the start and one per turn, each on the tables its predecessors left, the k-th submission carries the k-th input, and no input is passed over; exit 0 exactly at a completion, of the session the last reply names, which is the root's if and only if the client is left with one frame |
| DryRun.SubmitKeepsStep | megalos_server/dryrun.py:660-843 | a submission for the client's top session leaves a reply from which the client knows the server's stack |
| DryRun.EnterKeepsStep | megalos_server/dryrun.py:488-537 | so does a descent, which stays below the number of workflows |
| Transactions.StepKeepsLock | megalos_server/db.py:107-118 | the lock holder works on the committed tables; they change at a commit only, to the operation's effect run alone |
| Transactions.RunsAreSerial | megalos_server/db.py:107-118 | over every interleaving the tables are the committed operations run one after the other, and every committed increment found its row |
| Transactions.RollbackLeavesTables | megalos_server/db.py:107-118 | a transaction that does not commit leaves both tables, evictions included |
| Transactions.FullPushRollsBack | megalos_server/state.py:238-250 | a push that finds the stack full inside its transaction can only roll back |
| Transactions.DepthCapHolds | megalos_server/state.py:232-256 | whatever the read-ahead checks saw, capped pushes keep every root at or below the cap |
| Transactions.NoIncrementLost | megalos_server/state.py:413-450 | over every interleaving the count of every session that is there, created before the run or during it, is its count at the start, 0 if it was not there, plus the committed increments |
| TokenBuckets.ConsumeKeepsSound | megalos_server/ratelimit.py:293-305 | tokens stay within 0 and capacity and the mark is the running maximum of the clock |
| TokenBuckets.AdmissionBound | megalos_server/ratelimit.py:228-261 | for any clock, the cost admitted between two calls is at most capacity plus rate times the growth of the running maximum |
| TokenBuckets.AdmittedAgainFrom | megalos_server/ratelimit.py:246-261 | a denied request is admitted again exactly from a computed time on, if its cost fits at all |
| TokenBuckets.RetryAfterExactIff | megalos_server/ratelimit.py:256-261 | retry_after tells exactly from when on, among all clock readings, the request is admitted if and only if the cost fits the bucket and the clock was not behind it |
| TokenBuckets.RetryAfterClockBehind | megalos_server/ratelimit.py:256-261 | a concrete bucket ahead of the clock whose denial names a time at which the request is denied again |
| TokenBuckets.RetryAfterTooDear | megalos_server/ratelimit.py:256-261 | a concrete cost above the capacity whose denial names a time although no time admits it |
| RateLimiting.IpStore.GetOrCreate | megalos_server/ratelimit.py:148-167 | counted sweep, promotion or insertion, and the cap |
| RateLimiting.IpStore.EvictIfOverCap | megalos_server/ratelimit.py:169-171 | exactly the least recently used keys over the cap go |
| RateLimiting.IpStore.SweepExpired | megalos_server/ratelimit.py:173-179 | exactly the keys idle past the TTL go, the order of the rest kept |
| RateLimiting.RateLimiter.TryConsumeAxis | megalos_server/ratelimit.py:228-291 | one axis changes by its specification and the other two do not |
| RateLimiting.RateLimiter.DropSession | megalos_server/ratelimit.py:263-266 | exactly that session's bucket goes |
| StoreRefinement.BoundedStoreIsInvisible | megalos_server/ratelimit.py:148-179 | with a forward clock, at most cap keys and idle_ttl * rate >= capacity, every answer equals that of a map that never forgets |
| StoreRefinement.ForgettingInvisibleIff | megalos_server/ratelimit.py:173-179 | forgetting a bucket cannot be noticed if and only if it would have been full |
| StoreRefinement.TryConsumeKeepsSorted | megalos_server/ratelimit.py:148-179 | the store order stays sorted by last refill |
| StoreRefinement.SweepRemovesPrefix | megalos_server/ratelimit.py:173-179 | a sweep removes a prefix of the order |
| StoreRefinement.EvictionRemovesLongestIdle | megalos_server/ratelimit.py:169-171 | eviction removes the longest idle keys |
| StoreRefinement.LookupMeans | megalos_server/ratelimit.py:148-179 | one access hands out the bucket of a key that outlives the sweep of every 64th access, or a full one; the key is then the most recently used, and a new one takes the place of the least recently used exactly when the survivors fill the cap |
| DenyLog.DenyLogDedupe.Emit | megalos_server/ratelimit.py:353-367 | sweep, window, promotion and cap of one call |
| DenyLog.BoundedLogIsInvisible | megalos_server/ratelimit.py:332-382 | with a forward clock, at most max keys and an idle limit of at least the window, every answer equals that of an unbounded map |
| DenyLog.EmissionsAreApart | megalos_server/ratelimit.py:332-382 | from any cache, under the same conditions, two lines the bounded cache lets through for one key are at least a window apart |
| DenyLog.EmitMeans | megalos_server/ratelimit.py:353-382 | a line is suppressed exactly when its key outlives the sweep and was let through less than a window ago; otherwise it is stamped and most recently used, and only the least recently used keys over the cap go |
| Throttling.ClosedSecondCount | megalos_panel/throttle.py:53-85 | every closed one-second interval has fewer than max_rps + 1 admissions, that is at most the ceiling of max_rps |
| Throttling.Throttle.Prune | megalos_panel/throttle.py:67-71 | exactly the events older than their window leave, and an event known to be stale does leave |
| Throttling.Throttle.WaitNeeded | megalos_panel/throttle.py:73-85 | for any ceilings: an exception exactly when a call ceiling of zero or less meets an empty window, otherwise no wait exactly when neither window blocks, and else after the wait each window that blocks has lost its oldest event, while at any time more than 0.01 s earlier some window that blocks still has all of its events |
| Throttling.Throttle.TryAcquire | megalos_panel/throttle.py:56-64 | every critical section of every thread keeps the ceilings over everything ever admitted; it fails exactly under a call ceiling of zero or less |
| Throttling.Throttle.Acquire | megalos_panel/throttle.py:53-65 | a lone acquire ends with an admission after at most as many sleeps as recorded events, or at once with the exception of a call ceiling of zero or less |
| Retrying.RetryWithBackoff | megalos_panel/retry.py:37-95 | it always ends, at the first call that stops it; sleeps are calls - 1 with the k-th min(base * 2^(k-1), cap); a budget error reports the number of calls |
| Retrying.CallsBounded | megalos_panel/retry.py:37-90 | at most R + T - 1 calls |
| Retrying.BackoffDoubles | megalos_panel/retry.py:93-95 | the first delay is the lesser of base and cap, and the delay doubles until it meets the cap and stays there |
| Retrying.CallsBoundTight | megalos_panel/retry.py:37-90 | and some failing provider makes exactly that many |
| Witnesses.PopUnderAFrame | megalos_server/tools.py:1840-1867 | a concrete pop that is accepted and orphans a frame |
| Witnesses.DeleteUnderFrames | megalos_server/tools.py:1900-1919 | a concrete deletion that is accepted and orphans frames |
| Witnesses.ReviseUnderTwoFrames | megalos_server/tools.py:1486-1495 | a concrete revision that is accepted and orphans a frame |
| Witnesses.EvictionOfAParent | megalos_server/state.py:180-199 | a concrete eviction that takes a root and leaves its frames |
| Witnesses.EvictionOfTheRevised | megalos_server/state.py:184-190 | a concrete eviction that must take the session revised last and leaves the one idle longer |
| Witnesses.EscalatedCallerGoesOn | megalos_server/tools.py:687-735 | a concrete caller escalated by its child's last failed try, moved on by the child's next submission, still escalated |
| Witnesses.CompletionStopsHalfWay | megalos_server/tools.py:727-735 | three concrete levels where the leaf's last submission is answered with the completion of the middle, still framed, while the root stands at its call-step |
| Witnesses.HandoverLosesArtifact | megalos_server/tools.py:727-735 | a concrete accepted last submission after which the child is gone and the caller's call-step holds nothing |
| Witnesses.SubmissionOverwritten | megalos_server/tools.py:1319-1372 | a concrete submission accepted at a revised MCP step, after which the step's entry is the envelope and not the content |
| Witnesses.ReviseToUnreachedCall | megalos_server/tools.py:1470-1471 | a concrete revision to a call-step never reached, after which earlier steps are neither stored nor skipped |

## Left out

- Registration, transport, caller identity, list_workflows, get_state, get_guidelines, generate_artifact: no session state changes there.
- Directives, gates, injected context, do_not lists, message texts and diagnostics: payload of the replies only; a reply is modelled down to what a client steers by.
- Field-by-field document checks, the registry of MCP servers and the args interpolation rule: `Workflows.WellFormedWorkflow` states what the engine needs of an accepted document.
- Unique step ids and forward default branches of MCP steps: the loader does not check either, the methods of Engine require them; what the loops do without them is in Termination and Divergence.
- MCP step preconditions: the loader does not check their form; the model takes every precondition as well formed.
- MCP calls: an arbitrary function from step id and resolved arguments to an envelope, per tool call; timeouts and the outcome kinds are inside it.
- JSON, JSON Schema, regular expressions, SHA-256, UTF-8 and canonicalisation of session ids: uninterpreted functions, or not needed.
- Empty session ids and arguments that are not strings: a session id is a token and a string argument a string, so only the refusals of an empty step id or workflow type are modelled.
- expire_sessions and clear_sessions: deletions by age and for tests; StackView.RemovalKeepsWellFormedIff covers any set of removed sessions.
- Time of day: one clock reading per tool call, as an integer; created_at is not kept, updated_at and completed_at are, as eviction orders by them.
- SQLite types and the columns' JSON text: a row is a record, a transaction one step, except in Transactions where its reads and writes are steps of their own.
- Tool calls by several threads at once: Transactions covers the writes of state.py; two tool calls interleaving between their transactions are not modelled.
- StackSafety.RunsKeepStacks: assumes runs below the session cap, where nothing is evicted; what evictions do is in Soundness, StoreMeaning, ToolMoves, Versioning and Progress.
- Progress.RunsKeepOrder: workflows with branches or force_branch guardrails have no such order, so they are not claimed for.
- Visits.VisitsAreArrivals: for steps a client answers; an MCP step is counted once per execution, and at creation when it is the first, which Submissions.SubmissionGets and Creations.StartMeans state call by call.
- DryRun.Run: one client, unchanged workflows, an acyclic call graph and room under the session cap; printing, scripted responses and the branch prompt's own loop are inputs.
- RateLimiting.IpStore.GetOrCreate: the bucket object shared with the store is written back by the caller instead of aliased.
- Floats of the limiter and the throttle: reals, so rounding is not covered.
- Token estimates, provider adapters and log emission: inputs to the panel and the limiter.
