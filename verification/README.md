# Verified model of the legal assistant's core

The repository is a FastAPI service in which language-model agents answer legal questions over an indexed
knowledge base, and in which some of their tool calls (sending an e-mail, posting to Slack) wait for a human
decision first. This project models the components whose correctness is a matter of protocol, graph, interval,
accounting or ordering logic, and proves properties of them for every input, run or reachable state.
`dafny verify dfyconfig.toml` checks everything.

**Human-approved sends.** `HitlResume` is a transition system. One agent action has one durable row; any number
of workers run `resume_after_decision()` or `retry()` on it; each committed transaction is one atomic event; a
worker may crash, or run arbitrarily late, between any two of them. Sends are bounded by ghost permits: one to
begin with, one more for a forced takeover while no result is stored, one more for an exception caught after the
tool started and before its result was committed, and one more for an outdated claim: `retry()` loads the action
before it claims it (server/src/application/services/hitl_resume.py:432-443), the claim is a bulk update of two other
columns, neither its commit nor the second `get()` refreshes the loaded object
(server/src/adapters/persistence/sqlalchemy/session.py:77-82, repositories/agent_action.py:60-121), and so a retry goes
on with the result it loaded then. The bound is tight. `_record_failure()` writes FAILED whatever the row says, and
two early returns leave the row EXECUTING, as the code does. Storing a result assigns a status the loaded object may
already have, and the session writes changed columns only, so everything is proved both for a write that restates
the status and for one that does not. Ownership is exclusive exactly when no live worker is taken over, and the answer
stays single under the same condition; workers that stay within the stale limit guarantee it.
`HitlResumeService` is the same code as a class over the row, each method proved to be a run of that system, and
`HitlDecisions` says what each decision leads to and how soon a claim may be taken over.

**Decisions.** `ApprovalLifecycle` is the approval row under any interleaving of approve, reject, edit, validate
and expiry, and `ApprovalService` the methods over an entity object and its row. Expiry overwrites the status
unconditionally, so a decided row may end EXPIRED, but nothing else about the decision can change. The two
systems are then run on one clock: the gated tool runs only on a durable APPROVE or EDIT of the requester.

**Plans.** `PlanGraph`, `PlanValidator` and `PlanScheduler` prove the plan validator exact: its three-state walk
against acyclicity, its worklist against reachability, its same-agent check against every schedule in which a
step starts once its own `depends_on` are done, and the whole of `validate()` against what it accepts and which
error it raises first.

**Personal data.** `PiiSpans` (overlap resolution), `PiiRedaction` (merge and replace) and `PiiReview` (the
classification loop and its composition with both) prove which of two overlapping detections wins, which text is
removed and which survives.

**Token accounting.** `TokenUsage` is a transition system of scopes, a shared budget, calls in flight and a tally;
`UsageMeters` has the classes whose fields it abstracts, each method proved to be a step of it; `TokenEstimates` says
which calls a check admits and how far beyond their estimates the calls it admits can go.

**Retrieval.** `RankFusion` builds the fused list in dictionaries, as the code does, over exact rationals;
`RankedSearch` proves what that list guarantees and how a search degrades around a failed component.
`EmbeddingCache`, `LruCache` and `RagIndex` each prove agreement with something simpler: the uncached provider, a
history read one key at a time, one uninterrupted run.

**Answers and history.** `Regenerate` and `StreamSlices` prove the streaming twin of the regenerate loop delivers
exactly what the non-streaming one returns. `HistoryFolding` says exactly when folding a conversation loses
nothing, and `OverlappingTurns` that turns which overlap change nothing about that. `Similarity` bounds the cosine
score.

`Common`, `Sorting` and `Text` hold shared vocabulary: results, stable sorting, whitespace.

## Properties that do not hold as documented

- A single answer per action is not certain: once a live worker is taken over, the new owner can commit an answer
  and the old one turn the finished action FAILED, or answer again (`HitlResume.TakeoverCanUndo`,
  `HitlResume.SlowWorkerBreaksSingleAnswer`). No live worker taken over is exactly what it needs
  (`HitlResume.SingleAnswerIffClean`, and `HitlResume.ExclusiveIffClean` for one owner at a time); workers within
  `HITL_RESUME_STALE_SECONDS` are enough for that (`HitlResume.PromptIsClean`), but a slow one that nobody takes over
  does no harm.
- A stored result does not rule out a second send. Two overlapping retries send twice with no force, no takeover and
  no exception near a send (`HitlResume.OverlappingRetriesSendTwice`). `HitlResume.SendBound` and
  `HitlResume.SendBoundReached` give the exact count. No claim is ever outdated exactly when no result is stored while
  a retry that loaded none waits for its claim (`HitlResume.NeverOutdatedIffLoadsHold`), and then forces and caught
  failures alone bound the sends (`HitlResume.SendBoundWhenLoadsHold`).
- The quota overshoot bound needs scopes that do not overlap: n of them exceed it with one call in flight at a time
  as soon as n - 1 calls pass the quota (`TokenUsage.OverlappingScopesOvershoot`). For at most k scopes at once the
  bound is k times as large (`TokenUsage.ScopesOvershootBound`), and it is met (`TokenUsage.ScopesBoundReached`).
- Overlap resolution depends on the order of the detections exactly when two overlapping ones are equally strong and
  no stronger kept one overlaps either (`PiiSpans.OrderMattersIffContested`): whichever comes first then wins
  (`PiiSpans.ContestDependsOnOrder`).
- The comment on `SUMMARIZATION_FETCH_LIMIT` says that a conversation beyond it is folded in at once. The events
  beyond the limit are skipped for good: `HistoryFolding.LosslessIffClean` is the exact condition and
  `HistoryFolding.LateFoldSkips` the failing family, however the conversation goes on.
- The two-component rule of the search counts only components that are consulted: a failing reranker is not met
  when no candidate was found (`RankedSearch.Search`).
- `RAGIndexer.index()` documents an empty `source_id` as an error, but refuses only blank non-empty ones; an empty
  one fails later, when the first batch is persisted, and not at all for a stream without text (`RagIndex.Index`).

## Model

| member | source | states |
|---|---|---|
| HitlResume.SendBound | server/src/application/services/hitl_resume.py:136-398 | in every run of any number of workers, tool calls number at most 1 + forced takeovers without a stored result + claims won by a retry that loaded no result although one is stored + exceptions caught between the call and its commit; none for a rejection |
| HitlResume.AtMostOneSend | server/src/application/services/hitl_resume.py:152-187 | at most one send unless somebody forces, an exception comes between a send and its commit, or a result is stored while a retry that loaded none waits: failures elsewhere, crashes, stalls and plain retries never cost a second one |
| HitlResume.SendBoundReached | server/src/application/services/hitl_resume.py:400-494 | every mix of forces, outdated claims and caught failures has a run that meets the bound exactly |
| HitlResume.SendBoundWhenLoadsHold | server/src/application/services/hitl_resume.py:432-443 | when no result is stored while a retry that loaded none waits for its claim, forces and caught failures alone bound the sends |
| HitlResume.NeverOutdatedIffLoadsHold | server/src/application/services/hitl_resume.py:432-443 | no claim is outdated, however a run goes on, if and only if no result was stored while a retry that loaded none waited |
| HitlResume.StoreBehindRetrySends | server/src/application/services/hitl_resume.py:432-587 | a result stored behind such a retry always lets it claim outdated and send once more |
| HitlResume.OverlappingRetriesSendTwice | server/src/application/services/hitl_resume.py:432-508 | two retries that both loaded the action before a result was stored send twice, with no force, no takeover and no exception near a send |
| HitlResume.SendInvStep | server/src/application/services/hitl_resume.py:510-587 | each transaction moves a permit, spends it, or mints it with a force, an outdated claim or a caught failure |
| HitlResume.RejectionRuns | server/src/application/services/hitl_resume.py:258-266 | no worker of a rejected action ever gets to the tool |
| HitlResume.AnswerBound | server/src/application/services/hitl_resume.py:308-345 | committed answers and live owners together number at most 1 + takeovers |
| HitlResume.ExclusiveIffClean | server/src/application/services/hitl_resume.py:188-216 | one owner in every state of a run if and only if no live worker is taken over |
| HitlResume.PromptIsClean | server/src/application/services/hitl_resume.py:81-92 | workers within the stale limit are never taken over alive |
| HitlResume.SingleAnswer | server/src/application/services/hitl_resume.py:308-345 | while no live worker is taken over there is exactly one answer if the action is COMPLETED or REJECTED and none otherwise, and a completed action has its result stored |
| HitlResume.FinishedForGood | server/src/application/services/hitl_resume.py:308-345 | while no live worker is taken over a finished row never changes again, and without an outdated claim a stored result is never replaced |
| HitlResume.PromptAnswersHold | server/src/application/services/hitl_resume.py:81-92 | with prompt workers the answer is single throughout and a finished row never changes again |
| HitlResume.SingleAnswerIffClean | server/src/application/services/hitl_resume.py:188-345 | the answer stays single, however a run goes on from any of its states, if and only if no live worker was taken over in it (or there is no plan or originating event, and never an answer) |
| HitlResume.TakeoverCanUndo | server/src/application/services/hitl_resume.py:589-634 | after any takeover of a live worker the new owner can answer and the old one turn the answered action FAILED |
| HitlResume.SlowWorkerBreaksSingleAnswer | server/src/application/services/hitl_resume.py:589-634 | a slow worker commits a second answer after one send and no force, or turns a finished action FAILED |
| HitlResume.OwnInvStep | server/src/application/services/hitl_resume.py:218-345 | each transaction keeps one owner, its view of the stored result, and answers equal to finished rows |
| HitlDecisions.UndisturbedCall | server/src/application/services/hitl_resume.py:183-345 | a call that nothing disturbs, on a waiting or failed action with nothing stored: APPROVE and EDIT send exactly once and end COMPLETED with the result stored, REJECT sends nothing and ends REJECTED |
| HitlDecisions.EachDecisionRuns | server/src/application/services/hitl_resume.py:183-345 | there is such a call for each of the three decisions |
| HitlDecisions.StatusTellsDecision | server/src/application/services/hitl_resume.py:334-336 | in every run COMPLETED means APPROVE or EDIT and REJECTED means REJECT |
| HitlDecisions.NoEarlyTakeover | server/src/application/services/hitl_resume.py:81-92 | for staleSeconds after a claim is won or a result stored nobody takes the action over |
| HitlDecisions.StaleIsTakenOver | server/src/application/services/hitl_resume.py:432-494 | after that a plain retry does, once a result is stored or the decision was REJECT |
| HitlResumeService.ActionTable.ClaimRow | server/src/adapters/persistence/sqlalchemy/repositories/agent_action.py:78-121 | the conditional update wins exactly on a claimable or stale row and does nothing else |
| HitlResumeService.ActionTable.StoreResult | server/src/application/services/hitl_resume.py:560-587 | the result is durable before anything else can fail |
| HitlResumeService.ActionTable.CommitAnswer | server/src/application/services/hitl_resume.py:308-345 | answer and final status are one transaction |
| HitlResumeService.ActionTable.CommitFailure | server/src/application/services/hitl_resume.py:589-634 | FAILED is written whatever the row holds, or nothing is |
| HitlResumeService.ActionTable.AuthorizeAndRun | server/src/application/services/hitl_resume.py:510-560 | one permission check, then one tool call or a refusal or a caught exception, as one event |
| HitlResumeService.ActionTable.FreshToolResult | server/src/application/services/hitl_resume.py:510-587 | a fresh call is a run ending with a stored result exactly when nothing raised, the refusal included, and otherwise in a caught failure |
| HitlResumeService.ActionTable.ReadAndRun | server/src/application/services/hitl_resume.py:218-269 | exactly when the tool is called, when the graph can be resumed and with which result: a stored one is reused without a send; the two early returns leave the status alone |
| HitlResumeService.ActionTable.TryClaim | server/src/application/services/hitl_resume.py:188-216 | the claim won, or the outcome that ends the call with the row as it was |
| HitlResumeService.ActionTable.ResumeAndCommit | server/src/application/services/hitl_resume.py:271-398 | one more answer and a final status, or a recorded failure and nothing else |
| HitlResumeService.ActionTable.RunClaimed | server/src/application/services/hitl_resume.py:218-398 | what a claimed worker does is a run of the transition system by that worker alone; a missing row or plan leaves the status alone, any exception ends FAILED |
| HitlResumeService.ActionTable.ResumeAfterDecision | server/src/application/services/hitl_resume.py:136-398 | the whole call is such a run; its outcome, status, stored result, send and answer for each decision follow exactly from the claim, what the session saw and what raised |
| HitlResumeService.ActionTable.RetryResume | server/src/application/services/hitl_resume.py:400-508 | confirmation is asked exactly for an unforced takeover that may have sent, refusal is the answer exactly to a finished action or a claim in progress |
| HitlResumeService.ActionTable.constructor | server/src/application/services/hitl_resume.py:113-134 | a new action is an initial state of the transition system |
| ApprovalLifecycle.OneDurableDecision | server/src/application/services/approval_lifecycle.py:559-721 | at most one decision is ever recorded, by the requester, with exactly one compliance row, and every caller told so agrees |
| ApprovalLifecycle.DecisionIsFinal | server/src/application/services/approval_lifecycle.py:625-771 | after a decision only the status may change, and only to EXPIRED |
| ApprovalLifecycle.LapsedStays | server/src/application/services/approval_lifecycle.py:723-771 | an expired row stays expired |
| ApprovalLifecycle.LapsedIsLate | server/src/application/services/approval_lifecycle.py:723-771 | in every run the status is overwritten by an expiry only at or after the deadline |
| ApprovalLifecycle.ValidMeansApproved | server/src/application/services/approval_lifecycle.py:197-240 | whoever is told that the approval is valid can rely on a durable APPROVE, in every run |
| ApprovalLifecycle.ValidatesIffApproved | server/src/application/services/approval_lifecycle.py:197-240 | it validates for its requester exactly while an APPROVE is recorded, not overwritten by an expiry and before the deadline; a REJECT or EDIT never does |
| ApprovalLifecycle.DecisionIsTheRequest | server/src/application/services/approval_lifecycle.py:342-498 | the recorded decision is what one session asked for: its user, its reason, its payload for an EDIT and no other, before the deadline |
| ApprovalLifecycle.DecisionInvStep | server/src/application/services/approval_lifecycle.py:559-721 | each transaction keeps a recorded decision in every durable column |
| ApprovalLifecycle.ToolRunsOnlyWhenApproved | server/src/application/services/hitl_resume.py:136-187 | both rows on one clock: a send needs a durable APPROVE or EDIT of the requester, and the exact send bound holds |
| ApprovalService.ApprovalTable.ExpireRow | server/src/application/services/approval_lifecycle.py:723-771 | expiry writes the status alone, whatever it was |
| ApprovalService.ApprovalTable.GetWaitingEntity | server/src/application/services/approval_lifecycle.py:559-623 | ownership before expiry before status, each with its own refusal; an entity is returned exactly when all three pass |
| ApprovalService.ApprovalTable.SaveDecision | server/src/application/services/approval_lifecycle.py:625-721 | the conditional write and the compliance row happen together or not at all, and the entity reloads the winner |
| ApprovalService.ApprovalTable.Approve | server/src/application/services/approval_lifecycle.py:342-391 | a run of the lifecycle; recorded as APPROVED exactly when actionable and nothing raises, and otherwise the refusal that applies |
| ApprovalService.ApprovalTable.Reject | server/src/application/services/approval_lifecycle.py:393-442 | likewise for a rejection, recorded as REJECTED |
| ApprovalService.ApprovalTable.Edit | server/src/application/services/approval_lifecycle.py:444-498 | likewise for an edit with its payload, recorded as EDITED |
| ApprovalService.ApprovalTable.Validate | server/src/application/services/approval_lifecycle.py:197-274 | executable exactly when owned, unexpired and approved, and otherwise the refusal that applies; only an expiry changes the row |
| PlanValidator.DependencyWalk.Visit | server/src/agentic/planning/validator.py:386-424 | visiting is always the current path and visited is closed under dependencies; failing means a cycle |
| PlanValidator.ValidateDependencyGraph | server/src/agentic/planning/validator.py:354-383 | passes if and only if no step depends on itself |
| PlanValidator.TransitiveDependencies | server/src/agentic/planning/validator.py:171-194 | exactly the ids reached by one or more depends_on edges, cyclic graphs included |
| PlanValidator.Ancestors | server/src/agentic/planning/validator.py:141-147 | each step's transitive dependencies |
| PlanValidator.GroupByAgent | server/src/agentic/planning/validator.py:149-152 | each agent's steps, all of them, in order |
| PlanValidator.UnorderedPair | server/src/agentic/planning/validator.py:154-168 | the pair reported is the first unordered one of the group; reporting none means every pair is ordered |
| PlanValidator.ValidateAgentConcurrency | server/src/agentic/planning/validator.py:109-168 | passes only if every two steps of one agent are ordered, and otherwise names such a pair |
| PlanValidator.ValidateStepDependencies | server/src/agentic/planning/validator.py:315-351 | passes if and only if dependencies are distinct, non-blank, known and not the step itself, and otherwise names the first problem of the first bad one |
| PlanValidator.ValidateSteps | server/src/agentic/planning/validator.py:243-284 | the first step with a bad field, with the first of its problems, each said of the step |
| PlanValidator.ValidateDependencies | server/src/agentic/planning/validator.py:287-312 | the first step with a bad dependency |
| PlanValidator.ValidatePlan | server/src/agentic/planning/validator.py:74-106 | passes if and only if the plan is well formed and its agents ordered; otherwise the first failing check |
| PlanValidator.Validate | server/src/agentic/planning/validator.py:45-71 | the plan back if and only if accepted; otherwise the first error, the size limit last |
| PlanValidator.AcceptedMeans | server/src/agentic/planning/validator.py:45-424 | an accepted plan in its own terms: 1 to max steps, unique ids, filled-in fields, dependencies on other steps listed once, no step that needs itself, and of two steps of one agent one needs the other |
| PlanValidator.DistinctIffSameSize | server/src/agentic/planning/validator.py:227-240 | comparing a list with its set detects exactly the duplicates |
| PlanScheduler.SameAgentCheckIsExact | server/src/agentic/planning/validator.py:109-168 | for a plan passing every other check, the check passes if and only if no reachable schedule has two running steps of one agent |
| PlanScheduler.UnorderedOverlap | server/src/agentic/planning/validator.py:118-136 | two unordered steps do run at once in some schedule |
| PlanScheduler.OrderedNeverOverlap | server/src/agentic/planning/validator.py:131-136 | two ordered steps never do |
| PlanScheduler.ClosedSetRuns | server/src/agentic/planning/validator.py:118-127 | any dependency-closed set of steps can be run to completion on its own |
| PlanScheduler.Progress | server/src/agentic/planning/validator.py:354-383 | while a step is unfinished, some step can start or is running |
| PlanScheduler.RemainingDrops | server/src/agentic/planning/validator.py:354-383 | every event lowers the measure by one |
| PlanScheduler.RunsAreShort | server/src/agentic/planning/validator.py:354-383 | no run has more than two events a step |
| PlanScheduler.EveryRunFinishes | server/src/agentic/planning/validator.py:354-424 | a run that cannot go on has started and finished every step exactly once |
| PlanScheduler.FinishBeforeStart | server/src/agentic/planning/validator.py:171-194 | a step starts only after all its transitive dependencies finished |
| PlanScheduler.RunsAreInPlanOrder | server/src/agentic/planning/validator.py:171-194 | the schedules of a well-formed plan are exactly the sequences in which every step starts at most once, after everything its own depends_on lists has finished, and finishes at most once, after it started |
| PlanScheduler.RunCounts | server/src/agentic/planning/validator.py:354-383 | how often a run starts and finishes a step is read off its two ends |
| PiiSpans.ResolveOverlaps | server/src/agentic/guardrails/pii.py:147-199 | the loop computes the greedy resolution in strength order, returned by start |
| PiiSpans.ResolvedIsMaximal | server/src/agentic/guardrails/pii.py:147-199 | kept spans are disjoint and in order, and every dropped one overlaps a kept one at least as strong |
| PiiSpans.DroppedGivesWay | server/src/agentic/guardrails/pii.py:147-199 | every detection left out shares a character with a kept one of higher score, or of equal score and a category at least as high |
| PiiSpans.StrongestIsKept | server/src/agentic/guardrails/pii.py:147-199 | a detection scoring higher than all that share a character with it is kept whatever its category; at equal score the higher category is |
| PiiSpans.CategoriesAre | server/src/agentic/guardrails/pii.py:71-85 | which entities are structured ids, contacts and named entities |
| PiiSpans.OrderDoesNotMatter | server/src/agentic/guardrails/pii.py:147-199 | unless two detections are contested, every permutation gives the same result |
| PiiSpans.OrderMattersIffContested | server/src/agentic/guardrails/pii.py:147-199 | every permutation gives the same result if and only if no two overlapping detections are equally strong and both clear of every stronger kept one |
| PiiSpans.ContestDependsOnOrder | server/src/agentic/guardrails/pii.py:147-199 | of two contested detections, whichever is put first is kept and the other dropped |
| PiiRedaction.MergeSpans | server/src/agentic/guardrails/pii.py:205-226 | the loop merges same-type spans separated only by spaces |
| PiiRedaction.MergedIsMaximal | server/src/agentic/guardrails/pii.py:205-226 | every span lies in a cut of its own type, every cut starts and ends with spans of its type, and no two neighbours could be merged |
| PiiRedaction.TouchingStayApart | server/src/agentic/guardrails/pii.py:202-226 | spans with nothing between them are not merged |
| PiiRedaction.RedactedReads | server/src/agentic/guardrails/pii.py:226-239 | each cut reads [REDACTED:type] and the text around it is as it was |
| PiiRedaction.CopyAround | server/src/agentic/guardrails/pii.py:226-239 | one pass left to right equals replacing the merged spans one at a time from right to left |
| PiiRedaction.RedactSpans | server/src/agentic/guardrails/pii.py:205-239 | whatever order the detections come in, redaction equals that right-to-left reference on them sorted by start |
| PiiRedaction.RedactionKeepsTheRest | server/src/agentic/guardrails/pii.py:205-239 | exactly the characters outside merged spans are copied, once each and in order; a merged span covers redacted spans and spaces only |
| PiiRedaction.LayoutKeepsTheRest | server/src/agentic/guardrails/pii.py:226-239 | the copied positions are the uncovered ones |
| PiiRedaction.MergedCovers | server/src/agentic/guardrails/pii.py:205-226 | merging covers every redacted span, and otherwise only spaces |
| PiiReview.ClassifyAll | server/src/agentic/guardrails/pii.py:300-338 | what is reported and what is replaced, in order |
| PiiReview.RedactableAre | server/src/agentic/guardrails/pii.py:307-330 | exactly the kept detections of a recognised category that are not in the evidence are redacted |
| PiiReview.FlaggedIff | server/src/agentic/guardrails/pii.py:242-262 | a detection is flagged exactly when it is a contact or named entity whose stripped text occurs in the evidence regardless of case |
| PiiReview.StripIs | server/src/agentic/guardrails/pii.py:257-257 | strip takes whitespace from both ends and nothing else |
| PiiReview.ReportedInTurn | server/src/agentic/guardrails/pii.py:300-338 | each kept detection of a category is reported in its turn with its category and action, and no other |
| PiiReview.Review | server/src/agentic/guardrails/pii.py:273-342 | a blank text is returned untouched; otherwise the composition of resolution, classification and redaction |
| PiiReview.FlaggedIsKept | server/src/agentic/guardrails/pii.py:300-342 | among any disjoint kept detections, a flagged one is copied whole from its own place, through merging and replacing |
| PiiReview.FlaggedSurvives | server/src/agentic/guardrails/pii.py:297-342 | every flagged detection is copied whole from its own place into the result, although neighbours are merged across spaces |
| PiiReview.UnmatchedIsCut | server/src/agentic/guardrails/pii.py:300-342 | among any disjoint kept detections, no character of another recognised one is copied |
| PiiReview.UnmatchedIsRedacted | server/src/agentic/guardrails/pii.py:297-342 | no character of any other recognised detection is copied |
| PiiReview.StructuredIsRedacted | server/src/agentic/guardrails/pii.py:318-320 | a structured id is redacted even when the evidence quotes it |
| PiiReview.UnknownIsKept | server/src/agentic/guardrails/pii.py:307-314 | a detection of no category is left as it was |
| TokenUsage.TallyIsComplete | server/src/core/usage.py:182-259 | once scopes have closed the tally equals all recorded calls but those that outlived their scope, in every field |
| TokenUsage.FirstRefusalIsFinal | server/src/core/usage.py:124-172 | after the first refusal it is never replaced, every later check in any scope, closed ones included, refuses with it, and no new call goes out |
| TokenUsage.RefusalSticks | server/src/core/usage.py:124-158 | the budget keeps its first refusal in every run |
| TokenUsage.OvershootBound | server/src/core/usage.py:124-158 | with one scope at a time, p calls in flight and m tokens a call, the total is at most quota + p * m besides late calls |
| TokenUsage.ScopesOvershootBound | server/src/core/usage.py:124-158 | with at most k scopes at once, p calls in flight and m tokens a call, the total is at most k * (quota + p * m) besides late calls |
| TokenUsage.ScopesBoundReached | server/src/core/usage.py:124-158 | a quota of c calls of m tokens is overshot to exactly k * (quota + m) by k scopes with one call in flight at a time |
| TokenUsage.OverlappingScopesOvershoot | server/src/core/usage.py:225-259 | with at most n scopes open, one call in flight and m tokens a call throughout, the total passes quota + m once (n - 1) * m passes the quota, no call being late |
| TokenEstimates.AdmittedIffWithinQuota | server/src/core/usage.py:124-158 | until the first refusal a check lets a call through exactly when closed scopes, own scope and the estimate together are within the quota, and the refusal says all three |
| TokenEstimates.EstimatedOvershoot | server/src/core/usage.py:124-158 | when every call uses at most its estimate and o more, one scope at a time with p calls in flight records at most quota + o and what p - 1 more calls may use, besides late calls |
| TokenEstimates.OneCallOvershoot | server/src/core/usage.py:124-135 | with one call in flight at a time the quota is passed by at most one call's output, whatever the estimates |
| TokenEstimates.OneCallOvershootReached | server/src/core/usage.py:124-135 | and a call can go that far |
| UsageMeters.UsageMeter.Add | server/src/core/usage.py:79-93 | one call more in every count |
| UsageMeters.UsageMeter.Merge | server/src/core/usage.py:113-122 | the other meter's counts added, its own refusal kept |
| UsageMeters.UsageMeter.Check | server/src/core/usage.py:124-158 | the verdict of the transition system: without an earlier refusal it raises exactly when used and estimated tokens exceed the quota, with both in the error; nothing without a budget |
| UsageMeters.Request.constructor | server/src/core/usage.py:175-222 | a new request is an initial state of the transition system |
| UsageMeters.UsageContext.OpenScope | server/src/core/usage.py:225-245 | a new meter on the budget in effect; the Open step of the transition system on this request |
| UsageMeters.UsageContext.CloseScope | server/src/core/usage.py:245-259 | the previous meter restored; its Close step, so budget and tally of the opening rise by the scope's counts |
| UsageMeters.UsageContext.CheckQuota | server/src/core/usage.py:262-273 | the current scope's check is its Check step, even after the scope has closed, and a no-op outside one; it raises exactly when the system refuses |
| UsageMeters.UsageContext.RecordUsage | server/src/core/usage.py:276-297 | the current scope's count is its Record step, late or in time; a no-op outside one |
| RankFusion.MergeResults | server/src/rag/hybrid_retriever.py:434-475 | the dictionary passes equal the merge whose guarantees MergeKeeps states |
| RankFusion.MergeKeeps | server/src/rag/hybrid_retriever.py:434-475 | first chunk, higher score, one embedding per model and dimension, those of both hits, the first hit's winning |
| RankFusion.AddHit | server/src/rag/hybrid_retriever.py:408-423 | one hit keeps the dictionaries equal to the formula and the merged hits of everything met so far |
| RankFusion.AddList | server/src/rag/hybrid_retriever.py:403-423 | likewise for one ranked list |
| RankFusion.RrfScored | server/src/rag/hybrid_retriever.py:391-431 | the dictionaries give exactly the list the formula defines |
| RankedSearch.EachChunkOnce | server/src/rag/hybrid_retriever.py:391-431 | every chunk of any list exactly once, with score exactly the sum of 1/(k+rank) |
| RankedSearch.FusedScoreIs | server/src/rag/hybrid_retriever.py:391-431 | a chunk at rank m of one list and n of the other scores 1/(k+m) + 1/(k+n), a list without it giving nothing |
| RankedSearch.FusedHitsAre | server/src/rag/hybrid_retriever.py:391-475 | a fused hit has the chunk of the first hit and the highest score of its hits |
| RankedSearch.BestFirstThenFirstSeen | server/src/rag/hybrid_retriever.py:425-431 | scores never rise, ties in first-seen order |
| RankedSearch.DominantComesFirst | server/src/rag/hybrid_retriever.py:372-389 | a chunk above another in every list having that other comes strictly first |
| RankedSearch.RescaledInRange | server/src/rag/hybrid_retriever.py:356-370 | rescaled scores lie in [0, 1] and keep the order |
| RankedSearch.RescaledExact | server/src/rag/hybrid_retriever.py:356-370 | without repeats in a list the order is kept strictly and 1 means first in every list |
| RankedSearch.RescaleIs | server/src/rag/hybrid_retriever.py:356-370 | the rescaled score is the score over lists / (k + 1), and at most 1 |
| RankedSearch.Search | server/src/rag/hybrid_retriever.py:220-354 | unavailable exactly when two consulted components fail; the mode names the one that did; cancellation always propagates; the fallback is the rescaled fused order |
| RankedSearch.BrokenMeans | server/src/rag/hybrid_retriever.py:220-354 | which components count as failed, and when the reranker is consulted |
| RankedSearch.ListsAre | server/src/rag/hybrid_retriever.py:308-309 | what is fused: semantic hits before keyword hits, empty and failed ones left out |
| RankedSearch.CandidatesAre | server/src/rag/hybrid_retriever.py:309-330 | the reranker gets the best fused hits, best first, at most the limit |
| LruCache.Cache.Get | server/src/adapters/cache/memory_cache.py:36-49 | returns what the history alone says about the key |
| LruCache.Cache.Set | server/src/adapters/cache/memory_cache.py:51-58 | the key holds the value, with its expiry, and the cache is within its size |
| LruCache.Cache.Delete | server/src/adapters/cache/memory_cache.py:60-61 | the key is gone |
| LruCache.Cache.Exists | server/src/adapters/cache/memory_cache.py:63-64 | whether a lookup would answer |
| LruCache.Cache.Clear | server/src/adapters/cache/memory_cache.py:66-67 | everything is gone |
| LruCache.HoldsExactlyTheLive | server/src/adapters/cache/memory_cache.py:36-71 | after any history the store is within its size and holds exactly the keys that were neither removed nor passed by max_size newer ones, each with its last value |
| LruCache.Survives | server/src/adapters/cache/memory_cache.py:36-58 | a key neither removed nor expired answers while fewer than max_size others were set or hit since it was |
| LruCache.SetAnswers | server/src/adapters/cache/memory_cache.py:36-58 | a key just set answers until its expiry, that moment excluded |
| LruCache.SurvivesExactly | server/src/adapters/cache/memory_cache.py:51-58 | with only sets and hits, exactly then |
| LruCache.OrderIsRecency | server/src/adapters/cache/memory_cache.py:18-25 | the store's order is the order of last set or hit |
| EmbeddingCache.KeysAreDistinct | server/src/rag/caching_embedding_provider.py:55-58 | two models sharing a cache never share a key, whatever their names contain |
| EmbeddingCache.CachingProvider.constructor | server/src/rag/caching_embedding_provider.py:37-58 | a provider may start on any warm cache whose entries are right |
| EmbeddingCache.CachingProvider.LookUp | server/src/rag/caching_embedding_provider.py:68-71 | whatever the cache drops, what is found is right and what is missed is noted in order |
| EmbeddingCache.CachingProvider.Fill | server/src/rag/caching_embedding_provider.py:82-91 | back-filling completes the batch and leaves only correct entries |
| EmbeddingCache.CachingProvider.Embed | server/src/rag/caching_embedding_provider.py:60-94 | the uncached vectors in input order, from at most one call with exactly the misses, all of which the cache is then given; it fails only if that call did, and the cache stays correct even then |
| EmbeddingCache.CachingProvider.EmbedOne | server/src/rag/caching_embedding_provider.py:96-107 | the uncached vector, or none exactly when its one call failed; at most one call, with that text |
| EmbeddingCache.SelectedAreMisses | server/src/rag/caching_embedding_provider.py:71-80 | the texts sent are those whose lookup failed |
| RagIndex.Database.Persist | server/src/application/services/rag_index_persistence.py:76-236 | for any batch, the empty one included: every row or none, exactly when model, dimension, source key, vectors and id prefixes are good and the database does not fail; the tables stay consistent |
| RagIndex.WriteRows | server/src/application/services/rag_index_persistence.py:166-200 | the upserts give the chunk-by-chunk result, and fail exactly on an id without the table's prefix |
| RagIndex.IndexBatch | server/src/rag/indexer.py:217-294 | a refused batch changes nothing |
| RagIndex.AddChunk | server/src/rag/indexer.py:156-166 | a full batch is committed and cleared |
| RagIndex.ReadChunk | server/src/rag/indexer.py:147-166 | one pass keeps committed plus pending equal to the searchable chunks read |
| RagIndex.ReadStream | server/src/rag/indexer.py:147-166 | the loop ends with everything read, or stopped at the first refused chunk or batch |
| RagIndex.Index | server/src/rag/indexer.py:110-215 | success stores exactly the non-blank chunks and counts them; a failure leaves exactly the first whole batches and says which thing was refused |
| RagIndex.LastChunkIsStored | server/src/application/services/rag_index_persistence.py:166-202 | after a complete run every stored id has the text, metadata and vector of its last non-blank chunk |
| RagIndex.OthersAreUntouched | server/src/application/services/rag_index_persistence.py:166-202 | ids that were not indexed and vectors of other models are left as they were |
| RagIndex.SourceIsFirst | server/src/application/services/rag_index_persistence.py:135-165 | the source row is made once, from the first chunk; an existing one stays |
| RagIndex.SourceIdFits | server/src/application/services/rag_index_persistence.py:278-292 | a source id that fits is kept, any other becomes one that fits, and a stored id is stable |
| RagIndex.SearchableAre | server/src/rag/indexer.py:147-155 | exactly the chunks with non-blank text are indexed, as often as they were read |
| RagIndex.ReadMeans | server/src/rag/indexer.py:296-330 | the stream stops at the first chunk of another source or without an id |
| RagIndex.PutAppends | server/src/rag/indexer.py:146-176 | batch boundaries do not show in the tables |
| RagIndex.PutAbsorbs | server/src/application/services/rag_index_persistence.py:166-202 | a complete run absorbs any stopped one before it |
| RagIndex.InterruptedIndexingConverges | server/src/rag/indexer.py:146-176 | after any number of runs stopped anywhere, a complete run gives the tables of one uninterrupted run |
| RagIndex.IndexUntilDone | server/src/rag/indexer.py:110-215 | index() called again after each failure, wherever it stopped: a success leaves the tables of one uninterrupted run, and until then they hold first chunks only |
| StreamSlices.Token | server/src/agentic/orchestration/orchestrator.py:140-140 | one pattern match: at most one word with its spaces, never ending inside a word |
| StreamSlices.Slices | server/src/agentic/orchestration/orchestrator.py:173-190 | slices rejoin to exactly the text; all but the last end on whitespace and have at least 48 characters, and none is longer than its last word makes it |
| Regenerate.BoundedAndDistinct | server/src/agentic/orchestration/orchestrator.py:843-868 | at most max_attempts executions, on pairwise different threads, the first on the request's own |
| Regenerate.ThreadsDiffer | server/src/agentic/orchestration/orchestrator.py:861-861 | no two attempts share a thread id, whatever the base id |
| Regenerate.OnlyBlockedAreDiscarded | server/src/agentic/orchestration/orchestrator.py:1076-1104 | only attempts whose review blocked them and that hold no action are thrown away, so a pending action always reaches the response |
| Regenerate.TurnSays | server/src/agentic/orchestration/orchestrator.py:940-1143 | the response from the last execution alone: the pending, failure or blocked message exactly when it applies, otherwise the reviewed text with the citations, sources and metadata of the draft, which nothing else has |
| Regenerate.UnplannedTurnSays | server/src/agentic/orchestration/orchestrator.py:110-127 | a turn that was not run carries the planner's error, or the message with its step counts |
| Regenerate.Orchestrator.Answer | server/src/agentic/orchestration/orchestrator.py:678-1184 | the turn of the deciding attempt, after exactly the executions up to it |
| Regenerate.Orchestrator.AnswerInChunks | server/src/agentic/orchestration/orchestrator.py:1186-1572 | the same executions; chunks that spell out the same response and end with it, or nothing on failure |
| Regenerate.Orchestrator.Handle | server/src/agentic/orchestration/orchestrator.py:451-476 | a refused call turns any outcome into the refusal |
| Regenerate.Orchestrator.Stream | server/src/agentic/orchestration/orchestrator.py:478-516 | the same outcome as Handle, and no text is sent when a call was refused |
| Regenerate.InSlices | server/src/agentic/orchestration/orchestrator.py:1540-1549 | slices then one empty final chunk deliver the response |
| HistoryFolding.LosslessIffClean | server/src/application/services/conversation_summarization.py:117-177 | over any conversation with failing calls, the folded events are exactly a prefix, each folded once in order, if and only if every successful call was within the fetch limit and split distinct times |
| OverlappingTurns.OverlapLosesNothingIffClean | server/src/application/services/conversation_summarization.py:100-162 | however turns of a conversation overlap, nothing is lost, however they go on, if and only if every successful fold was clean |
| OverlappingTurns.AloneIsEnsured | server/src/application/services/conversation_summarization.py:100-162 | a turn that nothing interrupts is one call of ensure_summarized() |
| HistoryFolding.FoldStep | server/src/application/services/conversation_summarization.py:130-148 | one successful call loses nothing exactly when it is clean |
| HistoryFolding.FoldIs | server/src/application/services/conversation_summarization.py:117-131 | what a call folds: from the boundary or the fetch limit up to the last twenty |
| HistoryFolding.TailIsSuffix | server/src/application/services/conversation_summarization.py:164-177 | the unsummarized tail is the suffix after the boundary |
| HistoryFolding.LateFoldSkips | server/src/application/services/conversation_summarization.py:60-65 | an event beyond the limit when a fold succeeds is in no fold and behind the boundary in every in-order continuation of turns that do not overlap |
| HistoryFolding.SkippedForGood | server/src/application/services/conversation_summarization.py:117-162 | an event behind the boundary that no fold holds stays so whatever follows |
| HistoryFolding.SentIsUnfolded | server/src/application/services/chat.py:600-629 | after a successful fold the last twenty events are exactly the unfolded ones |
| HistoryFolding.NothingLeftOut | server/src/application/services/chat.py:600-629 | what is folded and what is sent are a beginning and an end of the conversation without a gap exactly unless the tail was long and its call failed |
| HistoryFolding.Conversation.EnsureSummarized | server/src/application/services/conversation_summarization.py:100-162 | the summary, boundary and fold of the state model, or nothing on failure |
| HistoryFolding.Conversation.BuildHistory | server/src/application/services/chat.py:600-629 | the non-empty summary and the last twenty events without the current one |
| HistoryFolding.WithoutEventKeeps | server/src/application/services/chat.py:620-627 | the history sent is the sent events but the current one |
| Similarity.CauchySchwarz | server/src/agentic/evaluation/similarity.py:77-79 | the squared product is at most the product of the squares, for vectors of every length |
| Similarity.ScoreIsBounded | server/src/agentic/evaluation/similarity.py:68-84 | the score lies in [-1, 1] and is 0 exactly when a norm or the product is |
| Similarity.ScoreIsSymmetric | server/src/agentic/evaluation/similarity.py:68-84 | swapping the vectors changes nothing, a length mismatch included |
| Similarity.ScoreIgnoresScale | server/src/agentic/evaluation/similarity.py:68-84 | a positive factor changes nothing |
| Similarity.ScoreTimesNorms | server/src/agentic/evaluation/similarity.py:68-84 | the score times both norms is the dot product |
| Similarity.SelfScore | server/src/agentic/evaluation/similarity.py:68-84 | a non-zero vector scores 1 with itself and -1 with its opposite |

## Left out

- HTTP routers, schemas, configuration, wiring, tracing, metrics and logging: no deep property.
- SQLAlchemy sessions beyond the stored result a retry loaded before its claim: a committed transaction is one atomic step on abstract rows, and every other column the resume decides on is fixed when the action is created.
- Lost updates inside `retry()` and `_record_failure()`, which read and write in separate round trips: each is one transaction.
- Missing rows: the action row exists when it is claimed (a row deleted later is the `gone` outcome), and so does the approval row.
- Edited tool parameters, their hash and the approval token checked before a gated call: the edited payload is stored and never interpreted.
- The usage row written around a resumed turn, and the approval metadata on its answer event.
- The decision time is the time of the load; the few milliseconds to the write are not modelled, so a decision loaded just before the deadline may be written just after it, as in the code.
- `ApprovalLifecycleService.create()`, `get()` and `process()`: plumbing around the decisions modelled.
- Failed and skipped steps in the schedule: every started step finishes; the executor's retries are not modelled.
- `_validate_mode()`: it accepts all three modes and refuses none.
- The recognizers, the spaCy model and case folding are arbitrary: detections are any non-empty spans inside the text, `lower` is any function.
- Token estimation: an estimate is any natural number; provider names, fallback counting and the quota's own configuration are outside `TokenUsage`.
- TokenUsage.OvershootBound: calls recorded after their scope closed are added on the right-hand side, because only checks of that closed scope ever see them.
- Floating point: scores, weights and vectors are real numbers, and `math.sqrt` is any non-negative number whose square is the sum.
- The reranker, the stores and the query embedding are arbitrary answers; `asyncio.gather` is the pair of its outcomes; the limits on `top_k` and blank queries before the search are left out.
- A cached `None` value, which reads like a miss in the LRU cache.
- SHA-256 is any function without collisions among the texts in use; metrics around the cache are left out.
- RagIndex: the provider is a fixed function of the text and fails or not per batch; column widths, the vector column's fixed dimension and any other database refusal are part of the failing batch.
- `hashlib`, `PurePosixPath.name` and the row timestamps of the knowledge tables: arbitrary functions or absent.
- Planner, executor, validator, aggregator and guardrail judge: one attempt is any outcome they could produce, keyed by its thread id.
- Compliance entries, logging and the request deadline around an attempt; `resume()`, which runs one attempt without the loop.
- A negative `guardrail_max_regenerate_attempts`, under which the loop would not run at all.
- HistoryFolding.LosslessIffClean: one call at a time; `OverlappingTurns` has calls that overlap.
- Overlapping turns of one conversation: events become visible in the order of their times, whereas a turn's own message is committed only with its answer; and a summary always differs from the one it replaces, whereas the session would not write an identical text.
- What a summary says: a fold is judged by the events handed to the call, and an empty summary is simply not sent.
- The order of events with equal times, which the database leaves open: a list in chronological order is given.
- `EmbeddingSimilarity.__call__` around the score: blank texts give 0 and a failing provider an error of its own.
- Decision payload checks, plan templates, policy guards, upload limits, retry backoff, inference configuration and memory CRUD: short guards and lookups with no invariant across calls.
