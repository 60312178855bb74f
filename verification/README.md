# Verified model of the Vegvisir harness

A Dafny model of the deterministic core of the Vegvisir agent harness, with proofs of what it promises over every
input, every run and every reachable state. Each module follows one part of the program:

- `LinkWalk`, `SkillRegistry`, `DependencyClosure`, `DependencyPlan`, `DepthLimits`, `ContextLoader`: the linked-skill
  library walks a possibly cyclic graph of sub-skills, plans what to load and loads it into a token budget.
- `PolicyInheritance`, `TextTerms`: named policies inherit from each other, and a query is judged against the result.
- `RouteOrder`, `Routing`, `UsageMetrics`: sub-skills are scored and ordered for a query, and their use is averaged.
- `BlockScanner`, `ListText`, `ListEscapes`: the hand-written scanners of the library language, and the texts that
  read back.
- `ApprovalLedger`, `ToolAuthorization`, `CommandRules`: the approval ledger with its append-only log, and the gates
  that decide about a tool call.
- `ControlRequests`: the table of control requests, each settled once.
- `Utf8Text`, `NewestFirst`, `SessionAttachments`, `SessionHistory`, `SessionTexts`: a session is brought within its
  limits, newest first, with texts cut between UTF-8 characters.
- `ModelRegistry`: the ordered list of models and the map that must agree with it.
- `ContextWindow`, `ContextView`: the window of live messages, its compactions, and what a model is shown of it.
- `Prelude`, `TextOrder`, `TextSpace`, `WholeNumbers`: options and results, the order of strings, white space, quotients.

Code that updates state in place is a class or a method with a loop, proved equal to a function of the old state; the
lemmas about runs are about those functions. `dafny verify dfyconfig.toml` checks the whole project.

## Main results

- The dependency closure is exact up to its depth limit, for all graphs of a size, if and only if the limit is zero or at
  least the number of sub-skills; at every depth it is duplicate-free, sound and parents first.
- The load plan never loads an id twice, is exact under the same condition, and each of its decisions has a cause.
- The loader keeps its token budget and its cap, loads the richest mode that fits, gives the true reason for every
  refusal, and deals every decision into exactly one list.
- Policy resolution succeeds exactly on finite known chains, and then forbids exactly what the chain forbids; each of its
  two failures is characterised to the name it reports.
- Routing gives the best eligible candidates in an order that leaves no choice.
- Printed trees of blocks read back; a printed list reads back exactly when no value is empty or has a quote or a
  backslash.
- Replaying the approval log gives the ledger back after every run; approvals cover their uses over every run.
- A session within its limits is untouched, and any other is brought within them once and for all, keeping the longest
  run of the newest messages that fits.
- Over every run the context window loses no message: compacted chunks and live messages are all that was given.
- Control requests settle once; the model registry's two views agree after every run.

## Where the code does less than it may seem to

Each of these is proved, with the exact condition or a concrete input.

- A call that a command gate and the risky-tool gate both ask about is not let through by a one-time approval: the
  first gate spends it. Only a session grant lets such a call through (`ToolAuthorization.AuthorizedIff`).
- Denying or editing a request leaves an earlier one-time approval of it in force
  (`ApprovalLedger.RefusalKeepsOneTimeApproval`).
- With a depth limit of at least one and below the number of sub-skills, the closure and the load plan can miss an id
  that is within the limit, because an id first met where the depth runs out is never expanded. With any other limit they
  never do (`DepthLimits.ClosureCompleteIff`, `DepthLimits.PlanCompleteIff`).
- When a sub-skill's library is unknown or its chain of policies is broken, only its bare policy is judged and what its
  ancestors forbid does not count (`SkillRegistry.AllowedIff`). In a library that passed validation this does not happen
  (`SkillRegistry.ValidatedLibraryIsJudgedByChain`).
- Compaction sequence numbers repeat, as 33, once more messages were given than the window limit plus thirty-three
  compactions take (`ContextWindow.SequencesDifferIff`); marking number 33 as persisted then marks several summaries
  (`ContextWindow.MarksOneIff`).
- When more than eight compactions happen before the pending ones are taken, the oldest are never handed out
  (`ContextWindow.PendingSinceTaken`).
- The history marker is worded for the count of all old messages, though the newest one is always kept
  (`SessionHistory.OverLimitKeepsNewest`). The comment at vegvisir/src/core.rs:567-568 says that one oversized message
  gets no such marker; alone it does exactly when it is over 4 MiB, because the limit is judged on the bytes before any
  cut (`SessionHistory.HugeMessageGetsMarker`).
- Values with quotes or backslashes, and empty values, never survive printing and reading a list
  (`ListEscapes.RoundTripIff`).
- A sub-skill that shares no term with a query is routed all the same once its record of success outweighs its risk
  penalty (`Routing.UnmatchedIsRoutedIff`).

## Model

| member | source | states |
|---|---|---|
| `LinkWalk.VisitAllConsistent` | vegvisir/src/lsl.rs:929-937 | every walk enters an id at most once, and its visited set is what it entered |
| `LinkWalk.VisitAllJustified` | vegvisir/src/lsl.rs:944-1022 | every entry a walk writes is a first step or a step of an id entered earlier, and never about an id already entered |
| `LinkWalk.VisitAllReachable` | vegvisir/src/lsl.rs:938-940 | what a walk newly sees is within the allowed number of edges of one of its first steps |
| `LinkWalk.VisitAllExpands` | vegvisir/src/lsl.rs:938-940 | with enough depth for the known ids not on the path, every id seen is fully expanded |
| `LinkWalk.ExactReach` | vegvisir/src/lsl.rs:1026-1056 | with depth for all known ids, a fresh walk sees exactly what its first steps reach |
| `DependencyClosure.DependencyWalk.CollectDependencies` | vegvisir/src/lsl.rs:1026-1056 | one step of the mutable depth-first walk changes the visited set and the output list exactly as the walk specification `LinkWalk.Visit` says, for cyclic graphs too, and terminates |
| `DependencyClosure.DependencyWalk.FollowRequired` | vegvisir/src/lsl.rs:1044-1048 | the loop over required concepts visits, in order, the known ones |
| `DependencyClosure.DependencyWalk.FollowLinks` | vegvisir/src/lsl.rs:1049-1055 | the loop over links visits, in order, the targets of the `requires` links out of the id |
| `DependencyClosure.DependencyClosureOf` | vegvisir/src/lsl.rs:613-620 | the closure method returns the specified list, the one all the closure lemmas are about |
| `DependencyClosure.ClosureLinksExact` | vegvisir/src/lsl.rs:1044-1055 | the edges of the walk are exactly the dependencies of the registry: known required concepts and `requires` links |
| `DependencyClosure.ClosureDistinct` | vegvisir/src/lsl.rs:613-620 | no id is listed twice, whatever the graph and the depth |
| `DependencyClosure.ClosureSound` | vegvisir/src/lsl.rs:613-620 | everything listed is within `max_depth` dependencies of a selected id |
| `DependencyClosure.ClosureExact` | vegvisir/src/lsl.rs:613-620 | with a depth of at least the number of sub-skills, exactly the ids reachable from the selection are listed |
| `DependencyClosure.ClosureParentsFirst` | vegvisir/src/lsl.rs:1026-1056 | each listed id is selected or a direct dependency of one listed before it |
| `DependencyClosure.ShallowClosureMisses` | vegvisir/src/lsl.rs:1038-1040 | an illustration of `DepthLimits.ClosureCompleteIff`: among four known sub-skills, with depth two, an id two dependencies away is missed |
| `DependencyPlan.Planner.CollectDependencyPlan` | vegvisir/src/lsl.rs:918-1024 | the mutable planning walk does exactly what the walk specification says over the load and exclude edges, and terminates on every graph |
| `DependencyPlan.Planner.FollowConcepts` | vegvisir/src/lsl.rs:944-957 | the loop over required concepts plans, in order, the known ones |
| `DependencyPlan.Planner.FollowLinks` | vegvisir/src/lsl.rs:958-1023 | the loop over the links out of an id plans each by its relation, in order |
| `DependencyPlan.Planner.FollowLink` | vegvisir/src/lsl.rs:959-1022 | one link: load for requires, extends, specializes, generalizes and related, load for a fallback the query names, exclude for conflicts and replaces unless already loaded, nothing otherwise |
| `DependencyPlan.PlanFallbacks` | vegvisir/src/lsl.rs:823-834 | the fallbacks of a blocked selection are planned in order |
| `DependencyPlan.PlanPrimary` | vegvisir/src/lsl.rs:791-851 | the replacement, blocked and plain cases of one selected id |
| `DependencyPlan.PlanSelected` | vegvisir/src/lsl.rs:789-852 | one turn of the loop over the selection |
| `DependencyPlan.ResolveDependencyPlan` | vegvisir/src/lsl.rs:780-854 | the planner returns the specified plan for every registry, selection, query and depth |
| `DependencyPlan.PlanLinksExact` | vegvisir/src/lsl.rs:944-1022 | the steps of the planning walk are exactly the load edges and exclude edges of the registry |
| `DependencyPlan.AllRootsExact` | vegvisir/src/lsl.rs:790-851 | a walk starts at exactly the preferred replacement of a selected id, or at the fallbacks of one that policy blocks |
| `DependencyPlan.PlanLoadsOnce` | vegvisir/src/lsl.rs:780-854 | no id gets two load decisions, across all selected ids |
| `DependencyPlan.PlanLoadsSound` | vegvisir/src/lsl.rs:780-854 | only ids within `max_depth` load edges of a root get a load decision |
| `DependencyPlan.PlanLoadsExact` | vegvisir/src/lsl.rs:780-854 | with a depth of at least the number of sub-skills, exactly the ids a root reaches get one |
| `DependencyPlan.PlanDecisionsExplained` | vegvisir/src/lsl.rs:780-1024 | every decision has a cause: a load is a root or follows a load edge from an earlier load; an exclude is about a replaced or blocked selection, or follows an exclude edge from an earlier load and is not about an id loaded before it |
| `DepthLimits.ClosureCompleteIff` | vegvisir/src/lsl.rs:613-620 | for every number of sub-skills and every depth: the closure lists exactly what is within that depth, for all registries of that size and all selections, if and only if the depth is zero or at least that number |
| `DepthLimits.PlanCompleteIff` | vegvisir/src/lsl.rs:780-1024 | the same for the loads of a plan: exactly what is within that many load edges of a root, always, if and only if the depth is zero or at least the number of sub-skills |
| `ContextLoader.MaxTotalIsSmallestCap` | vegvisir/src/lsl.rs:908-915 | the cap in force is the smallest one set by the library of a selected sub-skill, and there is none only if none sets one |
| `ContextLoader.BudgetedMaterialization` | vegvisir/src/lsl.rs:2430-2456 | the loop down the modes returns the specified mode with its own text and estimate |
| `ContextLoader.BudgetedModeIsRichest` | vegvisir/src/lsl.rs:2436-2449 | the mode is the richest on its ladder that fits the remaining tokens, or nothing on the ladder fits |
| `ContextLoader.LoadDecision` | vegvisir/src/lsl.rs:647-660 | one turn of the loader's loop: an exclusion, a missing sub-skill, or a judged one |
| `ContextLoader.Place` | vegvisir/src/lsl.rs:660-718 | a judged decision is blocked, held for approval, skipped by cap or budget, or loaded, in that order |
| `ContextLoader.LoadPlan` | vegvisir/src/lsl.rs:638-718 | the loop with its four growing lists and its token count is the specified fold of the plan |
| `ContextLoader.LoadContextForQuery` | vegvisir/src/lsl.rs:631-729 | the returned context is the specified one, with what remains of the budget |
| `ContextLoader.LoadIsBudgetedAndFair` | vegvisir/src/lsl.rs:631-729 | for every request: the used tokens are the sum of the loaded estimates and within the budget unless one single sub-skill is loaded; the cap holds; every load is allowed, needs no approval and has the richest mode that fit (the first its preferred one); every refusal has its true reason |
| `ContextLoader.EveryDecisionLandsOnce` | vegvisir/src/lsl.rs:647-718 | every planned decision lands in exactly one of the four lists, and each list keeps plan order |
| `ContextLoader.LoadedIdsDistinct` | vegvisir/src/lsl.rs:631-729 | no sub-skill is loaded twice, and only ids planned for loading are |
| `PolicyInheritance.ExtendUnique` | vegvisir/src/lsl.rs:2400-2406 | the in-place loop that appends unseen values is the specified fold |
| `PolicyInheritance.CollectListsOnce` | vegvisir/src/lsl.rs:2400-2406 | collecting into an empty list keeps each value once, in order of first occurrence |
| `PolicyInheritance.ResolvePolicy` | vegvisir/src/lsl.rs:2366-2398 | the recursive resolver terminates on every table, cyclic ones included, with the specified result |
| `PolicyInheritance.ResolveSucceedsIff` | vegvisir/src/lsl.rs:2366-2398 | resolving succeeds if and only if the `inherits` chain is finite and all its policies are known |
| `PolicyInheritance.ResolveFailsIff` | vegvisir/src/lsl.rs:2380-2386 | an unknown name is reported if and only if the chain runs into that name; a cycle is reported at a name if and only if it is the first inherited name that the chain meets twice |
| `PolicyInheritance.EffectiveListsUnion` | vegvisir/src/lsl.rs:2387-2397 | each effective list is the root-first union along the chain, each value once, in order of first occurrence |
| `PolicyInheritance.ForbiddenIffOnChain` | vegvisir/src/lsl.rs:2387-2397 | a value is forbidden in the end if and only if the policy or one on its chain forbids it |
| `SkillRegistry.AllowedRespectsEveryAncestor` | vegvisir/src/lsl.rs:731-778 | an allowed query touches nothing that the own policy forbids, and nothing that a policy on the chain forbids as long as the chain is finite and known; on a broken chain the ancestors do not count (`SkillRegistry.AllowedIff` says exactly what does) |
| `SkillRegistry.PolicyAcceptedIff` | vegvisir/src/lsl.rs:2218-2270 | validation accepts a policy if and only if its chain is finite and known and nothing it allows is forbidden on the chain |
| `SkillRegistry.ValidatedLibraryIsJudgedByChain` | vegvisir/src/lsl.rs:749-753 | for a library that passed validation the verdict always uses the resolved chain, never the fallback to the bare policy |
| `SkillRegistry.AllowedIff` | vegvisir/src/lsl.rs:731-778 | a query is allowed if and only if the sub-skill is known and the query touches none of its negative phrases, nothing it forbids itself, and nothing its chain forbids, or its bare policy when the library is unknown or the chain is broken |
| `SkillRegistry.ApprovalRequiredIff` | vegvisir/src/lsl.rs:749-771 | approval is required if and only if the query is allowed and touches something that the chain, or the bare policy when the chain is broken, wants approval for |
| `TextTerms.OverlapIffSomeValue` | vegvisir/src/lsl.rs:2421-2424 | joining phrases makes no new terms: a query overlaps a list if and only if it overlaps a member |
| `RouteOrder.SortExact` | vegvisir/src/lsl.rs:604-609 | sorting candidates of distinct ids gives a strictly ordered list of the same candidates |
| `RouteOrder.OrderIsUnique` | vegvisir/src/lsl.rs:604-609 | a strictly ordered list is determined by its members, so any correct sort gives this one |
| `RouteOrder.CutBeforeDropping` | vegvisir/src/lsl.rs:501-507 | cutting an ordered list and then dropping the excluded equals dropping and then cutting |
| `Routing.CandidatesExact` | vegvisir/src/lsl.rs:509-611 | candidates come out in strict order (eligible first, score descending, id), and are exactly the sub-skills with a score or a negative match |
| `Routing.RouteTakesBest` | vegvisir/src/lsl.rs:501-507 | routing gives the first `limit` eligible candidates, although it cuts the list before it drops the excluded ones |
| `Routing.RoutedIff` | vegvisir/src/lsl.rs:501-611 | with room for all, a sub-skill is routed if and only if it has no negative match, a status open to routing, and merit above its risk penalty |
| `Routing.UnmatchedIsRoutedIff` | vegvisir/src/lsl.rs:551-571 | a sub-skill that shares no term with the query is routed all the same if and only if its success points exceed its risk penalty (and nothing excludes it) |
| `Routing.SuccessPointsRange` | vegvisir/src/lsl.rs:552-556 | success is worth at most three points, and three exactly from five successes for each failure |
| `Routing.RoundedIsNearest` | vegvisir/src/lsl.rs:557-562 | points are the nearest whole number to the exact fraction, halves upwards |
| `UsageMetrics.SkillUsage.IncrementMetric` | vegvisir/src/lsl.rs:1987-1990 | the counter goes up by one from its stored number, or from zero when there is none, and nothing else changes |
| `UsageMetrics.SkillUsage.UpdateAverageMetric` | vegvisir/src/lsl.rs:1992-2001 | the in-place update of the whole-number average, saturating product included |
| `UsageMetrics.SkillUsage.RecordUse` | vegvisir/src/lsl.rs:1958-1976 | one recorded load updates its counters, its average and its two last-use metrics |
| `UsageMetrics.AverageAfterRun` | vegvisir/src/lsl.rs:1958-2001 | from a count of zero, after any run: the counters are exact, and the average is within the range of the samples, not above their mean, and n times it is at most n(n-1)/2 below their sum |
| `UsageMetrics.RunKeepsOtherMetrics` | vegvisir/src/lsl.rs:1958-1976 | no run touches any other metric |
| `BlockScanner.MatchingBrace` | vegvisir/src/lsl.rs:3306-3335 | the cursor loop returns the specified position for every text and opening brace |
| `BlockScanner.MatchingBraceExact` | vegvisir/src/lsl.rs:3306-3335 | the position found is the one closing brace with a balanced body before it, and it is found whenever there is one |
| `BlockScanner.ScanTurn` | vegvisir/src/lsl.rs:2895-2897 | one turn of the scan finds the next identifier, or ends |
| `BlockScanner.ScanTurnAt` | vegvisir/src/lsl.rs:2896-2909 | a turn at an identifier reads keyword, spacing and name and drops the word unless a brace follows |
| `BlockScanner.ScanBody` | vegvisir/src/lsl.rs:2910-2917 | a turn at a brace takes the body up to the matching one, or fails |
| `BlockScanner.ScanTopLevelBlocks` | vegvisir/src/lsl.rs:2892-2919 | the cursor loop returns the specified blocks or error for every text; the cursor advances every turn |
| `BlockScanner.ScannedBlocksAreWellShaped` | vegvisir/src/lsl.rs:2892-2919 | whatever the text, each returned block has an identifier, a proper name if any, and a balanced body |
| `BlockScanner.PrintedBlocksReadBack` | vegvisir/src/lsl.rs:2892-2919 | printed blocks with balanced bodies scan back to themselves, whatever the spacing and filler |
| `BlockScanner.PrintedForestReadsBack` | vegvisir/src/lsl.rs:2892-2919 | a printed tree of blocks scans back, level by level, to the tree |
| `ListText.StatementEnd` | vegvisir/src/lsl.rs:3276-3304 | the loop with its two depths and string flag returns the specified end for every text and start |
| `ListText.ReadStatementTurn` | vegvisir/src/lsl.rs:3282-3301 | one turn of that loop: it ends at this character, or what is left to find is unchanged |
| `ListText.ScanWord` | vegvisir/src/lsl.rs:3374-3395 | the search loop finds the first occurrence that is not part of a longer word |
| `ListText.FieldRaw` | vegvisir/src/lsl.rs:2975-2988 | the loop returns the text of the first `key: ...;` statement |
| `ListText.SplitListItems` | vegvisir/src/lsl.rs:3241-3263 | the cursor loop returns the items between the commas outside strings |
| `ListText.RenderStringList` | vegvisir/src/lsl.rs:2859-2873 | the printing loop writes the specified line |
| `ListText.PrintedListReadsBack` | vegvisir/src/lsl.rs:2990-2995 | a printed list without quotes reads back as its values in order, backslashes doubled and empty strings gone, whatever follows it |
| `ListEscapes.RoundTripIff` | vegvisir/src/lsl.rs:2859-3304 | for every list: reading the printed list gives it back if and only if each value is non-empty and free of quotes and backslashes |
| `ApprovalLedger.Ledger.Persisted` | vegvisir/src/guardrails.rs:121-143 | a restart keeps everything but the session grants |
| `ApprovalLedger.Ledger.PushApprovalEvent` | vegvisir/src/guardrails.rs:414-431 | one event is appended to the log, with the request's own fields, and nothing else changes |
| `ApprovalLedger.Ledger.Enqueue` | vegvisir/src/guardrails.rs:209-223 | a new request is filed under its id and logged; one already pending changes nothing |
| `ApprovalLedger.Ledger.ApproveOnce` | vegvisir/src/guardrails.rs:225-242 | a pending request gets a one-time grant and stays pending; any other id is refused |
| `ApprovalLedger.Ledger.ApproveOnceRequest` | vegvisir/src/guardrails.rs:244-259 | the same, returning the request |
| `ApprovalLedger.Ledger.ApproveForSession` | vegvisir/src/guardrails.rs:261-278 | a pending request is removed and its key granted for the session |
| `ApprovalLedger.Ledger.Edit` | vegvisir/src/guardrails.rs:280-305 | a pending request is replaced by its edited form under the new id, with two events |
| `ApprovalLedger.Ledger.Deny` | vegvisir/src/guardrails.rs:307-324 | a pending request moves to the rejected list |
| `ApprovalLedger.Ledger.ConsumeApproval` | vegvisir/src/guardrails.rs:326-361 | a grant is spent: the one-time grant goes in every case, the pending request goes with it, and the event says which kind it was |
| `ApprovalLedger.Ledger.Reject` | vegvisir/src/guardrails.rs:363-376 | a request is recorded as rejected and no longer pending |
| `ApprovalLedger.Ledger.ClearPending` | vegvisir/src/guardrails.rs:152-167 | nothing stays pending, and one event is logged for each request in key order |
| `ApprovalLedger.Ledger.ResolutionOf` | vegvisir/src/guardrails.rs:183-207 | the verdict on an id: approved before denied before pending before missing |
| `ApprovalLedger.RunIsAccounted` | vegvisir/src/guardrails.rs:121-431 | after any run of ledger operations, restarts included, replaying the event log from nothing gives the pending requests, the rejected list and the one-time grants, and each pending request is filed under its own id |
| `ApprovalLedger.LogOnlyGrows` | vegvisir/src/guardrails.rs:414-431 | over any run, what was logged stays in its place |
| `ApprovalLedger.RestartKeepsOnlyOneTimeGrants` | vegvisir/src/guardrails.rs:121-143 | when any run ends in a restart, a call is approved if and only if the log has a one-time approval of it with no consumption after |
| `ApprovalLedger.OneApprovalOneUse` | vegvisir/src/guardrails.rs:225-361 | a one-time approval allows one consumption, and a second only by a session grant |
| `ApprovalLedger.RefusalKeepsOneTimeApproval` | vegvisir/src/guardrails.rs:280-324 | denying or editing a request leaves an earlier one-time approval of it in force |
| `ApprovalLedger.Ledger.LogCleared` | vegvisir/src/guardrails.rs:156-164 | the loop that logs one event for each cleared request, in key order |
| `ToolAuthorization.GuardrailEngine.PassGate` | vegvisir/src/guardrails.rs:748-768 | a gate spends a grant or files a request |
| `ToolAuthorization.GuardrailEngine.RejectUnsafeSudoInvocation` | vegvisir/src/guardrails.rs:860-896 | the check rejects exactly the guarded tools with a word that mentions sudo |
| `ToolAuthorization.GuardrailEngine.CommandGates` | vegvisir/src/guardrails.rs:744-820 | the three command gates, none asked after one that asked, amount to the first one that asks |
| `ToolAuthorization.GuardrailEngine.AskGate` | vegvisir/src/guardrails.rs:748-768 | a command gate that asks grants, or refuses with the request filed |
| `ToolAuthorization.GuardrailEngine.RiskyGate` | vegvisir/src/guardrails.rs:821-856 | the risky-tool gate and the two closing checks |
| `ToolAuthorization.GuardrailEngine.AuthorizeTool` | vegvisir/src/guardrails.rs:733-857 | outcome and new ledger of a call are the specified ones |
| `ToolAuthorization.AuthorizedIff` | vegvisir/src/guardrails.rs:733-857 | exactly when a call is authorised; in particular one that a command gate and the risky-tool gate both ask about passes only with a session grant, because the first gate spends the one-time approval |
| `ToolAuthorization.ApprovalIsSpentOrQueued` | vegvisir/src/guardrails.rs:733-857 | without a session grant, a call that needs approval leaves no one-time approval of itself: it went through, or its request is pending |
| `ToolAuthorization.OneApprovalOneCall` | vegvisir/src/guardrails.rs:733-857 | one approval, then the call twice: the first goes through unless both gates ask, the second is queued again |
| `ToolAuthorization.ApprovalsCoverUses` | vegvisir/src/guardrails.rs:225-259 | over any run, the calls under an id that went through on a one-time approval, plus one still unspent, never outnumber the approvals given for the id |
| `ToolAuthorization.EngineRunIsAccounted` | vegvisir/src/guardrails.rs:733-857 | runs that mix ledger operations and authorised calls are accounted for by the log too |
| `CommandRules.CommandPrimarySubcommand` | vegvisir/src/guardrails.rs:628-657 | the index loop returns the specified sub-command |
| `CommandRules.OptionsAreIgnored` | vegvisir/src/guardrails.rs:628-677 | any run of leading options leaves the sub-command that is found unchanged |
| `CommandRules.OptionsNeverLiftRequirement` | vegvisir/src/guardrails.rs:514-626 | putting leading options in front never lifts an approval requirement and never changes its risk label |
| `CommandRules.GitPushAlwaysNeedsApproval` | vegvisir/src/guardrails.rs:514-534 | `git push` needs approval as an external write whatever options come before and whatever follows |
| `ControlRequests.PendingControlRequests.Insert` | vegvisir/src/control_requests.rs:160-182 | a new id gets a pending record, a known one is an error that changes nothing |
| `ControlRequests.PendingControlRequests.Resolve` | vegvisir/src/control_requests.rs:206-234 | the four outcomes of a response and the table each leaves |
| `ControlRequests.PendingControlRequests.Cancel` | vegvisir/src/control_requests.rs:236-252 | exactly a pending record is cancelled, with its reason and time |
| `ControlRequests.PendingControlRequests.AbortPending` | vegvisir/src/control_requests.rs:254-266 | every pending record is aborted, and its id reported in key order |
| `ControlRequests.PendingControlRequests.AbortEach` | vegvisir/src/control_requests.rs:257-264 | the loop of that sweep |
| `ControlRequests.PendingControlRequests.Expire` | vegvisir/src/control_requests.rs:268-281 | every overdue pending record times out, and its id is reported in key order |
| `ControlRequests.PendingControlRequests.ExpireEach` | vegvisir/src/control_requests.rs:270-279 | the loop of that sweep |
| `ControlRequests.ExpireOne` | vegvisir/src/control_requests.rs:271-278 | one record times out exactly when it is pending and overdue |
| `ControlRequests.RunOk` | vegvisir/src/control_requests.rs:160-282 | after any run: a record is pending exactly while it has no resolution time, has a response exactly when resolved, for its own id and strictly before expiry, and timed out only when expired |
| `ControlRequests.SettledStays` | vegvisir/src/control_requests.rs:206-282 | no operation removes a record, changes its request or touches a settled one |
| `ControlRequests.SettledForever` | vegvisir/src/control_requests.rs:206-282 | a settled record is the same for the rest of any run |
| `ControlRequests.AppliedIffResolved` | vegvisir/src/control_requests.rs:206-234 | over any run an id was answered as applied once if its record is resolved, and otherwise never |
| `ControlRequests.AbortLeavesNonePending` | vegvisir/src/control_requests.rs:254-266 | aborting leaves none pending, and reports exactly the ids it settled |
| `ControlRequests.ExpireLeavesNoneOverdue` | vegvisir/src/control_requests.rs:268-303 | expiring leaves none pending that is overdue, and reports exactly the ids it timed out |
| `Utf8Text.SafeBoundaryAtOrBefore` | vegvisir/src/context.rs:582-588 | the loop stops at the last character boundary at or before the index |
| `Utf8Text.SafeBoundaryAtOrAfter` | vegvisir/src/context.rs:590-596 | the loop stops at the first character boundary at or after the index |
| `Utf8Text.TruncateAround` | vegvisir/src/core.rs:886-916 | the truncator's cases: short text, no room, no room for the marker, both ends around the marker |
| `Utf8Text.TruncateUtf8Middle` | vegvisir/src/core.rs:886-916 | the same with the marker that names the text and its length |
| `Utf8Text.TruncatedFits` | vegvisir/src/core.rs:886-916 | for every text and limit: at most the limit, unchanged exactly when it fits, valid UTF-8 again, and no more than six bytes under the limit when cut |
| `Utf8Text.TruncatedKeepsEnds` | vegvisir/src/core.rs:904-915 | when the marker fits, a prefix and a non-overlapping suffix around it, the longest that end between characters within two thirds and one third of the room |
| `Utf8Text.TruncatedOnce` | vegvisir/src/core.rs:886-889 | truncating twice is truncating once |
| `Utf8Text.Utf8Prefix` | vegvisir/src/context.rs:571-580 | the character loop takes whole characters while they fit |
| `Utf8Text.WholeCharsIsFloor` | vegvisir/src/context.rs:571-580 | on valid text that is the longest prefix within the limit that ends at a boundary |
| `Utf8Text.BoundText` | vegvisir/src/context.rs:551-569 | the context truncator's cases, for any marker |
| `Utf8Text.BoundedText` | vegvisir/src/context.rs:551-569 | the same with the context marker |
| `Utf8Text.BoundedFits` | vegvisir/src/context.rs:551-569 | at most the limit, unchanged exactly when it fits, and no more than six bytes under the limit when cut |
| `Utf8Text.BoundedValid` | vegvisir/src/context.rs:551-569 | bounded text is valid UTF-8 again |
| `Utf8Text.BoundedTextIsUtf8` | vegvisir/src/context.rs:551-569 | a context text bounded with its own marker is valid UTF-8 again |
| `Utf8Text.BoundedKeepsEnds` | vegvisir/src/context.rs:559-568 | when the marker fits, a prefix and a non-overlapping suffix around it, the longest that end between characters within half of the room each |
| `Utf8Text.BoundedOnce` | vegvisir/src/context.rs:551-554 | bounding twice is bounding once |
| `Utf8Text.ValidSplit` | vegvisir/src/context.rs:582-596 | valid text cut at a boundary is two valid texts (UTF-8 as in section 3 of RFC 3629) |
| `Utf8Text.CutEnds` | vegvisir/src/context.rs:559-568 | the two boundaries are found and the ends joined around the marker |
| `NewestFirst.RetainNewest` | vegvisir/src/core.rs:590-610 | the newest-first loop with its slot and byte limits returns the specified suffix |
| `NewestFirst.NewestIsSuffix` | vegvisir/src/core.rs:590-610 | the result is an unbroken suffix within both limits, and one item more would break a limit |
| `SessionAttachments.BoundAttachmentFields` | vegvisir/src/core.rs:807-843 | the four text fields of an attachment are bounded, and a change is reported exactly when one was |
| `SessionAttachments.BoundEachAttachment` | vegvisir/src/core.rs:807-844 | the loop over a list of attachments bounds each and reports a change exactly when there was one |
| `SessionAttachments.EnforceAttachmentLimits` | vegvisir/src/core.rs:792-846 | the newest attachments are kept, bounded, a limit of zero standing for the session's own; a change is reported exactly when there was one |
| `SessionAttachments.LimitAttachmentsExact` | vegvisir/src/core.rs:792-846 | at most sixteen are left, each with bounded fields, and a list is unchanged exactly when that held before |
| `SessionAttachments.LimitMessageAttachments` | vegvisir/src/core.rs:538-547 | one message keeps its newest attachments, up to its share |
| `SessionAttachments.LimitNewest` | vegvisir/src/core.rs:537-549 | one turn of the loop from the newest message back |
| `SessionAttachments.LimitAllAttachments` | vegvisir/src/core.rs:536-549 | the loop shares the session's attachments from the newest message to the oldest |
| `SessionAttachments.ShareNewest` | vegvisir/src/core.rs:537-549 | the newest message takes what it may, its text untouched, and what it takes plus what it leaves is what there was |
| `SessionAttachments.SharedFits` | vegvisir/src/core.rs:536-549 | afterwards no message has more than sixteen attachments, nor one with a field over its limit |
| `SessionAttachments.SharedTotals` | vegvisir/src/core.rs:536-549 | together the messages have no more attachments than the session allows, and their contents are untouched |
| `SessionAttachments.SharedKeeps` | vegvisir/src/core.rs:536-549 | messages whose attachments all fit are left as they are |
| `SessionHistory.CutMessages` | vegvisir/src/core.rs:558-567 | each over-long content is truncated, and a change is reported exactly when there was one to cut |
| `SessionHistory.BoundTranscript` | vegvisir/src/core.rs:550-616 | the transcript half of the method: over-limit judged before any message is cut, marker, newest-first retention |
| `SessionHistory.BoundMessages` | vegvisir/src/core.rs:535-616 | attachments and transcript together end within every limit, and a change is reported exactly when they were outside one |
| `SessionHistory.BoundPending` | vegvisir/src/core.rs:534 | the pending attachments end within their limits |
| `SessionHistory.CutInput` | vegvisir/src/core.rs:849-856 | each over-long input entry is truncated |
| `SessionHistory.EnforceInputHistoryLimits` | vegvisir/src/core.rs:848-884 | the input history ends within its limits, and a change is reported exactly when it was outside one |
| `SessionHistory.SessionState.EnforceHistoryLimits` | vegvisir/src/core.rs:532-618 | the session ends within every limit; the result says whether it was outside one; if not, nothing changed |
| `SessionHistory.BoundHistoryExact` | vegvisir/src/core.rs:532-618 | at most 512 messages, each within 512 KiB, 4 MiB in all, 16 attachments each and 128 in all; and the transcript is unchanged exactly when that held before |
| `SessionHistory.LimitsHoldOnce` | vegvisir/src/core.rs:532-618 | enforcing the limits again, at any later time, changes nothing |
| `SessionHistory.UnderLimitKeepsEveryMessage` | vegvisir/src/core.rs:569-573 | within the count and the total no message is lost, and texts within 512 KiB are kept as they are |
| `SessionHistory.OverLimitKeepsNewest` | vegvisir/src/core.rs:578-616 | over the count or the total, the result is one marker and the longest run of the newest messages that fits; the marker is worded for the count of all old messages although fewer were left out |
| `SessionHistory.BoundInputExact` | vegvisir/src/core.rs:848-884 | at most 256 entries, each within 64 KiB, 2 MiB in all, and the history is unchanged exactly when that held before |
| `SessionHistory.BoundInputKeepsNewest` | vegvisir/src/core.rs:860-884 | what is kept is the longest run of the newest entries that fits |
| `SessionHistory.HugeMessageGetsMarker` | vegvisir/src/core.rs:548-575 | one message alone gets a marker that counts it as omitted, although it is kept (cut), if and only if it is over 4 MiB: the limit is judged on the bytes before any cut |
| `SessionTexts.SessionTextsTruncate` | vegvisir/src/core.rs:886-916 | the session's own truncator, labels and wording meet what the session model asks of them |
| `SessionTexts.BoundedTextsAreUtf8` | vegvisir/src/core.rs:886-916 | every text the session bounds is valid UTF-8 again |
| `ModelRegistry.Registry.Register` | vegvisir/src/core.rs:1104-1115 | a new name is appended, a known one overwritten where it stands, in the list and in the map |
| `ModelRegistry.Registry.ExchangeFirst` | vegvisir/src/core.rs:1107-1112 | the first model of that name is overwritten in place |
| `ModelRegistry.Registry.RegisterMany` | vegvisir/src/core.rs:1117-1121 | several registrations, in order |
| `ModelRegistry.Registry.ReplaceProviderModels` | vegvisir/src/core.rs:1123-1127 | the provider's models go from both views, then the new ones are registered |
| `ModelRegistry.RunAgrees` | vegvisir/src/core.rs:1104-1145 | from a catalogue of distinct names every run keeps the list free of repeated names and equal to the map, entry for entry; a catalogue with a repeated name disagrees from the start |
| `ModelRegistry.LastOneWins` | vegvisir/src/core.rs:1117-1121 | after registering several models a name stands for the last of them so named, or else for what it stood for before |
| `ModelRegistry.ReplacedExactly` | vegvisir/src/core.rs:1123-1127 | after a replacement the provider has exactly the last model given for each name |
| `ModelRegistry.ReplacedKeepsOthers` | vegvisir/src/core.rs:1123-1127 | the other providers' models keep their order, and only those whose names were given again are gone |
| `ContextWindow.ContextManager.CompactIfNeeded` | vegvisir/src/context.rs:127-138 | when over its limit the window hands all but its newest messages to one more summary |
| `ContextWindow.ContextManager.EnforceLimits` | vegvisir/src/context.rs:51-67 | the loops that bound the messages, compact and drop summaries amount to the specified window, from any state |
| `ContextWindow.ContextManager.Add` | vegvisir/src/context.rs:42-46 | adding a message leaves the specified window |
| `ContextWindow.ContextManager.TakePendingCompactions` | vegvisir/src/context.rs:86-88 | the pending summaries are handed out, and nothing else changes |
| `ContextWindow.ContextManager.MarkCompactionPersisted` | vegvisir/src/context.rs:90-98 | every summary with that sequence number gets the memory id |
| `ContextWindow.ContextManager.RebuildSummaryText` | vegvisir/src/context.rs:140-148 | the plain summary is emptied as soon as there are structured ones, and bounded otherwise |
| `ContextWindow.EnforceWithin` | vegvisir/src/context.rs:51-67 | from any state, such as an old checkpoint, every cap holds afterwards, and a state is kept exactly when every cap held before |
| `ContextWindow.EnforceConserves` | vegvisir/src/context.rs:51-67 | no message is lost on the way: compacted chunks and live messages together are what there was |
| `ContextWindow.RunConserves` | vegvisir/src/context.rs:42-148 | over every run: the compacted chunks followed by the live messages are all the messages ever given, bounded, in order; every cap holds; every chunk has the same full size; and both lists hold the newest compactions with their true message counts, numbered up to 33 |
| `ContextWindow.SequencesDifferIff` | vegvisir/src/context.rs:127-138 | over every run, sequence numbers tell the summaries apart if and only if the number of messages given is at most the window limit plus thirty-three times what one compaction takes out |
| `ContextWindow.MarksOneIff` | vegvisir/src/context.rs:90-98 | marking a number as persisted changes one summary at most under the same condition; beyond it, marking number 33 marks the two newest alike |
| `ContextWindow.CompactionsMade` | vegvisir/src/context.rs:42-46 | over every run, the number of messages given determines the number of compactions made |
| `ContextWindow.BoundEach` | vegvisir/src/context.rs:52-54 | the loop bounds every message |
| `ContextWindow.MarkEach` | vegvisir/src/context.rs:92-96 | the loop sets the memory id of every summary with that sequence number and of no other |
| `ContextWindow.PendingSinceTaken` | vegvisir/src/context.rs:62-88 | over every run, the pending summaries are as many as the compactions since they were last taken, counted by the messages given, but at most eight: with more, the oldest are dropped without having been handed out |
| `ContextWindow.ContextManager.CapLists` | vegvisir/src/context.rs:58-66 | the two lists of summaries are cut to their newest, and the plain summary rebuilt |
| `ContextView.ShowSummary` | vegvisir/src/context.rs:100-125 | the newest-first loop with its byte count returns the specified text |
| `ContextView.VisibleSummaryFits` | vegvisir/src/context.rs:100-125 | the shown summary is within 256 KiB, and when all summaries fit it is all of them, in order |
| `ContextView.NewestIsShown` | vegvisir/src/context.rs:106-121 | the newest summary is always shown, cut only to the whole budget |
| `ContextView.VisibleMessagesFit` | vegvisir/src/context.rs:69-84 | everything shown is within the limit of one message, all live messages are there, and at most one message more |
| `ContextView.BoundedBounds` | vegvisir/src/context.rs:551-569 | the context's own truncator meets what the window model asks of it |

## Left out

- Files, sockets, HTTP, JSON and YAML, processes, locks and their poisoning. A restart of the ledger is modelled as
  what loading does to the stored state.
- Hashes, clocks and identifiers: request ids and session keys are functions given as a parameter, not assumed
  injective; times are integers passed in; ledger and compaction timestamps are dropped.
- Whether a command needs network approval: a verdict that comes with each call.
- Overflow of `usize` and `u64` beyond the saturating operations: numbers are unbounded, and `UsageMetrics` asks for
  samples that sum to a 64-bit value.
- Texts of the skill library and of commands are sequences of characters read as ASCII, one byte each; Unicode case
  folding is not modelled. Session and context texts are bytes in UTF-8.
- Messages of decisions and refusals are constructors with the ids and numbers in them, not formatted sentences; the
  route signals, which are for display, are dropped.
- Rendering a sub-skill, a compaction or a message digest: functions given as parameters. What is read out of the
  messages of a chunk is one such function; only the message count is concrete.
- Floating point: the Jaccard score and its rounding use exact fractions.
- Library validation beyond policies, library parsing beyond blocks and lists, compiled registries, discovery.
- The helper loops of a recursive or long method are methods of their own (`FollowRequired`, `Place`, `AbortEach` and
  the like), and the loader's local lists are one record.
- Where the source pushes newest first and reverses at the end, the model prepends; attachment, message and summary
  lists are rebuilt where the source edits them in place, so aliasing is not captured.
- `ListText.ScanWord` and `ListText.FieldRaw` ask for a non-empty word; the source only searches for fixed keys.
- UsageMetrics.AverageAfterRun: asks for samples that sum to at most 2^64 - 1, so that the product never saturates.
