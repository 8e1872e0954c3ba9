# Governance kernel of the agent harness: a Dafny model

This project models the part of the harness that decides what an agent may do and keeps the record of it,
and proves what that part promises. It covers the policy engine, the broker and the approval service, the
hash-chained audit store, the readers of the audit log (event stream, timeline, paging, policy replay), and the
session manager with its clock, its lifecycle and its policy pinning.

`dafny verify dfyconfig.toml` checks everything.

## How it is built

| file | what it holds |
|---|---|
| `Json.dfy`, `Splitting.dfy`, `Model.dfy` | JSON values with Python's equality and truth; splitting text; actions, contexts, policies, decisions |
| `Canonical.dfy`, `CanonicalNames.dfy` | canonical resource names: path collapse, escaping, stability; what a caller can tell about them |
| `CanonicalJson.dfy`, `CanonicalText.dfy` | the canonical JSON text of a value, why no two values share one, and what a reader makes of it |
| `Engine.dfy`, `EngineMeaning.dfy`, `EngineLaws.dfy` | the decision engine, what rules and conditions mean, and what it promises about uncertainty, limits, order and composition |
| `Tools.dfy`, `ToolLaws.dfy` | how arguments become a priced action, and what executing it moves; which arguments are accepted at what price |
| `Protocol.dfy` | one session's broker, approvals, approvers and timers as a state machine |
| `ProtocolInvariant.dfy`, `ProtocolMoney.dfy`, `ProtocolBounds.dfy`, `ProtocolOutcome.dfy` | what every step of every schedule keeps |
| `ProtocolSafety.dfy`, `ProtocolPending.dfy` | the protocol's promises, and which approvals ended calls leave pending |
| `ProtocolProgress.dfy`, `ProtocolAnswers.dfy`, `ProtocolEnds.dfy` | what calls reach if nothing keeps them from it: from the attempt to the outcome, through the wait for an answer, and from anywhere to the end |
| `Broker.dfy` | the broker and the approval service as objects, proved to take exactly the protocol's steps |
| `Chain.dfy`, `AuditStore.dfy` | the hash chain and its verifier; the shared table filled by interleaved writers |
| `Sse.dfy`, `SseCuts.dfy` | the incremental parser and the encoder; what cutting the stream does to frames |
| `Stream.dfy`, `StreamProgress.dfy` | the server's cursor loop and the resuming console; that the console catches up and the end arrives |
| `Timeline.dfy`, `TimelineItems.dfy`, `EventStream.dfy`, `Sorting.dfy` | the timeline fold, what it lists, and its link to what the protocol writes |
| `Paging.dfy` | audit queries and newest-first pages |
| `Simulate.dfy` | replaying recorded decisions |
| `Clock.dfy` | freeze and thaw hooks, active time, the watchdog |
| `Pinning.dfy` | policy versions, attachments, resolution at submission |
| `Lifecycle.dfy` | session status through cancellations, store failures, crashes and restarts |

**Schedules.** In `Protocol.dfy`, `Stream.dfy`, `Lifecycle.dfy` and `Clock.dfy` a step is one stretch of code
between two suspension points, or one store call. An event that cannot happen in the current state leaves it
unchanged, so a schedule is any list of events and every theorem about `Run(events)` is about every interleaving of
calls, approvers, timeouts, failures and cancellations. A store call succeeds or fails as a whole, and a cancellation
arrives before it is issued or after it has run.

**Objects and functions.** Code that changes state step by step is a class or a method with a loop whose contract
equates the new state with a function of the old one; the theorems are about those functions. `Broker.Play`,
`AuditStore.Play` and `Lifecycle.Play` drive the objects through arbitrary schedules and reach exactly the state of the run.

**Safety and progress.** Theorems that hold in every run say what never happens. Beside them stand theorems that name the
steps leading on from any run and say what they reach: an allowed or approved call gets to its tool, every answer gets to
its call, a stream brings every row, a session gets its status.

**Abstract parts.** Shell globbing, `str.lower`, compatibility normalisation with stripping and lower-casing, SHA-256,
the shortest decimal text of a float and the policy loader are function-valued parameters, so every theorem holds for
all of them. Amounts are reals. Clock readings are positive reals. Policies are as the loader accepts them: budgets are
not negative and at least one action is allowed (`src/byoa_harness/policy/loader.py:51-56`). `posixpath.normpath`, the
leading double-slash rule of POSIX paths and `json.dumps` with sorted keys and ASCII escapes are spelled out. The
characters of a text are Unicode scalar values, so lone surrogates do not occur.

## What the proofs found

* **Uncertainty.** The engine allows an action exactly if every way of settling the unevaluable conditions would, and
  a deny rule that could fire denies. The documented rule that uncertainty resolves to the stricter reading has one
  exception: an approval rule with an unevaluable condition displaces default deny. `EngineLaws.WhenAReadingIsStricter`
  gives the exact condition and `EngineLaws.DisplacedDefaultDeny` a policy for which it happens.
* **A row nobody settles.** `ApprovalService.request` guards everything after the waiter is registered, but a
  cancellation that arrives as `create_approval` returns ends the call with its row pending
  (`ProtocolSafety.CancelledAtCreationLeavesRowPending`), and so does the loss of the write that would have settled it.
  These are the only ways: `ProtocolPending.PendingIffDropped` gives the exact condition. Nothing can execute on such a row.
* **An answer that differs from its row.** If announcing the request fails after a human has approved, the call is told
  `expired` while the row says approved (`ProtocolSafety.ErrorHidesApproval`). `ProtocolSafety.AnswerMatchesRow` says
  exactly when the two agree.
* **The recheck counts attempts made meanwhile.** An approved call is denied if `max_actions` was exceeded while it
  waited (`ProtocolSafety.LateRecheckIsDenied`); with nothing moved, the recheck repeats the original decision.
  `ProtocolSafety.RecheckPassesIff` gives the exact condition.
* **Freeze clock.** A pause that starts while a thaw is under way loses the frozen time so far and then charges waiting
  time as active; a thaw cut short stops the clock (`Clock.PauseDuringThawIsCharged`, `Clock.AbortedThawStopsTheClock`).
  With hooks in turn the accounting is exact.
* **Cancelled before its first step.** A task cancelled before it first runs never reaches its finalizer; the session
  stays queued until the next restart (`Lifecycle.CancelledBeforeStartStaysQueued`). `Lifecycle.GoneIsTerminal` lists all
  events that leave a session active without a task, and shows that there are no others.
* **End of stream.** A row written after the server last found nothing new can be missed, because the status is set
  before `session.finished` is appended (`Stream.FinishedRowCanBeMissed`).
* **CRLF.** A CRLF cut between two chunks splits a frame (`Sse.CutCrlfBreaksFrame`), unless nothing of its event has been
  read or nothing more of it follows; `SseCuts.FramesSurviveCuts` gives the exact condition.
* **Names.** Canonicalising twice changes a name exactly if its path has several components and ends in a segment of
  dots (`Canonical.StableIffNoDottedTail`).
* **Hash coverage.** The query columns are not hashed, so changing them goes unnoticed (`Chain.CopiesAreNotCovered`).

## Model

| member | source | states |
|---|---|---|
| `Json.JoinSplit` | src/byoa_harness/policy/engine.py:45 | Splitting text at a separator and joining the parts gives the text back |
| `Json.SplitJoin` | console/src/lib/sse.ts:29 | Joining separator-free parts and splitting gives the parts back |
| `Engine.Lookup` | src/byoa_harness/policy/engine.py:43-50 | The loop over path parts finds exactly the nested value the path names, and reports a missing field otherwise |
| `Engine.RuleFires` | src/byoa_harness/policy/engine.py:85-98 | A rule fires iff both patterns match, no condition is false, and either none is unknown or the rule restricts |
| `Engine.Limits` | src/byoa_harness/policy/engine.py:101-113 | A limit decision exists exactly when some limit is exceeded, and it denies |
| `Engine.FirstStrictest` | src/byoa_harness/policy/engine.py:124 | The first of the strictest effects wins: nothing is stricter, everything earlier is milder |
| `Engine.Picked` | src/byoa_harness/policy/engine.py:121 | The fired rules are exactly the picked ones |
| `EngineLaws.PickedInOrder` | src/byoa_harness/policy/engine.py:121-126 | They come in the policy's order, each as often as it stands there |
| `EngineMeaning.AllowedIff` | src/byoa_harness/policy/engine.py:85-126 | A policy allows iff the action is within limits, some allow rule whose two patterns match has only true conditions, and every restricting rule whose two patterns match has a false one |
| `EngineMeaning.ApprovalIff` | src/byoa_harness/policy/engine.py:85-126 | A policy asks iff, within limits, some approval rule and no deny rule matches with both patterns and no false condition |
| `EngineMeaning.DeniedIff` | src/byoa_harness/policy/engine.py:85-126 | A policy denies iff a limit is exceeded, a deny rule matches with both patterns and no false condition, or no matching rule fires |
| `EngineMeaning.UnrelatedRule` | src/byoa_harness/policy/engine.py:85-126 | A rule one of whose patterns does not match can be taken out without changing the decision in any field |
| `EngineMeaning.SoleRuleDecides` | src/byoa_harness/policy/engine.py:85-126 | A rule that stands alone decides within limits iff both its patterns match, no condition is false, and none is unknown if it permits; otherwise the action is denied |
| `EngineMeaning.LimitIsNamed` | src/byoa_harness/policy/engine.py:101-113 | A denial for a limit names the first limit exceeded: the attempts, then the tokens, then the amount, each compared with what the action would make of it |
| `EngineMeaning.RuleIsNamed` | src/byoa_harness/policy/engine.py:116-126 | Within limits the decision names the policy, its version, the first of the strictest firing rules with its reason, and all firing rules; or default deny |
| `EngineMeaning.FirstStrictestPolicy` | src/byoa_harness/policy/engine.py:129-134 | Of several policies the first of the strictest speaks |
| `EngineMeaning.SeesKind` | src/byoa_harness/policy/engine.py:26-29 | A condition on the kind sees the action's kind |
| `EngineMeaning.SeesResource` | src/byoa_harness/policy/engine.py:26-29 | A condition on the resource sees the canonical resource |
| `EngineMeaning.SeesPrice` | src/byoa_harness/policy/engine.py:31 | Conditions on the cost see tokens and amount of the action |
| `EngineMeaning.SeesParameter` | src/byoa_harness/policy/engine.py:30 | A condition on a parameter sees the parameter's value |
| `EngineMeaning.SeesSession` | src/byoa_harness/policy/engine.py:32-33 | Conditions on agent and session see the ids and the number of attempts so far |
| `EngineMeaning.SeesSpent` | src/byoa_harness/policy/engine.py:34-36 | Conditions on the spend see what is spent before the action |
| `EngineMeaning.SeesSpendAfter` | src/byoa_harness/policy/engine.py:37-38 | And what would be spent after it |
| `EngineMeaning.ExistsMeans` | src/byoa_harness/policy/engine.py:53-57 | A field that is or is not there decides, as the literal's truth asks |
| `EngineMeaning.TextOperators` | src/byoa_harness/policy/engine.py:75-81 | Glob, prefix and contains compare lower-cased texts, and are unknown on anything else |
| `EngineMeaning.NumbersOnly` | src/byoa_harness/policy/engine.py:61-65 | Numbers are ordered with numbers only; a truth value is none |
| `EngineMeaning.EqualityMeans` | src/byoa_harness/policy/engine.py:66-69 | Equality is Python's, by value and element by element, and unknown between a number or a text and anything else |
| `EngineMeaning.Membership` | src/byoa_harness/policy/engine.py:70-74 | A value is in a list iff it equals an element; unknown if the literal is no list |
| `EngineMeaning.UnrecognisedIsStrict` | src/byoa_harness/policy/engine.py:82-98 | An operator the engine does not know never lets a rule permit, and never keeps one from restricting |
| `EngineLaws.CombineEffect` | src/byoa_harness/policy/engine.py:116-126 | Deny iff a deny rule fired or none did; approval iff an approval rule and no deny rule fired; allow iff only allow rules fired |
| `EngineLaws.NegatedOperators` | src/byoa_harness/policy/engine.py:53-82 | The operators come in opposite pairs on every value, literal and missing field: one holds iff the other fails, and both are unknown together |
| `EngineLaws.NumbersAreOrdered` | src/byoa_harness/policy/engine.py:61-69 | On numbers exactly one of less, equal and greater holds, and it is the one that is true of their values |
| `EngineLaws.SpendAfterIsWhatBudgetsSee` | src/byoa_harness/policy/engine.py:34-39 | The token budget check trips iff the action costs tokens and a rule on the spend after it would hold |
| `EngineLaws.AllowIffCertain` | src/byoa_harness/policy/engine.py:53-126 | A policy allows iff every way of settling its unevaluable conditions allows |
| `EngineLaws.PossibleDenyDenies` | src/byoa_harness/policy/engine.py:85-126 | If any settling makes a deny rule fire, the engine denies |
| `EngineLaws.ApprovalIffPossible` | src/byoa_harness/policy/engine.py:85-126 | Within limits, approval is asked iff some settling fires an approval rule and none a deny rule |
| `EngineLaws.WhenAReadingIsStricter` | src/byoa_harness/policy/engine.py:3-9 | Some settling is stricter than the engine iff the action is within limits, some approval rule and no deny rule fires with all unknowns true, and no rule at all with all unknowns false |
| `EngineLaws.DisplacedDefaultDeny` | src/byoa_harness/policy/engine.py:97-98 | A concrete policy whose uncertain approval rule displaces default deny |
| `EngineLaws.OrderIrrelevant` | src/byoa_harness/policy/engine.py:121-126 | Reordering or repeating rules never changes the effect |
| `EngineLaws.AllStrictest` | src/byoa_harness/policy/engine.py:129-134 | The composed decision is one of the single decisions and at least as strict as each |
| `EngineLaws.AllowNeedsEveryPolicy` | src/byoa_harness/policy/engine.py:129-134 | Allowed iff at least one policy is attached and all of them allow |
| `EngineLaws.MorePoliciesNarrow` | src/byoa_harness/policy/engine.py:129-134 | Adding policies never makes the outcome milder |
| `EngineLaws.NotDeniedIsWithinLimits` | src/byoa_harness/policy/engine.py:101-134 | What no policy denies is within every limit of every attached policy |
| `EngineLaws.OverLimitIsDenied` | src/byoa_harness/policy/engine.py:101-134 | Exceeding any limit of any attached policy denies |
| `EngineLaws.PassesIffAllPermit` | src/byoa_harness/policy/engine.py:101-134 | Not denied iff some policy is attached and in every attached one the action is within limits, some rule fires and no deny rule does |
| `Canonical.CanonicalResource` | src/byoa_harness/policy/canonical.py:20-40 | The step-by-step rewriting with early failures yields the specified result or refusal on every input |
| `Canonical.EscapesIffAboveStart` | src/byoa_harness/policy/canonical.py:28-31 | Refused for escaping iff the path is relative and some prefix of its segments walks above the start |
| `Canonical.CollapseKeepsLocation` | src/byoa_harness/policy/canonical.py:29 | Path collapse leads to the same place as walking the original segments, from any directory or from the root |
| `Canonical.NameIsLocation` | src/byoa_harness/policy/canonical.py:28-40 | A name not refused for escaping is a function of the place its segments lead to and of whether it starts at the root |
| `Canonical.SameLocationSameName` | src/byoa_harness/policy/canonical.py:28-40 | Spellings of one location, with or without a slash, get one canonical name or are refused alike |
| `Canonical.AcceptedIsClean` | src/byoa_harness/policy/canonical.py:26-40 | A name accepted after normalisation is not empty, has no dot segment, no double slash and no trailing dot |
| `Canonical.CanonicalIsClean` | src/byoa_harness/policy/canonical.py:20-40 | On the whole function: moreover an accepted name holds no backslash and no control character |
| `Canonical.NoNewControl` | src/byoa_harness/policy/canonical.py:26-40 | Accepted names hold no control character |
| `Canonical.StableIffNoDottedTail` | src/byoa_harness/policy/canonical.py:28-40 | A second pass changes an accepted name iff its path has several components and ends in a segment of dots |
| `Canonical.CanonicalTwice` | src/byoa_harness/policy/canonical.py:20-40 | The same for the whole function, when normalisation leaves the accepted name alone |
| `Canonical.DotsThenSlash` | src/byoa_harness/policy/canonical.py:29-35 | A path ending in three or more dots first becomes one with a trailing slash, then one without |
| `Canonical.LeadingSlashes` | src/byoa_harness/policy/canonical.py:29-34 | Path normalisation keeps exactly two leading slashes if there were exactly two, and one for any other number |
| `CanonicalNames.SlashesAreAlike` | src/byoa_harness/policy/canonical.py:23 | Texts that differ only in which slashes they use are accepted under one name or refused alike |
| `CanonicalNames.EscapesIffClimbs` | src/byoa_harness/policy/canonical.py:23-31 | Refused for escaping iff, with segments separated by either slash, the path is relative and some prefix walks above its start |
| `CanonicalNames.RefusedIff` | src/byoa_harness/policy/canonical.py:20-40 | Each of the four refusals iff its reason holds of the text: empty, a control character, climbing, nothing left but dots |
| `CanonicalNames.NameSpellsPlace` | src/byoa_harness/policy/canonical.py:20-40 | An accepted name is the place the text leads to, spelled out, without the dots at its end |
| `Canonical.ActionsNameCleanResources` | src/byoa_harness/policy/model.py:32-36 | Whatever arguments the agent sends, the action built from them names a resource that is clean, without backslashes and control characters |
| `CanonicalJson.CanonicalIsInjective` | src/byoa_harness/policy/canonical.py:60-62 | Two values have the same canonical text iff they are equal, whatever they nest and whatever their strings hold |
| `CanonicalJson.TextUnique` | src/byoa_harness/policy/canonical.py:60-62 | Equal text, with anything that may follow a value behind it, means equal values and equal rests |
| `CanonicalJson.Sorted` | src/byoa_harness/policy/canonical.py:62 | The keys of an object, each once, in code point order |
| `CanonicalText.StringReadsBack` | src/byoa_harness/policy/canonical.py:62 | A reader following section 7 of RFC 8259 gets every string back, in UTF-16, and knows where it ends |
| `CanonicalText.EscapesAreShortest` | src/byoa_harness/policy/canonical.py:62 | All text is printable ASCII, and a character is escaped iff it has to be, with a letter where there is one |
| `CanonicalText.IntegerReadsBack` | src/byoa_harness/policy/canonical.py:62 | An integer reads back from its decimal text, which has no leading zeros |
| `CanonicalText.ArrayText` | src/byoa_harness/policy/canonical.py:62 | An array is its elements' texts between brackets, separated by commas alone |
| `CanonicalText.ObjectText` | src/byoa_harness/policy/canonical.py:62 | An object is its keys in order, each with its value behind a colon, between braces, separated by commas alone |
| `CanonicalText.OrderOfKeys` | src/byoa_harness/policy/canonical.py:62 | Keys are ordered by the code points where they first differ; a beginning comes before what it begins |
| `CanonicalJson.AllowedIffShallow` | src/byoa_harness/policy/canonical.py:43-58 | A value passes the nesting check iff nothing in it lies more than sixteen containers deep |
| `Tools.PricedAsMoved` | src/byoa_harness/broker/tools.py:176-246 | Costs are never negative, and what executing an action adds to the ledger is exactly the amount it was priced at |
| `ToolLaws.TransferBuilt` | src/byoa_harness/broker/tools.py:176-191 | A transfer is accepted iff its arguments are good; its action names the payee, carries amount and currency, and costs the amount |
| `ToolLaws.CompletionBuilt` | src/byoa_harness/broker/tools.py:227-242 | A completion is accepted iff its arguments are good; its action carries the prompt and the length asked for |
| `ToolLaws.CompletionPrice` | src/byoa_harness/broker/llm.py:23-24 | A completion costs the longest answer asked for plus a token for every full four characters of the prompt, at least one |
| `ToolLaws.LongAnswersAreDenied` | src/byoa_harness/broker/tools.py:239-242 | A completion whose answer alone would reach what is left of some policy's token budget is denied |
| `ToolLaws.PlainBuilt` | src/byoa_harness/broker/tools.py:165-168 | A plain tool's action has the tool's own kind, names the canonical target, carries the parameters and is free |
| `ToolLaws.WhatCostsWhat` | src/byoa_harness/broker/tools.py:176-242 | Exactly completions cost tokens and exactly transfers cost money |
| `ProtocolInvariant.StepKeeps` | src/byoa_harness/broker/broker.py:127-232 | Every step keeps the invariant tying calls, lock, log rows, approval rows, listeners and approvers together |
| `ProtocolInvariant.RunKeeps` | src/byoa_harness/broker/broker.py:127-232 | The invariant holds after every schedule |
| `ProtocolMoney.StepBalanced` | src/byoa_harness/broker/broker.py:164-210 | Every step keeps tokens, amount, ledger and pending count equal to the sums over the calls |
| `ProtocolBounds.JudgedFits` | src/byoa_harness/policy/engine.py:101-134 | An action no policy denies fits every budget when it is judged |
| `ProtocolBounds.FinishWidens` | src/byoa_harness/broker/broker.py:209-210 | Reconciling outside the lock widens the bound by the overrun it causes, also for a call between decision and reservation |
| `ProtocolBounds.StepBudgeted` | src/byoa_harness/broker/broker.py:139-210 | Every step keeps all budgets up to the total overrun |
| `ProtocolBounds.StepAttempts` | src/byoa_harness/broker/broker.py:146-154 | Every step keeps judged attempts on distinct, already used action counts, with action and context as built |
| `ProtocolSafety.ExecutesOnlyWhenCleared` | src/byoa_harness/broker/broker.py:127-216 | A charged call has a committed decision row of the engine with its digest: allow, or require-approval with an approved row of that digest decided by someone who may |
| `ProtocolSafety.ExecutesAtMostOnce` | src/byoa_harness/broker/broker.py:189-195 | No schedule reaches the tool of a call twice |
| `ProtocolSafety.DecidedOnce` | src/byoa_harness/store.py:374-379 | A row that left pending never changes again |
| `ProtocolSafety.VerdictIsTheFirstDecision` | src/byoa_harness/approvals.py:50-88 | A decided row says what the first to decide it said: the approver it names, who was allowed to, or the harness for the waiting call |
| `ProtocolSafety.AnswerMatchesRow` | src/byoa_harness/approvals.py:31-72 | Approved is answered only for an approved row; the answer equals the row's status iff no internal error decided it or the row is expired |
| `ProtocolPending.UnsettledIffDropped` | src/byoa_harness/approvals.py:33-67 | A wait is unsettled iff its call was cancelled as the row was created or lost the write that would have settled it |
| `ProtocolPending.NoApprovalLeftPending` | src/byoa_harness/approvals.py:41-67 | Every row belongs to the call that asked; once that call has ended, the row is pending iff the wait is unsettled and no approver won it |
| `ProtocolPending.PendingIffDropped` | src/byoa_harness/approvals.py:41-67 | The same in events: pending iff the call dropped the row and no one entitled to decided it |
| `ProtocolSafety.CancelledAtCreationLeavesRowPending` | src/byoa_harness/approvals.py:33-41 | From any run: cancelled as the row is created, the call ends and the row stays pending |
| `ProtocolSafety.ErrorHidesApproval` | src/byoa_harness/approvals.py:44-72 | From any run: approved, then a failing announcement, and the call replies expired over an approved row |
| `ProtocolSafety.PhaseAloneEnables` | src/byoa_harness/broker/broker.py:127-216 | In reachable states a step is enabled by the phase alone; the bookkeeping it reads is there |
| `ProtocolSafety.TokensConservedAndBounded` | src/byoa_harness/broker/broker.py:139-210 | Spent tokens are the reservations of open calls plus the usage of settled ones, within every token budget plus the total overrun |
| `ProtocolSafety.LedgerWithinBudget` | src/byoa_harness/broker/tools.py:176-194 | What the ledger moved never exceeds what was reserved, nor any policy's amount budget, on any path |
| `ProtocolSafety.ExecutionsCapped` | src/byoa_harness/broker/broker.py:139-165 | Tools reached never exceed the harness cap or any policy's max_actions |
| `ProtocolSafety.CountsAreDistinct` | src/byoa_harness/broker/broker.py:146-154 | No two judged attempts saw the same action count |
| `ProtocolSafety.QuietRecheckAgrees` | src/byoa_harness/broker/broker.py:182-187 | If count and spend did not move while a call waited, the offset recheck gives the original decision and reserves |
| `ProtocolSafety.RecheckPassesIff` | src/byoa_harness/broker/broker.py:182-187 | An approved call is granted iff the engine answers and every policy still permits it with the spend of now and all attempts counted |
| `ProtocolSafety.LateRecheckIsDenied` | src/byoa_harness/broker/broker.py:182-186 | If more attempts were made meanwhile than max_actions, the recheck denies |
| `ProtocolSafety.PendingCountsWaits` | src/byoa_harness/broker/broker.py:75-83 | The pending count is the number of calls between pause and resume |
| `ProtocolOutcome.EveryAttemptCounts` | src/byoa_harness/broker/broker.py:139-154 | The action count is the number of attempts made, rejected arguments included |
| `ProtocolOutcome.OutcomesAreTrue` | src/byoa_harness/broker/broker.py:193-232 | An outcome row follows its decision and approval, is the call's only one, and says executed iff the tool came back without error |
| `ProtocolProgress.OutsideCalls` | src/byoa_harness/broker/broker.py:127-137 | A call that arrives stands in line; refusals and reports outside calls are in the log, and nothing else has moved |
| `ProtocolProgress.AttemptIsDecided` | src/byoa_harness/broker/broker.py:139-176 | From any run: an attempt with good arguments is judged with the spend and count of now, the cap first, recorded as judged, reserved iff allowed, and the lock is free again |
| `ProtocolProgress.AllowedReachesTool` | src/byoa_harness/broker/broker.py:139-195 | A call allowed at once reaches its tool iff the engine answers, the count is below the cap, and there are policies all of which allow |
| `ProtocolProgress.BadArgumentsAreRefused` | src/byoa_harness/broker/broker.py:140-145 | Bad arguments are recorded as refused, count as an attempt, and end the call without a charge |
| `ProtocolProgress.UnrecordedIsNotActedOn` | src/byoa_harness/broker/broker.py:161-163 | A decision that cannot be recorded ends the call without a charge and with the lock free |
| `ProtocolProgress.GrantedRunsToItsEnd` | src/byoa_harness/broker/broker.py:193-216 | A granted call runs its tool, moves what it was priced at, replaces the estimate by what was reported if the tool succeeded and reported anything, and records how it went |
| `ProtocolProgress.RejectedWasNotApproved` | src/byoa_harness/broker/broker.py:177-181 | A rejected call was answered, not with an approval, and has no charge |
| `ProtocolProgress.ApprovedReachesTool` | src/byoa_harness/broker/broker.py:176-195 | From any run: an approved call whose turn it is reaches its tool iff the engine answers and every policy still permits it |
| `ProtocolProgress.RecheckReserves` | src/byoa_harness/broker/broker.py:182-187 | The recheck reserves exactly what it lets pass, and otherwise leads to a blocked or a failed call without a charge |
| `ProtocolProgress.BlockedIsRecorded` | src/byoa_harness/broker/broker.py:184-186 | A call the recheck denies is recorded as failed and gives the lock back |
| `ProtocolProgress.RejectionIsRecorded` | src/byoa_harness/broker/broker.py:178-181 | A call that was not approved is recorded as failed |
| `ProtocolAnswers.WaitOpens` | src/byoa_harness/approvals.py:31-49 | A call that has to ask creates its pending row, requests approval for the digest of what was judged, pauses the session and waits |
| `ProtocolAnswers.HumanAnswers` | src/byoa_harness/approvals.py:49-88 | From any run: a human who is not the submitter, if that matters, answers a waiting call, and the call goes on with exactly that answer, in row and log |
| `ProtocolAnswers.FirstWakeStands` | src/byoa_harness/approvals.py:85-87 | Waking a call that has its answer, or no longer listens, changes nothing |
| `ProtocolAnswers.TimeoutAnswers` | src/byoa_harness/approvals.py:50-72 | A call out of time is answered expired, by the harness, if nobody decided its row, and else with the decision made in the last moment |
| `ProtocolAnswers.InterruptedBefore` | src/byoa_harness/approvals.py:44-63 | A request or freeze hook that times out or fails is dealt with as a timeout or error of the wait; the session counts as paused from the hook on |
| `ProtocolAnswers.ErrorAnswersExpired` | src/byoa_harness/approvals.py:60-72 | After an internal error the answer is expired, and so is the row unless somebody had decided it |
| `ProtocolAnswers.CancelledWaitIsSettled` | src/byoa_harness/approvals.py:55-67 | A call cancelled while it waits lets a pending row expire, resumes the session, and ends without an answer or a charge |
| `ProtocolAnswers.CancelledLeaving` | src/byoa_harness/approvals.py:53-67 | A call cancelled on its way out of the wait leaves without an answer |
| `ProtocolAnswers.FailedSettlingLeaves` | src/byoa_harness/approvals.py:50-63 | If the row cannot be settled or read the call leaves without an answer, or with expired after an error |
| `ProtocolAnswers.LeavingWithoutAnswerEnds` | src/byoa_harness/approvals.py:64-67 | Without an answer, or with a failing thaw, leaving the wait ends the call, unregistered and resumed |
| `ProtocolAnswers.CancelledOutsideEnds` | src/byoa_harness/broker/broker.py:139-195 | A call cancelled outside its wait is over, with nothing recorded or moved and without the lock |
| `ProtocolEnds.NextAdvances` | src/byoa_harness/broker/broker.py:127-216 | In reachable states every call that need not wait for the lock has a next step that brings it nearer to its end, whether or not anybody answers |
| `ProtocolEnds.EveryCallCanEnd` | src/byoa_harness/broker/broker.py:127-216 | From any run every call can come to its end by working steps of its own and of the call holding the lock, without a human, a failure or a cancellation: nothing deadlocks |
| `Broker.SessionGov.Pause` | src/byoa_harness/broker/broker.py:75-78 | Counts one more wait; the freeze hook runs iff it is the first |
| `Broker.SessionGov.Resume` | src/byoa_harness/broker/broker.py:80-83 | Counts one wait less, never below zero; the thaw hook runs iff none is left |
| `Broker.SessionGov.Reserve` | src/byoa_harness/broker/broker.py:85-87 | Adds tokens and amount to the spend and changes nothing else |
| `Broker.Broker.Decide` | src/byoa_harness/broker/broker.py:139-155 | Takes exactly the protocol's decision step under the lock |
| `Broker.Broker.RecordDecision` | src/byoa_harness/broker/broker.py:156-163 | Takes exactly the step that writes the decision, or gives up with the lock released |
| `Broker.Broker.Proceed` | src/byoa_harness/broker/broker.py:164-176 | Takes exactly the step that reserves, denies or asks, and releases the lock |
| `Broker.Broker.CreateApproval` | src/byoa_harness/approvals.py:33-36 | Takes exactly the step that creates the pending row |
| `Broker.Broker.HandleTimeout` | src/byoa_harness/approvals.py:50-54 | Takes exactly the timeout's race for the row |
| `Broker.Broker.HandleCancellation` | src/byoa_harness/approvals.py:55-59 | Takes exactly the step that settles the row on cancellation |
| `Broker.Broker.HandleError` | src/byoa_harness/approvals.py:60-63 | Takes exactly the step that settles the row on an internal error |
| `Broker.Broker.Leave` | src/byoa_harness/approvals.py:64-67 | Takes exactly the step that stops listening and resumes |
| `Broker.Broker.RecordResolution` | src/byoa_harness/approvals.py:68-72 | Takes exactly the step that writes the resolution and answers |
| `Broker.Broker.HumanDecides` | src/byoa_harness/approvals.py:74-84 | Takes exactly an approver's pending to terminal update |
| `Broker.Broker.Notify` | src/byoa_harness/approvals.py:85-87 | Takes exactly the step that wakes a listener that has no answer yet |
| `Broker.Broker.Recheck` | src/byoa_harness/broker/broker.py:182-187 | Takes exactly the recheck under the lock |
| `Broker.Broker.Finish` | src/byoa_harness/broker/broker.py:193-210 | Takes exactly the step that replaces the estimate by the usage |
| `Broker.Broker.Cancel` | src/byoa_harness/approvals.py:55-67 | Takes exactly the step a cancellation makes in the current phase |
| `Broker.Broker.Take` | src/byoa_harness/broker/broker.py:127-216 | Takes exactly the protocol step of any event |
| `Broker.Play` | src/byoa_harness/broker/broker.py:127-216 | Driven through any schedule, the objects reach the state of the run |
| `Chain.VerifyRows` | src/byoa_harness/store.py:336-345 | Valid iff every row continues the chain; otherwise the first broken position and its reason |
| `Chain.TamperEvidence` | src/byoa_harness/store.py:118-121 | Two non-empty verifying lists with the same head hash agree on every hashed field, or exhibit a collision |
| `Chain.JsonTamperEvidence` | src/byoa_harness/store.py:118-121 | The same with the canonical JSON the harness hashes and a 64-digit hash: only a collision of the hash itself remains |
| `Chain.OnlyTailDeletionUnseen` | src/byoa_harness/store.py:332-345 | What is left of a verifying log verifies iff only a tail was deleted |
| `Chain.CopiesAreNotCovered` | src/byoa_harness/store.py:118-121 | Lists that agree on the hashed fields verify alike, whatever their query columns say |
| `AuditStore.AuditStore.Begin` | src/byoa_harness/store.py:292-298 | Takes the step of a writer that arrives and waits for its session's lock |
| `AuditStore.AuditStore.Acquire` | src/byoa_harness/store.py:298 | Takes the step of a writer that gets a free lock |
| `AuditStore.AuditStore.ReadLast` | src/byoa_harness/store.py:299-301 | Finds the sequence number and hash the row has to continue, or fails |
| `AuditStore.AuditStore.Insert` | src/byoa_harness/store.py:302-309 | Takes the step of an insert that commits or fails |
| `AuditStore.AuditStore.Release` | src/byoa_harness/store.py:298 | Takes the step of a writer that is through, whether it wrote, failed to write or failed to read |
| `AuditStore.Play` | src/byoa_harness/store.py:292-312 | Appends driven through any schedule reach the store of the run |
| `AuditStore.StepKeeps` | src/byoa_harness/store.py:298-309 | Every step of every writer keeps every session's chain, and what a lock holder read stays the chain's end |
| `AuditStore.AppendsAreRows` | src/byoa_harness/store.py:292-312 | In every run: an append that returned has written the row it returned, as asked for; no two returned the same row, and no other rows exist |
| `AuditStore.ChainFollowsCalls` | src/byoa_harness/store.py:292-312 | An append that begins after another of its session returned comes later in the chain |
| `AuditStore.BeginsWaiting` | src/byoa_harness/store.py:292-298 | An append that begins waits, and its turn comes at once iff nobody holds its session's lock |
| `AuditStore.AppendCompletes` | src/byoa_harness/store.py:292-312 | From any run: an append whose turn it is, left alone, writes one row that continues its session's chain with what it was asked to write, returns it, and frees the lock |
| `AuditStore.FailedAppendLeavesNothing` | src/byoa_harness/store.py:298-309 | An append whose read or insert fails leaves the table as it was and frees the lock |
| `AuditStore.AuditStore.VerifyChain` | src/byoa_harness/store.py:332-345 | Valid iff the session's rows in sequence order verify; in every reachable table they do, with the right count and head |
| `AuditStore.TableAppend` | src/byoa_harness/store.py:298-309 | Appending to one session's chain keeps every session's chain and leaves the other sessions' rows alone |
| `Sse.SseParser.ParseBlock` | console/src/lib/sse.ts:26-38 | One block yields the frame its fields spell, or none |
| `Sse.MeaninglessIsIgnored` | console/src/lib/sse.ts:30-36 | Comments and unknown fields say nothing, wherever they stand |
| `Sse.FieldMeans` | console/src/lib/sse.ts:31-36 | Id and event set, data adds a line, other fields say nothing; one space behind the colon is not part of the value, and without a colon it is empty |
| `Sse.MultiLineEvent` | console/src/lib/sse.ts:26-38 | The last id and the last event type of a block count, and all its data lines joined |
| `Sse.SseParser.Push` | console/src/lib/sse.ts:20-40 | A push emits exactly the frames of all complete blocks and keeps the rest |
| `Sse.ConsumeConcat` | console/src/lib/sse.ts:20-40 | Parsing text in two pieces is parsing it in one |
| `Sse.CutsDecideLineEnds` | console/src/lib/sse.ts:21 | Line ends come out as in the whole text iff no boundary cuts a CRLF |
| `Sse.ParseChunks` | console/src/lib/sse.ts:17-42 | A parser fed a list of chunks has emitted the specified frames and keeps the specified rest |
| `Sse.ChunksAsWhole` | console/src/lib/sse.ts:17-42 | With no CRLF cut, any chunking parses as the whole text, remainder included |
| `SseCuts.FramesSurviveCuts` | console/src/lib/sse.ts:20-40 | For every stream and every cutting, the frames are those of the whole text iff at each cut inside a CRLF nothing of the event being read had been said or nothing more of it follows |
| `SseCuts.ConsumeReads` | console/src/lib/sse.ts:23-40 | The parser's frames are those its finished lines complete, read one by one |
| `Sse.RoundTrip` | src/byoa_harness/api/app.py:418-433 | Any events and keep-alives, encoded and cut anywhere, are parsed back exactly, with nothing left over |
| `Sse.TruncatedStream` | console/src/lib/sse.ts:20-40 | A connection lost at any character has delivered a prefix of the frames |
| `Sse.CutCrlfBreaksFrame` | console/src/lib/sse.ts:21 | A CRLF cut between chunks makes two frames of one |
| `Stream.Source.Poll` | src/byoa_harness/api/app.py:421-424 | The loop puts the next rows on the wire in order and moves the cursor behind the last |
| `Stream.Source.Check` | src/byoa_harness/api/app.py:425-431 | Ends the stream iff the status is terminal, else keeps it alive |
| `Stream.Hook.OnFrame` | console/src/features/sessions/useSessionEvents.ts:35-47 | A frame advances the cursor and is appended unless its id is already there |
| `Stream.ConsoleHoldsPrefix` | console/src/features/sessions/useSessionEvents.ts:30-71 | Through any number of disconnects the console holds a gap-free, duplicate-free prefix of the session's rows in id order |
| `StreamProgress.PollSendsNext` | src/byoa_harness/api/app.py:421-424 | From any run: a poll puts exactly the next rows, at most two hundred, behind what is on the wire, and the status is looked at iff there are none |
| `StreamProgress.StatusDecides` | src/byoa_harness/api/app.py:425-431 | Having found nothing, the server ends the stream iff the status is terminal, and else keeps it alive and looks again |
| `StreamProgress.ResumesAtCursor` | console/src/features/sessions/useSessionEvents.ts:30-71 | A lost connection takes what was on the wire with it, and the next one starts behind the highest id seen |
| `StreamProgress.HoldsEachOnce` | console/src/features/sessions/useSessionEvents.ts:35-47 | Whatever frames arrive, in any order and however often, the console holds each id once, its cursor is the highest, and it has ended iff told so |
| `StreamProgress.CatchesUp` | console/src/features/sessions/useSessionEvents.ts:30-71 | From any run in which the server has not decided to end, connecting, polling and delivering alone bring the console every row of the session |
| `StreamProgress.ThenItEnds` | src/byoa_harness/api/app.py:418-433 | If the status is terminal, they bring every row and then the end |
| `Stream.EndedMeansCaughtUp` | src/byoa_harness/api/app.py:418-433 | When told the stream ended, the console holds every row of the poll at which nothing new was found |
| `Stream.FinishedRowCanBeMissed` | src/byoa_harness/runtime/manager.py:151-160 | From any caught-up state, a row appended after the status became terminal can be missed for good |
| `Paging.PagesAreReversedLog` | src/byoa_harness/api/app.py:440-454 | Newest-first pages put together are the reversed rows below the first cursor, although rows are appended between requests |
| `Paging.BelowCursor` | src/byoa_harness/store.py:316-319 | Below the cursor of a row lie exactly the matching rows before it |
| `Paging.LaterTableSameBelow` | src/byoa_harness/store.py:316-319 | Rows appended later never show below an earlier cursor |
| `Paging.QueryAnswers` | src/byoa_harness/store.py:311-330 | A query answers with matching rows only, in the order asked for and the first in it, as many as the limit between 1 and 1000 allows, and fewer only if there are no more |
| `Timeline.FindTarget` | console/src/features/sessions/timeline.ts:60-62 | The reverse search finds the most recent call that still wants an approval of the digest |
| `Timeline.BuildTimeline` | console/src/features/sessions/timeline.ts:37-96 | The loops compute the fold of the sorted rows; a frozen call is shown iff some call waits, and it is the last one |
| `Timeline.MoreAskedThanRequested` | src/byoa_harness/approvals.py:44-46 | Counting by digest, more calls have asked than requests were written before |
| `Timeline.RequestFindsCall` | console/src/features/sessions/timeline.ts:57-67 | Every request finds a call that wants it, however many share its digest |
| `Timeline.FrozenIffUnanswered` | console/src/features/sessions/timeline.ts:83-94 | A frozen call is shown iff some request in the log has no resolution |
| `Timeline.TargetIsMostRecent` | console/src/features/sessions/timeline.ts:60-62 | The search finds the most recent call that wants an approval of the digest, and nothing only if none does |
| `Timeline.NamelessRowsAreIgnored` | console/src/features/sessions/timeline.ts:51-79 | Rows that do not say what they are about, and rows of other kinds, change nothing |
| `Timeline.FrozenNamesTheRequest` | console/src/features/sessions/timeline.ts:83-92 | The frozen call shows the approval, the call and the time of a request in the log that has no resolution, made for that call |
| `Timeline.ArrivalOrderIrrelevant` | console/src/features/sessions/timeline.ts:42 | The order rows arrived in does not matter |
| `Timeline.ReusedIdHidesTheWait` | console/src/features/sessions/timeline.ts:45-48 | A call id decided again while it waits hides the wait, so distinct ids are needed |
| `TimelineItems.ItemsFollowLog` | console/src/features/sessions/timeline.ts:42-81 | The items are exactly the decisions, progress messages and lifecycle rows of the log, in order |
| `TimelineItems.OutcomesAreShown` | console/src/features/sessions/timeline.ts:51-56 | Every outcome shown on a call is a row of the log with its id, and a call that ended shows one |
| `TimelineItems.ResolutionsAreTrue` | console/src/features/sessions/timeline.ts:69-72 | A resolution shown on a call is a row of the log for the very approval the call asked for |
| `EventStream.ProtocolEmits` | src/byoa_harness/approvals.py:44-72 | Every schedule of the protocol writes a log the timeline can follow |
| `EventStream.ConsoleShowsTheWait` | console/src/features/sessions/timeline.ts:37-96 | For every schedule and arrival order, a frozen call is shown iff an approval request has no resolution row |
| `EventStream.WaitIsShown` | console/src/features/sessions/timeline.ts:83-94 | A call that waits for its answer is always shown |
| `EventStream.ConsoleListsTheLog` | console/src/features/sessions/timeline.ts:42-81 | For every log and arrival order, the console lists decisions and refusals as calls, reports as messages or lifecycle items, each once and in the order of the log |
| `EventStream.ConsoleShowsTheOutcome` | console/src/features/sessions/timeline.ts:51-56 | For every schedule and arrival order, once a call's outcome is in the log the console shows exactly that row on the call, as executed iff its tool came back without an error |
| `Simulate.Simulate` | src/byoa_harness/policy/simulate.py:20-34 | One row per action, repeating what was recorded and saying what the policies decide now and whether that differs; changed counts exactly the differing ones, and the counters add up to the total |
| `Simulate.BuildHistory` | src/byoa_harness/api/app.py:348-356 | Refusals and truncated payloads are counted as skipped, all others become history in order |
| `Simulate.ActionSurvives` | src/byoa_harness/policy/model.py:41-49 | An action survives being written and read |
| `Simulate.ContextSurvives` | src/byoa_harness/policy/model.py:60-69 | A context survives being written and read |
| `Simulate.ActionIsRead` | src/byoa_harness/policy/model.py:45-49 | A stored action reads as the kind, resource and parameters it names; a missing or empty part is empty, a missing number zero, anything else an error |
| `Simulate.ContextIsRead` | src/byoa_harness/policy/model.py:65-68 | A stored context must name its agent; what else it leaves out is empty or zero |
| `Simulate.NumbersAreRead` | src/byoa_harness/policy/model.py:49 | Numbers are read by value, truth values as 0 and 1, fractions cut off towards zero |
| `Simulate.RowsAreSorted` | src/byoa_harness/api/app.py:348-356 | Rows without an action are skipped; the others are loaded as recorded iff action and context can be read |
| `Simulate.RowTells` | src/byoa_harness/broker/broker.py:157-160 | A recorded decision names call, tool and digest and carries decision and context; the action is whole iff it is short enough |
| `Simulate.DigestTextTellsActions` | src/byoa_harness/policy/model.py:38-43 | Two actions have the same digest text iff they are the same action |
| `Simulate.ReadBack` | src/byoa_harness/broker/broker.py:157-160 | A recorded decision reads back as made if its action was recorded whole, and is skipped otherwise |
| `Simulate.ReplayFidelity` | src/byoa_harness/policy/simulate.py:20-34 | Replaying any selection of a run's decisions under its own policies changes exactly the ones the harness overrode |
| `Simulate.OwnPoliciesChangeNothing` | src/byoa_harness/policy/simulate.py:20-34 | Nothing changes iff no recorded decision was overridden |
| `Simulate.VersionsDoNotMatter` | src/byoa_harness/api/app.py:336-343 | Simulating documents gives the effects of the stored versions |
| `Clock.ActiveSession.Active` | src/byoa_harness/runtime/manager.py:38-41 | Reads the active seconds the clock defines |
| `Clock.ActiveSession.OnPause` | src/byoa_harness/runtime/manager.py:179-180 | Takes the clock's step when the freeze hook starts |
| `Clock.ActiveSession.OnThawed` | src/byoa_harness/runtime/manager.py:183-187 | Takes the clock's step when the container is running again |
| `Clock.ActiveSession.Watch` | src/byoa_harness/runtime/manager.py:289-297 | Kills iff the active seconds exceed the limit |
| `Clock.InTurnIffFaithful` | src/byoa_harness/runtime/manager.py:179-188 | From a faithful clock, exactly the hooks that come in turn keep it faithful |
| `Clock.ActivePlusHeldIsElapsed` | src/byoa_harness/runtime/manager.py:38-41 | With hooks in turn: active plus held time is elapsed time, time stands still exactly while held, and a kill means unfrozen time above the limit |
| `Clock.PauseDuringThawIsCharged` | src/byoa_harness/runtime/manager.py:179-188 | After a pause, waiting time stands still iff no thaw was under way when it started |
| `Clock.AbortedThawStopsTheClock` | src/byoa_harness/runtime/manager.py:183-187 | A thaw cut short leaves the clock standing although nothing is held |
| `Clock.ResumesNeverClamp` | src/byoa_harness/broker/broker.py:75-83 | In every run each resume finds the count positive |
| `Clock.HooksAlternate` | src/byoa_harness/broker/broker.py:75-83 | In every run freeze and thaw hooks start strictly in turn, a freeze first |
| `Clock.ActiveTimeIsUnfrozenTime` | src/byoa_harness/runtime/manager.py:38-41 | With atomic hooks, for every schedule and passage of time, active time is exactly the time no call waited |
| `Pinning.PolicyStore.CreatePolicyVersion` | src/byoa_harness/store.py:182-188 | Appends the version after the highest existing one |
| `Pinning.PolicyStore.AttachPolicy` | src/byoa_harness/store.py:205-210 | Replaces the agent's attachment of that policy |
| `Pinning.PolicyStore.DetachPolicy` | src/byoa_harness/store.py:212-215 | Removes it and tells whether there was one |
| `Pinning.PolicyStore.ResolvePolicies` | src/byoa_harness/runtime/manager.py:77-97 | Resolves agent-level and then session references, failing at the first bad one, and nothing without an agent-level policy |
| `Pinning.VersionsAreSequential` | src/byoa_harness/store.py:182-188 | The versions of a policy are 1, 2, ... in order of creation, each existing once |
| `Pinning.AttachReplaces` | src/byoa_harness/store.py:205-210 | Afterwards the agent has exactly one attachment of that policy, with the version given, and all others are as before |
| `Pinning.DetachRemoves` | src/byoa_harness/store.py:212-215 | Exactly that attachment is gone |
| `Pinning.ResolvedVersion` | src/byoa_harness/store.py:190-195 | A reference with a version resolves to it, one without to the latest, and the version exists |
| `Pinning.CreatedIsKept` | src/byoa_harness/store.py:182-195 | A version just created is the latest, and later changes never make its number mean another document |
| `Pinning.OneGives` | src/byoa_harness/runtime/manager.py:86-96 | A reference gives its document's policy under the version found and a pin of it, or fails: no such version, not readable, or not meant for the agent |
| `Pinning.AllGive` | src/byoa_harness/runtime/manager.py:86-97 | References give a policy and a pin each, in order; the first that cannot be used fails the whole with its reason |
| `Pinning.AgentRefsAreAttachments` | src/byoa_harness/runtime/manager.py:80-84 | The agent's own references are exactly its attachments, in the order of policy ids |
| `Pinning.PinnedAtSubmission` | src/byoa_harness/runtime/manager.py:169-172 | After any later versions and attachments, a session loads exactly the policies resolved at submission |
| `Pinning.SessionPoliciesOnlyNarrow` | src/byoa_harness/runtime/manager.py:83-84 | A session's decision is never milder than the agent-level policies alone would give |
| `Pinning.NoAgentPolicyDeniesAll` | src/byoa_harness/runtime/manager.py:80-82 | Without an agent-level policy every action is denied, whatever the session asks for |
| `Lifecycle.Harness.FinishSessionIfActive` | src/byoa_harness/store.py:247-253 | Sets a terminal status iff the status was active, and says which |
| `Lifecycle.Harness.FailOrphanedSessions` | src/byoa_harness/store.py:277-286 | Fails exactly the active sessions and names them |
| `Lifecycle.Harness.DecideApproval` | src/byoa_harness/store.py:374-379 | Decides a row iff it was pending |
| `Lifecycle.Harness.ExpireStaleApprovals` | src/byoa_harness/store.py:381-386 | Expires exactly the pending rows and counts them |
| `Lifecycle.Harness.Finish` | src/byoa_harness/runtime/manager.py:152-156 | Takes exactly the finalizer's store step |
| `Lifecycle.Harness.Take` | src/byoa_harness/runtime/manager.py:127-163 | Takes exactly the step of any event |
| `Lifecycle.TerminalIsFinal` | src/byoa_harness/store.py:247-253 | A terminal status never changes, whatever happens later |
| `Lifecycle.FinishedOnce` | src/byoa_harness/runtime/manager.py:153-160 | At most one session.finished row, and it states the terminal status |
| `Lifecycle.StatusIsEarned` | src/byoa_harness/runtime/manager.py:127-137 | A session succeeded only if its body ran and returned success, and was cancelled only if a live body was cancelled |
| `Lifecycle.SubmittedStarts` | src/byoa_harness/runtime/manager.py:115-125 | A submitted session is queued; launched and given a slot it is running, with its body executing |
| `Lifecycle.BodyDecidesStatus` | src/byoa_harness/runtime/manager.py:120-160 | With working store calls a session ends as its body did, failed if it could not be started, cancelled if it was, and says so once |
| `Lifecycle.GuardsOfTheStore` | src/byoa_harness/store.py:243-253 | The finalizer leaves a session alone that has ended meanwhile, marking a session running asks for no status, and only a running body asks for approval |
| `Lifecycle.RestartCloses` | src/byoa_harness/runtime/manager.py:53-55 | A restart fails exactly what was active, expires exactly what was pending, and lets nothing in before both are done |
| `Lifecycle.FirstAnswerStands` | src/byoa_harness/store.py:374-379 | The first answer to an approval stands, and a later one does not change it |
| `Lifecycle.CancelIsHonoured` | src/byoa_harness/runtime/manager.py:119-143 | A cancelled body never succeeds, whatever happens later |
| `Lifecycle.GoneIsTerminal` | src/byoa_harness/runtime/manager.py:108-163 | A task that is gone left its session terminal except iff, since the last recovery, submission failed before its task, it was cancelled before its first step, its finalizer could not read or set the row, or the process crashed |
| `Lifecycle.RecoveryIsFinal` | src/byoa_harness/runtime/manager.py:53-55 | After a crash and restart no earlier session is active, no earlier approval pending, and none becomes approved later |
| `Lifecycle.CancelledBeforeStartStaysQueued` | src/byoa_harness/runtime/manager.py:119-124 | A session cancelled before its task's first step stays queued until the next restart |

## Left out

* Glob matching, lower-casing, NFKC, SHA-256, float printing and the policy loader are parameters; nothing is said
  about their internals. Tamper evidence is stated as agreement or an explicit collision between two of the compared rows.
* NaN and infinity, which reals do not have. A payload that `canonical_json` refuses appears as a failed write.
* The persisted copy of spend and action count (`bump_session`): it is for reporting and never read by enforcement.
* The integrity check before execution: actions are values here and cannot change between evaluation and execution.
* A cancellation that splits a store call running in another thread; the transition to `running` is not guarded in the
  store, and its safety rests on this.
* Arguments of the plain tools beyond their resource; their cost is zero. Python's `int` and `float` on text in stored
  action payloads, which the broker never writes.
* Tools are nondeterministic: they may or may not have acted, and report tokens or an error. LLM providers, HTTP egress,
  Docker and the container's own state are not modelled; a hook either returns or fails.
* Capacity: the check at submission and the number of simultaneously active sessions are not bounded by the code and
  not claimed here.
* Reconnect delays, the 401/403/404 exits of the console's stream, and query invalidation.
* Filters of `query_audit` other than the cursors are one arbitrary predicate on rows.
* Roles, API keys, request validation, metrics, health checks, the console's components and the command line.
* Float rounding: amounts are reals, and the budget check and the update compute the same sum.
