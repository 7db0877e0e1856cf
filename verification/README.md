# Verification of the agent fleet daemon

A daemon keeps a fleet of coding agents staffed under a fleet-wide cap and speaks up when one is
stuck. These Dafny files model its stateful protocols and its graph and text transformations, and
prove what its comments promise about them.

- Admission (`AdmissionOrder`, `RateLimits`, `Admission`, `CapSafety`, `Fairness`, `Mistrust`, `Refusals`,
  `WaitLedger`, `Reservations`, `SentinelFreedom`, `AdmissionSpacing`): one controller shared by several polling
  loops, as a transition system whose calls are cut at the census read. Main results: the cap holds over every
  interleaving; no fairly offered worker starves; an empty census is disbelieved exactly when it should be, and
  that is bounded; sentinels do not interfere; waits, reservations and reports are what the run says they are.
- Escalator (`Escalator`, `EscalatorDaemon`, `EscalatorSafety`, `EscalatorTrace`, `EscalatorBudget`,
  `EscalatorSteps`, `EscalatorKeys`, `Directives`, `DirectiveRoundTrip`, `DirectiveGrammar`): the per-pane protocol
  that asks a question on a ticket and types the answer back, cut at every await, with a comment channel that
  outlives the daemon. Main results: at most one escalation and one follow-up over any history; debounce; an hourly
  budget; what each step leads to, from the trace alone; answers acted on once, and their keys pressed in order and
  only on the verified dialog; which comments are answers.
- Link migration (`MigrateLinks`, `LinkGraph`, `PlanFacts`, `Unresolved`, `Migration`, `AppliedPlan`): planner and
  executor over a link graph, each API call free to fail or to take effect and still look failed. Main results:
  convergence by an exact measure, what the fixed point means, who can be stranded, and what is left unresolved.
- Detectors and dashboard (`HourlyCap`, `CrashLoop`, `CrashPolls`, `Wording`, `StageText`, `StageMarks`, `NoAnswer`,
  `Abandoned`, `AbandonedSafety`, `AbandonedPosts`, `Dashboard`): windows, complaints and rows that are functions of
  the full history, staged escalation that is posted when due and never repeated, comments in their full wording
  that are matched only for themselves and never read as answers.
- Text and release (`WslConf`, `ConfLines`, `Semver`, `Changelog`, `LineForms`, `Bullets`, `BumpLines`, `Headings`,
  `Release`): an idempotent INI edit, notes that print and parse back, exactly what a fragment's lines declare and
  hold, and a gate that guarantees the later release.

Where the source updates state in place there is a class or a method with the source's loops, and its
`ensures` equates the new state with a function of the old; the lemmas are about that function.

Where a promise is false of the code, the file gives the input and proves exactly when it holds:

- Two tickets of the same level that implement each other lose both links
  (`Migration.PeersAreTornApart`, `Migration.TiedPairIsLostExactlyWhenMutualPeers`).
- A stage comment can be taken for another worker's when a key reads like a field of the comment
  (`StageMarks.ColonInKeyMisleads`); which keys those are is said exactly, stage by stage
  (`StageMarks.MatchedOnlyForItselfExactly`), and no key without a colon is one.
- The terminal stage comment begins a line with the boss key, and a key such as `ANSWER TEXT` makes it
  an answer (`NoAnswer.KeyThatAnswers`); which keys do is said exactly
  (`NoAnswer.TerminalAnswersExactly`), and no key without a space does.
- A pull request that touches no gated file may pass the gate with a fragment that stops the release
  (`Release.UngatedFragmentCanStopRelease`); passing suffices exactly when such fragments declare
  their bump (`Release.PassedPullRequestsRelease`).
- A known section heading set off from its hashes by anything but one space passes the headings check
  but is not read as a section (`Release.KnownHeadingIsRead`), so its bullets are filed under the
  section before (`Release.UnreadHeadingMisfilesItsBullets`).

`dafny verify dfyconfig.toml` checks everything.

## Model

| member | source | states |
|---|---|---|
| AdmissionOrder.OrderByWaitSorts | src/agents/admission.ts:692-699 | the ordered list is a permutation of the candidates in which longer waits come first and equal waits follow key order |
| AdmissionOrder.OrderIsUnique | src/agents/admission.ts:692-699 | any permutation in that order is the same list, so the order does not depend on the sort |
| RateLimits.AdmitWithRateLimits | src/agents/admission.ts:614-660 | the loop over candidates with its remaining budget computes the pass that the lemmas below are about |
| RateLimits.PassPartitions | src/agents/admission.ts:614-660 | admitted and withheld are an order-preserving split of the candidates |
| RateLimits.PassWithinBudget | src/agents/admission.ts:621-634 | no more than max(0, budget) are admitted |
| RateLimits.CapWithholdsOnlyWhenSpent | src/agents/admission.ts:629-635 | an id withheld by the cap rather than by a rate limit is withheld only once the budget is used up |
| RateLimits.AtMostMaxPerTick | src/agents/admission.ts:642-649 | one call admits at most maxNewPerTick ids of a rule |
| RateLimits.TimerMovesOnAdmission | src/agents/admission.ts:644-656 | a rule has an admission time exactly when the call admitted one of its limited ids; withheld ids never move it |
| RateLimits.AdmissionsAreSpaced | src/agents/admission.ts:645-650 | over any list of passes, each starting from the times the earlier ones left, any two admissions of a rule are at least minSeconds apart |
| RateLimits.AdmittedExactly | src/agents/admission.ts:614-660 | a candidate is admitted exactly when a place is left, its rule has had fewer than its maximum this call, and its rule's last admission, this call's included, is its period ago; with a place left and no turn it is deferred for its rate |
| AdmissionSpacing.RunsAreSpaced | src/agents/admission.ts:642-656 | over any run of the whole controller, whatever sources, failed and refused reads, reservations and spawns come in between, any two workers of a rule are let in at least minSeconds apart, on any clock |
| RateLimits.UnlimitedPassIsPlainCap | src/agents/admission.ts:528-531 | with no limits set the pass equals the plain slice at the budget |
| Admission.ImplausibleZeroGuard.Record | src/agents/admission.ts:322-329 | true while the streak is within its bound, and past it false with the streak started over |
| Admission.AdmissionController.BeginAdmit | src/agents/admission.ts:829-859 | starting a call drops the source's leftover reservations and splits its candidates by role |
| Admission.AdmissionController.EndAdmit | src/agents/admission.ts:860-1049 | finishing a call after its census answered or threw moves the whole state as the transition system says and returns its outcome |
| Admission.AdmissionController.RationCall | src/agents/admission.ts:947-1048 | the trusted path: order, ration, age the ledger, reserve and report |
| Admission.AdmissionController.UpdateLedger | src/agents/admission.ts:999-1014 | the three ledger loops together: withheld ids age, admitted ids with a leftover wait stay in sight, ids unseen too long are dropped |
| Admission.AdmissionController.ReserveFor | src/agents/admission.ts:833-838 | reserving only adds to the source's held ids |
| Admission.AdmissionController.ReleaseFrom | src/agents/admission.ts:840-847 | releasing removes just these ids, and the source's entry when none is left |
| Admission.AdmissionController.RecordSpawnedIds | src/agents/admission.ts:1051-1056 | a confirmed spawn clears the id's wait and last sighting and nothing else |
| Admission.AddWaitsCounts | src/agents/admission.ts:999-1002 | each withheld id's wait grows by the times it was withheld, and no other wait moves |
| WaitLedger.WaitsAreTallied | src/agents/admission.ts:989-1014 | over any run an id's wait is how often it was held back since it was last spawned or forgotten, and it is forgotten exactly when more than two hundred rationed calls go by without it being held back or let in |
| WaitLedger.ReportIsTheCap | src/agents/admission.ts:978-1045 | a rationed call reports, in its bucket and for the fleet, exactly the workers that found no place left and were never passed over for their rate |
| WaitLedger.NobodyToHoldBack | src/agents/admission.ts:937-955 | a believed call with no worker candidates reports that nobody is held back |
| Reservations.HeldSinceTaken | src/agents/admission.ts:806-850 | over any run a source holds exactly the ids it reserved or was returned as workers and has not released, nor asked again, since |
| CapSafety.EndRationsTheCap | src/agents/admission.ts:960-976 | on every path a call reserves exactly the workers it returns, and these fit beside everything resident or reserved |
| CapSafety.StepKeepsSafe | src/agents/admission.ts:806-850 | every event keeps everything alive or on its way inside the call's census, the reservations, and the bound |
| CapSafety.FleetStaysWithinCap | src/agents/admission.ts:806-976 | over every interleaving of several sources with stale censuses, spawns, failures, respawns and releases, workers resident or on their way never exceed max(cap, initial count) |
| Fairness.WithheldCallLowersPhi | src/agents/admission.ts:692-699 | a call with a free slot that withholds c lowers the sum of its rivals' leads by at least one, spawn failures or not |
| Fairness.OtherSourcesDoNotInterfere | src/agents/admission.ts:989-1014 | another source's call leaves c's wait alone and raises no lead over it |
| Fairness.NoStarvation | src/agents/admission.ts:956-1015 | a fairly offered, unlimited worker is admitted within Phi + 1 trusted calls of its source, whatever else happens |
| Fairness.FreshStartBound | src/agents/admission.ts:692-699 | from an empty ledger Phi is at most the number of rivals |
| Mistrust.MistrustIsBounded | src/agents/admission.ts:317-340 | at most maxPolls reads in a row are refused, and after that many the next read that answers is believed |
| Mistrust.DeclinedReadTouchesNothing | src/agents/admission.ts:861-917 | a read that throws or is refused changes nothing but its source's bucket and the streak, and admits no worker |
| Mistrust.RefusedOnlyWhenUnexplained | src/agents/admission.ts:888-905 | a read is refused only when it shows no worker, some were trusted before, and stopping explains too few |
| Refusals.DisbelievedExactly | src/agents/admission.ts:860-955 | over any run a call's census is disbelieved exactly when it shows no worker, the last census believed showed more workers than are stopping or resident as sentinels, and fewer than maxPolls were disbelieved since; it then reports so and returns no worker, a census that threw likewise, and any other call reports checked |
| Refusals.TrustIsTheLastBelieved | src/agents/admission.ts:928-936 | what is trusted is the last believed census of the run: its workers by number and name, its sentinels by number |
| SentinelFreedom.SentinelsDoNotInterfere | src/agents/admission.ts:857-966 | deleting every sentinel from a whole run leaves worker admissions, ledger, trust state, buckets and withheld list of every call the same |
| SentinelFreedom.SentinelsAlwaysAdmitted | src/agents/admission.ts:857-875 | every sentinel candidate is returned on every path, fail-safe ones included |
| MigrateLinks.PlanBackwardsImplements | scripts/migrate-links.ts:74-113 | the scan over all issues with its seen set computes the backwards deletions and unresolved tickets the lemmas below are about |
| MigrateLinks.ComputePlan | scripts/migrate-links.ts:139-186 | story adds, then task adds and Relates deletions, then the backwards scan, in that order |
| MigrateLinks.ApplyPlan | scripts/migrate-links.ts:283-314 | the two loops: every add is attempted before any delete, and a Relates deletion is skipped when its add failed |
| AppliedPlan.AppliedExactly | scripts/migrate-links.ts:283-314 | after a plan is applied the links are those there were and those whose adds took effect, less those whose deletes were tried and took effect; a Relates deletion is left untried exactly when its own add is known to have failed; and every call is reported, adds first, as it went |
| PlanFacts.ResolutionIsRight | scripts/migrate-links.ts:116-130 | a task is resolved to an open story whenever it can be: one it implements when there is one, else one it relates to when there is one, else the one its summary names |
| Unresolved.SummaryNamesExactly | scripts/migrate-links.ts:127-128 | a summary names a ticket exactly when it starts with the key KAN-digits in square brackets |
| Unresolved.UnresolvedExactly | scripts/migrate-links.ts:74-185 | of a complete fetch the plan leaves unresolved exactly the open tasks that no open story could own and, for each wrong-direction or unranked link it cannot act on, an end of that link |
| PlanFacts.ScanIsExact | scripts/migrate-links.ts:74-113 | exactly the Implements links not strictly low to high that have a correct counterpart are planned for deletion, each once |
| PlanFacts.PlanIsRight | scripts/migrate-links.ts:139-186 | every planned call would close a gap or remove a redundant or backwards link of the graph, and no two do the same work |
| LinkGraph.StoryAddLowers | scripts/migrate-links.ts:146-151 | adding a missing story link lowers the measure by exactly one |
| LinkGraph.TaskAddLowers | scripts/migrate-links.ts:160-168 | adding a task's missing link lowers the measure by exactly one |
| LinkGraph.BackwardDeleteLowers | scripts/migrate-links.ts:95-108 | deleting a backwards link lowers the measure by exactly one and reopens no gap |
| Migration.EveryEffectCounts | scripts/migrate-links.ts:283-314 | applying a plan lowers the measure by exactly the number of calls that took effect, under any failures and lost replies |
| Migration.FullSuccessAppliesAll | scripts/migrate-links.ts:283-314 | when no call fails every planned action takes effect |
| Migration.MigrationTerminates | scripts/migrate-links.ts:139-314 | planning and applying again can make progress at most as many times as the measure it starts from |
| Migration.EmptyPlanMeansDone | scripts/migrate-links.ts:139-186 | with nothing left to do every open story implements its parent, every resolvable open task implements its story with no redundant Relates link, and no backwards link has a correct counterpart |
| Migration.NoTaskIsStranded | scripts/migrate-links.ts:283-311 | a task linked to its resolved story by either kind of link is still linked after one applied plan, whatever fails |
| Migration.DifferentLevelsStayTied | scripts/migrate-links.ts:79-110 | tickets of different levels keep a correct Implements link between them, and stay joined by Implements if they were |
| Migration.TiedPairIsLostExactlyWhenMutualPeers | scripts/migrate-links.ts:93-108 | a joined pair loses all its Implements links in a fully applied plan exactly when both sit at one level and each implements the other: there the code deletes both directions |
| Migration.PeersAreTornApart | scripts/migrate-links.ts:93-108 | two stories that implement each other are joined before a run in which every call succeeds and apart after it |
| CommentText.FindMarkedFinds | src/agents/escalation-helper.ts:37-39 | finds the first comment with the marker and all needed strings, and one whenever there is one |
| EscalatorDaemon.EscalatorState.OnBlocked | src/agents/escalation-loop.ts:764-834 | a sighting up to its first await: stale polls ignored, debounce counted, escalation carried over for the same dialog only |
| EscalatorDaemon.EscalatorState.Escalate | src/agents/escalation-loop.ts:665-707 | after the channel was read: adopt the prior escalation, or hit the cap, or go on to post |
| EscalatorDaemon.EscalatorState.ScanReplies | src/agents/escalation-loop.ts:843-873 | the first row that is timely, unconsumed and parses, in the order read |
| EscalatorDaemon.EscalatorState.CheckReplies | src/agents/escalation-loop.ts:840-911 | act on the first answer after recording it as consumed, else see whether the follow-up is due, already posted, or to be posted |
| EscalatorDaemon.EscalatorState.HandleDirective | src/agents/escalation-loop.ts:713-762 | after re-reading the pane: refuse and drop the state on any mismatch, else press what the directive asks |
| EscalatorDaemon.EscalatorState.PostSettled | src/agents/escalation-loop.ts:696-709 | only a post that resolved records its time |
| EscalatorDaemon.EscalatorState.OnPoll | src/agents/escalation-loop.ts:970-976 | every tracked pane not reported blocked loses its debounce fields and nothing else |
| EscalatorDaemon.EscalatorState.OnNoPrompt | src/agents/escalation-loop.ts:996-1003 | an unparseable poll resets the debounce unless it is stale |
| EscalatorSafety.EscalationIsRecognised | src/agents/escalate.ts:104-118 | the escalation comment carries the marker and the fingerprint line that a restarted daemon looks for |
| EscalatorSafety.FollowupIsRecognised | src/agents/escalation-loop.ts:899-906 | the follow-up carries its stage tag and its fingerprint |
| EscalatorSafety.StepKeepsInv | src/agents/escalation-loop.ts:657-911 | every event, restarts included, keeps each subject posted at most once and readable on its channel, and every call about to post the first to do so |
| EscalatorSafety.AtMostOneEscalation | src/agents/escalation-loop.ts:657-911 | any interleaving of polls, flickers, failed reads, lost replies and restarts posts at most one escalation and one follow-up per issue and fingerprint |
| EscalatorSafety.RejectedReadChangesNothing | src/agents/escalation-loop.ts:657-664 | a rejected read posts and latches nothing: the call ends and the rest of the memory is as it was |
| EscalatorSafety.OwnCommentsAreNoAnswers | src/agents/escalate.ts:167-169 | over any history no escalation, follow-up, cap notice or free-text notice the escalator lands parses as an answer |
| NoAnswer.UnresponsiveIsNoAnswer | src/agents/escalation-loop.ts:286-308 | nor does the report of an unresponsive pane, for any one-line issue and pane ids, though it names ANSWER within a line |
| EscalatorTrace.AttemptsAreDebounced | src/agents/escalation-loop.ts:782-825 | an attempt comes only right after the same dialog was handled at two consecutive poll numbers with no sighting and no reset in between |
| EscalatorSteps.SightingsLead | src/agents/escalation-loop.ts:764-840 | from a pane's trace alone: a sighting counts unless stale or during a call; a dialog whose escalation is in force leads to a read for replies, else the second sighting in a row to an attempt, and no other |
| EscalatorSteps.BlanksLead | src/agents/escalation-loop.ts:996-1003 | a poll that shows no dialog breaks the pane's run of sightings, unless it is stale or the pane is not tracked |
| EscalatorSteps.AttemptsLead | src/agents/escalation-loop.ts:657-707 | an attempt whose read resolves adopts the dialog's first escalation there, at its own time; finding none it goes on to post while fewer than three charges lie in the hour before; else it gives notice once, or records the dialog |
| EscalatorSteps.CappedMeansTold | src/agents/escalation-loop.ts:692-706 | a pane is capped exactly when the notice was sent for it and nothing granted to it, nor the daemon restarted, since |
| EscalatorSteps.GrantsArePosted | src/agents/escalation-loop.ts:707-708 | what was granted goes on to be posted to its issue, captured or not, recognisable as that dialog's escalation |
| EscalatorSteps.PostsAreRecorded | src/agents/escalation-loop.ts:696-709 | a post reported done is the issue's last comment in the words sent and is recorded at its time; a failed one leaves no record |
| EscalatorSteps.RepliesLead | src/agents/escalation-loop.ts:836-911 | from the trace: the first timely undelivered row that reads as a directive is delivered; without one, an escalation fifteen minutes old and not yet followed up is followed up unless a follow-up is there already; else nothing happens |
| EscalatorSteps.ReReadsLead | src/agents/escalation-loop.ts:713-756 | from the trace: a dialog gone or changed, or a directive for another, drops the directive; else the first key it asks for goes out, a text the dialog cannot take is answered with a notice, an option it does not have with nothing |
| EscalatorSteps.SendsLead | src/agents/escalation-loop.ts:745-761 | when a key's send ends, the directive's next key goes out, if there is one and the send did not fail; else the call is over |
| EscalatorTrace.EscalationCarriesOver | src/agents/escalation-loop.ts:793-807 | a recorded escalation keeps its dialog from being attempted again until a restart, a refused directive or another dialog |
| EscalatorTrace.AnswersComeFirst | src/agents/escalation-loop.ts:843-885 | a timely unconsumed answer among the rows is delivered, the first of them with its own directive and time, before any follow-up; without one nothing is delivered |
| EscalatorTrace.FollowUpWaits | src/agents/escalation-loop.ts:885-911 | a follow-up falls due at least fifteen minutes after the recorded time of an escalation of that dialog still in force |
| EscalatorTrace.DirectivesAreConsumedOnce | src/agents/escalation-loop.ts:869-883 | between restarts a comment is acted on at most once per pane, even when a send throws |
| EscalatorBudget.AtMostThreeAnHour | src/agents/escalation-loop.ts:697-707 | on a monotone clock no pane goes on to post more than three escalations in any hour of one daemon lifetime |
| EscalatorBudget.AdoptionsCountToo | src/agents/escalation-loop.ts:673-707 | at every grant fewer than three charges lie in the hour before: earlier grants, and escalations adopted, each fingerprint once, at the time the comment itself carries |
| EscalatorTrace.KeysAreWarranted | src/agents/escalation-loop.ts:714-761 | keys go out only for the latest delivery, when the pane as re-read shows the escalated dialog, the directive names no other, and its comment is timely; since that delivery they are, in order, the first the directive asks for: the option selected, or the free-text option selected, then the text, then Enter |
| EscalatorKeys.WholeDirectiveIsTyped | src/agents/escalation-loop.ts:745-761 | after a re-read that matches, with no restart, failed send or further delivery, the keys gone out are the directive's in order, one more than the sends ended, until they are all of them |
| Directives.FreeTextOption | src/agents/escalate.ts:194-203 | the one option that opens free text, none when none or several do |
| DirectiveRoundTrip.OptionRoundTrip | src/agents/escalate.ts:167-185 | every numbered reply, tagged or not, parses back to exactly its number and fingerprint |
| DirectiveRoundTrip.TextRoundTrip | src/agents/escalate.ts:173-179 | every free-text reply with a trimmed one-line text, tagged or not, parses back to exactly its text and fingerprint |
| DirectiveRoundTrip.MarkedIsNoAnswer | src/agents/escalate.ts:168-169 | a comment that begins with the marker is never an answer |
| DirectiveGrammar.ParsesExactly | src/agents/escalate.ts:167-186 | a comment reads as a directive, and as which, exactly when it does not begin with the marker and the first of its lines to begin ANSWER, a leading tag aside, goes on in that directive's form |
| DirectiveGrammar.TagIsStripped | src/agents/escalate.ts:130-170 | a leading tag, capital letters, a dash and digits in square brackets, is dropped with the white space after it |
| DirectiveGrammar.OnlyTagsAreStripped | src/agents/escalate.ts:130-170 | and nothing else is |
| HourlyCap.RateCap.AllowPost | src/agents/escalation-helper.ts:56-60 | answers whether fewer than max posts remain in the window, pruning the key's list |
| HourlyCap.RateCap.RecordPost | src/agents/escalation-helper.ts:63-67 | a post made is appended to its key's list |
| HourlyCap.PruningForgetsNothing | src/agents/escalation-helper.ts:56-60 | on a monotone clock the pruned list and the full history hold the same posts of every window still to come |
| HourlyCap.NoWindowOverfills | src/agents/escalation-helper.ts:48-68 | posts each guarded by allow never exceed max in any window |
| CrashLoop.CrashLoopTracker.ForgetMissing | src/agents/crash-loop.ts:161-163 | exactly the ids no longer desired are dropped |
| CrashLoop.CrashLoopTracker.RecordSpawn | src/agents/crash-loop.ts:166-171 | the spawn is appended and the list pruned to the window |
| CrashLoop.CrashLoopTracker.Check | src/agents/crash-loop.ts:379-435 | one poll: forget, skip a fleet-wide spawn, record each spawn and complain once past the threshold; a post that throws ends the poll |
| CrashLoop.TrackerKeepsTheStay | src/agents/crash-loop.ts:157-182 | each id's list is all spawns recorded since it last left the desired set that are still in the window, and its latch says whether that stay has had its complaint |
| CrashLoop.OneComplaintPerStay | src/agents/crash-loop.ts:409-435 | two complaints about an id have a poll between them in which it was not desired, and each has the threshold of spawns behind it |
| CrashPolls.ListsAndComplaintsAreThePolls | src/agents/crash-loop.ts:379-435 | on a monotone clock, from the polls alone: an id's list is the window's part of its sightings since it was last undesired, polls of a whole fleet of several and sightings after a throw left out, and its complaints come exactly at the sightings that reach the threshold, have had none in that time and whose post goes through |
| NoAnswer.ComplaintIsNoAnswer | src/agents/crash-loop.ts:192-200 | a crash-loop complaint about any one-line id never parses as an answer |
| Dashboard.UpdateWithheldRows | src/agents/dashboard.ts:403-433 | both loops: checked sources rebuilt, others carried forward, keys with an agent removed from every row |
| Dashboard.DashboardFeed.RunPoll | src/agents/dashboard.ts:509-545 | a failed poll only relabels the snapshot; a successful one rebuilds it |
| Dashboard.RowsAreAFunctionOfTheRun | src/agents/dashboard.ts:403-545 | after any polls a source's rows are its bucket at the last poll that checked it, less every key with an agent row at that or a later successful poll |
| Dashboard.RowsAreTheWaiting | src/agents/dashboard.ts:403-433 | once a source has been checked its rows are the keys its last checked report held back, in that order and at that report's time, less exactly those that have had an agent since |
| Dashboard.DeclinesAreLocal | src/agents/dashboard.ts:403-433 | two polls that read the same agents and in which a source reports the same leave it the same rows, whatever other sources report or decline |
| Dashboard.DeclinersKeepTheirRows | src/agents/dashboard.ts:403-433 | a source that declines keeps its rows, less those whose key has an agent, and a failed poll changes none |
| Abandoned.AbandonedCandidates | src/agents/abandoned.ts:132-159 | exactly the open issues' inward Implements links whose boss is confirmed Done |
| Abandoned.AbandonedDetector.Post | src/agents/abandoned.ts:378-415 | adopt the marked comment, or post within the cap and record only a post that resolved |
| Abandoned.AbandonedDetector.VisitCandidate | src/agents/abandoned.ts:444-487 | one candidate: observe it, find the stage due and its target, and try it |
| Abandoned.AbandonedDetector.ForgetMissing | src/agents/abandoned.ts:188-190 | exactly the pairs no longer candidates are forgotten |
| StageText.MarksItself | src/agents/abandoned.ts:233-279 | every stage comment carries its own needles |
| StageMarks.MatchedOnlyForItselfExactly | src/agents/abandoned.ts:399-400 | for one-line keys a stage comment is matched for no other worker, boss or stage exactly when no key holds a field of the comment, nor ends just short of one where a space follows it in the wording, with the one harmless exception in the second stage |
| StageMarks.MarksOnlyItself | src/agents/abandoned.ts:399-400 | so for such keys a match is exactly the comment's own worker, boss and stage, even where one key begins another |
| StageMarks.PlainKeysAreSafe | src/agents/abandoned.ts:386-400 | keys with no colon and space in them and no colon at their end, so all keys as Jira writes them, are safe |
| StageMarks.ColonInKeyMisleads | src/agents/abandoned.ts:399-400 | a key that is merely one line is not enough: a concrete worker key whose comment is matched for another worker |
| NoAnswer.OnlyTheRequestAnswers | src/agents/abandoned.ts:233-279 | for one-line keys a stage comment parses to what its request line says, for every stage |
| NoAnswer.EarlyStagesAreNoAnswers | src/agents/abandoned.ts:233-267 | stages one, two and the escalated third never parse as answers, whatever their one-line keys |
| NoAnswer.TerminalAnswersExactly | src/agents/abandoned.ts:269-279 | the terminal comment parses as an answer exactly when the boss key, its leading white space aside, starts with ANSWER and a space and goes on, after any more white space, with the word TEXT, alone or with white space and a one-line rest after it, and the worker key has no line separator in it |
| NoAnswer.KeyThatAnswers | src/agents/abandoned.ts:269-279 | a concrete one-line boss key that makes the terminal comment an answer |
| NoAnswer.TerminalIsNoAnswer | src/agents/abandoned.ts:269-279 | no boss key without a space makes the terminal comment an answer |
| AbandonedSafety.EscalationsAreNotRepeated | src/agents/abandoned.ts:378-487 | across polls, failed reads, lost replies and restarts at most one comment is posted per target, worker, boss and stage, and it can be found again |
| AbandonedSafety.AdoptsOnlyItsOwn | src/agents/abandoned.ts:399-405 | where all marked comments are the detector's own for safe keys, a comment adopted was posted for this very worker, boss and stage |
| AbandonedSafety.PostsGoUpTheChain | src/agents/abandoned.ts:449-486 | stages one and two go to the worker, stage three to the boss's boss or with none to the boss, and nothing while the links cannot be read |
| AbandonedSafety.StagesAreSpaced | src/agents/abandoned.ts:449-465 | a stage is tried only with the one before it marked at least the configured minutes earlier |
| AbandonedPosts.DueStagesArePosted | src/agents/abandoned.ts:378-490 | after any history, by the pair's marks and the target's posts: a due stage whose target's comments are read, none saying it, with fewer than three posts there in the hour before, is posted in its own words and marked if the post resolves; one already said is adopted at its time; with three posts nothing is posted |
| AbandonedPosts.OnlyDueStagesArePosted | src/agents/abandoned.ts:444-490 | a visit with no stage due posts and marks nothing |
| AbandonedPosts.ThreePostsAnHour | src/agents/abandoned.ts:402-410 | no target gets more than three posts in any hour between restarts |
| AbandonedSafety.ClocksAreKept | src/agents/abandoned.ts:440-446 | an observation clock restarts, or a marked stage is tried again, only after a restart or a complete poll without the pair |
| WslConf.Parse | scripts/wsl-host/wsl-conf.ts:33-45 | each line with the section it belongs to and its key |
| WslConf.UpsertIniValue | scripts/wsl-host/wsl-conf.ts:61-89 | rewrite the first matching line, or insert after the section's block, or append a section; byte-identical when already right |
| WslConf.EnsureWslConf | scripts/wsl-host/wsl-conf.ts:92-108 | the two edits in order, changed when either changed |
| WslConf.UpsertSays | scripts/wsl-host/wsl-conf.ts:61-89 | after an edit the file says the wanted line for its key, every other key of every section says what it said, and the text changes exactly when it did not say so |
| WslConf.OtherLinesStay | scripts/wsl-host/wsl-conf.ts:66-88 | all other lines keep content and order: one line rewritten, or one added at the end of its section's block, or a section appended after dropping trailing blank lines |
| WslConf.EnsureWorks | scripts/wsl-host/wsl-conf.ts:92-108 | both settings hold afterwards, the user edit not disturbing the boot edit, and nothing else the file says changes |
| WslConf.EnsureIsIdempotent | scripts/wsl-host/wsl-conf.ts:92-108 | for any text and any newline-free user a second run reports no change and returns the same bytes |
| ConfLines.HeaderLineExactly | scripts/wsl-host/wsl-conf.ts:35-42 | a line is a section's header exactly when it is the name in square brackets, in letters of either case, with white space at most about it |
| ConfLines.KeyLineExactly | scripts/wsl-host/wsl-conf.ts:37-43 | any other line sets a key exactly when it holds it, in letters of either case, before its first equals sign, white space allowed around, and does not open with a comment mark |
| Semver.FmtParses | scripts/release/semver.ts:4-8 | a printed version parses back to itself |
| Semver.ParsesExactly | scripts/release/semver.ts:4-7 | a text reads as a version exactly when it is three decimal numerals set off by points, white space at most about them |
| Semver.BumpsInvert | scripts/release/semver.ts:18-30 | bumpKind recognises exactly what bumpVersion makes, and a bump takes precedence over its base (Semantic Versioning 2.0.0 items 6 to 8 and 11) |
| Semver.BumpIsTheNext | scripts/release/semver.ts:25-30 | a bump makes the first version after its base whose later numbers are zero |
| Semver.CompareIsTotalOrder | scripts/release/semver.ts:10-12 | compare is a total order whose zero is equality |
| Changelog.ParseSectionsLoop | scripts/release/changelog.ts:20-35 | the line loop with its current section computes the reading the lemmas below are about |
| LineForms.SectionLineExactly | scripts/release/changelog.ts:24 | which lines open a section: hashes, one space, a word, white space at most after |
| LineForms.HeadingLineExactly | scripts/release/changelog.ts:13 | which lines are headings with a given text |
| LineForms.BulletLineExactly | scripts/release/changelog.ts:27 | which lines are bullets, and their text |
| LineForms.ContinuationExactly | scripts/release/changelog.ts:30-32 | which lines continue a bullet, and with what |
| Bullets.BulletsExactly | scripts/release/changelog.ts:20-35 | a text's list for a section holds, in order, one entry for each bullet line under a line naming that section: its text and, each after a space, what continues it before the section's next bullet |
| Changelog.CollateSectionLines | scripts/release/changelog.ts:54-64 | the nested loops print each non-empty section in order |
| Changelog.LinesKeepWellRead | scripts/release/changelog.ts:27-32 | every bullet read, continuation lines included, is one non-empty line |
| Changelog.NotesRoundTrip | scripts/release/changelog.ts:20-74 | parsing the printed notes returns every source's bullets once, under their section, in order |
| Release.BumpLineIsRead | scripts/release/fragments.ts:9-15 | a file that opens with its bump line declares that level whatever follows |
| BumpLines.BumpExactly | scripts/release/fragments.ts:9-12 | a fragment declares a level exactly when the first line in it of the form bump, colon, a level, white space allowed between and after, names that level |
| Headings.UnknownHeadingsExactly | scripts/release/fragments.ts:11-13 | a heading is reported unknown exactly when some line of the file is a heading with that text and it is none of the five section names |
| Headings.MisnamedHeadingIsRefused | scripts/release/gate.ts:53-57 | a file with such a heading fails the gate of every pull request that brings it and stops the release |
| Headings.EveryBulletIsFiled | scripts/release/changelog.ts:20-35 | where no unknown heading is reported and every heading is set off by one space, each bullet line below a heading is filed under that heading's section |
| Bullets.ContentIsBulletLines | scripts/release/fragments.ts:16 | a fragment has content, and breaking changes, exactly when it has a bullet line under a section line, and under that of BREAKING |
| Release.HighestBumpLoop | scripts/release/fragments.ts:22-26 | the loop over fragments computes the fold whose maximum the next row states |
| Release.HighestIsMaximum | scripts/release/fragments.ts:22-26 | the result is a level some fragment declares and none declares a higher one |
| Release.Evaluate | scripts/release/gate.ts:42-130 | the verdicts, loop by loop, all hold exactly when the pull request meets what passing is declared to mean |
| Release.RefusesExactly | scripts/release/compute-release.ts:27-37 | a release is computed exactly when every fragment declares a bump, has no unknown heading, and has BREAKING content just when major |
| Bullets.ReleasedFilesAgree | scripts/release/compute-release.ts:30-37 | each file of a release that goes through declares a level, has no unknown heading, and declares a major change exactly when it has a bullet line under BREAKING |
| Release.GateGuaranteesRelease | scripts/release/gate.ts:42-130 | if every gated pull request passed, the release succeeds with a later version, bumped by exactly the highest level declared, which is at least what each one needed |
| Release.ReleaseNotesKeepEveryBullet | scripts/release/compute-release.ts:39-42 | its notes parse back to every fragment's bullets, once per section, in order |
| Release.UngatedFragmentCanStopRelease | scripts/release/gate.ts:60-70 | a pull request that only adds an empty fragment file passes and stops the release |
| Release.PassedPullRequestsRelease | scripts/release/compute-release.ts:27-43 | over pull requests that passed, gated or not, the release goes through exactly when every fragment of an ungated one declares a bump that agrees with its breaking section |
| Release.KnownHeadingIsRead | scripts/release/changelog.ts:11-40 | a heading the unknown-headings check accepts is read as a section exactly when one space separates it from its hashes |
| Release.UnreadHeadingMisfilesItsBullets | scripts/release/changelog.ts:11-40 | a fragment with two spaces before a known heading passes the gate with no unknown heading, and the bullet under it is filed under the section before |

## Left out

- Log lines, log throttling, `/health` and census formatting, `reason` texts of actions and verdicts: wording only.
- The per-rule tallies and the rate-limit log window of `admitWithRateLimits`: they only feed log lines.
- `reconcileNow` and `planReconcile`: their use of admit, reserve, release and recordSpawned is assumed as stated in `CapSafety.Enabled` and `Fairness.FairStep`; that file is not part of this model.
- The promise queue behind `exclusive` in the admission controller: modelled as a precondition that admit and release do not overlap.
- Order of bucket and row maps by insertion: maps are unordered here.
- `parsePrompt`, `keysToSelect`, the fingerprint hash, secret redaction and `freeTextOption`'s regular expression: a dialog, its fingerprint and what an option says are inputs.
- The wording of the escalation, follow-up, cap and free-text notices is shortened; markers, fingerprint and stage tags, and the first and last words that matter for parsing, are kept. The detectors' comments and the unresponsive-pane report are in full.
- The unresponsive-pane and ticketless-pane trackers of the escalator: the same shape as the modelled ones with fewer states.
- The ops-alert route and the refusal reasons of the crash-loop detector: their own window decides, and they change no modelled state.
- Overlapping polls of the abandoned and crash-loop detectors: a visit's read and post are one step, as their loops await them.
- One reading of the clock per stretch of code between awaits: the source reads it several times there.
- Characters are Unicode scalars compared by code point, not UTF-16 units, and string order follows.
- `Number()` rounds option numbers above 2^53 and `Date.parse` strings: numbers and times are unbounded integers here, with unreadable times as None.
- `WslConf.UpsertIniValue`: section and key are lower-case letters, as in its only two calls; lower-casing of other lines is ASCII, which decides equality with those names.
- `Abandoned.AbandonedDetector.VisitCandidate`: the loop of `check` appears as any sequence of visits, and pairs are compared as pairs, not as the joined key with its bar.
- `AbandonedSafety.AdoptsOnlyItsOwn`: a marked comment that a person or another program wrote can hold any fields, so the channel's marked comments are taken to be the detector's own.
- `Dashboard.DashboardFeed.RunPoll`: tiers, waiting floors and agent row fields are left out; agents are the keys of their rows.
- `Release.Evaluate`: changelog entries are given by their versions, and the reasons and the informational base-tip hint are left out.
- `MigrateLinks.ApplyPlan`: fetching, pagination, authentication and error texts are left out; the server is an arbitrary sequence of effects and replies with fresh link ids.
- Prototype names such as `constructor` looked up in the level table: a level exists only for the named issue types.
- Chained candidate lists with repeated ids are covered by admission as the source treats them; fairness assumes distinct ids, as its caller supplies.
- The watchdog, build identity, hooks, the dashboard page and the command lines: straight-line wiring that would only add easy members.
