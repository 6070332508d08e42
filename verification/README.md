# Yoke, modelled

Yoke runs an application as one Core and the units around it: the Core numbers and fans out what happens, a
guardian keeps the Cores of an account alive, interfaces arbitrate between the channels people use, admission
decides which process is a unit, and the tools around it install, remove and describe applications. This project
models the parts of it whose correctness is a statement about every run or every input, and proves that statement.

| file | what it models |
|---|---|
| `Bus.dfy`, `Events.dfy` | the event bus: numbered events, the last event of each level, a bounded queue for each subscriber, and a new snapshot for one that overflowed; the filters, and the levels events belong to |
| `GuardianModel.dfy`, `GuardianRuns.dfy`, `GuardianDecisions.dfy`, `Guardian.dfy`, `Backoff.dfy` | the guardian: one event loop over watches, timers that fire in any order, exits and record edits at any time; what holds over its runs; when a Core is started and when one is asked to stop; the loop itself in place; the doubling wait |
| `Arbitration.dfy`, `Attachments.dfy` | the arbiter between channels, its rules inverted around reclaimed channels; the attachments that make a channel hold |
| `Admission.dfy`, `Grants.dfy` | nine-stage admission with single-use tokens and two inverse maps; the grant as an intersection, and the joins of a Manifest |
| `Withdrawal.dfy` | one removal of installed versions against any number of parties pinning instances to them |
| `Package.dfy` | the 512-byte footer of a package, written by offset and read back |
| `Trees.dfy`, `Crumbs.dfy`, `Documents.dfy` | setting and removing a node of a document's tree: as values, on the way down to a node, and on nodes edited in place |
| `Descriptions.dfy`, `Renderings.dfy`, `Checking.dfy` | the rendering of a contract, its parser, that the one undoes the other, and the checker of the form |
| `Retention.dfy` | cleaning a log group by age, bytes and count |
| `Versions.dfy`, `Text.dfy`, `Prelude.dfy` | semantic versions and ranges; cutting, splitting and trimming text; what is shared |

Each part has a specification as functions on values, theorems about that specification over all inputs and all
runs, and, where the code changes state or loops, classes and methods proved to do what the specification says.
Locks are modelled as steps: one step is what one critical section does, and a run is any sequence of steps. The
ghost sequences and sets that runs carry (events published, tokens ever issued) record history and decide nothing.

Where the code does less than is said of it, the model follows the code, and a theorem says exactly when the two
agree:

- a confirmation that reaches an attachment after it finished counts it again
  (`Attachments.LateConfirmationLeaks`); the count is the unfinished attachments that are not stale if and only if
  no confirmation did (`Attachments.CountIsExactExactlyWhenTimely`, `Attachments.SettledCount`);
- the guardian's wait is the backoff doubled with every attempt up to the ceiling, exactly when the backoff is not
  negative, though accepted texts wrap to backoffs that are, and no doubling below the ceiling passes a 64-bit
  duration (`Backoff.WaitIsExact`; inputs that fail are in `Backoff.LongCeilingOverflows` and
  `Backoff.LongBackoffIsNegative`); exactly where it never decreases is `Backoff.WaitNeverDecreasesExactlyWhen`;
- a byte or entry limit of 2^63 or more deletes the whole group (`Retention.LargestLimitDeletesAll`), so what is kept
  is the longest run exactly under smaller limits, or when the newest entry does not fit
  (`Retention.CleaningKeepsTheLongestRunExactlyWhen`);
- a cleaning whose commit fails reports the entries it had deleted though all are still there
  (`Retention.UncommittedIsReported`); the number reported is the entries lost exactly when no commit fails after
  deleting something, in one transaction (`Retention.ReportedIsLostExactlyWhen`) and in a cycle
  (`Retention.CycleCountsTheLostExactlyWhen`);
- a comparator shortened to one or two parts is its zero-filled form exactly when its numbers fit 64 bits
  (`Versions.ShortIsZeroFilledExactlyWhen`, and `Versions.HugeComparatorIsRefused`);
- a footer gives its metadata back exactly when no text field ends in a zero byte, all are UTF-8, and the time's
  nanoseconds fit 64 bits (`Package.ReadsBackExactlyWhen`, and `Package.SomeMetadataIsLost`);
- a rule of a document is written without being looked at first: setting a field of it is seen, and removing the
  field undoes that, exactly when the rule is a mapping (`Trees.SettingReachesExactlyWhen`,
  `Trees.RemovingUndoesSettingExactlyWhen`); paths apart from the field stay as they were exactly when the rule is no
  list, or is one with the value in that place already (`Trees.SettingLeavesOthersExactlyWhen`, and
  `Trees.ListRuleIsOverwritten`);
- a rendering gives its cases back exactly when every id is trimmed, of one line, no striking out, and followed by the
  first spaced dash there is (`Renderings.RenderingReadsExactlyWhen`), which well-formed ids need not be
  (`Checking.DashedIdentifierIsLost`, `Checking.TildedIdentifierIsLost`); of a contract with ids of its own, well formed
  and distinct, the checker reports nothing exactly then (`Checking.RenderingConformsExactlyWhen`);
- a version can be deleted under a pin (`Withdrawal.ALateWriteIsMissed`): it is left pinned if and only if a pin to it,
  checked before its withdrawal, is written after the second listing, finds its name as it must be, and is neither
  dropped nor pointed elsewhere later (`Withdrawal.DeletedIsPinnedExactlyWhen`).

## Model

| member | source | states |
|---|---|---|
| Bus.FoldedViewIsCurrent | internal/core/bus/bus.go:42-60 | in every run, a subscriber that folded its snapshots and deliveries holds, with its queue empty and nothing lost, exactly the current event of each level whose current event its filter selects; for a filter alike on levels, that is the filtered table |
| Bus.GivenWithoutGaps | internal/core/bus/bus.go:134-191 | between two announcements what a subscriber is given is a gap-free, strictly rising prefix of the selected events published after the snapshot, and nothing is both in a snapshot and delivered after it |
| Bus.SelectedIsAll | internal/core/bus/bus.go:96-113 | what was selected after a point is every event published since that the filter selects, and no other |
| Bus.SnapshotsAreThePicture | internal/core/bus/bus.go:51-60 | every snapshot given is the table of its moment, in the order of publication |
| Bus.OverflowsAreReal | internal/core/bus/bus.go:134-149 | a queue never passes its bound, and a subscriber is marked lost only while events selected for it are missing |
| Bus.LossIsToldFirst | internal/core/bus/bus.go:132-191 | a subscriber marked lost is given what was queued, in order, and then the announcement, before anything published later |
| Bus.PublishingQueues | internal/core/bus/bus.go:96-149 | in every reachable state, publishing an event that fits numbers it, and an open subscriber that selects it has it at the end of its queue, or is lost where 256 are queued, or, lost already, is as it was; nobody else notices |
| Bus.TakingGivesTheOldest | internal/core/bus/bus.go:156-175 | a subscriber that is not closed is given the oldest event queued, and keeps the rest |
| Bus.AnnouncingRefreshes | internal/core/bus/bus.go:175-191 | a loss is announced once the queue is empty, with a snapshot at the last number, and is then no more |
| Bus.SubscribingOpens | internal/core/bus/bus.go:42-48 | a new subscription is fed from then on, and opens with a snapshot at the last number |
| Bus.ClosingTakesTwoSteps | internal/core/bus/bus.go:195-206 | its end takes it out of the table and then marks it closed, and does nothing else |
| Bus.LostExactlyWhen | internal/core/bus/bus.go:132-191 | a subscriber is lost if and only if, since its last snapshot, an event it selects was published while exactly 256 were queued |
| Bus.RunKeepsInv | internal/core/bus/bus.go:96-191 | every reachable state keeps subscribers in step with the log |
| Bus.NextKeepsInv | internal/core/bus/bus.go:96-206 | each locked section keeps them in step |
| Bus.SortedIsKept | internal/core/bus/bus.go:51-60 | sorting the selected values of the table by number gives the current events in order of publication, whatever order the table was walked in |
| Bus.Subscription.Offer | internal/core/bus/bus.go:134-149 | an event joins the queue of one that is not lost and has fewer than 256 queued, and a full queue leaves the subscriber lost |
| Bus.Subscription.Take | internal/core/bus/bus.go:156-191 | the first locked section of a call: an event, a loss to announce, or nothing |
| Bus.Subscription.Resume | internal/core/bus/bus.go:156-191 | an announced loss leaves an empty queue and the snapshot |
| Bus.Broker.TakeSnapshot | internal/core/bus/bus.go:51-60 | the current value of every selected level, at the last number |
| Bus.Broker.SubscribeTo | internal/core/bus/bus.go:42-48 | subscription and snapshot are of one point |
| Bus.Broker.Publish | internal/core/bus/bus.go:96-113 | an event that fits is numbered next, kept if it is of a level, and offered to every subscriber that selects it; one that does not consumes no number |
| Bus.Broker.Feed | internal/core/bus/bus.go:107-111 | every subscriber that selects an event is offered it, and no other |
| Bus.Broker.Take | internal/core/bus/bus.go:156-175 | as one step of the run |
| Bus.Broker.Announce | internal/core/bus/bus.go:175-191 | the loss looked at again under both locks and announced with a snapshot |
| Bus.Broker.Close | internal/core/bus/bus.go:195-206 | a closed subscription is fed no more and delivers no more |
| Events.PrefixReadsSegments | internal/core/event/event.go:401-406 | a prefix selects a name itself and the names that go on after its segments, never characters of one |
| Events.RefusedExactlyWhen | internal/core/event/event.go:387-406 | a filter refuses exactly the events of another kind or subject than it states, below its floor, or whose type or occurrence is neither the one stated nor, for a prefix, one that continues it by whole segments |
| Events.PlainFilterIsAlike | internal/core/event/event.go:387-398 | a filter that cuts no severity and tells no stream's two states apart answers alike on all events of one level |
| Backoff.Wait | internal/guardian/guardian.go:608-613 | the loop computes the wait, doublings wrapping as 64-bit durations do |
| Backoff.WaitIsExact | internal/guardian/guardian.go:608-613 | the wait is min(backoff·2^(attempt−1), ceiling) for every attempt exactly when the backoff is not negative and doubling to the ceiling stays within 64 bits |
| Backoff.WaitNeverDecreasesExactlyWhen | internal/guardian/guardian.go:608-616 | no attempt waits less than an earlier one, exactly when the backoff is at the ceiling, or is not negative and fits, or wraps at the first doubling to one of which that holds |
| Backoff.NegativeDiffers | internal/guardian/guardian.go:608-613 | of a negative backoff the 65th wait is longer than its doubling would be |
| Backoff.LongCeilingOverflows | internal/gate/body.go:975-982 | a policy as it may be written, of whose waits one is negative |
| Backoff.LongBackoffIsNegative | internal/gate/body.go:975-982 | a backoff as it may be written, which wraps; and a negative one that is never doubled |
| Backoff.Overflows | internal/guardian/guardian.go:608-613 | where it does not fit, an attempt exists whose wait is wrong |
| GuardianRuns.ProcessesAreWatched | internal/guardian/guardian.go:251-265 | in every state of every run a watch has a process exactly when starting, observable or stopping; no name has two unended Cores; no exit finds its watch gone or renumbered; idle means no process and no wait |
| GuardianRuns.SomethingIsPending | internal/guardian/guardian.go:529-563 | every starting, observable, waiting or asked-to-stop watch has a pending timer of its own execution, beats and window, or was killed; a waiting one waits as its attempt says |
| GuardianRuns.ExecutionsOnlyGoOn | internal/guardian/guardian.go:275-336 | an execution only moves starting, observable, stopping, ended, its beats only growing |
| GuardianRuns.StableMeansUnbroken | internal/guardian/guardian.go:285-290 | the attempts are cleared only after unbroken observability since the timer was set |
| GuardianRuns.SilenceMeansNoBeat | internal/guardian/guardian.go:296-336 | a silence stops a Core only if no beat came since it was armed |
| GuardianRuns.EarlierTimersChangeNothing | internal/guardian/guardian.go:275-282 | a timer of an earlier execution changes nothing, even after its watch was deleted and made again |
| GuardianRuns.EveryStateIsSound | internal/guardian/guardian.go:251-328 | the invariant over every run |
| GuardianRuns.NextKeepsInv | internal/guardian/guardian.go:251-328 | every event keeps it, from any sound state |
| GuardianRuns.NextAdvances | internal/guardian/guardian.go:251-328 | every event moves every execution on, never back |
| GuardianDecisions.EveryRunGoesByTheRecords | internal/guardian/guardian.go:358-407 | in every run, at every event: a Core appears exactly where the event has the name's record looked at with nothing of it alive, waiting, or refused without being asked for, the record says running and not failed, at boot autostart and not ephemeral, nobody holds the name, the gate gives a policy and a process comes of it; and one is asked to stop exactly where a wake finds a record that does not want it, or a silence that it is silent |
| GuardianDecisions.CoresAppearExactlyWhen | internal/guardian/guardian.go:358-407 | the same of any sound state: when a Core appears |
| GuardianDecisions.CoresAreAskedExactlyWhen | internal/guardian/guardian.go:296-407 | and when one is asked to stop |
| GuardianDecisions.WakesDecide | internal/guardian/guardian.go:338-407 | a wake of one name or of all, in whatever order they are walked, decides of each by its own record alone, and what becomes of the watch: forgotten, left, held by another, refused, waiting, or started with the gate's policy and its timer |
| GuardianDecisions.ExitsDecide | internal/guardian/guardian.go:566-618 | an exit that was asked for has the record looked at, or takes an undeclared run's record with it; any other counts a failure, and the watch waits as its attempts say, or the record is marked failed |
| GuardianDecisions.BeatsDecide | internal/guardian/guardian.go:259-336 | the first beat of a watched process makes it observable and sets the timer of its stability, each is counted and sets the silence after it, and its own announcement makes it stopping |
| GuardianDecisions.StrayBeatsChangeNothing | internal/guardian/guardian.go:259-274 | any other beat changes nothing |
| GuardianDecisions.TimersDecide | internal/guardian/guardian.go:275-311 | what each timer of the present execution does in the state it was set in: kills, clears the attempts, or asks to stop; elsewhere nothing |
| Guardian.Guardian.Handle | internal/guardian/guardian.go:251-328 | the event loop's one step is the specification's, and keeps the invariant |
| Guardian.Guardian.Reconcile | internal/guardian/guardian.go:358-407 | what a record declares against what is alive: started, asked to stop, or left, as `GuardianDecisions.Brought` says of the states before and after |
| Guardian.Guardian.ReconcileAll | internal/guardian/guardian.go:338-353 | every record and every watch, each once, whatever order their names are walked in |
| Guardian.Guardian.Watching | internal/guardian/guardian.go:409-416 | the watch of a name, made where there is none |
| Guardian.Guardian.Start | internal/guardian/guardian.go:463-538 | gate, number, execute, or fail |
| Guardian.Guardian.Refuse | internal/guardian/guardian.go:542-552 | refused, with no process |
| Guardian.Guardian.Stop | internal/guardian/guardian.go:555-563 | asked to stop, and to be killed after its window |
| Guardian.Guardian.End | internal/guardian/guardian.go:566-591 | an orderly stop is reconciled at once, anything else is a failure |
| Guardian.Guardian.Fail | internal/guardian/guardian.go:595-618 | an ephemeral run is marked failed, a declared one waits |
| Guardian.Guardian.Hear | internal/guardian/guardian.go:332-336 | a beat counted, and the next silence armed for it |
| Guardian.Guardian.Beat | internal/guardian/guardian.go:259-274 | only the watched process is heard; the first beat makes it observable, its own announcement stopping |
| Guardian.Guardian.Elapse | internal/guardian/guardian.go:275-311 | a timer acts only on its own execution and in the state it was set in |
| Guardian.Guardian.IsIdle | internal/guardian/guardian.go:220-230 | idle exactly when no event is queued and nothing is starting, observable, stopping or waiting, and then no Core is left |
| Arbitration.SuspensionIsDecided | internal/core/interfaces/arbitration.go:56-131 | after any calls, suspension, cause and reason are a function of the rules and the holding and reclaimed sets alone |
| Arbitration.SuspendedExactlyWhen | internal/core/interfaces/arbitration.go:100-131 | after any calls a channel is suspended if and only if one that holds is linked against it, by the declared rules inverted around the local channels that reclaimed and hold; its cause and reason are those of the first rule, and in it the first place, that puts a holder over it, reclaimed exactly where that pair is inverted |
| Arbitration.TheLastWordStands | internal/core/interfaces/arbitration.go:56-85 | a declared channel holds exactly when that was the last said of it, and a local one has reclaimed exactly when it did since it was last said not to hold |
| Arbitration.EventsAreTheChanges | internal/core/interfaces/arbitration.go:100-131 | a call emits one event for each channel whose suspension it changed, saying what it became and the grade it leaves, and no other |
| Arbitration.ReplayingRebuildsTheTable | internal/core/interfaces/arbitration.go:100-131 | replaying every event emitted rebuilds the table |
| Arbitration.RepeatingIsSilent | internal/core/interfaces/arbitration.go:56-85 | a call repeated emits nothing |
| Arbitration.InvertedCycleIsDeclared | internal/core/interfaces/arbitration.go:100-118 | a closed walk over the inverted rules yields one over the declared rules |
| Arbitration.InvertingClosesNoCycle | internal/core/interfaces/arbitration.go:100-118 | inverting acyclic rules around reclaimed channels closes no cycle |
| Arbitration.SomeHolderPrevails | internal/core/interfaces/arbitration.go:100-131 | among any holding channels under acyclic rules one has no holder against it |
| Arbitration.SomeHoldingChannelIsFree | internal/core/interfaces/arbitration.go:56-131 | in every reachable state with a holder, some holding channel is not suspended |
| Arbitration.Arbiter.constructor | internal/core/interfaces/arbitration.go:40-52 | every declared channel, free and not holding |
| Arbitration.Arbiter.Hold | internal/core/interfaces/arbitration.go:56-70 | the call as the specification has it, its events published |
| Arbitration.Arbiter.Reclaim | internal/core/interfaces/arbitration.go:73-85 | a local channel reclaimed once, and whether that changed anything |
| Arbitration.Arbiter.State | internal/core/interfaces/arbitration.go:88-96 | what the table says of a channel |
| Arbitration.Arbiter.Recompute | internal/core/interfaces/arbitration.go:100-131 | the suspensions of the specification, so exactly of the channels a holder is linked against, and the events for what changed |
| Arbitration.Arbiter.Gather | internal/core/interfaces/arbitration.go:100-114 | the rules as edges, inverted around reclaimed holders |
| Arbitration.Arbiter.Tell | internal/core/interfaces/arbitration.go:133-140 | the events, in order |
| Attachments.CountIsConserved | internal/core/interfaces/attachment.go:109-151 | after any begins, ticks, confirmations and ends, what was counted plus what is about to be equals the attachments not stale, so it is never negative once settled |
| Attachments.SettledCount | internal/core/interfaces/attachment.go:135-151 | with nothing left to count, the count is not negative, is positive exactly when an attachment is current and then the channel holds, and equals the unfinished attachments that are not stale exactly when every confirmation was timely |
| Attachments.CountIsExactExactlyWhenTimely | internal/core/interfaces/attachment.go:135-151 | at every moment of every run, the count, with what is about to be counted, is the unfinished attachments that are not stale if and only if no confirmation reached an attachment after it finished |
| Attachments.LateConfirmationLeaks | internal/core/interfaces/web.go:167-219 | a run in which one does, and the channel holds with nobody attached |
| Attachments.SingleHasOneClient | internal/core/interfaces/records.go:103-119 | a single channel never has two clients |
| Attachments.AttachmentsAreWhatHappened | internal/core/interfaces/attachment.go:41-204 | in every run an attachment is there once it began, which a single channel with a client refuses; it is finished once it ended; and it is stale exactly when it lapsed or ended, unfinished until then, and no confirmation came since |
| Attachments.ClientsAreTheAttached | internal/core/interfaces/records.go:103-119 | a channel's clients are those of its unfinished attachments, each as often as it is attached |
| Attachments.TheFirstGoes | internal/core/interfaces/records.go:103-119 | an end takes exactly one occurrence of its client, the first |
| Attachments.Attached.Lapse | internal/core/interfaces/attachment.go:109-131 | stale once unconfirmed for longer than allowed |
| Attachments.Attached.Renew | internal/core/interfaces/attachment.go:194-204 | a confirmation makes it current again |
| Attachments.Terminator.Begin | internal/core/interfaces/attachment.go:41-66 | attached and counted, or refused where the channel takes one and has it |
| Attachments.Terminator.Tick | internal/core/interfaces/attachment.go:109-131 | a lapse is counted down once |
| Attachments.Terminator.Confirm | internal/core/interfaces/attachment.go:194-204 | a stale attachment confirmed is counted up again |
| Attachments.Terminator.Finish | internal/core/interfaces/attachment.go:135-151 | its place given back, and its count if it was current |
| Attachments.Terminator.Hold | internal/core/interfaces/local.go:138-148 | the count changed and the arbiter told whether it is positive |
| Admission.MapsStayInverse | internal/core/admission/admission.go:86-221 | over every run the two maps are inverse, one Session to a unit |
| Admission.EachTokenIsAcceptedOnce | internal/core/admission/admission.go:319-344 | no token is accepted twice, however registrations interleave |
| Admission.AcceptedWasVouchedFor | internal/core/admission/admission.go:166-221 | behind an acceptance stand an issue for that very unit and then a presentation while no newer token was issued, within the window, of the plugin composed and enabled |
| Admission.TokensAreInOnePlace | internal/core/admission/admission.go:330-344 | a token is unspent, or spent by one waiting registration, or accepted, or lost, never two of these |
| Admission.RefusalSpends | internal/core/admission/admission.go:143-194 | no refusal changes who is live; one up to authentication changes nothing; a later one, if the credential was examined, comes after it was spent |
| Admission.LateRefusalChangesNoSession | internal/core/admission/admission.go:198-212 | nor does one of the last two stages |
| Admission.DecidedAtTheFirstUnmet | internal/core/admission/admission.go:143-222 | accepted exactly when every stage's condition holds, and otherwise refused at the first that does not |
| Admission.AcceptedIsGiven | internal/core/admission/admission.go:143-222 | the Session of an acceptance is of the unit and plugin that asked, under the terms the unit is composed with; each list of what it is granted and of what is withheld interleaves to the Manifest's, an element being granted exactly when a capability that governs it is among the plugin's grants; and it is the one found under its new identity and its unit, all else unchanged |
| Admission.EveryAcceptanceIsGiven | internal/core/admission/admission.go:143-222 | the same of every acceptance of every run, of the presentation it rests on |
| Admission.EachCodeNamesTheFault | internal/core/admission/admission.go:143-212 | which code answers which fault, each exactly when, and which refusals come after the credential was examined |
| Admission.SpentExactlyWhen | internal/core/admission/admission.go:319-344 | over any run, a unit has a token once one was issued, and it is spent exactly when a presentation of the unit came past authentication since the last issue |
| Admission.ReleaseTakesTheUnit | internal/core/admission/admission.go:86-91 | a release takes the unit and its Session out of both maps, and leaves every other unit and Session, every token and every registration as it was |
| Admission.RestrictedExactlyWhen | internal/core/admission/admission.go:217-221 | for a Manifest the joins accept, restricted exactly when some declared capability is not granted |
| Admission.SameSet | internal/core/admission/admission.go:230-232 | equal once sorted exactly when equal as multisets |
| Admission.Matches | internal/core/admission/admission.go:189-194 | the five lists agree |
| Admission.Tokens.Issue | internal/core/admission/admission.go:319-327 | a new unspent token, the unit's last one forgotten |
| Admission.Tokens.Spend | internal/core/admission/admission.go:330-344 | spent if good, and why not otherwise |
| Admission.Admitter.Present | internal/core/admission/admission.go:143-197 | the first seven stages are the specification's |
| Admission.Admitter.Weigh | internal/core/admission/admission.go:180-197 | compatibility, consistency and the grant, split by what the plugin's grants govern |
| Admission.Admitter.Commit | internal/core/admission/admission.go:198-222 | the last two stages, under the lock; the Session is of what was granted, and is the one in both maps |
| Admission.Admitter.Release | internal/core/admission/admission.go:86-91 | the unit and its Session gone, nothing else |
| Admission.Admitter.Lookup | internal/core/admission/admission.go:94-99 | the Session whose unit holds the identity |
| Grants.GrantSplitsDeclared | internal/core/admission/admission.go:248-279 | granted and withheld split each declared list in order, nothing lost or doubled |
| Grants.PartsAreSplit | internal/core/admission/admission.go:248-279 | a capability is granted exactly when it is among the grants, and any other element exactly when a capability that is governs it |
| Grants.InterleavedIsAll | internal/core/admission/admission.go:248-279 | such a split has the same elements, as often |
| Grants.MoreGrantsWithholdNoMore | internal/core/admission/admission.go:248-279 | adding grants never withholds more |
| Grants.NothingWithheldExactlyWhen | internal/core/admission/admission.go:217-219 | for a joined Manifest nothing is withheld exactly when every declared capability is granted |
| Grants.Intersect | internal/core/admission/admission.go:248-279 | the grant, what is withheld, and a scope that allows, withholds and knows exactly those |
| Grants.Sort | internal/core/admission/admission.go:261-271 | one list split by what is governed |
| Grants.ScopeEnforces | internal/core/scope/scope.go:60-71 | the scope's answers are the grant's |
| Grants.ManifestJoins | internal/gate/manifest.go:288-323 | the findings, in order and at their places; none exactly when both joins hold |
| Grants.FindingsAreTheFaults | internal/gate/manifest.go:288-323 | the findings are exactly the capabilities that govern what no list has, by index, and the listed objects that none governs, by the last place that has them |
| Withdrawal.CheckedAfterWithdrawalIsRefused | internal/instances/instances.go:93-103 | a pin checked after a withdrawal, and before any restoring, is refused |
| Withdrawal.PinnedBeforeTheSecondListingIsHonoured | internal/reclaim/reclaim.go:117-125 | a pin written before the second listing stops the deletion for good, and the record ends as it was |
| Withdrawal.DeletedIsPinnedOnlyByALateWrite | internal/reclaim/reclaim.go:108-138 | a deleted version is pinned only by a pin whose check came before the withdrawal and whose writing came after the second listing |
| Withdrawal.DeletedIsPinnedExactlyWhen | internal/reclaim/reclaim.go:108-138 | and it is pinned if and only if there is such a write that finds the name as it must be and lasts |
| Withdrawal.WrittenPinLasts | internal/instances/instances.go:277-289 | a pin written is there until the name is dropped or pointed elsewhere |
| Withdrawal.ALateWriteIsMissed | internal/reclaim/reclaim.go:108-138 | such a run exists |
| Withdrawal.EveryVersionIsAccountedFor | internal/reclaim/reclaim.go:53-89 | however the removal ends, what was not removed has its old record, and one that is done removed all it named |
| Withdrawal.EveryWorldIsSound | internal/reclaim/reclaim.go:53-138 | at every moment only the target in hand differs, withdrawn |
| Withdrawal.RefusedExactlyWhen | internal/reclaim/reclaim.go:53-138 | a removal that has ended was refused if and only if some target was pinned at its own first listing, or at its second after it was withdrawn |
| Withdrawal.FoundAtFirstRemovesNothing | internal/reclaim/reclaim.go:66-80 | where a first listing finds a pin, nothing is ever removed and no record ever changed |
| Withdrawal.NeverPinnedIsNotRefused | internal/reclaim/reclaim.go:53-138 | a removal during which no target is ever pinned is not refused, and once done has removed them all |
| Withdrawal.ActsOnPins | internal/instancerecord/instancerecord.go:182-248 | what a check, a claim, a write and a drop do, and when each passes |
| Withdrawal.PickNewest | internal/instances/instances.go:83-92 | the newest complete release of an ascending listing, and none exactly when there is none |
| Withdrawal.Files.CheckPin | internal/instances/instances.go:93-106 | complete and offered, as the record stands |
| Withdrawal.Files.ClaimName | internal/instancerecord/instancerecord.go:210-222 | a creation takes its name by making a directory, which must not be there |
| Withdrawal.Files.WritePin | internal/instancerecord/instancerecord.go:182-248 | a creation's record goes in the directory it made, if that is still there; a re-pointing needs the record |
| Withdrawal.Files.PointingAt | internal/instancerecord/instancerecord.go:284-296 | exactly the names pinned to a version |
| Withdrawal.Files.Withdraw | internal/reclaim/reclaim.go:108-138 | one target withdrawn, listed again and deleted, the others acting between every two acts |
| Withdrawal.Files.Remove | internal/reclaim/reclaim.go:53-89 | the whole removal is a run of the specification that ends done, with every target removed, or refused, exactly where a listing found a pin, with a beginning of them |
| Package.WrittenIsRead | internal/pkgfile/pkgfile.go:292-337 | what reading a written package gives, exactly: refused at the first field that is not UTF-8, or the metadata with trailing zeros off and the time cut to 64 bits, and both blocks as written |
| Package.ReadsBackExactlyWhen | internal/pkgfile/pkgfile.go:158-337 | the same metadata comes back exactly when every text field is UTF-8 and ends in no zero byte, and the time fits 64 bits of nanoseconds |
| Package.SomeMetadataIsLost | internal/pkgfile/pkgfile.go:231-248 | an identifier that ends in a zero byte, and a zero time, which do not come back |
| Package.OpensToThePayload | internal/pkgfile/pkgfile.go:421-446 | with the credential it was sealed with, it opens to the payload |
| Package.WrittenExactlyWhen | internal/pkgfile/pkgfile.go:158-203 | a package can be written exactly where its texts fit, its credential has its length, and its key has an identifier and signs; the refusal names the first that does not |
| Package.WrittenSays | internal/pkgfile/pkgfile.go:158-248 | each field of the footer of a written package, and its signature, in terms of what it was made from |
| Package.AcceptedExactlyWhen | internal/pkgfile/pkgfile.go:292-337 | a file is accepted exactly where it ends in a signature block and the writing of some metadata that states the size of the rest, with texts of UTF-8 |
| Package.RefusedAtTheFirstFault | internal/pkgfile/pkgfile.go:292-337 | a file is refused as the first thing it fails to be |
| Package.OpensExactlyWhen | internal/pkgfile/pkgfile.go:421-446 | a payload comes out exactly where it has the digest stated and is the region, or opens of it with a credential of the right length |
| Package.AcceptedIsCanonical | internal/pkgfile/pkgfile.go:231-337 | an accepted block is byte for byte the encoding of what was read from it, and the region is all that precedes the footer |
| Package.EncodedLayout | internal/pkgfile/pkgfile.go:57-63 | fields, reserved ranges and checksum never overlap: each is found where it was put |
| Package.LayoutIsEncoded | internal/pkgfile/pkgfile.go:231-248 | and together they are the whole block |
| Package.GetPut | internal/pkgfile/pkgfile.go:234-246 | a number reads back from its bytes |
| Package.PutGet | internal/pkgfile/pkgfile.go:307-322 | and bytes from the number they read as |
| Package.Encode | internal/pkgfile/pkgfile.go:231-248 | the block, filled by offset in place |
| Package.Write | internal/pkgfile/pkgfile.go:158-203 | region, signature and block appended, or a refusal and nothing written |
| Package.ReadFooter | internal/pkgfile/pkgfile.go:292-337 | the checks in their order |
| Package.Open | internal/pkgfile/pkgfile.go:421-446 | what it returns has the digest stated |
| Trees.SettingReachesExactlyWhen | internal/compose/author.go:193-223 | the walk along the path reaches the new value, exactly when a rule written into is a mapping |
| Trees.SetsExactlyWhen | internal/compose/author.go:134-223 | a field can be set exactly where everything there on its path is a mapping, and a field of a rule where the list of rules has that one |
| Trees.SettingLeavesOthersExactlyWhen | internal/compose/author.go:193-223 | every path that is neither a beginning nor a continuation of it is as it was, exactly when the rule written into, if there is one, is no list or has the value in that place already |
| Trees.SettingKeepsUnique | internal/compose/author.go:123-131 | keys stay unique, whatever is written into |
| Trees.RemovingUndoesSettingExactlyWhen | internal/compose/author.go:245-271 | removing a field that was absent undoes setting it, up to an empty mapping under one of the document's own keys, exactly when a rule written into is a mapping |
| Trees.ListRuleIsOverwritten | internal/compose/author.go:193-223 | a document with a list for a rule, of which setting `prevails` changes an item, reaches nothing and cannot be undone |
| Trees.RemovingTakesOnlyThat | internal/compose/author.go:256-262 | through mappings the path removed leads nowhere and every path that parts from it is as it was, save into the parameters grouped under a unit or channel that is gone; through lists, every path outside them is |
| Trees.RemovingMovesOnlyItems | internal/compose/author.go:245-271 | every path elsewhere leads to what it did, or in a list, from the item removed on, to what the next index did |
| Trees.RemovesExactlyWhen | internal/compose/author.go:245-255 | a node can be removed exactly where the path leads to one |
| Trees.GroupStaysExactlyWhen | internal/compose/author.go:264-271 | once a unit or a channel is removed, the parameters of its name are there exactly where they were and another owner of the name is left |
| Trees.PutReads | internal/compose/author.go:113-131 | what a mapping reads after a value was put under a key |
| Trees.TakeAwayWalks | internal/compose/blocks.go:347-355 | what it reads once a key was dropped |
| Crumbs.TakenAbove | internal/compose/author.go:256-262 | a parent loses the child that was emptied |
| Crumbs.TakenBelow | internal/compose/author.go:256-262 | and where none goes further, that is all |
| Documents.FindKey | internal/compose/author.go:113-120 | the first value under a key |
| Documents.PutKey | internal/compose/author.go:123-131 | the value written in place, the key added at the end where it was absent |
| Documents.MappingUnder | internal/compose/author.go:134-149 | the mapping under a key, made where absent, refused where it is none |
| Documents.FindChild | internal/compose/author.go:294-304 | by key in a mapping, by index in a list |
| Documents.Take | internal/compose/author.go:308-316 | the child taken out in place |
| Documents.Set | internal/compose/author.go:193-223 | editing nodes in place makes of the document what the specification says, or refuses |
| Documents.Remove | internal/compose/author.go:232-271 | and so does removing, with the cascade and the parameter group |
| Renderings.RenderingReads | internal/verify/descriptions.go:99-176 | parsing a rendering gives the opening rows and, of every case, what its heading reads as and the eight values |
| Renderings.RenderingReadsExactlyWhen | internal/verify/descriptions.go:99-176 | parsing a rendering gives back exactly the ids, titles and eight values, if and only if every id is one that a heading's dash may follow, whatever the ids are |
| Renderings.HeadingReadsExactlyWhen | internal/verify/descriptions.go:129-145 | a heading gives its id and title back exactly for such an id |
| Renderings.RowReads | internal/verify/descriptions.go:166-176 | a row reads back as its name and value |
| Renderings.HeadingReads | internal/verify/descriptions.go:129-145 | a heading as its id and title |
| Checking.RenderingConformsWhenShown | internal/verify/descriptions.go:180-343 | the checker reports nothing of a rendering exactly when the ids its headings show are the contract's own, well formed and distinct |
| Checking.RenderingConformsExactlyWhen | internal/verify/descriptions.go:180-343 | of a contract whose ids are its own, well formed and distinct, the checker reports nothing exactly when all of them are read back; where they are, it reports nothing exactly for such ids |
| Checking.DashedIdentifierIsLost | internal/verify/descriptions.go:129-145 | a well-formed id that is not read back |
| Checking.NoFieldProblemExactlyWhen | internal/verify/descriptions.go:239-293 | no finding on a case's fields exactly when they are the eight, in order, with allowed values |
| Checking.SameLengths | internal/verify/descriptions.go:262-279 | the two lists compared are of one length, so the comparison never runs past an end |
| Checking.IdentifierReads | internal/verify/descriptions.go:345-363 | an identifier splits into the parts it was made of |
| Checking.IdentifierIsText | internal/verify/descriptions.go:129-145 | a well-formed identifier is one a heading gives back exactly when it is trimmed, of one line, has no spaced dash and does not begin with two tildes |
| Checking.CheckFields | internal/verify/descriptions.go:239-293 | exactly the problems of the fields |
| Checking.CheckCase | internal/verify/descriptions.go:202-232 | exactly the problems of a case |
| Checking.CheckDescription | internal/verify/descriptions.go:180-235 | exactly the problems of a description |
| Checking.CheckDescriptions | internal/verify/descriptions.go:180-235 | each under its file |
| Descriptions.ParseTable | internal/verify/descriptions.go:148-163 | the rows up to the next heading, and where they end |
| Descriptions.ParseDescription | internal/verify/descriptions.go:99-127 | the loop reads what the specification reads |
| Descriptions.Render | internal/conformance/render.go:48-61 | the buffer holds the lines of the form |
| Retention.CleaningKeepsTheLongestRunExactlyWhen | internal/core/logstore/cleaner.go:49-88 | what is left of a group is the longest newest-first run of its young-enough entries that fits both limits, exactly when both are below 2^63 or not even the newest would fit |
| Retention.CleanedIsKept | internal/core/logstore/cleaner.go:49-88 | other groups are untouched |
| Retention.GroupIsTheUnits | internal/core/logstore/cleaner.go:49-53 | a group is the entries of its unit, the Core's own those of none, each as often as it is there |
| Retention.OthersAreTheRest | internal/core/logstore/cleaner.go:49-53 | and the others are the rest |
| Retention.GroupIsInOrder | internal/core/logstore/cleaner.go:49-53 | both in the order of the store |
| Retention.YoungIsRecent | internal/core/logstore/cleaner.go:69-73 | too old is exactly what was logged before the age allowed, counted back from now |
| Retention.SizeIsTheSum | internal/core/logstore/cleaner.go:74-82 | a size is the sum of the entries' messages and details |
| Retention.CleaningAgainRemovesNone | internal/core/logstore/cleaner.go:49-88 | cleaning again at the same moment changes nothing |
| Retention.PassesCommute | internal/core/logstore/cleaner.go:74-86 | the bytes and count passes give the same store in either order |
| Retention.EachGroupIsCleaned | internal/core/logstore/cleaner.go:140-152 | a cycle leaves of every group what its own limits keep |
| Retention.Store.DeleteOver | internal/core/logstore/cleaner.go:74-86 | counted from the newest, what passes the limit goes |
| Retention.Store.Clean | internal/core/logstore/cleaner.go:49-88 | the three passes in one transaction, which a failure undoes; the number is the entries deleted, though a commit that fails undoes them, and 0 where a statement fails |
| Retention.ReportedIsLostExactlyWhen | internal/core/logstore/cleaner.go:49-88 | the number is the entries lost, if and only if no commit fails after deleting something |
| Retention.UncommittedIsReported | internal/core/logstore/cleaner.go:87 | a store, limits and a failing commit for which it is not |
| Retention.LargestLimitDeletesAll | internal/core/logstore/cleaner.go:83-86 | an entry limit of 2^64 − 1 deletes the one entry there is |
| Retention.Store.Groups | internal/core/logstore/cleaner.go:29-44 | each group once |
| Retention.Cleaner.Cycle | internal/core/logstore/cleaner.go:140-162 | groups cleaned one by one until a failure, each as its own limits have it; the number reported and counted towards rewriting is the entries lost and those of a failed commit; the file rewritten once enough were counted, and the count kept where it could not be |
| Retention.CycleCountsTheLostExactlyWhen | internal/core/logstore/cleaner.go:146-152 | that number is the entries lost, if and only if the cycle did not end at a commit that failed after deleting something |
| Retention.Offset | internal/core/logstore/cleaner.go:103-110 | a place within the interval |
| Retention.OffsetIsWhatRemains | internal/core/logstore/cleaner.go:103-110 | it is how far the digest is past the last whole interval |
| Versions.CompareIsPrecedence | internal/version/version.go:52-53 | comparison is the precedence of section 11 of Semantic Versioning 2.0.0, blind to build metadata |
| Versions.CompareIsTotalPreorder | internal/version/version.go:52-53 | it is total and transitive |
| Versions.NumbersByValue | internal/version/version.go:52-53 | comparing digits by length and then by order is comparing the numbers |
| Versions.WrittenParses | internal/version/version.go:23-38 | every well-formed version reads back as itself |
| Versions.ParsedIsWritten | internal/version/version.go:23-38 | and whatever parses is one |
| Versions.RangesAreConvex | internal/version/version.go:63-77 | every range that parses contains what lies between two versions it contains |
| Versions.AdmittedExactlyWhen | internal/version/version.go:63-77 | what each operator of a comparator admits, by precedence |
| Versions.ShortIsZeroFilledExactlyWhen | internal/version/version.go:114-132 | a shortened version is its zero-filled form exactly when its numbers fit 64 bits |
| Versions.OutsizedComparatorIsRefused | internal/version/version.go:114-132 | a comparator of one number from 2^64 on is refused, though it is accepted written out |
| Versions.WrittenRangeReads | internal/version/version.go:87-111 | a range written with spaces reads back as its comparators, in order |
| Versions.Partial | internal/version/version.go:114-132 | the loops compute the specification |
| Versions.ParseRange | internal/version/version.go:87-111 | every field an operator and a version, at least one |

## Left out

- Bus: the sequence number's wrap at 2^64, and `Next`'s waiting on its channel and its loop; its two locked sections
  are the steps `Take` and `Announce`, which other steps may come between.
- Events: the checks of an event's fields that do not bear on publication or selection; a stream's name is given as
  read from the detail.
- Arbitration: whether there is anybody to publish to, and the order in which events reach the bus after the
  arbiter's lock is released; the claims are about the events each recomputation returns.
- Attachments.Terminator.Tick: one tick of the watch at a time; the ticker's own loop and its end are not modelled.
- Attachments.Terminator.Begin: the picture and the standing subscription opened with an attachment.
- Attachments.Terminator.Hold: one step, with the arbiter told before anything else happens, though the code lets go
  of its lock first; without that the link between the count and the arbiter's flag is not an invariant.
- Guardian: asking a Core it did not start to stop, where one holds a name that is not wanted; the kill timer of a Core that announced its own stop, which the code does not arm; the reports and events
  it publishes and its subscribers; giving up a start midway; records that cannot be read; the wrap of the attempt
  counter and of a silence's length.
- Admission: the log lines and texts of refusals, the transports a Session may use, and the scope object kept in a
  Session, which `Grants.Intersect` shows to answer as the granted and withheld lists do. Tokens and identities are
  assumed new and non-empty.
- Grants: the texts of findings, and findings' places beyond the index in the object's list.
- Withdrawal: two removals racing on one version, records that cannot be read, and instances of other applications;
  a listing, a recursive deletion, replacing a record, and a re-pointing under the record's lock are one act each;
  the application's directory going with its last version; the reclaiming pass over everything.
- Withdrawal.Files.CheckPin: the gate's verdict on the version's descriptor, which comes after this check.
- Package: the signature's verification and the host's own conditions, a file whose reading fails, and a time's zone,
  which is not carried: two times are the same when their nanoseconds are. The digest, the checksum, the seal and the
  test for UTF-8 are functions the format is built on, assumed only to have their sizes and a seal to open with its
  own credential.
- Documents.Set: the list of fields the description model knows, of which only the shapes of their paths are used;
  reading the document, the gate's judgement of the result and the file's replacement.
- Documents.Remove: what is removed from files beside the document.
- Descriptions: finding the files, and the texts of findings.
- Checking.CheckNames: the order in which names are looked at, which the code leaves to a map.
- Retention.Store.DeleteOver: a sum of bytes beyond 64 bits, which the database refuses.
- Retention.Cleaner.Cycle: waiting for the next cycle.
- Versions: reading a version from a program's build information.
- The command lines, the wire, the container engine, the package registry, YAML and Zip: foreign calls with no
  invariant of their own.
