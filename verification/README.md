# VoDoge verification

A Dafny model of the concurrent and stateful core of VoDoge, a gateway for cellular modems, with proofs of what it
promises over whole runs. `dafny verify dfyconfig.toml` checks everything.

| file | part of the program |
|---|---|
| ArbiterModel, ArbiterSelection, ArbiterInvariants, ArbiterRuns, ArbiterAdmission, ArbiterStarvation, ArbiterLiveness, ArbiterClass | the arbiter that shares one SIM card among sessions, one-shots, transports and barriers |
| SimAuthGate | the single-flight readiness probe beside it |
| SmsThreads, SmsStore, SmsFiling, LocalPhone | the SMS thread list and its backfill, and the local number of a message |
| SmsQuota, SmsHours | the rolling one-hour send limit |
| CallManager | SIP transactions of the CS call manager, and Stop |
| IdentityResolver, IdentityRules, IdentityAmbiguity | matching hardware with configurations |
| LogTail | reading the last lines of a log from its end |
| LegacyPhoneMerge, LegacyPhoneWinners, LegacyPhoneUpsert | the migration of old phone numbers |
| DsnLexer, DsnValues | hiding passwords in connection strings |
| DownloadFanout, DownloadRegistry | progress of eSIM downloads |
| TrafficRollup, TrafficChart, TrafficPlain | traffic by minute, hour and day, and the chart |
| Common, Text, TextPlain | an option type; trimming and ordering of strings |

Every subsystem follows one plan. The critical sections under the program's locks, or its database transactions, are
functions from state to state, and a run is any sequence of them that the callers' discipline allows. A class with the
program's own fields and loops is proved to take exactly these steps. What the program promises is then proved about
all runs, or about all inputs where there is no state. What a function of the model means is also said from outside,
in the columns, constants and cases of the program: `ArbiterAdmission`, `SmsFiling`, `SmsHours`, `IdentityRules`,
`DsnValues`, `LegacyPhoneWinners` and `TrafficPlain` hold such statements.

Time is an argument. The arbiter's clock never runs back within a run, and its notification channel is a number that
goes up when the channel is closed and replaced. The log of grants, touches, releases and forced releases is ghost.

## What the proofs found

- Arbiter, `internal/apduarbiter/arbiter.go:530` and `:557`: passing the 500 ms threshold signals nobody. A plain
  exclusive transport that tests just before its threshold and an AKA transport that tests just after it each yield to
  the other, and both sleep on a card that nobody uses. `ArbiterLiveness.StallIsReachable` builds the run;
  `MissedWakeupExactly` says exactly who can miss a wakeup: only the first aged transport other than an AKA.
- An AKA transport can wait for ever: each later transport that ages while the card is held goes first
  (`ArbiterStarvation.AKAWaitsForEver`). Every other exclusive transport is overtaken only by what stood ahead of it,
  once it has aged (`ArbiterRuns.AgedOvertaking`).
- The test for a barrier ahead of a lease (`arbiter.go:602-615`) is never what decides
  (`ArbiterSelection.PendingBarrierTestIsImplied`), and neither is the branch for a missing wait channel in
  `simauth_ready.go` (`SimAuthGate.NilChannelBranchIsDead`).
- `DeleteSMSByID` skips the rebuild for a message without IMSI (`internal/db/sms.go:280-282`), so its thread can go on
  showing it: `SmsThreads.UnsubscribedDeletion` is such a history, and `SmsThreads.DeleteKeepsView` says exactly when.
- The test for phone numbers makes its argument canonical once more (`internal/db/phone.go:66-67`), so a number left with
  a scheme or brackets passes and is stored as it is: `LocalPhone.SchemeIsStored` gives such numbers,
  `LocalPhone.StoredNumber` says exactly when what passes is a number.
- A log that ends in a whole 32 KiB block of newlines reads as empty (`LogTail.BlankBlockHidesFile`);
  `LogTail.TailIsExact` says exactly when the tail is right.
- The announced retry time is computed from the oldest attempt of the hour. It is never too late, and right exactly when
  the limit-th newest attempt gives the same number (`SmsQuota.AnnouncedExactly`); after the limit was lowered it can be
  too early. "One hour" excludes one of its ends.
- An outbound call that the other side ends while it is being dialled never gets a final response
  (`CallManager.UnansweredRun`); `CallManager.UnansweredExactly` says for every call when that is so.
- A quoted password directly followed by the next key is redacted correctly once; the output then reads as one long plain
  value (`DsnLexer.SwallowedKey`). `DsnLexer.RedactedReadsBack` says exactly when it reads as before.
- Configurations that share an id can get lost: one in use hides the others from the offline list
  (`IdentityAmbiguity.SharedIdHides`). `IdentityAmbiguity.AccountedExactly` gives the lists for which that cannot happen.
- A text of an existing row that is space, but not plain spaces, stops the phone migration at its own verification:
  `LegacyPhoneUpsert.TabStopsMigration` is the simplest, `LegacyPhoneUpsert.VerifiesExactly` the exact condition.
- A traffic chart whose periods repeat, as local days can when clocks change, puts a period's series at its last position
  only, while its bucket is listed twice: `TrafficChart.RepeatedDay` is such a day, `TrafficChart.ChartAddsUp` says what
  holds at every index.

## Model

| member | source | states |
|---|---|---|
| ArbiterRuns.Safety | internal/apduarbiter/arbiter.go:407-730 | in every reachable state, whatever the interleaving and the clock: ids are unique and each ticket is in one place; at most one of sessions, one-shot and transports is in use, sessions stay within their maximum, an exclusive transport is alone, QMI transports stay within theirs and on distinct channels, no lease has a class that an active barrier blocks; waitRequests = acquires + timeouts + queue and acquires = active + released + forced; a waiter that sleeps on the current notification cannot pass at the time of its last test; a forced release comes no sooner than the maximum hold after the last touch |
| ArbiterRuns.NextKeepsInv | internal/apduarbiter/arbiter.go:407-730 | each critical section keeps all of these |
| ArbiterRuns.NextKeepsExclusion | internal/apduarbiter/arbiter.go:481-515 | granting, touching, releasing, expiring and cancelling keep mutual exclusion |
| ArbiterInvariants.NextKeepsIds | internal/apduarbiter/arbiter.go:407-479 | the life of every ticket agrees with the log, through every step |
| ArbiterInvariants.NextKeepsCounts | internal/apduarbiter/arbiter.go:407-479 | the counters stay balanced |
| ArbiterInvariants.ChangesAreSignalled | internal/apduarbiter/arbiter.go:837-840 | a step that changes what an acquire test looks at closes the notification channel |
| ArbiterInvariants.NextKeepsWakeup | internal/apduarbiter/arbiter.go:424-477 | no step leaves a waiter asleep whose test has become true at the instant it used |
| ArbiterInvariants.NextKeepsWatchdog | internal/apduarbiter/arbiter.go:641-730 | deadlines are those of the last grant or touch, and a forced release is in time |
| ArbiterRuns.BarrierOvertaking | internal/apduarbiter/arbiter.go:481-571 | while a barrier waits, in any run, every lease granted stood ahead of it at the start, and no more are granted than stood ahead |
| ArbiterRuns.AgedOvertaking | internal/apduarbiter/arbiter.go:526-600 | once an exclusive transport other than AKA has waited 500 ms, in any run, every lease granted while no active barrier blocks its class stood ahead of it, and those granted plus its new position never exceed its old position |
| ArbiterRuns.OvertakingBound | internal/apduarbiter/arbiter.go:481-571 | the bound behind these: for a waiting barrier, session or one-shot, an aged transport or a transport of a lane, the grants that cannot pass it all stood ahead, and their number plus its new position never exceeds its old position |
| ArbiterRuns.BarriersInOrder | internal/apduarbiter/arbiter.go:507-524 | in every run, while a barrier waits only barriers that stood ahead of it are granted |
| ArbiterRuns.LanesInOrder | internal/apduarbiter/arbiter.go:526-571 | in every run, while a transport waits none of equal class, scope and channel that was stamped later is granted from behind it |
| ArbiterRuns.SessionOvertaking | internal/apduarbiter/arbiter.go:481-505 | while a session or one-shot waits, in any run, every lease granted stood ahead of it, and those granted plus its new position never exceed its old position |
| ArbiterRuns.FirstBarrierEnters | internal/apduarbiter/arbiter.go:507-524 | with a barrier in the queue and no lease active, whatever barriers are, the first queued barrier passes, and the next try of its owner makes it active |
| ArbiterRuns.BarrierStaysBehind | internal/apduarbiter/arbiter.go:507-524 | a barrier with another one ahead of it cannot pass |
| ArbiterStarvation.AKAWaitsForEver | internal/apduarbiter/arbiter.go:526-571 | for every n there is a run in which an AKA transport waits, alone in the queue at its start, and fails at every state, while n leases that joined behind it are granted |
| ArbiterStarvation.AgedGoesFirst | internal/apduarbiter/arbiter.go:526-571 | because on a free card an aged transport of another class is chosen before the AKA that stands ahead of it |
| ArbiterRuns.StepMovesForward | internal/apduarbiter/arbiter.go:786-795 | a step never moves a waiting ticket back nor puts another ahead of it |
| ArbiterSelection.SelectionRule | internal/apduarbiter/arbiter.go:526-571 | the selected transport is the first of its grade: aged exclusive before AKA before plain ones, up to a barrier or a gating ticket and among the eligible only |
| ArbiterSelection.GrantedFrom | internal/apduarbiter/arbiter.go:481-505 | a session or one-shot is granted from the head of the queue only, a transport only when it is the chosen one |
| ArbiterSelection.LeaseStaysBehind | internal/apduarbiter/arbiter.go:481-515 | no lease passes a barrier, session or one-shot that waits ahead of it |
| ArbiterSelection.LeaseStaysBehindAged | internal/apduarbiter/arbiter.go:526-600 | no lease passes an aged exclusive transport whose class is not blocked |
| ArbiterSelection.LaneOvertaking | internal/apduarbiter/arbiter.go:526-571 | of two transports with equal class, scope and channel the later one passes only when it has aged and the earlier one has not |
| ArbiterSelection.LaneFifo | internal/apduarbiter/arbiter.go:526-571 | so they are granted in queue order when their enqueue instants do not decrease |
| ArbiterSelection.PendingBarrierTestIsImplied | internal/apduarbiter/arbiter.go:602-615 | the test for a barrier ahead never decides anything: the selection and the queue head already exclude it |
| ArbiterSelection.SomeTicketPasses | internal/apduarbiter/arbiter.go:481-571 | with nothing active a non-empty queue has a ticket that passes |
| ArbiterAdmission.AdmissionExactly | internal/apduarbiter/arbiter.go:481-615 | exactly who is let in, said by a table of who excludes whom, the two windows and an order of urgency: a barrier as the first queued one with no lease active; a session or one-shot from the head when it fits; of the transports that fit and that all ahead let pass, the most urgent one that came first |
| ArbiterAdmission.ChannelEnters | internal/apduarbiter/arbiter.go:573-587 | a QMI channel of its own enters beside the channels in use while there are fewer than the window allows |
| ArbiterAdmission.ChannelOvertakes | internal/apduarbiter/arbiter.go:526-600 | and from behind transports that wait for their own channels, in use |
| ArbiterAdmission.SessionJoins | internal/apduarbiter/arbiter.go:481-495 | a session at the head joins the sessions there are, up to their maximum |
| ArbiterAdmission.TogetherExactly | internal/apduarbiter/arbiter.go:894-910 | two transports exclude each other unless both asked, in QMI mode, for different positive channels |
| ArbiterAdmission.BarrierShutsOut | internal/apduarbiter/arbiter.go:197-229 | a barrier excludes the classes its policy names, with AKA for an empty name, and AKA and SMSC when the policy is empty; a lease without a class counts as AKA for a one-shot and as an eUICC write otherwise |
| ArbiterAdmission.AskedAndQueued | internal/apduarbiter/arbiter.go:407-428 | a request ends up last in the queue, under a new number, its owner, type, class and channel, and the instant it was asked |
| ArbiterAdmission.BarrierAskedAndQueued | internal/apduarbiter/arbiter.go:197-229 | the same for a barrier, under the class of card switches unless it names another |
| ArbiterAdmission.GrantedUntil | internal/apduarbiter/arbiter.go:430-464 | an admitted lease becomes active, and its timer takes it away from the longest hold after the grant on, not before |
| ArbiterAdmission.TouchedUntil | internal/apduarbiter/arbiter.go:641-663 | a touch of an active lease moves that to the longest hold after the touch |
| ArbiterAdmission.TimerExactly | internal/apduarbiter/arbiter.go:702-730 | a timer takes an active lease away exactly from its deadline on |
| ArbiterAdmission.Released | internal/apduarbiter/arbiter.go:665-700 | a release takes the lease or barrier away, and no other |
| ArbiterAdmission.CancelledLeaves | internal/apduarbiter/arbiter.go:466-475 | a cancelled waiter leaves the queue to the others, in their order |
| ArbiterAdmission.BarrierUntilReleased | internal/apduarbiter/arbiter.go:641-730 | nothing but a release ends an active barrier |
| ArbiterLiveness.CanDrain | internal/apduarbiter/arbiter.go:407-730 | from every reachable state some legal run empties the queue and frees everything |
| ArbiterLiveness.StepAtRightMoment | internal/apduarbiter/arbiter.go:407-730 | a ticket is granted, touched, released or forced only in the phase of its life that allows it |
| ArbiterLiveness.LifeMovesForward | internal/apduarbiter/arbiter.go:407-730 | no run takes a ticket back to an earlier phase |
| ArbiterLiveness.LateStepsDoNothing | internal/apduarbiter/arbiter.go:641-730 | once a lease is finished, a late release, touch, timer or cancellation does nothing, in every continuation |
| ArbiterLiveness.ReleaseFreesOnlyItsOwn | internal/apduarbiter/arbiter.go:665-700 | a release leaves all other leases active |
| ArbiterLiveness.ExpireFreesOnlyItsOwn | internal/apduarbiter/arbiter.go:702-730 | so does a timer |
| ArbiterLiveness.TestsFollowAgeing | internal/apduarbiter/arbiter.go:526-571 | two instants with the same aged tickets give the same acquire tests |
| ArbiterLiveness.MissedWakeupExactly | internal/apduarbiter/arbiter.go:424-477 | exactly who can miss a wakeup: a sleeper could be granted at a later instant if and only if it is the first aged transport other than an AKA and no session or one-shot is active; it then has aged since its last test |
| ArbiterLiveness.SleeperCannotPass | internal/apduarbiter/arbiter.go:424-477 | with ageing as at its last test, a sleeping waiter has no grantable ticket |
| ArbiterLiveness.StalledTicket | internal/apduarbiter/arbiter.go:526-571 | when everybody sleeps at an idle arbiter, exactly one ticket could be granted, the first aged transport other than an AKA, which had not aged when it last tried |
| ArbiterLiveness.StallNeedsAgeing | internal/apduarbiter/arbiter.go:526-571 | so an idle arbiter with everybody asleep needs a ticket to have aged between two of the tests |
| ArbiterLiveness.AgeingStalls | internal/apduarbiter/arbiter.go:530-557 | the two tests that bring it about: a plain transport tests before its 500 ms, an AKA one after them |
| ArbiterLiveness.StallIsReachable | internal/apduarbiter/arbiter.go:424-477 | such a state is reachable with every choice of options |
| ArbiterClass.Arbiter.TakeLeaseTicket | internal/apduarbiter/arbiter.go:407-422 | numbers a ticket and stamps it before it joins the queue |
| ArbiterClass.Arbiter.TakeBarrierTicket | internal/apduarbiter/arbiter.go:197-229 | the same for a barrier |
| ArbiterClass.Arbiter.JoinQueue | internal/apduarbiter/arbiter.go:424-428 | appends the ticket, counts the request and signals |
| ArbiterClass.Arbiter.CanAcquireTransportNow | internal/apduarbiter/arbiter.go:573-587 | is the eligibility of the state machine: exclusive alone, QMI within its maximum and on a free channel |
| ArbiterClass.Arbiter.SelectTransport | internal/apduarbiter/arbiter.go:526-571 | the scan with three remembered candidates finds the selected transport of the state machine |
| ArbiterClass.Arbiter.TryAcquire | internal/apduarbiter/arbiter.go:430-464 | is one test: it grants exactly when the test passes, otherwise the waiter sleeps on the current notification |
| ArbiterClass.Arbiter.CancelWait | internal/apduarbiter/arbiter.go:466-475 | removes the ticket if it still waits, and counts a timeout |
| ArbiterClass.Arbiter.TouchLease | internal/apduarbiter/arbiter.go:641-663 | moves the deadline of an active lease and tells whether there is one |
| ArbiterClass.Arbiter.ReleaseHold | internal/apduarbiter/arbiter.go:665-700 | frees the lease or barrier with this id, if active |
| ArbiterClass.Arbiter.ReleaseExpired | internal/apduarbiter/arbiter.go:702-730 | frees an active lease whose deadline has passed and no other |
| ArbiterClass.Arbiter.LeaseTest | internal/apduarbiter/arbiter.go:481-505 | is the acquire test of the state machine |
| ArbiterClass.Arbiter.BarrierTest | internal/apduarbiter/arbiter.go:507-515 | so is the one for barriers |
| ArbiterClass.Arbiter.SelectBarrier | internal/apduarbiter/arbiter.go:517-524 | the first barrier in the queue |
| ArbiterClass.Arbiter.HasPendingBarrierAhead | internal/apduarbiter/arbiter.go:602-615 | whether a barrier waits ahead of a ticket |
| ArbiterClass.Arbiter.IsIdle | internal/apduarbiter/arbiter.go:797-803 | true exactly when nothing waits or is active |
| SimAuthGate.Safety | internal/apduarbiter/simauth_ready.go:25-115 | in every reachable state: ready only when a probe that began after the last invalidation has succeeded, at most one probe in flight, probing exactly while there is a wait channel, each channel closed once |
| SimAuthGate.NilChannelBranchIsDead | internal/apduarbiter/simauth_ready.go:71-83 | a caller that finds a probe under way always finds its channel |
| SimAuthGate.NoWaiterIsForgotten | internal/apduarbiter/simauth_ready.go:71-115 | when no probe is under way every waiting caller can wake |
| SimAuthGate.NilMeansReady | internal/apduarbiter/simauth_ready.go:50-115 | a step that returns success does so with the gate ready by such a probe |
| SimAuthGate.StaleProbeIsVoid | internal/apduarbiter/simauth_ready.go:86-115 | a probe that began before an invalidation never makes the gate ready; its caller tries again or returns its error |
| SimAuthGate.InvalidationVoids | internal/apduarbiter/simauth_ready.go:35-113 | an invalidation voids the probe in flight, whatever it answers: the gate stays unready and its caller does not return success |
| SimAuthGate.FailsOnlyByItself | internal/apduarbiter/simauth_ready.go:61-115 | a caller fails exactly when it gives up or its own probe fails |
| SimAuthGate.EveryoneCanSucceed | internal/apduarbiter/simauth_ready.go:61-115 | from every reachable state every caller succeeds in some run in which probes succeed, by the probe under way and turns of its own |
| SimAuthGate.Gate.InvalidateSIMAuthReady | internal/apduarbiter/simauth_ready.go:25-48 | is the invalidation step |
| SimAuthGate.Gate.EnterTurn | internal/apduarbiter/simauth_ready.go:61-90 | is one turn of the loop: return, wait or begin a probe |
| SimAuthGate.Gate.FinishProbe | internal/apduarbiter/simauth_ready.go:92-115 | is what happens with a probe result |
| SmsThreads.WritesKeepView | internal/db/sms.go:30-63 | after any run of harmless saves and deletions the thread list is the one its definition gives: latest message and unread count of every thread |
| SmsThreads.WriteKeepsView | internal/db/sms.go:30-63 | one write keeps it if and only if it is harmless: a save without a peer or not older than its thread, a deletion of a message with an IMSI, or without a peer, or not shown, and every deletion of a thread |
| SmsThreads.UnsubscribedDeletion | internal/db/sms.go:344-372 | a message received without an IMSI and deleted again leaves its thread in the list |
| SmsThreads.SaveKeepsView | internal/db/sms.go:30-63 | a save keeps the thread list right if and only if the message has no peer or is not older than its thread |
| SmsThreads.UpsertKeepsView | internal/db/sms.go:134-171 | the row update alone is right if and only if the message comes last in its thread |
| SmsThreads.RebuildFixesThread | internal/db/sms.go:277-329 | a rebuild makes its thread right from whatever was there, and touches no other |
| SmsThreads.DeleteKeepsView | internal/db/sms.go:344-372 | a deletion by id keeps the list right if and only if the message has an IMSI, or no peer, or was neither the latest nor unread: with an empty IMSI the rebuild is skipped |
| SmsThreads.RemovalWithoutRebuild | internal/db/sms.go:277-282 | removing a message without a rebuild is right if and only if its thread does not show it |
| SmsThreads.DeleteThreadKeepsView | internal/db/sms.go:374-397 | deleting a thread keeps the list right |
| SmsThreads.NewIdBreaksTies | internal/db/sms.go:134-171 | with ids handed out in order, coming last means not being older |
| SmsStore.Store.Save | internal/db/sms.go:30-63 | stores the trimmed message at whole seconds, with its peer and local phone number, and updates its thread |
| LocalPhone.StoredNumber | internal/db/sms.go:105-132 | the local phone number stored is six to fifteen digits, perhaps after a plus, if and only if it passes the program’s own test and keeps neither a scheme in front nor a bracket at an end |
| LocalPhone.OwnNumber | internal/db/sms.go:105-132 | of plain numbers the one given is stored, else the recipient of a received or the sender of a sent message, else the one learned for the subscription |
| LocalPhone.LooksExactly | internal/db/phone.go:66-84 | of texts of digits, with or without a plus in front, those of six to fifteen look like numbers |
| LocalPhone.NothingLooksLikeIt | internal/db/sms.go:105-132 | when no candidate looks like a number the text given is stored in its canonical form |
| LocalPhone.NumberStays | internal/db/phone.go:45-85 | a plain number is its own canonical form and looks like one |
| LocalPhone.Separated | internal/db/phone.go:57-64 | separators inside a number do not count |
| LocalPhone.DottedScheme | internal/db/phone.go:45-53 | a scheme written with a dotted capital I is cut off by its bytes, so its colon stays |
| LocalPhone.SipAddress | internal/db/phone.go:48-56 | of a sip: address only the number before the host counts |
| LocalPhone.CanonicalAgain | internal/db/phone.go:45-64 | making a number canonical again changes nothing if and only if it keeps neither of these |
| LocalPhone.SchemeIsStored | internal/db/sms.go:105-132 | any number in angle brackets behind tel: passes the test and is stored with its scheme |
| SmsFiling.FiledUnder | internal/db/sms.go:30-63 | a sent message is filed under its recipient, any other or one to nobody under its sender; the columns are the trimmed arguments, and the time the second it falls in |
| SmsFiling.LocalNumber | internal/db/sms.go:30-63 | and its local number, of plain numbers, is the one given, that of this side of the message, or the one learned for its subscription |
| SmsFiling.FilledUnder | internal/db/sms.go:206-222 | a backfill gives a message without a peer the same one, and leaves the others alone |
| SmsFiling.ListShows | internal/db/sms.go:134-171 | what a right thread list shows: each card and peer with a message, its newest message, and how many received ones are unread |
| SmsFiling.BackfillAgain | internal/db/sms.go:234-254 | a second backfill would start if and only if a message has an empty peer that nothing can fill, or no message names anybody |
| SmsStore.Store.RebuildContact | internal/db/sms.go:277-329 | writes the definition’s row for the thread, or removes it, and tells whether the thread is empty |
| SmsStore.Store.DeleteSMSByID | internal/db/sms.go:344-372 | removes the message, rebuilds its thread and gives the trimmed thread with whether it is empty now |
| SmsStore.Store.DeleteSMSByIMSIAndPeer | internal/db/sms.go:374-397 | removes all messages of the thread and its row, and counts them |
| SmsStore.Store.NeedBackfill | internal/db/sms.go:234-254 | says whether a backfill is needed |
| SmsStore.Store.Backfill | internal/db/sms.go:173-232 | with every batch size it visits each message exactly once in order, fills missing peers and leaves the thread list that the definition gives |
| SmsStore.FindPage | internal/db/sms.go:194-201 | a page is the first messages past the cursor, in order |
| SmsStore.NextPage | internal/db/sms.go:190-232 | pages continue the visit without gap or repetition, and an empty one means the end |
| SmsStore.CursorSplits | internal/db/sms.go:194-201 | the cursor filter lets through exactly the messages not visited yet |
| SmsQuota.QuotaHolds | internal/db/sms_rate.go:102-146 | for the program, which prunes: in a run with a clock that does not run back and positive limits up to a maximum, no hour ever holds more sends than the maximum, those before the run and those it accepts |
| SmsQuota.UnprunedWithinLimit | internal/db/sms_rate.go:102-135 | the same for a store that never pruned |
| SmsQuota.SendKeepsLimit | internal/db/sms_rate.go:102-146 | one accepted send keeps every hour within the limit |
| SmsQuota.PruningIsInvisible | internal/db/sms_rate.go:133-141 | a store that never pruned takes the same decisions in every run |
| SmsQuota.BothEndsCounted | internal/db/sms_rate.go:102-146 | an hour counted with both its ends can hold one more |
| SmsQuota.RetryExactly | internal/db/sms_rate.go:73-83 | after a refusal a retry is admitted after k whole seconds if and only if k is at least the seconds until the limit-th newest attempt leaves the hour |
| SmsQuota.AnnouncedExactly | internal/db/sms_rate.go:73-83 | the announced number, computed from the oldest attempt, is never too large, and is right for every k if and only if the limit-th newest attempt gives the same number |
| SmsQuota.RetryAfterIsExact | internal/db/sms_rate.go:73-83 | with exactly the limit used it is right |
| SmsQuota.RetryAfterLoweredLimit | internal/db/sms_rate.go:73-83 | an input for which it is too small, as after lowering the limit |
| SmsHours.LimitIsPerHour | internal/db/sms_rate.go:102-127 | the bound is one on the number of sends in every stretch of 3600 seconds, without its beginning |
| SmsHours.RefusedExactly | internal/db/sms_rate.go:102-127 | a send is refused exactly when the last hour holds as many as a positive limit |
| SmsHours.RecordedExactly | internal/db/sms_rate.go:133-141 | an accepted send is recorded, and exactly what is then older than two hours is forgotten |
| SmsHours.StatusSays | internal/db/sms_rate.go:102-146 | what is used and what remains make up a positive limit, and a limit of zero or less is none |
| SmsHours.WaitSays | internal/db/sms_rate.go:73-83 | the announced wait is the seconds to the end of the attempt’s hour, rounded up, and at least one |
| SmsQuota.Quota.CountSince | internal/db/sms_rate.go:114-127 | counts the attempts of the last hour and finds the oldest of them |
| SmsQuota.Quota.ReserveSMSSend | internal/db/sms_rate.go:102-146 | admits exactly below the limit, records and prunes; otherwise reports the use and the wait |
| CallManager.Safety | internal/cscall/manager.go:112-228 | every reachable state keeps the call, ownership and stop invariants: idle means no current call, an ended call is never current, a call that Stop took is answered |
| CallManager.TransactionDiscipline | internal/cscall/manager.go:112-148 | each INVITE server transaction sees provisional responses, then at most one final one, nothing after it or after Terminate, and a BYE only after a 2xx (section 17.2.1 of RFC 3261) |
| CallManager.WireStep | internal/cscall/manager.go:112-148 | what a transaction has seen is never taken back, and an ended call sees nothing more |
| CallManager.EndedIsSilent | internal/cscall/manager.go:1133-1207 | nor in any run after its end |
| CallManager.StoppedForGood | internal/cscall/manager.go:151-189 | once Stop has returned the manager stays idle, without a call, without a workflow, and none can begin |
| CallManager.StopAnswersEverybody | internal/cscall/manager.go:151-177 | no outbound call is left active when Stop has returned, and those it took have a final response and a terminated transaction |
| CallManager.StopAnswersCurrent | internal/cscall/manager.go:151-177 | the outbound call that is current when Stop comes to end it has its final response and its end when Stop returns, in every run |
| CallManager.ResponseGoesOut | internal/cscall/manager.go:112-130 | a response that was decided on goes out as it is, provisional or final, unless the transaction has its final response |
| CallManager.OrdinaryCall | internal/cscall/manager.go:841-1000 | a run in which a call rings, is answered, and is ended with a BYE |
| CallManager.StoppedCall | internal/cscall/manager.go:151-177 | a run in which Stop finds a call ringing and answers it with 503 |
| CallManager.UnansweredExactly | internal/cscall/manager.go:1133-1207 | an outbound call that is taken away ends without a final response if and only if none was recorded, none was being sent, and it was not Stop that ended it with a signal |
| CallManager.UnansweredRun | internal/cscall/manager.go:405-416 | it happens: the other side hangs up during dialling, and the transaction is terminated unanswered |
| CallManager.Manager.BeginCallWorkflow | internal/cscall/manager.go:181-189 | begins a workflow exactly when the manager is not stopped |
| CallManager.Manager.StartOutbound | internal/cscall/manager.go:841-881 | registers the call, or refuses with 400 without a To header, 503 when stopped and 486 when busy |
| CallManager.Manager.LockForActiveCall | internal/cscall/manager.go:215-228 | takes the response lock of the call only while it is the active one |
| CallManager.Manager.SendPending | internal/cscall/manager.go:121-130 | sends the response unless a final one was sent |
| CallManager.Manager.TakeCurrent | internal/cscall/manager.go:1133-1150 | takes the current call away, if it is the expected one, and goes idle |
| CallManager.Manager.FinishEnding | internal/cscall/manager.go:1154-1207 | answers 503 when Stop ends an unanswered call, sends BYE after a 2xx, then terminates |
| CallManager.Manager.MarkStopped | internal/cscall/manager.go:151-160 | is the first critical section of Stop |
| IdentityResolver.ResolveDeviceIdentities | internal/device/identity_resolver.go:29-96 | computes the resolution of the de-duplicated hardware, with all that ResolutionResolves says of it |
| IdentityResolver.ResolutionResolves | internal/device/identity_resolver.go:29-96 | devices are partitioned into matched, unmatched and degraded; configurations into matched and offline unless ids are ambiguous; a device whose IMEI is configured gets the first configuration with it and no other; every pair by path holds the first matching configuration that no pair before it holds; no unmatched device has a configuration with its IMEI; no device left over matches a free configuration by path, nor an unmatched one a configuration held by a device without IMEI |
| IdentityResolver.DedupeCompositions | internal/device/identity_resolver.go:116-135 | one binding for each IMEI, the first of its best compositions, in order of first appearance; hardware without IMEI stays |
| IdentityRules.KeptComposition | internal/device/identity_resolver.go:112-152 | of all compositions of one IMEI the one kept has the first mode in the list QMI, MBIM, NCM, ECM, RNDIS, other, and was seen before all as good |
| IdentityRules.OnlyDigitsCount | internal/config/imei.go:8-20 | characters other than digits make no difference to an IMEI |
| IdentityRules.FourteenDigits | internal/config/imei.go:8-20 | of fourteen digits or more the first fourteen count, and fewer are no IMEI |
| IdentityRules.PathDecides | internal/device/identity_resolver.go:157-171 | known USB paths decide alone; without one, the same control node or the same interface will do |
| IdentityResolver.DedupeIsUnique | internal/device/identity_resolver.go:116-135 | there is only one such list |
| IdentityResolver.DedupedKeysUnique | internal/device/identity_resolver.go:116-135 | no two bindings share an IMEI |
| IdentityResolver.TakeLegacyConfig | internal/device/identity_resolver.go:100-111 | takes the first free configuration in the list that matches by path, and none only if none is left |
| IdentityResolver.IndexConfigs | internal/device/identity_resolver.go:35-45 | the first configuration of each IMEI, and those without one in order |
| IdentityResolver.MatchByIMEI | internal/device/identity_resolver.go:47-64 | computes the first round |
| IdentityResolver.IMEIRoundMeaning | internal/device/identity_resolver.go:47-64 | the first round gives every device with an IMEI the first configuration of that IMEI, keeps aside the others with an IMEI, for which there is none, and those without |
| IdentityResolver.MatchByPath | internal/device/identity_resolver.go:66-87 | computes a round by path |
| IdentityResolver.PathRoundMeaning | internal/device/identity_resolver.go:66-87 | in a round by path every device in turn takes the first free configuration that matches, and one left over matches none that is free |
| IdentityResolver.OfflineConfigs | internal/device/identity_resolver.go:89-93 | the configurations whose id is not used, in order |
| IdentityResolver.UsedAreMatched | internal/device/identity_resolver.go:29-96 | when no ids are ambiguous the configurations in use are those of the pairs, once each |
| IdentityAmbiguity.AccountedExactly | internal/device/identity_resolver.go:29-96 | every configuration is matched once or offline, whatever the hardware, if and only if none that a device could be given shares its id with another |
| IdentityAmbiguity.DistinctIdsAccounted | internal/device/identity_resolver.go:29-96 | with distinct ids every configuration is matched once or offline, whatever the hardware |
| IdentityAmbiguity.SharedIdHides | internal/device/identity_resolver.go:89-93 | the plainest case: a configuration that shares the id of the one with the device’s IMEI is neither matched nor offline |
| LogTail.ReadLastLines | internal/api/logs.go:188-249 | the result is the last lines of the text from the offset where the backward loop stops |
| LogTail.ReadBlocks | internal/api/logs.go:211-239 | the blocks read, put in order, are the file from that offset on |
| LogTail.StopExactly | internal/api/logs.go:211-234 | the backward loop goes by blocks of 32768 bytes until it is at the start, has the bytes, or has more newlines than lines wanted, and no further |
| LogTail.StartExactly | internal/api/logs.go:188-234 | without a limit a mebibyte is read, and a file of one block as a whole |
| LogTail.SpaceIs | internal/api/logs.go:242-244 | space in a log is the ASCII space and the five control characters from tab on |
| LogTail.SplitExactly | internal/api/logs.go:241-241 | the pieces have no newline and, put together with newlines, are the text |
| LogTail.LastAreLast | internal/api/logs.go:245-249 | the last pieces, all of them when there are not more than wanted |
| LogTail.TailIsExact | internal/api/logs.go:217-249 | reading from an offset gives the last lines of the whole file if and only if it is the start, more pieces than wanted are kept, exactly as many at a line start, or everything is blank |
| LogTail.UsualTailIsExact | internal/api/logs.go:188-249 | so it refines splitting the whole file when the byte limit did not stop the loop and at most one trailing piece is blank |
| LogTail.BlankBlockHidesFile | internal/api/logs.go:217-249 | a whole block of newlines at the end makes the result empty while the file has lines |
| LogTail.SplitConcat | internal/api/logs.go:236-241 | splitting a concatenation joins the pieces at the seam |
| DsnLexer.RedactKeywordValueDSN | cmd/dbmigrate/main.go:1438-1506 | the cursor loop is total and stays in bounds; it fails exactly when the text is not a list of settings, and otherwise the output is the text with exactly the values of secrets replaced |
| DsnLexer.LexExactly | cmd/dbmigrate/main.go:1438-1506 | lexing and rendering are each other’s inverse: the lexer finds the only reading of a text as settings |
| DsnLexer.LexBefore | cmd/dbmigrate/main.go:1438-1506 | the settings found, spelt out again, are the input to the letter |
| DsnLexer.LexAfter | cmd/dbmigrate/main.go:1438-1506 | settings spelt out in sequence, each readable before what follows, are read back |
| DsnLexer.SecretsDoNotShow | cmd/dbmigrate/main.go:1498-1502 | two texts that differ only in secret values have the same output |
| DsnLexer.RedactIsIdempotent | cmd/dbmigrate/main.go:1438-1506 | redacting again changes nothing if and only if every secret value is followed by a space or the end |
| DsnLexer.RedactedReadsBack | cmd/dbmigrate/main.go:1438-1506 | the output of a readable text is read as the same settings with stars for the secrets if and only if every secret value is followed by a space or the end |
| DsnLexer.RedactTwice | cmd/dbmigrate/main.go:1438-1506 | the same, setting by setting |
| DsnLexer.SwallowedKey | cmd/dbmigrate/main.go:1463-1506 | the input that shows the other half: a quoted password with a key right behind it |
| DsnValues.QuotedSetting | cmd/dbmigrate/main.go:1463-1502 | every text, quoted with its quotes and backslashes escaped, is one value: three stars for a password or sslpassword in any case of letters, unchanged for any other keyword |
| DsnValues.BareSetting | cmd/dbmigrate/main.go:1484-1502 | the same for a bare value with its spaces escaped, before a space or the end |
| DsnValues.SecretKeys | cmd/dbmigrate/main.go:1533-1536 | the keywords with a secret are password and sslpassword, in any case of letters |
| DsnValues.KeywordIs | cmd/dbmigrate/main.go:1517-1531 | a keyword is letters, digits and underscores, not a digit first |
| DsnLexer.QuotedEnd | cmd/dbmigrate/main.go:1463-1483 | the end of a quoted value: its first unescaped quote, none if unclosed |
| DsnLexer.PlainEnd | cmd/dbmigrate/main.go:1484-1495 | the end of a plain value: its first unescaped space or the end, none after a lone backslash |
| LegacyPhoneMerge.PrepareLegacySIMPhoneMigration | cmd/dbmigrate/main.go:677-808 | refuses exactly when a row with a phone has no key or belongs to a table not chosen; otherwise gives the plan, and its subscription and pending keys in ascending order |
| LegacyPhoneWinners.NewestWins | cmd/dbmigrate/main.go:714-764 | the newest row of a subscription or card decides: its own number, else the one of VoWiFi, else the modem’s, and its operator and real card |
| LegacyPhoneWinners.NothingMadeUp | cmd/dbmigrate/main.go:714-764 | every text of the plan stands in a row for its target, and a made-up card number is never taken |
| LegacyPhoneWinners.TimesKept | cmd/dbmigrate/main.go:748-800 | times are the latest sighting and update and the earliest creation, and what is missing comes from those known or from 1970 |
| LegacyPhoneWinners.RefusedExactly | cmd/dbmigrate/main.go:677-697 | a row is refused exactly when it has a number and nowhere to go with it |
| LegacyPhoneMerge.OrderDoesNotMatter | cmd/dbmigrate/main.go:699-764 | with distinct recency, ICCID and IMSI the order of the source rows makes no difference to the plan |
| LegacyPhoneMerge.PlanSummarises | cmd/dbmigrate/main.go:714-764 | for rows in any order: one entry for each subscription or pending ICCID, every text that of the newest row supplying it, times the latest sighting and update and the earliest creation, and never without a phone |
| LegacyPhoneMerge.FoldSummarises | cmd/dbmigrate/main.go:714-764 | the fold over sorted rows keeps that summary |
| LegacyPhoneMerge.SortSorts | cmd/dbmigrate/main.go:703-712 | the sort yields a sorted permutation |
| LegacyPhoneMerge.SortIsStable | cmd/dbmigrate/main.go:703-712 | rows with equal keys keep their order |
| LegacyPhoneMerge.PhoneResolved | cmd/dbmigrate/main.go:766-774 | so the phone is never filled in afterwards: that branch is dead |
| LegacyPhoneUpsert.MigrateLegacySIMPhones | cmd/dbmigrate/main.go:847-926 | succeeds exactly when every write verifies, and then the tables are those of all upserts together |
| LegacyPhoneUpsert.VerifiesExactly | cmd/dbmigrate/main.go:928-946 | the statement agrees with the program’s expectation if and only if no text of the existing row is space of another kind than plain spaces |
| LegacyPhoneUpsert.TabStopsMigration | cmd/dbmigrate/main.go:928-946 | a row whose phone is a tab stops it, whatever trimmed text is planned |
| LegacyPhoneUpsert.MigratingAgainChangesNothing | cmd/dbmigrate/main.go:847-926 | a second migration changes nothing |
| LegacyPhoneUpsert.MigratingAgainVerifies | cmd/dbmigrate/main.go:847-926 | and it succeeds: a write that verified the first time verifies again |
| LegacyPhoneUpsert.DestinationIsAuthoritative | cmd/dbmigrate/main.go:847-926 | existing rows keep their times and every text that is more than spaces; blank texts take the planned ones; only planned rows are added |
| LegacyPhoneUpsert.PlanIsTrimmed | cmd/dbmigrate/main.go:625-660 | plans made from trimmed rows meet the condition of VerifiesExactly |
| DownloadFanout.RunKeeps | internal/api/esim_download.go:63-113 | in every run a channel is open exactly while subscribed, a finished download has no subscribers, nothing is sent on or closed twice, and what a subscriber got is a subsequence of the events from its subscription to its end, all of them if its buffer never filled |
| DownloadFanout.PublishKeeps | internal/api/esim_download.go:63-86 | publishing keeps that |
| DownloadFanout.NothingMissed | internal/api/esim_download.go:63-101 | a subscriber whose buffer never filled and who has drained it holds, with its history, all events |
| DownloadFanout.PublishReaches | internal/api/esim_download.go:63-86 | an event reaches exactly the subscribers with fewer than 64 waiting, and the channels close with the event done or error |
| DownloadFanout.OverExactly | internal/api/esim_download.go:63-86 | in every run the download is over exactly when an event has said done or error |
| DownloadFanout.TakesInOrder | internal/api/esim_download.go:90-101 | a subscriber takes the events that wait for it one by one, first come first |
| DownloadFanout.JoinAndLeave | internal/api/esim_download.go:90-113 | a new subscriber starts with an empty open channel, leaving closes its own and no other |
| DownloadFanout.Task.PublishEvent | internal/api/esim_download.go:63-86 | appends the event, offers it to every subscriber in any order without blocking, and closes all channels after the last event |
| DownloadFanout.Task.SubscribeNew | internal/api/esim_download.go:90-101 | gives the history, and a channel unless the download is over |
| DownloadFanout.Task.UnsubscribeOne | internal/api/esim_download.go:103-113 | closes the channel if it is subscribed, at most once |
| DownloadRegistry.OneDownloadPerDevice | internal/api/esim_download.go:143-184 | in every run a device has at most one unfinished task |
| DownloadRegistry.BeginIsExclusive | internal/api/esim_download.go:143-172 | a request is turned away if and only if the device has an unfinished task, whatever the two clock readings |
| DownloadRegistry.TasksOutliveSteps | internal/api/esim_download.go:115-184 | unfinished tasks are never collected, finished ones not before their time to live is over |
| DownloadRegistry.CollectedExactly | internal/api/esim_download.go:115-119 | a task is collected exactly from ten minutes after its end on |
| DownloadRegistry.ClaimGoesWithTask | internal/api/esim_download.go:174-184 | a device’s claim goes with its task and only so |
| DownloadRegistry.EndFreesDevice | internal/api/esim_download.go:143-172 | after the end of a download the next request of its device gets a new task |
| DownloadRegistry.RequestIsTurnedAway | internal/api/esim_download.go:143-172 | during a download a request of its device gets that one and makes none |
| DownloadRegistry.Registry.Gc | internal/api/esim_download.go:174-184 | collects exactly the expired tasks and their claims |
| DownloadRegistry.Registry.BeginTask | internal/api/esim_download.go:143-172 | gives the running task, a new one, or none when no id could be made |
| TrafficRollup.DayIsWhatWasRecorded | internal/db/traffic_rollup.go:84-173 | however recording and rolling up were interleaved before: when a day’s 24 hours and then the day are rolled up, a group’s row is the sum of all its points recorded in that day |
| TrafficRollup.DayConserves | internal/db/traffic_rollup.go:116-173 | for arbitrary tables the day’s row is the sum of its minutes plus the old hour rows that the roll-up did not write |
| TrafficRollup.RecordingConserves | internal/db/traffic_rollup.go:84-114 | in every stretch of time a group’s bytes grow by exactly the points recorded |
| TrafficRollup.RollupAgain | internal/db/traffic_rollup.go:155-173 | rolling up unchanged rows again changes nothing |
| TrafficRollup.RollupAt | internal/db/traffic_rollup.go:155-173 | a rolled-up row is the sum of its stretch when that has rows, and untouched otherwise |
| TrafficRollup.GroupRows | internal/db/traffic_rollup.go:155-173 | grouping row by row, in any order, gives the sums of the statement |
| TrafficRollup.Traffic.UpsertTrafficMinute | internal/db/traffic_rollup.go:84-114 | adds every point, or none when two points have the same key |
| TrafficRollup.Traffic.RollupToHour | internal/db/traffic_rollup.go:116-118 | writes the sums of the minutes of its hour |
| TrafficRollup.Traffic.RollupToDay | internal/db/traffic_rollup.go:120-122 | writes the sums of the hours of its day |
| TrafficPlain.RolledUp | internal/db/traffic_rollup.go:116-173 | an hour or day rolled up has, for each group with rows in its 3600 or 86400 seconds, their sum, and all else stays |
| TrafficPlain.SumOfRows | internal/db/traffic_rollup.go:155-173 | a sum over a stretch grows by each row of its group inside it |
| TrafficPlain.RefusedExactly | internal/db/traffic_rollup.go:84-114 | points are refused together when two have the same minute, resource, tag and direction |
| TrafficPlain.DeviceBeforeAt | internal/db/traffic.go:269-274 | a tag names its device before the first at sign, or as a whole |
| TrafficPlain.OneMoreRow | internal/db/traffic.go:84-112 | a row counts as sent when its direction is set and as received otherwise, in its period and for its device |
| TrafficPlain.PeriodsExactly | internal/db/traffic.go:53-71 | the periods are those of the instants a step apart from the start to now, and no more |
| TrafficChart.ChartAddsUp | internal/db/traffic.go:53-135 | at every index the device series sum to the bucket’s total if the index is its period’s last one, and to nothing otherwise |
| TrafficChart.UtcChartAddsUp | internal/db/traffic.go:53-135 | so in UTC they sum to the total at every index |
| TrafficChart.RepeatedDay | internal/db/traffic.go:53-71 | a day of 25 hours: the bucket of its two steps shows one byte twice, the series once |
| TrafficChart.RangesCover | internal/db/traffic.go:154-202 | in UTC a chart of a day has 25 hours, of a week 8 days, of a month 31: from the aligned start on, without gap, the last one being the period under way |
| TrafficChart.DevicesSum | internal/db/traffic.go:84-112 | every byte of a period belongs to exactly one device |
| TrafficChart.GetTrafficAnalysisWithChart | internal/db/traffic.go:84-130 | for given rows and range: a bucket for every period with its bytes in both directions, the devices that have any in ascending order, and for each its series |
| TrafficChart.ListPeriods | internal/db/traffic.go:53-71 | the periods from the start to now, and for each its last position |
| TextPlain.TrimExactly | internal/db/sms.go:34-36 | trimming takes the space off both ends and nothing else |
| TextPlain.SpaceIs | internal/db/sms.go:34-36 | which characters up to the no-break space are space |
| TextPlain.LowerExactly | internal/device/identity_resolver.go:138-138 | lower case moves the 26 letters and leaves the rest of ASCII |
| TextPlain.LessExactly | cmd/dbmigrate/main.go:803-808 | one string is less when it is a proper beginning of the other or has the smaller character where they first differ |

## Left out

- Arbiter: wrap-around of its 64-bit ids, counters and generations; identifiers are unbounded here.
- Arbiter: Stats, Snapshot, WaitIdle, logging, and the texts of owner, mode and reason; they only read the state.
- Arbiter: lease and barrier objects are ids, so two handles on one lease are the same id; a timer is the expire step with its id at any time.
- Arbiter: cancellation of a context is the cancel step; which of several ready select branches runs is left open.
- Arbiter: fairness of the scheduler. Progress is stated as tickets that pass and runs that drain, not as every run ending.
- SimAuthGate: the probe and its time-outs are an outcome given from outside.
- SmsStore: the database is two maps and each transaction one atomic step; columns are never NULL; delivery status and duplicate detection are not modelled. The card directory’s answers are arguments of a save.
- SmsStore: deletion by ICCID (`internal/db/sms.go:400-423`), where threads that mix ICCIDs do not keep the list right.
- SmsThreads.WritesKeepView: asks of every write to be harmless, which `WriteKeepsView` shows to be the exact condition.
- SmsQuota: times are whole nanoseconds; rounding in the database is not modelled. The advisory lock makes a reservation one step.
- CallManager: inbound calls only as far as they compete for the current call; the controller's events, audio, SDP and RTP are left out.
- CallManager: SIP messages are their status codes, and the transport below never fails.
- IdentityResolver: lower-casing follows ASCII and the two other letters that become ASCII ones.
- LogTail: the file does not change while it is read and reads are complete. A character of the file is one byte and white space is ASCII; white space that takes several bytes is not modelled.
- LegacyPhoneMerge.PrepareLegacySIMPhoneMigration: starts from the rows read and ends with the entries by key. The two lists of the program are the two lists of keys with the plan. Finding the columns, reading and converting them, and the early exits without old columns are not modelled; no time is before year one.
- DsnLexer: the URL form, and the message that replaces an unreadable text. Positions count characters, not bytes, of valid UTF-8.
- DownloadFanout: the HTTP stream, and the download itself. A new channel is a number not used before, and a new task id one not in use.
- TrafficRollup: weeks, months and the clean-up of old rows. After a clean-up an hour must not be rolled up again, which the program does not do.
- TrafficRollup.DayIsWhatWasRecorded: sums are unbounded integers; 64-bit overflow is not modelled.
- TrafficChart.GetTrafficAnalysisWithChart: takes the rows of its two queries, the start, the step and the rounding to a period as arguments, and leaves out the labels. What the three range names choose is `TrafficChart.RangesCover`, in UTC only.
- G.711 coding, HTTP handlers, configuration files, plugins and the modem back ends: hardware and input/output.
