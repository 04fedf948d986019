# Mail gateway: decisions and what is remembered about a message

A Dafny model of the parts of the gateway that decide what happens to a message and keep state
about it, with proofs about whole runs rather than single calls. `dafny verify dfyconfig.toml`
checks the project.

| module | what it models |
|---|---|
| `DeepAnalysis` | the deep-analysis hold of one mail log as a state machine: job rows, hold column, quarantine entries, deliveries, callbacks in flight; one step is one SQL statement or one delivery |
| `DeepAnalysisSafety`, `DeepAnalysisWakeUp` | what every run keeps; exactly when a hold stays pending |
| `DeepAnalysisOutcome` | what the final state is, under the discipline the workers and the ingest path should keep; what goes wrong without it |
| `DeepAnalysisEvidence` | what holds of the hold over every run without any discipline: what a release rests on, what can take it back, what timeouts do |
| `DeepAnalysisStore` | the callback, reconcile, release and timeout code as methods on the rows; each method also yields its steps, so its runs are runs of the machine |
| `Pipeline`, `PipelineProofs`, `SymbolOrder` | the fifteen decision stages of the ingest handler in their order, and properties of the composition |
| `Campaign`, `CampaignHold` | concurrent ingests of copies of one campaign, statement by statement; what becomes of copies that are held for deep analysis |
| `Learning` | the feedback table and its three-step lookup |
| `Tenants`, `PolicyResolution` | the organization tree, scopes, and the policy a target resolves to |
| `ChallengeDigest`, `DigestMerge`, `DigestRuns` | when approval digests go out; how the list of a quarantine digest is merged; which messages a run of digests tells a user about |
| `SenderLists`, `CandidateDomains` | allow and block rules, their lookup, and the domains whose rules apply |
| `ThreatCache` | the threat-intelligence registry and its expiring cache, with lookups that overlap |
| `SandboxUrls` | which URLs are sent to the browser sandbox |
| `Unsubscribe` | the List-Unsubscribe reader |
| `Fingerprints` | subject fingerprints and the normal form of campaign texts |
| `Text`, `Counting`, `Wrappers` | strings, counting over sequences, optional values |

Tables are sequences or maps that change by atomic statements; a delivery, a database error, a
clock reading or an answer of a feed is an input of the step, so a theorem about all runs covers
every success, failure and interleaving. Times are integers.

## What the proofs found

The code is modelled as it is; where it does not do what its comments or tests suggest, a lemma
gives the input, and further lemmas say exactly when it does or exactly which steps are to blame.

* Scan jobs are inserted one at a time, so an AI callback that is handled before the sandbox job
  exists releases the message although the sandbox later reports malware
  (`LateInsertReleasesThreat`); a `running` callback that arrives after the terminal one leaves the
  hold pending until its deadline (`LateRunningLosesWakeUp`), and so does a job whose push to the queue
  fails, because it is set to failed and nobody calls back (`QueueFailureLosesWakeUp`). In every run a
  hold stays pending exactly when no callback read a threat or a complete set of jobs
  (`StaysPendingExactly`), and it stays releasing exactly when the claimant was cut off
  (`StaysReleasingExactly`). With all jobs inserted first and one
  terminal callback each, the outcome is a function of the results (`FinalStateIsOutcome`). Without
  that discipline a release still rests on a moment at which all results were clean
  (`ReleaseSawClean`), and only a late insert, a repost or a queue failure can take that back
  (`TakesBackExactly`, `UncleanReleaseHasLateStep`).
* The report of a threat adds a held entry to a mail log that has none any more, so a message that was
  released too early ends with one entry released and one held; the added entry has no stored message and
  is never delivered (`LateInsertReleasesThreat`, `ReleaseConservation`).
* A higher score never gives a milder disposition, exactly for the policies whose quarantine band
  does not deliver what their spam band tags (`MonotoneExactly`).
* The disposition can depend on the order in which the symbol map is iterated
  (`SymbolOrderMatters`); it does not exactly when a blocklist holds the mail first or the decisive
  symbols agree (`OrderIrrelevantExactly`).
* With challenge-response on, an unknown sender gets through in exactly one case
  (`ChallengeHolds`).
* A copy of a campaign can be suppressed before any copy is held, under every action but aggregate
  and for every threshold (`SuppressesOnlyCopiesExactly`).
* Copies held for deep analysis count as high-confidence. A suppressed one keeps a mail log with a
  pending hold but has no entry: it is never delivered, even when the analysis releases the
  representative and whatever jobs a session inserts for it (`SuppressedCopyIsNeverDelivered`,
  `OnlyRepresentativeIsDelivered`); a copy can be delivered exactly when it owns an entry
  (`DeliverableExactly`). Unless a session inserts a job for it, it waits for its deadline
  (`SuppressedCopyWaits`).
* A quarantine digest stamps the user after the mail was sent, and the next window starts at the
  stamp: a message that arrives between the query and the stamp is in no digest, and a stamp that
  fails lists messages twice, contrary to the comment at
  `internal/notifications/quarantine_digest.go:79-82` (`GapLosesMessage`). `LostExactly`,
  `ToldAgainExactly` and `ToldOnceExactly` say exactly which messages are concerned.
* A sender that is literally spelled `*@domain` counts towards its domain
  (`LiteralSenderCountsTwice`); a row counts threats exactly when no such report stands
  (`RowCountsThreatsExactly`).
* The hourly and daily rate bounds hold for calls that follow each other, with no monotone clock
  (`DigestRateBound`). With overlapping senders a claim keeps them exactly when the row itself is due
  at the claim (`ClaimKeepsSpacingExactly`, `DueRowsAreSpaced`); a sender that only tested an old copy
  can break them (`StaleRowSendsTwice`).
* A claim keeps other claims out for fifteen minutes exactly when its clock reading is later than the
  last recorded send (`ClaimBlocksExactly`). Otherwise two sends can be in flight at once, and no clock
  need be wrong for it (`StaleClockOverlaps`, `OldReadingOverlaps`).
* In the same way an immediate user can be told twice of one pending message (`StaleRowTellsTwice`),
  which never happens exactly when every accepted claim finds the row due (`NewsExactly`).
* Two overlapping decisions about one sender can leave two rows with one key
  (`OverlapLeavesTwoRows`); which rows are left, and whether the keys stay unique, is exact for every
  interleaving (`InterleavedRows`, `KeysUniqueExactly`).
* Two overlapping lookups of one value can hide a threat: a lookup whose feed failed stores its miss over
  the hit of the other (`OverlapHidesHit`). A stored result is found until it expires exactly when every
  lookup of the key in flight must end the same way (`StoredIsFoundExactly`).
* Normalizing a cache value twice changes its key for exactly one kind of domain
  (`NormalizeAgainExactly`).
* Printing the targets of a List-Unsubscribe header and reading them again is stable exactly when
  no target contains a closing bracket (`ReprintIsStableExactly`, `StrayBracketIsLost`), and reading undoes
  printing exactly for printable targets (`PrintThenParseExactly`).
* The weights of the sandbox ranking amount to a veto (`PriorityIsVeto`).

## Model

| member | source | states |
|---|---|---|
| DeepAnalysis.CountsMean | internal/scan/scan.go:387-396 | the incomplete count of the aggregate is zero exactly when all jobs are terminal, the AI count exactly when no job is an AI job |
| DeepAnalysis.HeldFromLists | internal/quarantine/quarantine.go:199-205 | the release query lists exactly the held entries, in order and once each |
| DeepAnalysisSafety.HoldRun | internal/scan/scan.go:398-431 | over every run the hold only moves from pending to releasing to a settled value |
| DeepAnalysisSafety.SettledIsAbsorbing | internal/scan/scan.go:438-451 | threat, unavailable and released are final; a hold that timed out during release never becomes released |
| DeepAnalysisSafety.AtMostOneClaim | internal/scan/scan.go:419-429 | of all reconcilers in all interleavings at most one wins the claim to releasing |
| DeepAnalysisSafety.ClaimExactly | internal/scan/scan.go:398-429 | a step wins the claim if and only if it is the decision of a reconciler with a complete, clean snapshot that has an AI job, while the hold is pending |
| DeepAnalysisSafety.MarkedAt | internal/quarantine/quarantine.go:231-238 | after n marks exactly the first n held entries are released and all others are unchanged |
| DeepAnalysisSafety.MarkedFacts | internal/quarantine/quarantine.go:220-239 | deliveries and marks never drift apart by more than the last delivery |
| DeepAnalysisSafety.ReleaseInvRun | internal/quarantine/quarantine.go:197-248 | the release invariant (one releaser, sends a prefix of the list, marks at most one behind) holds in every reachable state |
| DeepAnalysisSafety.ReleaseConservation | internal/quarantine/quarantine.go:197-248 | in every run deliveries follow the query order without repetition, the entries of the start change only after their delivery, entries added by threat reports stay held and are never sent, nothing is sent while pending or after a threat, and a released hold has sent and marked everything that was held |
| DeepAnalysisWakeUp.WakeUpRun | internal/scan/scan.go:358-433 | unless a queue failure completes the jobs, a pending hold whose jobs are all terminal has a callback that can still resolve it, or one that was cut off, in every run |
| DeepAnalysisWakeUp.NoLostWakeUp | internal/scan/scan.go:358-433 | in every run in which no queue failure completes the jobs, late inserts and reposts included, once every job is terminal and every callback has returned the hold is not pending |
| DeepAnalysisWakeUp.StaysPendingExactly | internal/scan/scan.go:367-429 | in every run before the deadline, once every callback has returned the hold is pending if and only if no callback that found it pending read a threat or a complete set of jobs |
| DeepAnalysisWakeUp.StaysReleasingExactly | internal/quarantine/quarantine.go:197-248 | in every run before the deadline, once every callback has returned, with or without an error, the hold is releasing if and only if the claimant's list, mark, last update or record of a failed delivery failed |
| DeepAnalysisOutcome.OutcomeInvRun | internal/scan/scan.go:367-433 | snapshots stay honest and the last callback stays able to resolve the hold, in every disciplined run |
| DeepAnalysisOutcome.ClaimOnlyWhenClean | internal/scan/scan.go:413-429 | at the moment of a claim every job is done, none failed, none is a threat, and one is an AI job |
| DeepAnalysisOutcome.ClaimedMeansClean | internal/scan/scan.go:398-431 | whatever was sent or released belongs to a mail log whose jobs are all clean, even if the hold later timed out |
| DeepAnalysisOutcome.SentMeansClean | internal/scan/scan.go:430-431 | no delivery happens before the jobs are complete and clean |
| DeepAnalysisOutcome.NeverNotRequired | internal/scan/scan.go:398-431 | no step takes a hold back to the state of mail that was never held |
| DeepAnalysisOutcome.FinalStateIsOutcome | internal/scan/scan.go:398-431 | without errors and with any number of ticks before the deadline, the final hold, the deliveries and the entries, with the one a threat report adds, are a function of the job results and the entries at the start, whatever the interleaving |
| DeepAnalysisOutcome.TwoInterleavingsAgree | internal/scan/scan.go:358-433 | two interleavings with the same results end in the same hold with the same deliveries and entries |
| DeepAnalysisOutcome.LateInsertReleasesThreat | internal/mail/ingest.go:461-540 | counterexample: with jobs inserted during the callbacks a message is released although a scan reports malware, and the report then adds a held entry beside the released one |
| DeepAnalysisOutcome.QueueFailureLosesWakeUp | internal/scan/scan.go:276-287 | counterexample: the last open job fails by the queue, so all jobs are terminal, all callbacks have returned and the hold is pending |
| DeepAnalysisOutcome.LateRunningLosesWakeUp | internal/scan/scan.go:321-325 | counterexample: after a late running callback the hold stays pending, with nothing sent, through every continuation before the deadline, for every deadline |
| DeepAnalysisEvidence.ClaimSawClean | internal/scan/scan.go:387-429 | in every run whatsoever, whoever wins the claim has read counts of a moment at which all inserted jobs were clean |
| DeepAnalysisEvidence.ReleaseSawClean | internal/scan/scan.go:367-433 | in every run whatsoever nothing is claimed, sent or released unless all inserted jobs were clean at some earlier moment |
| DeepAnalysisEvidence.TakesBackExactly | internal/scan/scan.go:321-343 | which single steps make clean jobs unclean: an insert, a job put back to running, a repost that fails or gives a bad verdict, a queue failure, and nothing else |
| DeepAnalysisEvidence.UncleanReleaseHasLateStep | internal/scan/scan.go:321-343 | if something was released although the jobs are not clean now, such a step came after a moment at which they were |
| DeepAnalysisEvidence.TicksNeverDeliver | internal/scan/scan.go:435-451 | two-run property: with timeouts a run makes the same deliveries and marks as without them, or none at all, and its hold differs only by being unavailable |
| DeepAnalysisStore.MailLogHold.ReleaseOne | internal/quarantine/quarantine.go:221-238 | one turn delivers, then marks; which of the two failed decides what changed |
| DeepAnalysisStore.MailLogHold.ReleaseDeepAnalysisHold | internal/quarantine/quarantine.go:197-248 | delivers a prefix of the held list, counts exactly the entries that were sent and marked, leaves later entries alone, and releases the hold only at the end of the list |
| DeepAnalysisStore.MailLogHold.ReconcileDeepAnalysis | internal/scan/scan.go:367-433 | for every statement that may fail: resolves a pending hold by the jobs, delivers only for complete clean jobs, leaves a claimed hold releasing when the entries cannot be listed, and is a run of the machine |
| DeepAnalysisStore.MailLogHold.ResolveExpiredDeepAnalysis | internal/scan/scan.go:438-451 | marks an overdue open hold for review and delivers nothing |
| DeepAnalysisStore.MailLogHold.WorkerResult | internal/scan/scan.go:321-364 | every report, update error and reply; a report is stored and reconciled, a threat settles a pending hold without a delivery, and the callback is a run of the machine; the report of a threat is filed first, and complete clean jobs deliver a prefix of the held list as in a reconcile |
| Pipeline.DecideDisposition | internal/mail/ingest.go:142-171 | the handler's assignments compute the ruling that the theorems below are about |
| PipelineProofs.LockedUntil | internal/mail/ingest.go:760-850 | a hold for a gated reason survives from any stage to any later stage |
| PipelineProofs.HardGateSurvives | internal/mail/ingest.go:142-165 | from authentication on, a message held for a hard-gate reason stays held |
| PipelineProofs.UnauthenticatedIsHeld | internal/mail/ingest.go:872-899 | mail that passed none of SPF, DKIM and DMARC, is not outbound and is no delivery notification is never delivered or tagged |
| PipelineProofs.InboundRejectedIffBlacklisted | internal/mail/ingest.go:1210-1221 | inbound mail is rejected if and only if a blacklist matched, and then the reason says so |
| PipelineProofs.ChallengeHolds | internal/mail/ingest.go:992-1029 | with challenge-response on, an unknown sender is let through if and only if a soft hold was lifted by a learned not-spam verdict |
| PipelineProofs.ChallengeHoldsUnknownSender | internal/mail/ingest.go:154-165 | without a learned not-spam verdict an unknown sender is always held |
| PipelineProofs.ChallengeHoldsUnverifiedSource | internal/mail/ingest.go:1002-1008 | an allowlisted sender from an unverified source is held when verification is required, even with a learned not-spam verdict |
| PipelineProofs.SoftReasonsBeforeLearned | internal/mail/ingest.go:760-850 | before the learned stage the two gates agree on every reason that can occur |
| PipelineProofs.ClassIgnoresScore | internal/mail/ingest.go:1472-1475 | two scores can change the threat class only between spam and none, which no stage acts on |
| PipelineProofs.BelowStage | internal/mail/ingest.go:142-165 | every middle stage keeps the relation between a lower-score and a higher-score run |
| PipelineProofs.ScoreMonotone | internal/mail/ingest.go:142-171 | two-run property: under a monotone policy a higher score never gets a milder disposition |
| PipelineProofs.NonMonotonePolicyHasWitness | internal/mail/ingest.go:677-705 | every other policy has a message and two scores that break it |
| PipelineProofs.MonotoneExactly | internal/mail/ingest.go:677-705 | score monotonicity holds for a policy if and only if the policy is monotone |
| PipelineProofs.SymbolOrderMatters | internal/mail/ingest.go:1439-1453 | the same symbols in another order give another disposition |
| SymbolOrder.ThreatIgnoresOrderExactly | internal/mail/ingest.go:1439-1453 | all orders of the symbols give one answer of the symbol loop if and only if the decisive symbols agree |
| SymbolOrder.OrderIrrelevantExactly | internal/mail/ingest.go:142-171 | the disposition is the same for all orders, whatever the policy, lists, detectors and score are, if and only if the symbols list the sender or the decisive symbols agree |
| Campaign.CampaignThreshold | internal/policies/policies.go:77-98 | the threshold is always between 2 and 10000, and the setting wins when it is in that range |
| Campaign.RunKeepsInv | internal/mail/ingest.go:255-328 | exact counters, one bound entry, and an owner for every kept copy, in every interleaving |
| Campaign.CampaignConservation | internal/mail/campaign.go:23-83 | every counted copy is in flight, suppressed or kept, and the suppression counter is exact |
| Campaign.OneRepresentativeAtRest | internal/mail/ingest.go:188-328 | at rest a high-confidence campaign holds exactly one entry and has suppressed all other copies, for every threshold and action |
| Campaign.RepresentativeIsStable | internal/mail/ingest.go:233-293 | a representative, once set, never changes |
| Campaign.AggregateSuppressesOnlyCopies | internal/mail/ingest.go:189-206 | under aggregation a copy is suppressed only when an entry already holds the mail |
| Campaign.SuppressesEarly | internal/mail/ingest.go:189-206 | counterexample for every threshold and for both the reject and the discard action: the copy that reaches the threshold is suppressed with nothing held |
| Campaign.SuppressesOnlyCopiesExactly | internal/mail/ingest.go:189-206 | under a threshold and an action a suppressed copy implies a held one in every interleaving if and only if the action is aggregate |
| CampaignHold.SuppressedCopyIsNeverDelivered | internal/mail/ingest.go:176-335 | a suppressed copy held for analysis has no entry and is never delivered in any continuation, whatever jobs sessions insert for it |
| CampaignHold.SuppressedCopyWaits | internal/mail/ingest.go:176-335 | as long as no session inserts a job for it, a suppressed copy stays pending until its deadline and then goes to manual review |
| CampaignHold.DeliverableExactly | internal/mail/ingest.go:176-335 | a copy can be delivered in some continuation if and only if it owns a quarantine entry |
| CampaignHold.OnlyRepresentativeIsDelivered | internal/mail/ingest.go:176-335 | of a campaign held for analysis at most one copy is ever delivered, in any continuations of their mail logs |
| Learning.Classifications.Upsert | internal/classifier/classifier.go:93-113 | sets the verdict and counts one more sample |
| Learning.Classifications.Learn | internal/classifier/classifier.go:57-91 | one observation's whole effect on the table |
| Learning.Classifications.Lookup | internal/classifier/classifier.go:115-177 | exact row, then threat row of the sender, then threat row of the domain with two samples |
| Learning.LookupReadsOwnWrite | internal/classifier/classifier.go:57-177 | the verdict just given decides the next lookup for that sender and subject, whatever the table held |
| Learning.DomainRowStep | internal/classifier/classifier.go:66-90 | what one observation adds to the row of a key, or that it clears it |
| Learning.DomainRowIsStanding | internal/classifier/classifier.go:57-113 | for every log and key the row holds exactly the verdicts that stand since it was last cleared: their number as samples, the last one as verdict |
| Learning.RowCountsThreatsExactly | internal/classifier/classifier.go:57-113 | for every log the row counts the threats of the domain if and only if no report of a sender spelled like the key stands, and more otherwise |
| Learning.UnseenSenderFlaggedExactly | internal/classifier/classifier.go:115-177 | for every log, what the lookup answers for a sender of whom nothing was reported |
| Learning.UnseenSenderFlaggedIffTwoThreats | internal/classifier/classifier.go:115-154 | an ordinary unseen sender is flagged if and only if its domain has two threats since it was last cleared, provided no report of a sender spelled like the domain key stands |
| Learning.LiteralSenderIsItsOwnKey | internal/classifier/classifier.go:213-226 | there is a sender that equals its own domain key |
| Learning.LiteralSenderCountsTwice | internal/classifier/classifier.go:57-91 | for such a sender the count is wrong: one report flags the domain |
| Tenants.NoCycle | internal/orgs/orgs.go:112-232 | no organization is its own proper ancestor |
| Tenants.ScopesNestOrAreDisjoint | internal/tenant/scope.go:27-90 | the scopes of two callers below super admin are nested or disjoint |
| Tenants.ScopeForIdentity | internal/tenant/scope.go:62-90 | the walk ends and lists exactly the caller's organization and its descendants, once each |
| Tenants.InsertScopes | internal/orgs/orgs.go:144-149 | creating an organization adds it to the scopes that contain its parent and changes no other membership |
| Tenants.RemoveScopes | internal/orgs/orgs.go:220-221 | deleting a leaf removes it from every scope and changes no other membership |
| Tenants.Organizations.Create | internal/orgs/orgs.go:112-154 | who may create where, and that the tree stays a forest |
| Tenants.Organizations.Update | internal/orgs/orgs.go:180-208 | who may update what; the tree is not touched |
| Tenants.Organizations.Delete | internal/orgs/orgs.go:210-232 | deletes exactly existing leaves that are not system organizations, for super admins |
| PolicyResolution.NewestIsNewest | internal/policies/resolve.go:50-51 | the row chosen at one level matches and no matching row is newer |
| PolicyResolution.OrgLevelIsNearest | internal/policies/resolve.go:66-82 | the ancestors walk answers with the nearest organization that has a policy |
| PolicyResolution.ResolvePrecedence | internal/policies/resolve.go:46-102 | which level answers, as an if-and-only-if for each, and with which row; the target lies in the owner's scope |
| PolicyResolution.PolicyStaysInScope | internal/policies/resolve.go:66-82 | an organization's policy never reaches mail outside its scope |
| ChallengeDigest.ClaimGuardIsBackOff | internal/notifications/phishing.go:354-389 | the SQL guard accepts exactly the rows that the back-off test does not refuse |
| ChallengeDigest.AlertUser.ClaimAttempt | internal/notifications/phishing.go:372-389 | the claim succeeds exactly under the guard and stamps the attempt |
| ChallengeDigest.AlertUser.SendChallengeOne | internal/notifications/phishing.go:290-350 | one call's whole effect on the user row, for every way the send can end |
| ChallengeDigest.StampsAreSpaced | internal/notifications/phishing.go:354-370 | recorded digests of an hourly (daily) user are an hour (a day) apart in every run, even if the clock steps back between calls |
| ChallengeDigest.DigestRateBound | internal/notifications/phishing.go:354-389 | at most 1 + L/period recorded digests in every window of length L |
| ChallengeDigest.FailedAttemptsAreSpaced | internal/notifications/phishing.go:352-389 | after an attempt without a recorded digest every later attempt is at least fifteen minutes away |
| ChallengeDigest.OneDigestPerPendingMessage | internal/notifications/phishing.go:354-370 | a pending message triggers at most one recorded immediate digest |
| ChallengeDigest.OneSendInFlight | internal/notifications/phishing.go:372-389 | with sends shorter than fifteen minutes no claim succeeds while one is in flight |
| ChallengeDigest.FlightBlocksExactly | internal/notifications/phishing.go:372-389 | with a send in flight the guard accepts a claim if and only if that send was claimed at least fifteen minutes before |
| ChallengeDigest.ClaimBlocksExactly | internal/notifications/phishing.go:372-389 | a claim keeps all others out for fifteen minutes if and only if its clock reading is later than the last recorded send |
| ChallengeDigest.ClaimKeepsSpacingExactly | internal/notifications/phishing.go:290-389 | a claim keeps recorded digests a period apart, whenever its send lands, if and only if the row itself is due |
| ChallengeDigest.DueRowsAreSpaced | internal/notifications/phishing.go:290-389 | overlapping senders keep recorded digests a period apart as long as every accepted claim finds the row due, however old the copies are |
| ChallengeDigest.CurrentCopiesAreSpaced | internal/notifications/phishing.go:290-389 | copies that show the last recorded send are good enough for that |
| ChallengeDigest.StaleClockOverlaps | internal/notifications/phishing.go:372-389 | counterexample: a claim with an old clock reading leaves room for a second one |
| ChallengeDigest.OldReadingOverlaps | internal/notifications/phishing.go:291-299 | counterexample without a wrong clock: a sender that read its clock before another send was recorded |
| ChallengeDigest.StaleRowSendsTwice | internal/notifications/phishing.go:290-299 | counterexample: a run of two senders with prompt sends that records two digests of an hourly user within the hour |
| ChallengeDigest.NewsExactly | internal/notifications/phishing.go:290-389 | with overlapping senders every accepted claim of an immediate user is about mail newer than all recorded digests, in a run, if and only if every accepted claim of the run finds the row due |
| ChallengeDigest.StaleRowTellsTwice | internal/notifications/phishing.go:290-299 | counterexample: two senders that loaded the row before either sent tell an immediate user of one message twice |
| DigestMerge.LeftOutOfSource | internal/notifications/quarantine_digest.go:127-229 | a message that its own query left out is no newer than anything listed |
| DigestMerge.MergeIsNewestOfUnion | internal/notifications/quarantine_digest.go:127-229 | the newest 50 of each source, sorted together and cut at 50, are the newest 50 of the union, whichever way ties are broken |
| DigestMerge.QueryIsNewest | internal/notifications/quarantine_digest.go:140-160 | ordering by time and cutting gives a choice of the newest |
| DigestMerge.DigestItems | internal/notifications/quarantine_digest.go:127-229 | the list is the newest 50 of both sources and the total counts both in full |
| DigestRuns.DigestUser.RunDigest | internal/notifications/quarantine_digest.go:47-74 | one round of the loop: when a digest goes out and what is stored |
| DigestRuns.LostExactly | internal/notifications/quarantine_digest.go:39-97 | no digest of a run tells about a message if and only if it arrived between the query and the stamp of an earlier digest, or is older than the lookback or than the first window |
| DigestRuns.ToldAgainExactly | internal/notifications/quarantine_digest.go:39-97 | a message is told again if and only if no digest since the first telling was stamped and it still lies in the window |
| DigestRuns.ToldOnceExactly | internal/notifications/quarantine_digest.go:39-97 | when stamping never fails a message is told at most once, and told if and only if a round reaches it and it was not lost |
| DigestRuns.GapLosesMessage | internal/notifications/quarantine_digest.go:54-72 | counterexample: a message that arrives while a digest is being sent is in none |
| SenderLists.FirstAddressRuleDecides | internal/mail/sender_policy.go:135-184 | the address query answers block, allow or nothing by which visible rules match, whatever the row order |
| SenderLists.FirstAddressRuleIsFirst | internal/mail/sender_policy.go:155-180 | the answering row matches and no matching row precedes it |
| SenderLists.FirstIpRuleDecides | internal/mail/sender_policy.go:109-133 | the address-of-client query blocks exactly when a visible block rule matches |
| Text.UniqueLowerMembers | internal/senderlists/senderlists.go:659-674 | every non-empty normal form once and nothing else |
| Text.UniqueLowerFixes | internal/senderlists/senderlists.go:659-674 | distinct values in normal form are left as they are |
| Text.UniqueLowerStrings | internal/senderlists/senderlists.go:659-674 | the loop with the seen map computes that list |
| SenderLists.LookupAddresses | internal/mail/sender_policy.go:186-200 | the addresses of all header values in normal form, each once |
| SenderLists.SenderRules.LookupWithIp | internal/mail/sender_policy.go:80-107 | the lookup loop refines the declarative match: block when any visible block rule matches, otherwise allow when any visible allow rule does |
| SenderLists.SenderRules.UpsertDecision | internal/senderlists/senderlists.go:163-219 | when a decision is accepted, and that it replaces exactly the row with its key |
| SenderLists.SenderRules.UpsertUserDecision | internal/senderlists/senderlists.go:119-161 | the same for a recipient's own decision |
| SenderLists.ReplaceIsLastWrite | internal/senderlists/senderlists.go:163-219 | one row per key, the last one written; rows with other keys are untouched |
| SenderLists.InterleavedRows | internal/senderlists/senderlists.go:208-217 | however the deletes and inserts of any number of writers interleave, the rows with a key are those inserted since its last delete |
| SenderLists.KeysUniqueExactly | internal/senderlists/senderlists.go:208-217 | after any interleaving the keys are unique if and only if at most one insert of each key stands since its last delete |
| SenderLists.InTurnKeepsUnique | internal/senderlists/senderlists.go:208-217 | writers that follow each other keep the keys unique |
| SenderLists.OverlapLeavesTwoRows | internal/senderlists/senderlists.go:208-217 | counterexample: two overlapping decisions leave two rows with one key |
| SenderLists.DecisionTakesEffect | internal/mail/sender_policy.go:80-184 | a block blocks at once; an allow allows at once if and only if nothing else blocks |
| CandidateDomains.SuffixesAreExact | internal/senderlists/senderlists.go:636-657 | the enumeration lists exactly the label suffixes down to the root |
| CandidateDomains.SuffixesShrink | internal/senderlists/senderlists.go:636-657 | it starts with the domain and is strictly most-specific-first |
| CandidateDomains.WalkToRoot | internal/senderlists/senderlists.go:645-656 | the loop ends and computes the enumeration |
| CandidateDomains.CandidatesOf | internal/senderlists/senderlists.go:636-657 | after the trim of dots and spaces, candidates are precisely the label suffixes from the domain down to its registrable root, most specific first, without duplicates; none when the domain is invalid |
| CandidateDomains.PatternsForAddress | internal/senderlists/senderlists.go:623-634 | from the raw value: the address and the spellings of its candidate domains, without duplicates; only the address when its domain is invalid |
| CandidateDomains.WildcardMatchesExactly | internal/senderlists/senderlists.go:623-690 | a wildcard rule for a valid domain matches an address, even one spelled like a wildcard, if and only if the domain is one of its candidates |
| ThreatCache.NormalizeAgainExactly | internal/threatfeed/threatfeed.go:208-214 | normalizing twice is harmless except, exactly, for a domain that still ends in a dot or a space |
| ThreatCache.SpellingsShareAKey | internal/threatfeed/threatfeed.go:208-219 | a domain with or without its final dot, in any letter case, has one key |
| ThreatCache.DecodeUndoesEncode | internal/threatfeed/threatfeed.go:221-247 | hit and source survive the cache text |
| ThreatCache.EncodeUndoesDecode | internal/threatfeed/threatfeed.go:221-247 | a cache text that is understood is the text of what it is understood as |
| ThreatCache.RunKeepsSound | internal/threatfeed/threatfeed.go:159-247 | in every interleaving of lookups each cache entry is backed by a finished lookup of its key |
| ThreatCache.CachedHitIsBacked | internal/threatfeed/threatfeed.go:159-206 | a cached hit was answered by an enabled feed of that kind for the same normalized value, with no earlier hit, within six hours |
| ThreatCache.CachedMissIsBacked | internal/threatfeed/threatfeed.go:159-206 | a cached miss ends a lookup within fifteen minutes in which every feed of that kind was disabled, failed or found nothing |
| ThreatCache.WarmedUntilExpiry | internal/threatfeed/threatfeed.go:192-206 | a result stored while no other lookup of the key is in flight is found in every run of lookups whose cache reads answer until it expires, and not afterwards |
| ThreatCache.StoredIsFoundExactly | internal/threatfeed/threatfeed.go:159-206 | a stored result is found under every spelling with the same normalized value, in every run of overlapping lookups whose cache reads answer until it expires, if and only if every lookup of the key in flight must end with the same result |
| ThreatCache.OverlapHidesHit | internal/threatfeed/threatfeed.go:159-206 | counterexample: of two overlapping lookups the one whose feed failed replaces the hit of the other with a miss |
| ThreatCache.VerdictIsFirstHit | internal/threatfeed/threatfeed.go:168-190 | the answer is that of the first enabled feed of the kind with a hit; failing feeds count for nothing |
| ThreatCache.Registry.Lookup | internal/threatfeed/threatfeed.go:159-190 | result and new cache for every combination of cache, configuration and feed answers |
| ThreatCache.Registry.Warm | internal/threatfeed/threatfeed.go:202-206 | after warming an unknown value the decision path sees the feeds' verdict until it expires |
| ThreatCache.LookupIsRun | internal/threatfeed/threatfeed.go:159-190 | the method's effect is that of its steps, so the run theorems apply to it |
| SandboxUrls.PriorityIsVeto | internal/mail/ingest.go:1831-1859 | the score is positive if and only if there is no asset, pixel or opt-out sign |
| SandboxUrls.FirstsMembers | internal/mail/ingest.go:1790-1806 | the candidates are exactly the first occurrences of each normalized URL |
| SandboxUrls.RankedIsTopThree | internal/mail/ingest.go:1807-1829 | at most three actionable candidates, by score and then input order, and whatever is left out loses against all three |
| SandboxUrls.TopThreeIsUnique | internal/mail/ingest.go:1807-1829 | those conditions determine the list |
| SandboxUrls.RankedAreDistinctPages | internal/mail/ingest.go:1784-1829 | no two chosen URLs have one normalized form, and none is chosen only when every first occurrence is vetoed |
| SandboxUrls.KeepActionable | internal/mail/ingest.go:1813-1818 | the filter that reuses the slice it reads keeps exactly the actionable candidates in order and leaves the rest of the storage alone |
| SandboxUrls.CollectFirsts | internal/mail/ingest.go:1788-1806 | the loop with the seen map collects the first occurrences |
| SandboxUrls.PrioritizedSandboxUrls | internal/mail/ingest.go:1784-1829 | returns the ranked list, never more than three |
| Unsubscribe.ReadRenders | internal/mailbox/mailbox.go:1132-1154 | every header is taken apart into bracketed items and a rest without losing a character |
| Unsubscribe.RenderReads | internal/mailbox/mailbox.go:1132-1154 | there is no other way to take it apart |
| Unsubscribe.ListUnsubscribeCandidates | internal/mailbox/mailbox.go:1132-1164 | the scan ends on every header and returns the bracketed targets, or the comma-separated parts when there are none |
| Unsubscribe.PrintThenParse | internal/mailbox/mailbox.go:1132-1164 | parsing undoes printing for every list of printable targets |
| Unsubscribe.PrintThenParseExactly | internal/mailbox/mailbox.go:1132-1164 | parsing undoes printing if and only if every target is non-empty, trimmed and free of closing brackets |
| Unsubscribe.ReprintIsStableExactly | internal/mailbox/mailbox.go:1132-1164 | for every header, reprinting what was read reads the same if and only if no target contains a closing bracket |
| Unsubscribe.ReprintIsStable | internal/mailbox/mailbox.go:1132-1164 | reprinting what was read from a header with a bracketed target reads the same |
| Unsubscribe.StrayBracketIsLost | internal/mailbox/mailbox.go:1157-1163 | counterexample: a bare target with a closing bracket is read back as another one |
| Unsubscribe.PrintBareThenParse | internal/mailbox/mailbox.go:1157-1163 | parsing undoes printing for plain comma-separated lists as well |
| Unsubscribe.FirstOffersAreAll | internal/mailbox/mailbox.go:885-900 | the URLs offered are exactly those of the accepted candidates |
| Unsubscribe.OptionsAreComplete | internal/mailbox/mailbox.go:885-900 | at most three options with distinct URLs, and fewer only when the header has no more |
| Unsubscribe.ParseUnsubscribeInfo | internal/mailbox/mailbox.go:885-907 | the first three distinct accepted targets, or nothing when there is none |
| Fingerprints.SubjectFingerprint | internal/classifier/classifier.go:191-207 | the loop computes the fingerprint the lemmas are about |
| Fingerprints.FingerprintIsStable | internal/classifier/classifier.go:191-207 | a fingerprint is its own fingerprint |
| Fingerprints.SameFingerprintExactly | internal/classifier/classifier.go:191-207 | two subjects share a fingerprint if and only if their first eight long tokens agree |
| Fingerprints.NormalizeCampaignText | internal/mail/campaign.go:106-134 | the nested loops with the character limit compute the normal form |
| Fingerprints.DigitsAndCaseDoNotMatter | internal/mail/campaign.go:106-134 | texts that differ only in letter case and in which digits they have get one normal form, at every limit |
| Fingerprints.UrlsDoNotMatter | internal/mail/campaign.go:106-134 | so do texts that differ in where their URLs lead |

## Left out

- User releases, deletions and verdicts on single quarantine entries (`internal/quarantine/quarantine.go:163-195`, `432-477`): the user path checks and then acts without a guard, so it can race with a deep-analysis release; nothing is claimed about both at once.
- The held entries of a mail log are numbered in the order of the release query (received time, then recipient). A log held for analysis has one recipient (`internal/mail/ingest.go:551-555`), so a threat report adds an entry exactly when none is held, and at the end of that order.
- What a threat report writes besides that entry: tags, reasons and the classes of entries. Verdict texts are taken in their trimmed, lower-case form.
- Phrase lists, brand and homoglyph tables, symbol name lists and score extraction: each detector is an arbitrary fixed answer for the event; the order of the symbol map is an input.
- Reason texts: one constructor per text, so that the prefix tests on texts become tests on constructors.
- The symbol that a cached threat hit adds to the event: later detectors see the same answers with and without it.
- Public-suffix, mail-address and URL parsing, and the sanitizer of unsubscribe targets: arbitrary functions; a registrable root is assumed to be a label suffix of its domain.
- Trimming and lower-casing of rule values and of the addresses in the learning table: those models start from values in their normal form.
- Non-ASCII letter case: `Lower` folds ASCII only; in the campaign text the letters and digits beyond ASCII are arbitrary.
- The hashes of cache keys and campaign fingerprints: taken to be injective; the model compares what is hashed.
- Per-client-address counters, alert times and day boundaries of campaigns; database errors in the middle of an ingest.
- Concurrent learning: each statement sequence of `Learn` runs as one step.
- Row times of the organizations table: `serial` numbers the rows in creation order. That a parent with children cannot be deleted is the foreign key of `internal/migrations/sql/00001_init.sql:12`; that two entries never share a campaign is the unique index of `internal/migrations/sql/00034_mail_campaigns.sql:51-53`.
- The loops over all users of the digest runs, e-mail rendering, SMTP, HTTP handlers, settings and reports.
- DeepAnalysisStore.MailLogHold.ReconcileDeepAnalysis: one call without interference from other callbacks; interference is covered by the run theorems on its steps.
- ChallengeDigest.DigestRateBound: for calls that follow each other and read the row afresh; overlapping senders are covered by `DueRowsAreSpaced` and `ClaimKeepsSpacingExactly`.
- DigestRuns.LostExactly: for a message that stays held or tagged, and for the rounds of one user one after the other; "told" means counted in the total, since the list itself stops at 50.
- ThreatCache.CachedHitIsBacked: six hours are counted from the store; the bound from the answer adds `lag`, the time a lookup takes between its answer and its store.
- Unsubscribe.ListUnsubscribeCandidates: the two index searches of a round are a method of their own, on slices instead of offsets.
- SandboxUrls.PrioritizedSandboxUrls: the stable sort of the standard library is an insertion sort with the same comparison.
