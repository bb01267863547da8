# FantAppero: verified model of the decision, billing and account rules

A Dafny model of the parts of the platform that decide who plays, who has paid, who is logged in,
how often an assistant may be asked, and whether an offline corpus or a pilot may be accepted.
`dafny verify dfyconfig.toml` checks the whole project.

## What is modelled

- **Lineups** (`Lineup*.dfy`, `Sequences.dfy`). The deterministic formula that scores a roster, fills the slots of a
  formation, and orders the bench so that its first places honour a quota per role. `LineupModel` states it as
  functions; `LineupMethods` has the loops, each proved equal to its function. The results are about the functions:
  the bench and the starters are optimal (an exchange argument with one separating price for all roles), nobody is
  lost, the input order does not matter, late lineup sheets do not matter.
- **Billing** (`Billing*.dfy`). A store of payments and entitlement rows that methods change in place, including
  the read that downgrades an expired plan. Over whole runs: time used plus time left is time paid for, and the
  stored rows refine a fold over first deliveries. `BillingWorkers` interleaves any number of workers at lookup,
  insert, extend, commit and abort, and any number of status reads that look and write back, with rows that become
  visible at commit; `BillingSerial` compares such runs with the serial service.
- **Accounts** (`Auth*.dfy`). Users, refresh sessions and one-time tokens under the ten kinds of request. A domain error
  keeps what was written before it; a broken unique index rolls the request back. Runs start
  from any tables that keep the invariant: a fresh platform, and databases with accounts deleted in the days when
  deletion left the Google identifier in place.
- **Limiters and advice** (`RateLimit.dfy`, `Advice.dfy`, `FeatureStore.dfy`). A fixed-window counter under
  interleaved increments and expiries, a sliding daily quota whose limit comes from the billing store, a cache
  with a lifetime, and the features an explanation is based on.
- **Offline corpus** (`Dataset*.dfy`). The writer and its independent checker over a directory of paths.
- **Pilot gate** (`Pilot*.dfy`). The evaluation of a register of indicators into GO or NO-GO.

Each component has a file that says what its answers mean to a user, with prices, days, quotas, thresholds, keys and
names written out and without the terms of the model: `LineupMeaning`, `BillingMeaning`, `RateRelease`, `AuthLogin`,
`AuthJourneys`, `AdviceMeaning`, `FeatureMeaning`, `DatasetMeaning`, `DatasetDamage` and `PilotMeaning`.

Numbers that the original holds as floating point are `real`. Clocks, generated tokens, settings, provider payloads,
the digest function and the secret patterns are parameters. Database identifiers of users are row positions, and
athlete identifiers are numbers ordered as their fixed-width texts are.

## Where the code and its description differ

- The bench rule says that an injured athlete, or one without a fixture, stays out of the active places unless the
  quota needs him. The code gives an excluded athlete a score of zero and then sorts everyone alike, so he can pass an
  eligible athlete whose score is zero or less. `PlanBreaksExcludedRule` is a roster where this happens,
  `PlanExcludedRuleExactly` says when a plan keeps the rule, `ExcludedRuleExactly` when a pool keeps it whatever the
  quota, and `PositiveScoresSuffice` that positive scores are enough.
- The gate converts the number of active leagues to an integer. Where that row is missing its value is not a number
  and the conversion raises, so the outcome is a crash and not a reported NO-GO. `DeletionCrashesExactly` tells
  which deletions do this, and `RegisterCrash` is such a register.
- A fixed window lets through more than its limit around the end of a window: `2 * limit - 1` at most, and
  `WindowBoundIsReached` shows that this many do get through.
- The manifest says that media keys are removed. Match files keep that promise; the teams file writes the keys `logo`
  and `image` back with an empty value (`TeamsFileIsCleanExactly`).
- A payload whose own fixture identifier is text such as `"12"` is written without complaint and then refused by the
  checker; `AcceptedExactly` has this as one of its conditions and `TextIdentifierIsRefused` is the instance.
- An event is idempotent, but two different events of one user handled at once can lose an extension
  (`LostExtension`) or, for a first-time payer, a payment (`LostFirstPayment`).
- The downgrade on reading is called safe, yet it writes without a lock what an earlier look decided: a status read
  around an activation can erase the time just paid for, with a single event (`LostToRead`, `LostAtExpiry`).
  `InterleavedIsSerial` says which runs with reads are serial, `ConcurrentIsSerial` covers runs in which none writes.

## Model

| member | source | states |
|---|---|---|
| LineupMethods.ScoreCandidate | backend/src/fantasy_lineups/ai_selection.py:121-139 | the score and the signals it came from, the local fallback appearing only when there is no other |
| LineupMethods.ScoreAll | backend/src/fantasy_lineups/ai_selection.py:234-257 | every candidate in order, with its exclusion reason and zero, or its score and sources |
| LineupMethods.FillTarget | backend/src/fantasy_lineups/ai_selection.py:263-275 | the walk that stops early and skips taken athletes takes the next of the role, up to its target |
| LineupMethods.FillTargets | backend/src/fantasy_lineups/ai_selection.py:262-278 | target after target yields the starters and the slots that could not be filled |
| LineupMethods.GroupByRole | backend/src/fantasy_lineups/ai_selection.py:180-184 | each group holds its role ranked by the sort key |
| LineupMethods.ReserveQuota | backend/src/fantasy_lineups/ai_selection.py:198-203 | the reserved heads, role after role, and exactly their identifiers as used |
| LineupMethods.FillPlaces | backend/src/fantasy_lineups/ai_selection.py:205-208 | the active bench: reserved heads and then the best of everyone else, up to the size |
| LineupMethods.CollectTail | backend/src/fantasy_lineups/ai_selection.py:210-215 | everyone unused, in blocks by role |
| LineupMethods.ActiveBenchOrder | backend/src/fantasy_lineups/ai_selection.py:147-216 | the loops compute the bench order whose properties follow, for default and given quotas and for an empty pool |
| LineupMethods.BuildLineupPlan | backend/src/fantasy_lineups/ai_selection.py:219-328 | the loops compute the plan whose properties follow, negative bench caps included |
| LineupBench.ActiveBenchIsBest | backend/src/fantasy_lineups/ai_selection.py:186-208 | of all teams with as many heads that meet every role's quota, none scores more than the active bench |
| LineupBench.ActiveBenchMeetsQuota | backend/src/fantasy_lineups/ai_selection.py:186-208 | the active bench is itself one of those teams |
| LineupBench.ActiveLength | backend/src/fantasy_lineups/ai_selection.py:196-208 | with room for the reserved heads, exactly the lesser of the size and the pool are active |
| LineupBench.ActiveByRole | backend/src/fantasy_lineups/ai_selection.py:198-208 | reserved and filled places of a role are consecutive stretches from the head of its ranked list |
| LineupBench.BenchByRole | backend/src/fantasy_lineups/ai_selection.py:180-216 | reading one role off the whole bench gives exactly that role's ranked list |
| LineupBench.BenchIsPermutation | backend/src/fantasy_lineups/ai_selection.py:147-216 | the order loses nobody and repeats nobody, for any quota and size |
| LineupBench.QuotaGuaranteed | backend/src/fantasy_lineups/ai_selection.py:154-163 | the first places hold each role's quota, or the whole role when it is short |
| LineupBench.DefaultQuotaGuaranteed | backend/src/fantasy_lineups/rules.py:40-46 | with the default quota the first ten places hold one goalkeeper and three of each other role, or all there are |
| LineupBench.ExcludedRuleForOneBench | backend/src/fantasy_lineups/ai_selection.py:156-160 | for one quota and size, excluded athletes enter only when needed exactly when neither a role's ranked list at its reserved places nor that of the rest at the filled places is cut between an excluded athlete and a later eligible one |
| LineupPlans.PlanExcludedRuleExactly | backend/src/fantasy_lineups/ai_selection.py:280-294 | the same for the bench of a whole plan, with the cuts that the default quota and the ten places make |
| LineupBench.ExcludedRuleExactly | backend/src/fantasy_lineups/ai_selection.py:156-160 | the rule holds for every quota and size at once exactly when every eligible athlete sorts before every excluded one |
| LineupBench.ExcludedRuleBreaks | backend/src/fantasy_lineups/ai_selection.py:142-144 | a smallest pool where an injured athlete takes the one place before an eligible one |
| LineupExample.PlanBreaksExcludedRule | backend/src/fantasy_lineups/ai_selection.py:294-294 | a roster whose plan, with the default quota and size, has an injured athlete first on the bench and an eligible one of his role eleventh |
| LineupBench.PositiveScoresSuffice | backend/src/fantasy_lineups/ai_selection.py:156-160 | strictly positive eligible scores are enough for the rule |
| LineupPlans.StartersByRole | backend/src/fantasy_lineups/ai_selection.py:262-275 | the starters of a role are the first of its eligible athletes, as many as all its slots together allow |
| LineupPlans.SlotsAccountedFor | backend/src/fantasy_lineups/ai_selection.py:276-278 | starters plus reported gaps are the slots of the formation |
| LineupPlans.CompleteExactly | backend/src/fantasy_lineups/ai_selection.py:97-99 | a plan for eleven slots is complete exactly when each role has enough eligible athletes |
| LineupPlans.StartersAreBest | backend/src/fantasy_lineups/ai_selection.py:262-278 | no choice of as many eligible athletes within the slots of each role scores more than the starters |
| LineupPlans.RosterIsPartitioned | backend/src/fantasy_lineups/ai_selection.py:280-294 | without a cap, starters and bench together hold each athlete of the roster exactly once |
| LineupPlans.LogAccountsForAll | backend/src/fantasy_lineups/ai_selection.py:298-312 | under any cap the log follows the roster, starters carry no reason, whoever is left out carries one, and "not selected" means exactly eligible and left out |
| LineupPlans.ExcludedNeverStart | backend/src/fantasy_lineups/ai_selection.py:102-118 | an injured athlete, or one without a fixture, never starts |
| LineupPlans.PlanBenchExcludesWell | backend/src/fantasy_lineups/ai_selection.py:280-294 | in a whole plan with positive eligible scores, excluded athletes reach the active bench only when needed |
| LineupIndependence.OrderIsIrrelevant | backend/src/fantasy_lineups/ai_selection.py:7-9 | permuting the roster permutes the log and leaves the rest of the plan identical |
| LineupIndependence.NotAStarterIsSilence | backend/src/fantasy_lineups/ai_selection.py:126-129 | replacing "not a starter" by no signal changes neither starters, bench nor gaps |
| LineupIndependence.LateSheetsAreIgnored | backend/src/fantasy_lineups/ai_selection.py:331-352 | sheets that differ only where late, undated, or about locked athletes lead to the same plan, because the admission rule turns each of them into no signal |
| LineupMeaning.StarterSignalAddsTwo | backend/src/fantasy_lineups/ai_selection.py:126-129 | in a plan's log a sheet that names a fit athlete a starter is worth exactly 2.0 more than no sheet |
| LineupMeaning.RefusalAddsNothing | backend/src/fantasy_lineups/ai_selection.py:126-129 | a sheet that does not name him is worth nothing |
| LineupMeaning.FormCounts | backend/src/fantasy_lineups/ai_selection.py:131-133 | recent form counts point for point against none |
| LineupMeaning.MoreFormCounts | backend/src/fantasy_lineups/ai_selection.py:131-133 | raising recent form raises the logged score by as much |
| LineupMeaning.NoSignalScoresNothing | backend/src/fantasy_lineups/ai_selection.py:234-257 | without signals, or unfit, an athlete scores 0.0 |
| LineupMeaning.LogNamesSignals | backend/src/fantasy_lineups/ai_selection.py:121-139 | the log names exactly the signals there are, and the local fallback only in their absence |
| LineupMeaning.ReasonsMean | backend/src/fantasy_lineups/ai_selection.py:102-118 | the log names athlete and role, and an unfit one's reason, the injury before the missing fixture |
| LineupMeaning.PreferredStarts | backend/src/fantasy_lineups/ai_selection.py:142-144 | of two fit athletes of a role the one with more worth, or as much and more appearances, or as many and the smaller identifier, starts if the other does |
| LineupMeaning.BetterFormStarts | backend/src/fantasy_lineups/ai_selection.py:259-275 | with equal official signals, more recent form is never left out for less |
| LineupMeaning.BenchByPreference | backend/src/fantasy_lineups/ai_selection.py:180-184 | on the bench the athletes of a role stand in that order of preference, the unfit worth nothing |
| LineupMeaning.BenchLayout | backend/src/fantasy_lineups/ai_selection.py:198-216 | the bench is one goalkeeper, three defenders, three midfielders, three forwards or all there are, then the preferred of the rest up to ten places, then everyone else in the same four blocks |
| LineupMeaning.CapKeepsFirst | backend/src/fantasy_lineups/ai_selection.py:295-296 | a cap keeps so many first places, a negative one drops so many last |
| LineupMeaning.StartersInOrder | backend/src/fantasy_lineups/ai_selection.py:262-275 | the starters stand role by role as the formation lists the roles, and within a role in order of preference |
| LineupMeaning.GapsMean | backend/src/fantasy_lineups/ai_selection.py:276-278 | a role is reported missing as often as its slots outnumber its fit athletes |
| LineupMeaning.CompleteMeans | backend/src/fantasy_lineups/ai_selection.py:97-99 | a plan for eleven slots is complete exactly when no role has more slots than fit athletes |
| LineupMeaning.FallbackMeans | backend/src/fantasy_lineups/ai_selection.py:314-318 | a plan says it used the fallback exactly when some starter has neither a sheet nor form |
| LineupMeaning.PlanIsSigned | backend/src/fantasy_lineups/ai_selection.py:320-328 | the plan carries the version of its formula and the instant asked for |
| LineupMeaning.SheetMeans | backend/src/fantasy_lineups/ai_selection.py:331-352 | a sheet counts as it reads exactly when it is there, dated, not later than the decision, and about an athlete not yet locked |
| BillingModel.BillingStore.GetStatus | backend/src/billing/entitlement_service.py:33-47 | the status, and the downgrade it writes |
| BillingModel.BillingStore.ActivateProUntil | backend/src/billing/entitlement_service.py:49-58 | creates or overwrites the one row of the user |
| BillingModel.BillingStore.ProcessPaymentEvent | backend/src/billing/webhook_service.py:35-85 | the recorded or replayed payment, or the failure, and both tables afterwards |
| BillingRuns.RunRecords | backend/src/billing/webhook_service.py:47-57 | the recorded identifiers are exactly those of valid deliveries |
| BillingRuns.FirstDeliveryIsStored | backend/src/billing/webhook_service.py:47-68 | the row of an event carries its first valid delivery's user, plan and price, whatever later deliveries of the same event say |
| BillingRuns.StoredIsFirstDelivery | backend/src/billing/webhook_service.py:47-68 | each row of the table is some event's first valid delivery |
| BillingRuns.EventPays | backend/src/billing/webhook_service.py:59-68 | the time the table says a user paid for grows by a first delivery's duration and by nothing else |
| BillingRuns.CreatedIsFirst | backend/src/billing/webhook_service.py:47-85 | the service reports a new payment exactly for first valid deliveries |
| BillingRuns.LazyFormIsTheFold | backend/src/billing/entitlement_service.py:36-47 | the stored rows with their lazy downgrade show at every later instant what a pure fold over first deliveries shows |
| BillingRuns.ReadsAndReplaysAreInvisible | backend/src/billing/webhook_service.py:42-46 | erasing all reads, replays and refused deliveries from a run changes no later status and no payment |
| BillingRuns.PaidTimeIsConserved | backend/src/billing/webhook_service.py:79-83 | PRO time used plus PRO time left equals the time the recorded payments pay for, over every run in time order |
| BillingRuns.EventAdds | backend/src/billing/webhook_service.py:79-83 | a first delivery adds exactly its plan's duration to what is left, and no other event adds or removes anything |
| BillingRuns.TimePasses | backend/src/billing/entitlement_service.py:39-45 | between events, used time grows by what the time left shrinks |
| BillingMeaning.DeliveryBuysDays | backend/src/billing/webhook_service.py:24-27 | in every run a first valid delivery adds 30 days for 399 cents or 270 days for 2999 cents to what its user has left, and stores that price |
| BillingMeaning.FirstPaymentMeans | backend/src/billing/webhook_service.py:79-85 | a payment by a user on FREE makes every status before its literal end PRO with a hundred requests a day, and every later one FREE with twenty |
| BillingMeaning.RenewalMeans | backend/src/billing/webhook_service.py:82-83 | a payment by a PRO user moves the end of his window by its days |
| BillingMeaning.RefusalsMean | backend/src/billing/webhook_service.py:47-77 | a repeated event, an unknown plan and an unknown user are answered as such and change nothing |
| BillingMeaning.OthersUnaffected | backend/src/billing/entitlement_service.py:33-58 | a payment or a read changes nobody else's status |
| BillingMeaning.ReadMeans | backend/src/billing/entitlement_service.py:36-47 | a PRO row reads as PRO until its end and is written back as FREE from it on |
| BillingWorkers.EveryRunConsistent | backend/src/billing/webhook_service.py:47-85 | the invariant of the interleaved workers holds in every reachable state |
| BillingWorkers.ExactlyOnce | backend/src/billing/webhook_service.py:59-85 | under every interleaving and from any tables, an event recorded since the start is activated once and its row is one worker's request, any other is not activated, and every worker that answers returns the recorded row |
| BillingWorkers.RowsAreForever | backend/src/billing/models.py:51-53 | a recorded row is never replaced or lost |
| BillingWorkers.FailuresAreEarned | backend/src/billing/webhook_service.py:55-85 | unless a transaction is aborted, a worker fails only on an unknown plan or user, or when another event of its user is activated meanwhile |
| BillingWorkers.DoneMeansActivated | backend/src/billing/webhook_service.py:47-85 | once all workers are done without aborts, each acceptable new event is recorded and activated exactly once, or another event of its user was activated |
| BillingSerial.DoneMeansActivatedOnce | backend/src/billing/webhook_service.py:47-85 | with one event per user the second case does not arise |
| BillingSerial.ConcurrentIsSerial | backend/src/billing/webhook_service.py:79-83 | with one event per user, delivered any number of times, and as long as no status read writes, payments and entitlements of every interleaving are those of the serial service after the same activations in commit order |
| BillingSerial.InterleavedIsSerial | backend/src/billing/router.py:35-46 | with status reads in between, payments and every status from then on are the serial service's, if each write-back finds its user still FREE at the instant it looked and no worker about to send that user an expiry alone |
| BillingSerial.WriteBackIsHarmlessExactly | backend/src/billing/entitlement_service.py:39-44 | a write-back changes nobody's later status exactly when its user is FREE anyway |
| BillingSerial.FreeUntilPaid | backend/src/billing/entitlement_service.py:39-45 | what a read found FREE is so until an activation of the user is committed, so a write-back before one finds its user still FREE |
| BillingSerial.LostToRead | backend/src/billing/entitlement_service.py:42-44 | one event and one read: the read sees the expired window, the payment is activated, the read writes FREE, and the month paid for is gone |
| BillingSerial.LostAtExpiry | backend/src/billing/entitlement_service.py:54-57 | the same loss when the read falls between the payment's look and its write, since a plan that was PRO is not sent again |
| BillingSerial.CommitIsSerialExactly | backend/src/billing/webhook_service.py:79-83 | a commit changes the tables as the serial service would exactly when the expiry it worked out is still the one called for and the columns it sends still make the row PRO |
| BillingSerial.LostExtension | backend/src/billing/entitlement_service.py:54-57 | two events of one user at once: both recorded and activated, for the time of one |
| BillingSerial.LostFirstPayment | backend/src/billing/entitlement_service.py:51-53 | two first events of one user at once: the second worker is refused and its payment is not recorded |
| BillingSerial.AloneIsSerial | backend/src/billing/webhook_service.py:47-85 | a worker that runs alone answers as the serial service does and leaves the same payments and entitlements |
| AuthModel.Resolve | backend/src/auth/service.py:451-470 | a token resolves only to an unused, unexpired row that carries it, of its type, whose account is live; with unshared tokens it resolves whenever there is such a row |
| AuthServices.AccountStore.RegisterAccount | backend/src/auth/service.py:68-114 | tables and answer after a registration, known addresses included |
| AuthServices.AccountStore.LogIn | backend/src/auth/service.py:116-155 | tables and answer after a login, in the order the checks are made |
| AuthServices.AccountStore.LogInWithGoogle | backend/src/auth/service.py:157-226 | tables and answer after a Google login, with the partial writes a refusal keeps |
| AuthServices.AccountStore.LinkOrCreateAccount | backend/src/auth/service.py:189-214 | linking verifies the account found by address, and otherwise a verified account without a password is made |
| AuthServices.AccountStore.RefreshSession | backend/src/auth/service.py:257-276 | tables and answer after a refresh |
| AuthServices.AccountStore.LogOut | backend/src/auth/service.py:278-285 | the session of the token is revoked and an unknown token is accepted |
| AuthServices.AccountStore.ConfirmEmail | backend/src/auth/service.py:287-302 | verification uses up the token, and its rivals too when it verifies |
| AuthServices.AccountStore.Resend | backend/src/auth/service.py:304-325 | a new verification token for an unverified account, and nothing otherwise |
| AuthServices.AccountStore.Forgot | backend/src/auth/service.py:327-350 | a new reset token for a live account, and nothing otherwise |
| AuthServices.AccountStore.SetNewPassword | backend/src/auth/service.py:352-366 | the password replaced, sessions revoked, reset tokens used up |
| AuthServices.AccountStore.AddSession | backend/src/auth/service.py:374-395 | a session row with its expiry, or a rollback when the token is taken |
| AuthServices.AccountStore.IssueToken | backend/src/auth/service.py:397-434 | earlier tokens of the type used up and one new row, or a rollback |
| AuthServices.AccountStore.InvalidateActiveTokens | backend/src/auth/service.py:472-490 | the loop uses up each unused token of the user and type |
| AuthServices.AccountStore.RevokeAllSessions | backend/src/auth/service.py:492-501 | the loop revokes each session of the user and no other |
| AuthServices.AccountStore.InvalidateAllTokens | backend/src/auth/privacy_service.py:237-246 | the loop uses up the user's tokens of every type |
| AuthServices.AccountStore.AnonymizeAndDelete | backend/src/auth/privacy_service.py:81-105 | the account scrubbed and closed, or a refusal for a closed one |
| AuthServices.AccountStore.Serve | backend/src/auth/router.py:99-106 | any request, dispatched, changes the tables and answers as one step of the runs below |
| AuthInvariant.RequestKeeps | backend/src/auth/service.py:68-366 | each request, refused or not, keeps the account invariant |
| AuthInvariant.EveryStateConsistent | backend/src/auth/dependencies.py:51-61 | from tables that keep the invariant every run keeps it: unrevoked sessions belong to live, verified, human accounts, addresses and Google identifiers are unshared, a held identifier means a verified account or one deleted before identifiers were freed, each account keeps a credential, and a user has one unused token of a type at most |
| AuthInvariant.InitialIsConsistent | backend/alembic/versions/a1c4e8f2b6d3_google_sign_in.py:25-31 | a fresh platform keeps the invariant |
| AuthInvariant.DeleteKeeps | backend/src/auth/privacy_service.py:193-208 | anonymising keeps the invariant |
| AuthInvariant.GoogleKeeps | backend/src/auth/service.py:182-226 | a Google login keeps the invariant, including when it frees the identifier of a deleted account and then refuses |
| AuthInvariant.GoogleFreesStaleHolder | backend/src/auth/service.py:183-188 | unless stopped before the lookup or rolled back, such a login leaves the deleted account without the identifier, whether it then succeeds or refuses |
| AuthInvariant.NoNewStaleHolder | backend/src/auth/privacy_service.py:196-202 | no request makes a deleted account hold a Google identifier that did not hold one before |
| AuthInvariant.HeldMeansVerified | backend/src/auth/service.py:197-208 | from a start where no deleted account holds an identifier, a held one always means a verified live account |
| AuthInvariant.NoIntegrityFailure | backend/src/auth/service.py:94-112 | with plain addresses and fresh tokens no request trips a unique index |
| AuthInvariant.RunsNeverClash | backend/alembic/versions/a1c4e8f2b6d3_google_sign_in.py:25-31 | over whole runs too, so that uniqueness and the credential rule are kept by the code and never by the indexes |
| AuthRotation.RefreshPreservesCounts | backend/src/auth/service.py:257-276 | a refresh, refused or not, leaves each user's count of unrevoked sessions as it was |
| AuthRotation.SessionsNeverOutnumberLogins | backend/src/auth/service.py:374-395 | a user has no more unrevoked sessions than successful logins since the last reset or deletion |
| AuthRotation.OneSuccessor | backend/src/auth/service.py:259-274 | a refresh token that worked never works again, so that a session has one successor at most |
| AuthRotation.MassRevocationIsFinal | backend/src/auth/service.py:352-366 | after a reset or deletion no earlier refresh token of the user ever works |
| AuthRotation.MassRevocationClears | backend/src/auth/privacy_service.py:226-235 | a reset or deletion leaves the user no unrevoked session |
| AuthRotation.RunFollows | backend/src/auth/service.py:492-501 | along a run sessions are only added and revoked: none is removed, re-owned or revived |
| AuthRotation.ResetTokensWorkOnce | backend/src/auth/service.py:358-362 | a reset uses up all reset tokens the account had, and none of them works later |
| AuthLogin.LoginSucceedsExactly | backend/src/auth/service.py:125-152 | a login issues a session to a user exactly when address and password are his, he is a live verified person, not banned, not throttled, on the guest list in test mode, and the token is new |
| AuthLogin.LoginChanges | backend/src/auth/service.py:374-383 | it then adds one session for the configured time, and otherwise changes nothing |
| AuthLogin.LoginDoors | backend/src/auth/service.py:125-134 | bans and throttling are met before the password is looked at |
| AuthLogin.LoginRefusals | backend/src/auth/service.py:139-151 | invalid credentials, an unverified address and a missing invitation are told apart exactly by whose password was given |
| AuthLogin.LoginTakesLastPassword | backend/src/auth/service.py:139-145 | over whole runs a login works exactly with the password last set by the user's registration or latest successful reset, and welcome otherwise |
| AuthLogin.ResetReplacesPassword | backend/src/auth/service.py:352-355 | after a reset, until the next, the new password works whenever the user is welcome and no other does |
| AuthJourneys.RegisterRefusals | backend/src/auth/service.py:76-92 | closed registration, bans and throttling, in that order, change nothing |
| AuthJourneys.RegisterCreates | backend/src/auth/service.py:102-112 | a new address gets an unverified account with that password and a token for the configured time |
| AuthJourneys.RegisteringRegisters | backend/src/auth/service.py:102-112 | a registration of an unknown address leaves an unverified account, its password and its one token, the state the verification rows start from |
| AuthJourneys.RegisterAgain | backend/src/auth/service.py:94-100 | a known address gets the same answer, and a new token only while unverified |
| AuthJourneys.ResendMeans | backend/src/auth/service.py:321-325 | the same on asking again, and nothing for an unknown address |
| AuthJourneys.VerifyMeans | backend/src/auth/service.py:287-302 | a usable token verifies its account and is used up, with its rivals |
| AuthJourneys.VerifyRefuses | backend/src/auth/service.py:463-469 | without a usable token nothing changes |
| AuthJourneys.UnverifiedCannotLogIn | backend/src/auth/service.py:147-149 | before verifying, the right password is told to verify and a wrong one is refused |
| AuthJourneys.VerifiedLogsIn | backend/src/auth/service.py:294-302 | registering, verifying in time and logging in works with the registered password and no other |
| AuthJourneys.LateVerificationFails | backend/src/auth/service.py:465-466 | from its expiry on the token verifies nothing |
| AuthJourneys.RefreshExactly | backend/src/auth/service.py:259-276 | a refresh works exactly for an unrevoked, unexpired session of a live, unbanned, invited person |
| AuthJourneys.RefreshChanges | backend/src/auth/service.py:273-276 | it revokes that session and adds one for the configured time |
| AuthJourneys.RefreshRefusals | backend/src/auth/service.py:262-271 | a dead session is refused as invalid and a ban as a ban, and nothing changes |
| AuthJourneys.SessionLifetime | backend/src/auth/service.py:264-265 | a session refreshes before the time configured when it was issued has passed, and not from then on |
| AuthJourneys.LogoutMeans | backend/src/auth/service.py:278-285 | logging out revokes the session of the token and no other, and the token refreshes no more |
| AuthJourneys.ForgotMeans | backend/src/auth/service.py:344-350 | a live account gets a reset token for the configured time, any other address nothing |
| AuthJourneys.ResetMeans | backend/src/auth/service.py:354-363 | a usable token replaces the password, revokes the sessions and uses up the reset tokens of its account |
| AuthJourneys.ResetRefuses | backend/src/auth/service.py:463-469 | without one nothing changes |
| AuthJourneys.ForgottenPasswordIsReplaced | backend/src/auth/service.py:327-366 | forgetting, resetting in time and logging in works with the new password; from the expiry on nothing happens |
| AuthJourneys.DeleteMeans | backend/src/auth/privacy_service.py:193-246 | deleting anonymises and closes the account, logs it out everywhere and uses up all its tokens |
| AuthJourneys.DeleteRefuses | backend/src/auth/privacy_service.py:82-86 | an account is deleted once |
| AuthJourneys.DeletedIsGone | backend/src/auth/privacy_service.py:196-202 | its address is free again and no password opens it |
| AuthJourneys.GoogleRefusals | backend/src/auth/service.py:165-180 | throttling, an unproved or unverified identity and bans, in that order, change nothing |
| AuthJourneys.GoogleKnown | backend/src/auth/service.py:182-226 | the holder of the identifier is let in, unless an artificial player or uninvited |
| AuthJourneys.GoogleLinks | backend/src/auth/service.py:190-200 | an unheld identifier is linked to the live account of its address, which becomes verified |
| AuthJourneys.GoogleCreates | backend/src/auth/service.py:201-214 | otherwise it makes a verified account without a password, and none for the uninvited |
| AuthJourneys.GoogleComesBack | backend/src/auth/service.py:182-182 | whoever came with Google comes back to the same account, under whatever address |
| RateLimit.AuthRateLimiter.Check | backend/src/auth/rate_limit.py:21-33 | the decision and the counter after one call, and that an unreachable store lets it pass uncounted |
| RateLimit.LifetimeBound | backend/src/auth/rate_limit.py:24-28 | under every interleaving at most the limit passes in one lifetime of the key |
| RateLimit.WindowBound | backend/src/auth/rate_limit.py:24-28 | under every interleaving in time order at most twice the limit less one passes in any interval of one window |
| RateLimit.WindowBoundIsReached | backend/src/auth/rate_limit.py:24-28 | for every limit and every window of two instants or more a schedule reaches that bound |
| RateRelease.CheckIsItsSteps | backend/src/auth/rate_limit.py:24-28 | a whole check leaves the counter, and lets through what, its increment and expiry steps do |
| RateRelease.SerialIsFixedWindow | backend/src/auth/rate_limit.py:24-26 | over every serial schedule the stored key is the current fixed window: its start, its calls, its end |
| RateRelease.CallPassesExactly | backend/src/auth/rate_limit.py:24-28 | a call passes exactly when the calls of its window, itself included, are within the limit |
| RateRelease.LimiterLetsGo | backend/src/auth/rate_limit.py:24-26 | a call a whole window or more after the one that opened the current lifetime passes |
| RateRelease.LimiterHolds | backend/src/auth/rate_limit.py:27-28 | before that it passes exactly while fewer than the limit have come |
| Advice.AdviceDesk.CheckDailyQuota | backend/src/ai_assistant/quota_service.py:23-39 | the answer is whether fewer than the limit of the user's rows are at most a day old |
| Advice.AdviceDesk.FindCachedInteraction | backend/src/ai_assistant/audit_service.py:17-43 | the scan returns the newest matching row of the last five minutes |
| Advice.AdviceDesk.GetExplanation | backend/src/ai_assistant/analista_service.py:43-125 | quota, cache hit or a recorded new row, and the stores afterwards |
| Advice.CachedIsNewest | backend/src/ai_assistant/audit_service.py:28-43 | in whatever order the rows lie, what the cache returns matches, is fresh and is the newest, and it returns something whenever something is fresh |
| Advice.AnalystRowsAreSpaced | backend/src/ai_assistant/analista_service.py:45-62 | two analyst rows of one user about one athlete are more than the cache time apart |
| Advice.QuotaHolds | backend/src/ai_assistant/quota_service.py:30-39 | if a user's limit never exceeds a bound, no closed day ever holds more rows than the bound |
| Advice.DailyQuota | backend/src/billing/entitlement_service.py:18-19 | no user has more than one hundred rows in any closed 24 hours |
| Advice.FreeDailyQuota | backend/src/ai_assistant/router.py:48-50 | a user with no recorded payment has twenty at most |
| AdviceMeaning.RefusedExactly | backend/src/ai_assistant/quota_service.py:30-39 | a user is refused exactly when his rows of the last 24 hours reach a hundred on PRO and twenty otherwise, cached or not |
| AdviceMeaning.CachedExactly | backend/src/ai_assistant/analista_service.py:43-69 | within his allowance he gets the newest explanation of the last five minutes exactly when there is one, and else a new one or none for an unknown athlete |
| AdviceMeaning.ExplainRecords | backend/src/ai_assistant/analista_service.py:99-114 | a row is added exactly when an explanation was worked out |
| AdviceMeaning.SuggestRecords | backend/src/ai_assistant/audit_service.py:50-76 | other advice is recorded exactly within the allowance |
| FeatureStore.LaterFixturesAreIgnored | backend/src/ai_assistant/feature_store.py:85-102 | ratings, average and minutes depend only on which rows kicked off before the instant, not on later rows nor on the order of the table, for any fixed way of settling equal kickoffs |
| FeatureStore.RecentAreTheLatest | backend/src/ai_assistant/feature_store.py:88-95 | rows used are eligible, past and the athlete's, and whichever such row is left out kicked off no later than any used |
| FeatureMeaning.UsedRows | backend/src/ai_assistant/feature_store.py:85-96 | the rows used are as many eligible past ratings of the athlete as there are, up to the lookback, latest first |
| FeatureMeaning.RatingsShown | backend/src/ai_assistant/feature_store.py:97-99 | each rating is the displayed one, or the raw one where none is displayed |
| FeatureMeaning.AveragesMean | backend/src/ai_assistant/feature_store.py:100-102 | the averages times the number of values are their totals, minutes counting only where known, and there is none of nothing |
| DatasetMinimize.MinimizeCleans | backend/scripts/acquire_sports_dataset.py:81-97 | no dropped key is left at any depth |
| DatasetMinimize.MinimizeKeepsClean | backend/scripts/acquire_sports_dataset.py:93-97 | a payload comes back unchanged exactly when it had no dropped key |
| DatasetMinimize.MinimizeIsIdempotent | backend/scripts/acquire_sports_dataset.py:81-97 | minimising twice is minimising once |
| DatasetMinimize.MediaAndCredentialsGo | backend/scripts/acquire_sports_dataset.py:82-92 | none of the nine media and credential keys occurs at any depth |
| DatasetMinimize.TheRestStays | backend/scripts/acquire_sports_dataset.py:93-97 | every other key stays with its value minimised, and arrays keep their items in order |
| DatasetMinimize.MatchFilesAreClean | backend/scripts/acquire_sports_dataset.py:215-240 | match files written from minimised payloads hold no dropped key at any depth |
| DatasetMinimize.TeamsFileIsCleanExactly | backend/scripts/acquire_sports_dataset.py:319-338 | the teams file does so only when it lists no team |
| DatasetProofs.FirstRequestWins | backend/scripts/acquire_sports_dataset.py:431-455 | a match is filed under the league that first asked for it, whatever its payloads say |
| DatasetProofs.UnrequestedUsesPayload | backend/scripts/acquire_sports_dataset.py:454-454 | a match nobody asked for is filed under the league its payload names |
| DatasetMeaning.MatchFilesHold | backend/scripts/acquire_sports_dataset.py:215-236 | at the end the fixture part, events, lineups and players of each match are in the files of those names, each in an envelope that names its endpoint, fixture and number of results |
| DatasetMeaning.LeaguesFileHolds | backend/scripts/acquire_sports_dataset.py:290-301 | the leagues file, when refreshed, holds the leagues given |
| DatasetMeaning.TeamsFileHolds | backend/scripts/acquire_sports_dataset.py:319-342 | the teams file holds number, name and code of each team listed, in order |
| DatasetMeaning.TeamsListed | backend/scripts/acquire_sports_dataset.py:312-319 | each team seen is listed once, in order of first sight, as last seen |
| DatasetMeaning.ManifestSays | backend/scripts/acquire_sports_dataset.py:487-532 | the manifest lists the matches by league and fixture, splits the nine rare cases by whether a match shows them, and carries every record |
| DatasetMeaning.FixtureLineSays | backend/scripts/acquire_sports_dataset.py:244-257 | a match's line gives its league, number, cases and the paths of its four files |
| DatasetMeaning.EveryFileIsRecorded | backend/scripts/acquire_sports_dataset.py:238-240 | every file written before the ledgers has a record with its endpoint and fixture |
| DatasetMeaning.RecordedOnce | backend/scripts/acquire_sports_dataset.py:238-240 | no file is recorded twice when the fixtures are distinct |
| DatasetMeaning.EveryRecordHasALine | backend/scripts/acquire_sports_dataset.py:555-557 | every record and the manifest have their checksum lines |
| DatasetMeaning.LinesInOrder | backend/scripts/acquire_sports_dataset.py:555-557 | the checksum file has one line for each record, in the order of their paths, and the manifest's at the end |
| DatasetProofs.FinalMatchFiles | backend/scripts/acquire_sports_dataset.py:226-241 | at the end each of the four files of each match holds its own envelope |
| DatasetProofs.FinalRecords | backend/scripts/acquire_sports_dataset.py:234-240 | each recorded digest is that of the final content at its path, the replaced teams file included |
| DatasetProofs.FinalLinesTrue | backend/scripts/acquire_sports_dataset.py:555-557 | each checksum line parses back to a path and the digest of what that path finally holds |
| DatasetProofs.NoOrphansLeft | backend/scripts/acquire_sports_dataset.py:541-553 | whatever the directory held before, each match directory left is in the manifest |
| DatasetProofs.ManifestFixtures | backend/scripts/acquire_sports_dataset.py:530-530 | the sorted manifest lists exactly the matches written |
| DatasetProofs.AcquiredIsAccepted | backend/scripts/validate_sports_dataset.py:75-208 | over any earlier directory, what the writer leaves the checker accepts, given twenty distinct fixtures that cover the leagues and name themselves, and no secret-like JSON written or surviving; what is pruned or overwritten may hold anything |
| DatasetProofs.AcceptedExactly | backend/scripts/validate_sports_dataset.py:75-208 | over any earlier directory, a run on distinct fixtures is accepted exactly when there are twenty, all five leagues occur, each payload names its own fixture, and no JSON written or surviving is secret-like |
| DatasetProofs.FinalSecretsExactly | backend/scripts/validate_sports_dataset.py:180-189 | the scan passes exactly when nothing the run writes, and nothing that survives its pruning and overwriting, is secret-like |
| DatasetProofs.SurvivorsStay | backend/scripts/acquire_sports_dataset.py:541-557 | a path the run neither writes nor prunes holds at the end what it held before |
| DatasetSamples.TextIdentifierIsRefused | backend/scripts/validate_sports_dataset.py:130-133 | a corpus of twenty matches that is accepted, and the same with one identifier given as text, which is written and refused |
| DatasetDamage.AcceptsExactlyTheSound | backend/scripts/validate_sports_dataset.py:75-208 | the checker accepts exactly the corpora with twenty fixtures, five leagues, nine rare cases accounted for, four sound files a match, no unlisted match directory, true digests and nothing secret-like |
| DatasetDamage.AcceptedDigests | backend/scripts/validate_sports_dataset.py:162-173 | in an accepted corpus a recorded file has its recorded digest and that of the last checksum line about it |
| DatasetDamage.TamperingIsRefused | backend/scripts/validate_sports_dataset.py:168-171 | replacing a recorded file by content of another digest takes acceptance away |
| DatasetDamage.ForgedManifestIsRefused | backend/scripts/validate_sports_dataset.py:175-178 | so does a manifest whose digest is not that of its line |
| DatasetDamage.DeletionIsRefused | backend/scripts/validate_sports_dataset.py:118-167 | so does deleting a ledger, a match file or a recorded file |
| DatasetDamage.OrphanIsRefused | backend/scripts/validate_sports_dataset.py:139-151 | so does a file in a match directory the manifest does not list |
| DatasetDamage.SecretIsRefused | backend/scripts/validate_sports_dataset.py:180-189 | so does a secret-like JSON file |
| DatasetText.DecimalReadsBack | backend/scripts/acquire_sports_dataset.py:550-550 | a number written as a directory name reads back as that number |
| DatasetText.PosixReadsBack | backend/scripts/acquire_sports_dataset.py:237-237 | a path written with slashes splits back into its parts |
| DatasetText.ChecksumLineReadsBack | backend/scripts/validate_sports_dataset.py:155-160 | a written checksum line parses back to its digest and its path |
| DatasetText.LinesApart | backend/scripts/validate_sports_dataset.py:155-159 | blank lines and comments are skipped, and a line of one word cannot be read |
| DatasetMethods.ChunkedJoins | backend/scripts/acquire_sports_dataset.py:149-150 | batches joined again are the list |
| DatasetMethods.ChunkedSizes | backend/scripts/acquire_sports_dataset.py:149-150 | no batch is empty or above the size |
| DatasetMethods.ChunkedFull | backend/scripts/acquire_sports_dataset.py:149-150 | every batch but the last is full |
| DatasetMethods.CorpusDirectory.DumpJson | backend/scripts/acquire_sports_dataset.py:100-104 | the path holds the content, other paths are untouched, and the digest is that of the content |
| DatasetMethods.CorpusDirectory.WriteFile | backend/scripts/acquire_sports_dataset.py:234-240 | one file written and one record with its digest |
| DatasetMethods.CorpusDirectory.SplitAndWrite | backend/scripts/acquire_sports_dataset.py:206-265 | the loop writes and records the four files of a match in order |
| DatasetMethods.CorpusDirectory.RefreshReference | backend/scripts/acquire_sports_dataset.py:290-306 | the leagues file written and recorded, and an unrecorded placeholder for teams only if there was none |
| DatasetMethods.CorpusDirectory.WriteTeamsReference | backend/scripts/acquire_sports_dataset.py:309-352 | each team once, in order of first sight and with its last entry, and one record of the file |
| DatasetMethods.CorpusDirectory.SettleLeagues | backend/scripts/acquire_sports_dataset.py:439-455 | the league each fixture is filed under once all payloads have arrived |
| DatasetMethods.CorpusDirectory.RemoveOrphans | backend/scripts/acquire_sports_dataset.py:541-553 | the loop removes exactly the match directories outside this run |
| DatasetMethods.CorpusDirectory.Acquire | backend/scripts/acquire_sports_dataset.py:408-557 | the directory a whole run leaves |
| DatasetMethods.CorpusDirectory.CheckMatches | backend/scripts/validate_sports_dataset.py:111-137 | no error exactly when every required file is there, is an envelope of its endpoint and is about its fixture |
| DatasetMethods.CorpusDirectory.CheckEntries | backend/scripts/validate_sports_dataset.py:162-173 | no error exactly when each listed file is there and agrees with both digests |
| DatasetMethods.CorpusDirectory.ReadChecksums | backend/scripts/validate_sports_dataset.py:154-160 | the loop reads the map of digests, the last line of a path winning |
| DatasetMethods.CorpusDirectory.Validate | backend/scripts/validate_sports_dataset.py:75-208 | two exactly without a manifest or checksums, and zero exactly when the corpus is acceptable |
| PilotGate.FindOne | infra/scripts/verify_beta_pilot_gate.py:299-320 | the one matching row, or an empty row and one more error |
| PilotGate.Require | infra/scripts/verify_beta_pilot_gate.py:330-332 | the error list only grows, by one fault naming the check exactly when it fails, and stays empty exactly when it was and the check holds |
| PilotGate.CheckLeague | infra/scripts/verify_beta_pilot_gate.py:349-360 | no error exactly when each per-league indicator is there once and in range |
| PilotGate.EvaluateSyntheticGate | infra/scripts/verify_beta_pilot_gate.py:335-431 | GO exactly when every consulted row is there once and in range and the totals agree, and a crash exactly when the league count is not a number |
| PilotGate.DeletionIsNotGo | infra/scripts/verify_beta_pilot_gate.py:442-453 | deleting any row the gate consulted takes a GO away, for every register |
| PilotGate.DuplicationIsNotGo | infra/scripts/verify_beta_pilot_gate.py:314-319 | so does repeating one anywhere |
| PilotGate.DeletionCrashesExactly | infra/scripts/verify_beta_pilot_gate.py:344-346 | such a deletion raises exactly when the row is the count of active leagues |
| PilotExample.RegisterIsGo | infra/scripts/verify_beta_pilot_gate.py:335-431 | a register of three leagues, each indicator at the edge of its range, that is judged GO |
| PilotExample.RegisterCrash | infra/scripts/verify_beta_pilot_gate.py:323-346 | the evaluation of that register raises without its first row, and is finite but no longer GO without its second |
| PilotGate.GoMeansPilotSize | infra/scripts/verify_beta_pilot_gate.py:338-365 | GO means three to five leagues, none named as the aggregate, and 18 to 60 participants that equal the sum of the leagues |
| PilotMeaning.GoRestsOnEvidence | infra/scripts/verify_beta_pilot_gate.py:335-431 | GO exactly on the literal evidence: each of the two opening, four per-league and sixteen closing indicators there once and in its range, the number of leagues and the participants in agreement |

## Left out

- Floating point: scores, ratings and indicators are exact, so rounding and not-a-number scores are not covered; an indicator that cannot be read as a number is.
- Lineup inputs: athlete identifiers in one roster are distinct and slots are not negative, as the callers provide; a repeated role in a formation is covered.
- `compute_best_lineup_respecting_locks` and the choice among formations: they live outside the formula.
- Concurrent payments and status reads: conservation of paid time is for serial runs, since the code takes no lock; `BillingSerial` has the runs that lose time and the conditions under which none is lost.
- Concurrent requests on one refresh token: requests run one at a time for the same reason.
- Passwords, digests, signed access tokens and Google's signature check: a hash stands for what it was made from, and a Google identity arrives checked.
- Profiles, avatars, feedback, memberships, audit rows, e-mail and metrics, which requests also write.
- Input validators, and the times of verification, use and revocation, of which only the fact is kept.
- The limiter inside account requests is a flag of the request's surroundings; `RateLimit` covers the counter itself.
- RateLimit.WindowBound: is for calls that reach the store; calls made while it cannot be reached pass uncounted.
- The text of an explanation, and an assistant's features other than the analyst's, beyond the rows they record.
- FeatureStore.LaterFixturesAreIgnored: equal kickoffs are settled in some fixed way per row, since the query leaves them open; a database that settled them by what else is stored is not covered.
- In the athlete's features: role, injury, club and next fixture, which are not limited to the past, and rounding of averages.
- Fetching, retries for missing parts, the search for rare cases and the derivation of their tags: items arrive complete and tagged.
- DatasetMethods.CorpusDirectory.Acquire: the program reads the earlier manifest first, so one that is not JSON makes it raise, and takes a version text over from it; neither is modelled.
- Numbers in payloads are integers: a fixture identifier written `12.0`, which the checker takes for `12`, is not covered.
- JSON text, file encodings, directory entries as such, and the descriptive fields of the manifest; the secret patterns are any predicate on contents.
- DatasetMethods.CorpusDirectory.Validate: malformed input that makes the checker raise counts as not accepted, and error texts are not modelled.
- The check of required files, links and the register's own format that precedes the gate, and the wording and order of its errors.
