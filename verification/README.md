# Verified model of the shared database layer

This project models the parts of the repository where money, quota and conversation state are kept: the
wallet ledger and its charges, the referral state machine, the account wipe, the daily quota protocol and
session rotation, together with the pure algorithms beside them. It proves what they keep over every run.
`dafny verify dfyconfig.toml` checks everything.

## How it is built

- The tables are maps and sequences. The Python functions that update rows in place are methods of, or on, a
  class that holds the tables (`Tables.Connection`, `Registration.PeopleTables`, `Sessions.SessionTables`,
  `Migrations.Database`, `PresetCatalog.TemplateTable`, `MailboxCatalog.LetterCatalog`, `SchemaExport.NameSet`). Each method is proved
  equal to a specification function on the table values, error branches and rollbacks included; the lemmas
  then reason about runs of those functions.
- `Ledger` has one posting as an atomic step. `Interleaving` has it again as PostgreSQL READ COMMITTED
  statements of any number of concurrent transactions, and proves that the second refines the first. `LoneTransaction`
  and `StatementAnswers` say when a transaction goes on, fails or waits.
- `Billing`, `BillingRuns`, `UsageCharges`, `Mislabelled`: grants, fixed reservations, releases and usage charges, and what any
  run of them keeps, replays included. `Registration`: users, memberships and invitation codes. `Referral`,
  `ReferralRuns`, `ReviewRuns`: the referral calls. `Wipe`, `WipeAudit`, `RepeatedWipe`: the account wipe. `Runs` puts them together: one invariant over all tables, kept by every call in any order.
- `PostingAnswers`, `ReferralAnswers`, `MessageCounting`, `WipeEffects`, `QuotaSharing`, `SessionAnswers` and `CarryoverText` say
  what the calls answer and write, row by row and field by field, in terms of the tables alone. They pin down the
  queries the calls share (whose wallet, whose quota, which message, which sibling), so that no result rests on its
  own definition.
- `Quota`, `QuotaRuns`: the reservation protocol. `Sessions`, `SessionRuns`, `Dreaming`, `History`: session rotation,
  closing, carryover, paged history and the batched summary.
- `JsonPatch`, `Migrations`, `SchemaExport`, `Placeholders`, `Charges`, `Shells`, `PresetManifest`, `PresetCatalog`,
  `MailboxCatalog`: one algorithm each. `Text`, `Decimals`, `Arithmetic`, `Filters`, `Wrappers` are shared helpers.

Some properties are false in their plainest form. The model shows where, and proves what does hold:

- *Charging by float division is exact up to some bound.* It is exact up to and including 2^44 micros (not only
  2^43), and already wrong one thousandth above; `Charges.Survives` is the exact condition for every amount.
- *Opening a session returns the requested business day.* It does unless an active session is kept whose stored
  day is another text that cleans to nothing or to the same day (`SessionRuns.OpenReturns`); a day stored with a
  blank in front is such a text (`SessionRuns.KeptDayDiffers`).
- *Grants, reservations and releases never overdraw.* They do when a grant is posted with the source type of a
  fixed reservation: it can then be "released" (`Mislabelled.MislabelledGrantOverdraws`). With honest labels
  the property holds over every run.
- *A wipe keeps balances equal to their rows.* It does exactly when it finds an active sibling, or the account's
  own rows in every wallet that is neither deleted nor preserved sum to nothing
  (`RepeatedWipe.WipeBalancedExactly`). That always holds while the owner resolves. It fails when an account
  beside an active sibling is wiped twice: the first wipe deletes its owner binding, and the second, which does
  not look at the account's status, finds no owner and takes the account's rows out of the sibling's wallet
  (`RepeatedWipe.WipedTwiceBreaksBalance`, a run from empty tables).
- *A mailbox import whose plan has no errors succeeds.* It does exactly when every entry it creates is for a
  template of this product, which the plan does not check: otherwise it rolls back
  (`MailboxCatalog.ForeignTemplateRollsBack`).

Assumptions about callers, each a `requires` of the run-level lemmas: caller keys do not start with a derived
prefix (`release-`, `usage-charge-`, `referral-reward-`); no account moves to another user or app during a run
(`Tables.Settled`); an account is wiped while its owner resolves; time does not go back; newly drawn quota tokens
are new; the scope keys of sessions hold no colon.

## Model

| member | source | states |
|---|---|---|
| `Text.ParsePrint` | app/db/billing.py:1179 | Keys derived from a key are read back as derived from it, and the derived families are disjoint from each other. |
| `Text.CleanDerived` | app/db/_core.py:160-164 | A derived key survives the cleaning that it goes through again when it is posted. |
| `Ledger.FindKey` | app/db/billing.py:936-953 | The key lookup finds a row exactly when the app has one under that key. |
| `Ledger.PostConsistent` | app/db/billing.py:907-1010 | A posting keeps balances, running balances and unique keys; it changes nothing when its key is known, and otherwise appends one row and moves that wallet alone. |
| `Ledger.PostReplay` | app/db/billing.py:936-953 | Posting again under the same key returns the first row and changes nothing. |
| `Ledger.CoveredNeverOverdraws` | app/db/billing.py:1096-1107 | Credits and guarded debits, in any order, never take a balance below zero. |
| `Interleaving.WritesArePosts` | app/db/billing.py:907-1010 | What one transaction commits is what its requests post atomically, one after the other, on the tables at its commit. |
| `Interleaving.EveryInterleavingIsSerial` | app/db/billing.py:907-1010 | In every interleaving of lookups, wallet inserts, locked updates, read-backs, inserts, commits and aborts, the committed tables are those of the committed requests posted atomically in commit order. |
| `Interleaving.EveryInterleavingIsConsistent` | app/db/billing.py:907-1010 | So each committed balance is the sum of its rows, each balance_after the prefix sum in commit order, and each (app, key) occurs at most once. |
| `Interleaving.EveryInterleavingStaysCovered` | app/db/billing.py:1096-1107 | Concurrent credits and guarded debits never overdraw a wallet. |
| `LoneTransaction.LoneTransactionPosts` | app/db/billing.py:907-1010 | A transaction running alone does commit, and exactly the atomic posting. |
| `LoneTransaction.LoneTransactionReplays` | app/db/billing.py:936-953 | Under a key its user has posted before it commits too, and changes nothing. |
| `StatementAnswers.FailuresAreRefusals` | app/db/billing.py:907-1010 | In every interleaving a statement fails only where its posting is refused on the tables its transaction sees, or where the key was taken since its lookup. |
| `StatementAnswers.WaitsForAnother` | app/db/billing.py:848-1010 | A statement that does not go on waits for a row, wallet or key that another unfinished transaction holds. |
| `Tables.SettledOwner` | app/db/accounts.py:1586-1645 | The resolved owner of an account is its home's user, whichever of the three sources it comes from. |
| `Billing.EnsureWalletInConn` | app/db/billing.py:848-888 | Finds the active wallet of (user, app), or inserts one under the table's unique indexes. |
| `Billing.ApplyWalletLedgerInConn` | app/db/billing.py:907-1010 | The statement-by-statement posting ends in the tables of the atomic one, or in its error. |
| `Billing.GrantShells` | app/db/billing.py:1013-1039 | A grant posts a positive credit, or changes nothing. |
| `Billing.ReserveFixedShells` | app/db/billing.py:1042-1139 | A reservation posts a guarded debit; under a known key it returns the row, or refuses a mismatch or a released key. |
| `Billing.ReleaseFixedShellReservation` | app/db/billing.py:1142-1183 | A release posts the opposite of the reservation row it finds. |
| `Billing.RecordCharge` | app/db/billing.py:2203-2372 | A usage charge adds one ledger row and one cost event together, or returns the recorded event, or changes nothing. |
| `PostingAnswers.ScopeAnswers` | app/db/billing.py:769-805 | The scope of a call is the owner and the product of its account, and each refusal says what is missing. |
| `PostingAnswers.WalletAnswers` | app/db/billing.py:848-888 | The wallet is the active one of the user in the product, or a new empty one, refused when its id or the account is taken. |
| `PostingAnswers.PostAnswers` | app/db/billing.py:907-1010 | Exactly how a posting is answered, and the appended row field by field with the one wallet it moves. |
| `PostingAnswers.GrantAnswers` | app/db/billing.py:1013-1039 | A grant is an unguarded credit of the owner, with a positive amount, a source and a key. |
| `PostingAnswers.ReserveAnswers` | app/db/billing.py:1042-1139 | A known reservation key is answered by its row, or refused for another owner, amount, or a release; a new one is a guarded debit. |
| `PostingAnswers.ReserveRefused` | app/db/billing.py:1053-1068 | What is refused before any row is looked at. |
| `PostingAnswers.ReleaseAnswers` | app/db/billing.py:1142-1183 | Only the account and user of a reservation release it, by the opposite amount, naming its row, under the derived key. |
| `PostingAnswers.ReleaseRefused` | app/db/billing.py:1142-1183 | Without such a row there is nothing to release. |
| `PostingAnswers.NothingToCharge` | app/db/billing.py:2203-2250 | When a charge is none, and when it is refused for its key or product; whatever is not charged changes nothing. |
| `PostingAnswers.ChargeReplays` | app/db/billing.py:2252-2291 | A recorded charge gives back its event, or refuses another account or user. |
| `PostingAnswers.NewCharge` | app/db/billing.py:2293-2372 | Exactly when a new charge is written, and its event and row field by field. |
| `PostingAnswers.SourceIsText` | app/db/_core.py:160-164 | A caller's source is stored as its cleaned text, and a text that spells a source the calls look for is that source. |
| `PostingAnswers.CleanIs` | app/db/_core.py:160-164 | Cleaning takes blanks off both ends and nothing else. |
| `BillingRuns.RunKeeps` | app/db/billing.py:1013-1183 | Over every run of grants, reservations, releases and charges, and any change of owners and memberships, the ledger stays consistent, each release undoes a reservation, and cost events and usage rows stay paired. |
| `BillingRuns.ReservationContribution` | app/db/billing.py:1042-1183 | A reservation and its release together contribute -amount while live and exactly 0 after release. |
| `BillingRuns.ReleasedForever` | app/db/billing.py:1081-1088 | After a release, reserving under that key is refused, whatever happens in between. |
| `BillingRuns.NeverOverdrawn` | app/db/billing.py:1042-1183 | In any run of honest grants, reservations and releases no balance drops below zero. |
| `BillingRuns.ReservationLeavesCover` | app/db/billing.py:1096-1107 | A new reservation leaves its wallet's balance non-negative. |
| `BillingRuns.EventHasOneRow` | app/db/billing.py:2300-2372 | Each cost event has exactly one ledger row under its usage key, for minus its computed amount. |
| `BillingRuns.RowHasOneEvent` | app/db/billing.py:2475-2529 | Each usage row, of tokens or images, has exactly one cost event. |
| `BillingRuns.ReplayChangesNothing` | app/db/billing.py:2250-2290 | Once a grant, reservation, release or charge succeeded, repeating it changes no table, at once or after any further run. |
| `Mislabelled.ReleaseCoveredExactly` | app/db/billing.py:1142-1183 | A first release keeps balances non-negative exactly when the row it undoes is no larger than the balance. |
| `Mislabelled.MislabelledGrantOverdraws` | app/db/billing.py:1013-1039 | A concrete grant labelled as a reservation, spent and then released, ends at minus five. |
| `Registration.PeopleTables.RegisterPlatformUserWithReferral` | app/db/billing.py:488-642 | The user, the membership, the code check, the relationship and the use count, all or nothing. |
| `Registration.PeopleTables.SelectCode` | app/db/billing.py:277-302 | Finds the code of a text that is active, unexpired, not used up and, when personal, owned by a member. |
| `Registration.PeopleTables.EnsureMembership` | app/db/product_memberships.py:54-83 | An absent membership is inserted active; an existing one, disabled or not, is left. |
| `Registration.SpendsOnce` | app/db/billing.py:560-618 | A code is spent, once, exactly by a registration that gives it and whose membership is new; a relationship is added exactly when the code has an owner. |
| `Registration.SignUpAnswers` | app/db/billing.py:488-642 | A registration is refused exactly for a product not enabled, a disabled membership, a code that may not be spent, or the applicant's own. |
| `Registration.OnlyGoodCodes` | app/db/billing.py:277-302 | A spent code was active, unexpired, not used up, of the product, and owned by nobody or an active member. |
| `Registration.NewRelationship` | app/db/billing.py:1247-1300 | A new relationship starts uncounted and unreviewed, and is put under soft review exactly when its inviter then has more than five in seven days. |
| `Registration.NeverClashes` | app/db/billing.py:568-593 | With unused ids a registration never meets the unique index on (invitee, app). |
| `Registration.SignUpKeepsGood` | app/db/billing.py:488-642 | A registration keeps the invariant over all billing and referral tables. |
| `Registration.RunKeeps` | app/db/billing.py:603-618 | Over every run use counts are exact, no code passes its limit, and no user is invited twice to a product. |
| `Referral.RegisterReferral` | app/db/billing.py:568-602 | A registration inserts one row per (invitee, app), flagged for soft review when the inviter had more than five in seven days. |
| `Referral.MarkReferralRelationshipBoundInConn` | app/db/billing.py:1545-1597 | Binding moves a registered row to bound, keeping an earlier bound account. |
| `Referral.ApplyReferralRewardInConn` | app/db/billing.py:1647-1725 | Pays once to the inviter's earliest rewardable account, or marks the row blocked, or fails without a trace. |
| `Referral.EnsureSoftReviewHoldInConn` | app/db/billing.py:1303-1380 | The release time is set once, three days after first qualification. |
| `Referral.ReleaseDelayedReferralRewardInConn` | app/db/billing.py:1383-1496 | Only an elapsed hold is released; when the posting fails the review stays passed. |
| `Referral.ProcessReferralMessageForAccount` | app/db/billing.py:1886-2119 | Binds, counts a distinct meaningful message, and from the third on holds or pays; an error undoes all of it. |
| `Referral.ReleaseDueReferralRewards` | app/db/billing.py:1765-1883 | The batch goes on past failed rewards, and commits nothing after a database error. |
| `Referral.RetryQualifiedReferralRewardsForUser` | app/db/billing.py:1728-1762 | Releases what is due, then pays what is passed, stopping at the first error. |
| `ReferralAnswers.RewardableIs` | app/db/billing.py:1615-1636 | A user is rewarded at the account of the earliest active binding to an active account of the product. |
| `ReferralAnswers.RewardAnswers` | app/db/billing.py:1647-1725 | What paying a relationship posts and writes, in each case, and that nothing else changes. |
| `ReferralAnswers.BindAnswers` | app/db/billing.py:1545-1597 | Exactly which relationship a binding touches, and how. |
| `ReferralAnswers.ReleaseAnswers` | app/db/billing.py:1383-1496 | A release acts exactly on a relationship that is due. |
| `ReferralAnswers.SelectIs` | app/db/billing.py:1765-1786 | A batch takes, in its order, exactly the unpaid qualified rows of the product with the wanted review. |
| `ReferralAnswers.BatchTouchesItsOwn` | app/db/billing.py:1788-1800 | A relationship outside the batch is not touched. |
| `ReferralAnswers.BatchLimit` | app/db/billing.py:1765-1786 | How many rows a batch goes through, for any requested limit. |
| `ReferralAnswers.BatchReports` | app/db/billing.py:1788-1803 | A batch reports exactly the ledger rows it has added, in order. |
| `ReferralAnswers.BatchAnswers` | app/db/billing.py:1844-1883 | A batch commits nothing after a database error; otherwise every due relationship of its list has passed, and it reports exactly what it added. |
| `ReferralAnswers.RetryAnswers` | app/db/billing.py:1728-1762 | A failed retry changes nothing; a successful one leaves no passed relationship of the inviter unpaid unless there is nowhere to pay it. |
| `ReferralAnswers.BatchEndsWait` | app/db/billing.py:1788-1800 | Unless a database error stops it, a batch leaves no due relationship of its list pending. |
| `MessageCounting.MessageCounts` | app/db/billing.py:1973-2004 | A message is appended to a relationship's candidates exactly when it is the invitee's own meaningful inbound message, not yet counted, before any reward, and the call succeeds. |
| `MessageCounting.CandidatesAreMeaningful` | app/db/billing.py:1973-2004 | Over every run, each candidate was counted by a call on a meaningful message of an account that spoke as the invitee. |
| `ReferralRuns.RewardKeeps` | app/db/billing.py:1647-1725 | Paying a payable relationship keeps every invariant, and only adds its one reward row. |
| `ReferralRuns.MessageKeeps` | app/db/billing.py:1886-2119 | A message call keeps every invariant and moves relationships only forward. |
| `ReferralRuns.RetryKeeps` | app/db/billing.py:1728-1762 | So does a retry, even when a posting fails midway. |
| `Wipe.WipeAccountData` | app/db/lifecycle.py:97-418 | On the billing, quota and binding tables, the per-wallet and per-account deletes leave exactly the rows the specification keeps, and the reported counts are what was removed. |
| `Wipe.WipeProductTables` | app/db/lifecycle.py:164-328 | Without a sibling, wallets that no referral references are taken apart with their rows, and preserved ones are left whole. |
| `WipeEffects.WalletSurvives` | app/db/lifecycle.py:164-314 | A wallet survives exactly when a sibling shares it, it is of another app, it is neither the owner's nor the account's, or a relationship names one of its rows as its reward. |
| `WipeEffects.RowSurvives` | app/db/lifecycle.py:250-306 | Exactly which ledger rows go. |
| `WipeEffects.CostSurvives` | app/db/lifecycle.py:250-306 | Exactly which cost events go. |
| `WipeEffects.QuotaSurvives` | app/db/lifecycle.py:230-328 | Exactly which reservations and usage counts go. |
| `WipeEffects.DirectoryAfter` | app/db/lifecycle.py:371-384 | The account's bindings go and it is deactivated; relationships and reviews stay. |
| `WipeEffects.SiblingShares` | app/db/lifecycle.py:128-163 | What counts as an active sibling. |
| `WipeEffects.OwnerIs` | app/db/accounts.py:1586-1645 | The owner is that of the runtime ownership, else of the earliest active binding, else of the universe. |
| `WipeAudit.WipeKeepsAudit` | app/db/lifecycle.py:116-328 | Wiping keeps each surviving balance the sum of its surviving rows, each reward id pointing at its row, pairs and reservations whole, and no row naming a deleted wallet. |
| `WipeAudit.SiblingProtects` | app/db/lifecycle.py:129-163 | Beside an active owner-bound or resident sibling no wallet, ledger row, cost event or usage count is touched, only the account's own reservations. |
| `WipeAudit.WipeKeepsOtherLedgers` | app/db/lifecycle.py:164-328 | Ledger rows and cost events of other apps are the same sequence as before. |
| `WipeAudit.WipeStaysInApp` | app/db/lifecycle.py:164-328 | Wallets, usage and reservations of other apps are unchanged, and none is added. |
| `RepeatedWipe.WipeBalancedExactly` | app/db/lifecycle.py:116-328 | For every account, owned or not, a wipe keeps each surviving balance the sum of its surviving rows exactly when a sibling is found or the account's own rows in wallets neither deleted nor preserved sum to zero in each. |
| `RepeatedWipe.WipeRunningExactly` | app/db/lifecycle.py:116-328 | The running balances survive exactly when a sibling is found or, before each surviving row of a wallet that is not preserved, the account's own rows there sum to zero. |
| `RepeatedWipe.WipeConsistentExactly` | app/db/lifecycle.py:116-328 | The two conditions together decide exactly when the whole ledger is still consistent. |
| `RepeatedWipe.OwnedWipeBalanced` | app/db/lifecycle.py:116-328 | That condition always holds while the owner resolves and every row is at home. |
| `RepeatedWipe.WipedTwiceBreaksBalance` | app/db/lifecycle.py:115-123 | From empty tables, two grants and the same account wiped twice end with a balance that no longer adds up. |
| `Runs.EmptyGood` | app/db/migrations/shared.py:57-120 | Freshly created tables satisfy the invariant, so every run from them does. |
| `Runs.ActionKeeps` | app/db/billing.py:1545-2119 | Every call, wipe, clock tick or directory change keeps the invariant over all tables. |
| `Runs.RunKeeps` | app/db/billing.py:1545-2119 | Over every run the invariant holds and each relationship's status, candidates, hold and reward only advance. |
| `Runs.RewardedExactlyOnce` | app/db/billing.py:1647-1725 | Rewarded exactly when the reward id is set, and exactly then one reward row exists for the relationship in the whole ledger. |
| `Runs.CountsDistinctMessages` | app/db/billing.py:1973-2004 | The message count is the number of distinct candidates, and a relationship is qualified or rewarded exactly when they are at least three. |
| `ReviewRuns.ReviewsOverRuns` | app/db/billing.py:1303-1496 | Over every run the review table holds exactly the qualified and rewarded relationships, each with the review its row carries. |
| `Runs.HoldIsKept` | app/db/billing.py:1303-1496 | A soft-reviewed relationship is never rewarded before first qualification plus three days, a time never moved, in any run with failures and wipes. |
| `Runs.PaidForGood` | app/db/billing.py:1647-1725 | A paid relationship stays paid by the same row, which stays in the ledger. |
| `Runs.ElapsedHoldPays` | app/db/billing.py:1383-1496 | An elapsed hold with a payable inviter is paid by the first release, raising that balance by the reward. |
| `Runs.ThirdMessagePays` | app/db/billing.py:1886-2119 | With no hold the third distinct meaningful message pays at once. |
| `Quota.ReserveDailyQuota` | app/db/accounts.py:1898-1972 | Prunes the scope's expired rows, then issues a token or refuses. |
| `Quota.ConfirmDailyQuota` | app/db/accounts.py:1975-2009 | A stored token is removed and counted, once its account still resolves to its scope; any other is ignored. |
| `Quota.RollbackDailyQuota` | app/db/accounts.py:2012-2020 | A stored token is removed and not counted. |
| `Quota.IncrementDailyUsage` | app/db/accounts.py:1821-1868 | Adds one to the count of the account's subject, app and date. |
| `Quota.ReclaimExpiredReservations` | app/db/accounts.py:2023-2041 | Removes the oldest expired rows, as many as the limit allows, and reports how many. |
| `Quota.RefusedExactlyWhenFull` | app/db/accounts.py:1898-1972 | A refusal happens exactly when a positive limit is reached by uses and unexpired reservations. |
| `QuotaSharing.ReserveAnswers` | app/db/accounts.py:1898-1972 | Exactly when a reserve is accepted and refused, and under which subject, product and date its token is stored, by the owner of the account. |
| `QuotaSharing.SharedByOwner` | app/db/accounts.py:1744-1803 | What one account of a user has reserved counts against every other account of that user in the product. |
| `QuotaSharing.KeptApart` | app/db/accounts.py:1744-1803 | Accounts of different subjects or products never notice each other; an ownerless one counts only against itself. |
| `QuotaSharing.ConfirmAdds` | app/db/accounts.py:1975-2009 | A confirmed token adds one use under its own subject, product and date, and touches nothing else. |
| `QuotaSharing.IncrementAdds` | app/db/accounts.py:1821-1868 | A direct increment adds one use under the subject the account pays as. |
| `QuotaSharing.RollbackTakes` | app/db/accounts.py:2012-2020 | A rollback takes the token away and counts nothing; no token is nobody's. |
| `QuotaSharing.ReclaimTakes` | app/db/accounts.py:2023-2041 | A reclaim never takes an unexpired token, and takes every expired one when the limit allows. |
| `QuotaSharing.SharedCap` | app/db/accounts.py:1898-2041 | Over every run with limits in 1..L, the tokens issued through all accounts of a user, stored or confirmed, never exceed L together. |
| `QuotaRuns.RunKeeps` | app/db/accounts.py:1898-2041 | Over every run each issued token is stored or ended exactly once, and each count is the initial one plus confirmed tokens plus direct increments. |
| `QuotaRuns.TokenEndsAtMostOnce` | app/db/accounts.py:1975-2041 | No token is confirmed twice, or confirmed and also rolled back or expired. |
| `QuotaRuns.NeverOverTheCap` | app/db/accounts.py:1898-1972 | With limits in 1..L, uses and stored reservations of a key together never exceed L. |
| `Sessions.SessionTables.GetOrCreateAccountActiveSession` | app/db/billing.py:3528-3681 | Keeps, rotates or creates the session row as specified, or fails on a taken archive key without a trace. |
| `Sessions.SessionTables.GetOrCreateSession` | app/db/billing.py:3443-3510 | The upsert by (account, key) with its COALESCE rules. |
| `Sessions.SessionTables.CloseSession` | app/db/admin.py:798-837 | Closes and re-keys a row, earlier end time and reason winning, later summaries winning. |
| `Sessions.SessionTables.GetLatestClosedCarryover` | app/db/accounts.py:817-859 | The carryover of the closed row of highest id, in the scope when one is given. |
| `SessionAnswers.OpenRotates` | app/db/billing.py:3590-3665 | The closed and the new row of a rotation, field by field. |
| `SessionAnswers.OpenKeepsRow` | app/db/billing.py:3622-3642 | A row that can serve is kept and only given the day it lacks. |
| `SessionAnswers.EnsureAnswers` | app/db/billing.py:3443-3510 | The row the upsert makes or fills in. |
| `SessionAnswers.CloseAnswers` | app/db/admin.py:798-837 | The closed row, field by field, and exactly when closing fails. |
| `CarryoverText.OpenIgnoresOthers` | app/db/billing.py:3596-3621 | Messages of any other session change neither row of a rotation. |
| `CarryoverText.CarryoverWaits` | app/db/billing.py:3697-3737 | Over any run that posts nothing into a session, what it would hand on stays the same. |
| `CarryoverText.CarryoverSays` | app/db/billing.py:3697-3737 | The text is the last eight quotable messages of that session, in order, users marked as such, cut to size. |
| `CarryoverText.RotationHandsOn` | app/db/billing.py:3596-3665 | Where a rotation stores that text. |
| `SessionRuns.OpenKeeps` | app/db/billing.py:3528-3681 | Rotation never meets a taken key, and keeps every invariant. |
| `Dreaming.GetOrCreateWithDreaming` | app/products/zhaoxi/application/memory/session_lifecycle.py:125-186 | The upsert, the close and the second upsert, one transaction after the other, end as specified. |
| `Dreaming.DreamIsRun` | app/products/zhaoxi/application/memory/session_lifecycle.py:125-186 | With any other actions between its transactions the call never fails, keeps every invariant, and is itself a run, so that all results over runs hold of it. |
| `SessionRuns.KeysOverRuns` | app/db/billing.py:3528-3681 | After any run each (account, scope) has at most one row under the active key, and a row under `scope:n` is closed and is row n. |
| `SessionRuns.OpenReturns` | app/db/billing.py:3684-3694 | The returned session is active, under the key, and on the requested day, with the exact exception. |
| `SessionRuns.KeptDayDiffers` | app/db/billing.py:3684-3694 | A stored day with a blank in front is kept and returned. |
| `Dreaming.DreamReturns` | app/products/zhaoxi/application/memory/session_lifecycle.py:125-186 | On its own the call with dreaming returns an active session on the requested day, with the same exact exception. |
| `Dreaming.RotatedReturns` | app/products/zhaoxi/application/memory/session_lifecycle.py:125-186 | Among other calls a rotating one returns a new session on the requested day, or the one others have put under the key since, exactly as they left it. |
| `Dreaming.ReturnsActive` | app/products/zhaoxi/application/memory/session_lifecycle.py:91-122 | While every close archives, the returned session is active whatever runs in between. |
| `SessionRuns.ActionHistory` | app/db/accounts.py:971-1017 | Opening, rotating and closing, in any scope, leave every account's history in every scope exactly the same. |
| `SessionRuns.HistoryOverRuns` | app/db/accounts.py:971-1017 | Over any run a history is what it was plus exactly the messages posted into it, in order. |
| `SessionRuns.CarryoverStays` | app/db/accounts.py:817-859 | No action on another account or scope changes the row a new session is seeded from. |
| `SessionRuns.CarryoverOverRuns` | app/db/accounts.py:817-859 | Nor does any run of such actions. |
| `History.PagesAreTheHistory` | app/db/accounts.py:971-1017 | Following before_id with any page sizes, while any run of posts, rotations and closes goes on between the requests, yields exactly the history at the first request, once, in order. |
| `History.PageSurvivesRun` | app/db/accounts.py:971-1017 | A page before a message already seen is the same after any run, posts included. |
| `History.PageSurvivesRotation` | app/db/accounts.py:971-1017 | Any page at all is the same after sessions are opened, rotated or closed. |
| `History.PageLists` | app/db/accounts.py:971-1017 | What a page lists: messages with text by user or assistant, in the account's own App sessions, before the id; a message left out is older, and only because the page is full. |
| `History.SummarizeAppConversations` | app/db/accounts.py:1020-1096 | For every listed account the batch says what the one-conversation queries say, and nothing for an account without messages. |
| `History.SummarySays` | app/db/accounts.py:1020-1096 | The last message is the newest one listed, and the unread ones are the assistant's past the cursor. |
| `JsonPatch.ApplyPatch` | app/db/_core.py:408-434 | The loop terminates and computes MergePatch of section 2 of RFC 7396, whatever order it takes the keys in. |
| `JsonPatch.MergeMembers` | app/db/_core.py:423-430 | Unmentioned members are kept, nulls remove, the rest are merged. |
| `JsonPatch.MergeIdempotent` | app/db/_core.py:408-434 | Applying a patch twice is applying it once. |
| `JsonPatch.PatchReaches` | app/db/_core.py:408-434 | Some patch takes a to b exactly when b's objects hold no null member that a does not already hold. |
| `JsonPatch.NoNullsReached` | app/db/_core.py:408-434 | A document whose objects hold no nulls is reached from every document by some patch, and the patch is given. |
| `Migrations.Database.RunMigrations` | app/db/_core.py:490-503 | The loop applies the wanted versions of the chain in order, or stops at the first body that fails. |
| `Migrations.Database.Init` | app/db/_core.py:356-369 | Both guards, then the chain; a refused or failed start changes nothing. |
| `Migrations.Database.Through` | app/db/_core.py:372-402 | A controlled migration; a refused or failed one changes nothing. |
| `Migrations.RunKeepsPrefix` | app/db/_core.py:490-503 | Whatever calls are made, the applied versions are a prefix of the chain and only grow. |
| `Migrations.ThroughReaches` | app/db/_core.py:372-402 | Exactly which starts are accepted, and that an accepted one ends with the versions up to its target, each once and in order. |
| `Migrations.MigrateInStages` | app/db/_core.py:372-402 | Migrating to a and then to b equals migrating straight to b, failures included. |
| `Migrations.InitSkipsContracts` | app/db/_core.py:302-322 | An ordinary start on a database with accounts is blocked exactly when a contract version is missing, so it never applies one. |
| `Migrations.InitNeedsOptIn` | app/db/_core.py:338-369 | Without opt-in nothing is ever applied; a start that succeeds ends with the whole chain. |
| `Migrations.InitAnswers` | app/db/_core.py:302-369 | How a start is answered, in terms of the applied versions alone. |
| `SchemaExport.CollectSchemaRefs` | scripts/export_openapi.py:56-66 | Adds to the passed set exactly the schema names referred to anywhere inside the node. |
| `SchemaExport.LastSegment` | scripts/export_openapi.py:61 | A reference names what follows its last slash. |
| `SchemaExport.NeededNames` | scripts/export_openapi.py:80-92 | The loop terminates with exactly the names reachable from the kept paths. |
| `SchemaExport.BuildSnapshot` | scripts/export_openapi.py:69-103 | Every reference in the snapshot that resolved still resolves, and nothing unreachable is kept. |
| `Placeholders.TranslatePlaceholders` | app/db/_backend.py:55-88 | The doubled-quote lookahead gives the output of plain quote toggling. |
| `Placeholders.UnescapeTranslate` | app/db/_backend.py:55-88 | Reading the translation back gives the statement, for every statement. |
| `Placeholders.OnePlaceholderPerMark` | app/db/_backend.py:55-88 | There is one placeholder for each question mark at even quote parity. |
| `Charges.FloatCeilExactly` | app/db/billing.py:2182-2187 | Rounding n/d to 53 bits and then up gives the exact ceiling exactly when a condition on n and d holds. |
| `Charges.ChargeExactly` | app/db/billing.py:2175-2187 | The same for token charges, and no positive charge when there is nothing to charge. |
| `Charges.ChargeIsExact` | app/db/billing.py:2175-2187 | Every charge up to 2^44 micros is exact. |
| `Charges.ChargeFallsShort` | app/db/billing.py:2175-2187 | The smallest charge above 2^44 micros is a whole micro short. |
| `Charges.ExactChargeOrder` | app/db/billing.py:2175-2187 | Exact charges are monotone, and billing two usages together costs as much as billing them apart or one micro less. |
| `UsageCharges.RecordChatUsageCharge` | app/db/billing.py:2203-2372 | The call from token counts on: negative counts count as none, and the computed amount is charged as specified. |
| `UsageCharges.ChatIsChargedExactly` | app/db/billing.py:2203-2372 | Up to 2^44 micros a charged call is debited exactly the ceiling of its billable tokens times the multiplier over 1000, in one new row paired with one new cost event. |
| `UsageCharges.BothSidesAreBilled` | app/db/billing.py:2233-2241 | For input i and output o the debit is the least m with 1000 m >= (i + o) times the multiplier. |
| `UsageCharges.SidesExchange` | app/db/billing.py:2233 | Exchanging the sides changes no debit, and a negative count is billed as none. |
| `Shells.FormatReads` | scripts/grant_shells.py:81-90 | The written text, read back, has the amount's sign and value. |
| `Shells.FormatInjective` | app/db/_core.py:185-192 | The written form is injective on all integers. |
| `Shells.ParseFormat` | scripts/grant_shells.py:93-109 | Reading a written amount gives it rounded to 28 digits; zero and negative amounts are refused. |
| `Shells.RoundTripExactly` | scripts/grant_shells.py:81-109 | The round trip holds exactly when the digits past the 28th are zeros. |
| `Shells.RoundTrip` | scripts/grant_shells.py:81-109 | It holds for every amount below 10^28. |
| `Shells.QuotaSubjectInjective` | app/db/_schema_utils.py:9-15 | Two (user, app) pairs share a quota subject only when they are equal after cleaning. |
| `PresetManifest.ValidateManifest` | scripts/import_companion_world_presets.py:102-160 | A list is accepted exactly when it is long enough, complete, with distinct ids and the ranks 1..N in some order; it is then a manifest of just those records. |
| `PresetManifest.ItemMeans` | scripts/import_companion_world_presets.py:113-136 | What an acceptable template is. |
| `PresetCatalog.InspectImport` | scripts/import_companion_world_presets.py:211-277 | The loop computes the plan. |
| `PresetCatalog.TemplateTable.ImportPresets` | scripts/import_companion_world_presets.py:312-383 | A plan without errors is carried out in full: no insert meets a taken id or rank, and the final check passes. |
| `PresetCatalog.ImportIsManifest` | scripts/import_companion_world_presets.py:312-383 | The active ranked templates are then exactly the manifest with its ranks. |
| `PresetCatalog.ImportConverges` | scripts/import_companion_world_presets.py:211-277 | Planning the same manifest again finds nothing to create, retire, update or refuse. |
| `PresetCatalog.ImportTwice` | scripts/import_companion_world_presets.py:312-383 | Importing a manifest twice is importing it once. |
| `PresetCatalog.PlanMeans` | scripts/import_companion_world_presets.py:211-277 | Exactly which records are created, kept and refused, and which templates are retired. |
| `PresetCatalog.ImportedRow` | scripts/import_companion_world_presets.py:312-383 | Each template of the manifest after an import, field by field. |
| `MailboxCatalog.InspectImport` | scripts/import_companion_world_mailbox_catalog.py:179-242 | The loop computes the plan, with the policy errors. |
| `MailboxCatalog.LetterCatalog.ImportMailboxCatalog` | scripts/import_companion_world_mailbox_catalog.py:245-304 | A plan without errors is carried out in full unless it creates an entry for another product's template, which rolls back. |
| `MailboxCatalog.ForeignTemplateRollsBack` | scripts/import_companion_world_mailbox_catalog.py:279-293 | A plan without errors for another product's template is refused at its insert. |
| `MailboxCatalog.RetiredAreNotPublished` | scripts/import_companion_world_mailbox_catalog.py:230-235 | No retired id is in the manifest. |
| `MailboxCatalog.ImportPublishes` | scripts/import_companion_world_mailbox_catalog.py:245-304 | Every manifest entry is then published as given, and is the one active entry of its character. |
| `MailboxCatalog.ImportConverges` | scripts/import_companion_world_mailbox_catalog.py:179-242 | Planning the same manifest again finds nothing to create, retire or refuse. |
| `MailboxCatalog.CreateMeans` | app/products/mingchan/infrastructure/persistence/companion_world_mailbox.py:93-177 | Exactly when an entry is created, given back, or refused. |
| `MailboxCatalog.PlanMeans` | scripts/import_companion_world_mailbox_catalog.py:179-242 | Exactly which records are created and refused, and which entries are retired. |

## Left out

- SQL text, JSON encoding of metadata, timestamps as text (they are ordered integers here) and id generation (a new id is a parameter; a clash is a database error).
- Subscriptions, admin grants of roles, tokens, OTP, the HTTP layer, schedulers, alerting and the connection pool.
- `_is_meaningful_referral_message`: its verdict is a field of the message; the token estimates are parameters of a charge.
- Wipe.WipeAccountData: does not model the deletes of messages, sessions, profiles, memory and the other non-financial tables.
- Registration.PeopleTables.RegisterPlatformUserWithReferral: does not model the one-time phone token and the display name; phone and code are taken as normalised.
- `unbind_account_channel`, which touches no modelled table.
- Pairs and reward rows after a wipe whose owner no longer resolves: for it the ledger's consistency (exactly) and app isolation are settled. `runtime_ownerships` siblings, which the sibling query does not look at, get no protection in the model either.
- Quota calls at a finer grain than a transaction: `confirm_daily_quota` takes no advisory lock, so the cap is a claim about calls that do not overlap.
- `upsert_channel_binding`, the alias functions and `split_sql_statements`: no property beyond their bodies.
- `grant_operation` and `_validate_existing_ledger` of the grant script: their ledger row is a grant as modelled, the audit row is not part of this model.
- Spellings of Python's Decimal other than an optional sign, digits and one point (exponents, underscores, infinities), and amounts whose size overflows its exponent range.
- JSON parsing and stripping of manifest fields, and the field checks of the mailbox manifest: those models start from stripped fields and validated letters. The manifest signature is not part of this model.
- Migration bodies: each is an arbitrary function on an abstract schema that may fail.
- The rolling-summary seed, sender and chat columns of sessions, and the account and profile upserts beside them.
- Float overflow of the charge division, above 2^1023.
- Referral.ReleaseDueReferralRewards: the order in which the batch selects rows is a parameter; no fairness is claimed.
