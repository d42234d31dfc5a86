# CodeAtlas: a verified model

CodeAtlas meters the generation of GitHub READMEs. This project models, in Dafny, the parts of it that keep state over
long runs or transform unbounded text, and proves what they promise. `dafny verify dfyconfig.toml` checks everything.

| area | files |
|---|---|
| metered generation: quota guard, API start and commit, worker run, refund | `Ledger`, `Metering`, `MeteringSafety`, `MeteringEffects`, `MeteringService`, `QuotaRace` |
| tokens, mail tokens, accounts and sessions | `Tokens`, `MailTokens`, `Accounts`, `AccountSafety`, `AccountEffects`, `AccountService` |
| front-matter agent cards | `CardLoader`, `CardPatterns`, `CardRoundTrip`, `CardLineEndings` |
| the write/review agents and the panel that watches them | `ReadmeAgent`, `PhaseProgress` |
| the browser client's token refresh | `ClientRefresh`, `ClientSafety`, `ClientService` |
| saved resumes and their text cache | `Resumes`, `ResumeSafety`, `ResumeEffects`, `ResumeService` |
| repository paging, name slugs, secrets at rest | `Paging`, `AccountSlug`, `Encryption` |
| shared vocabulary | `Basics` |

## How it is built

Each protocol is a state, a set of events, and a function `Step`; a run is any sequence of events, so a theorem about
`Run` covers every interleaving and every place where a process may stop. Beside a protocol stands a class whose
methods change the tables in place, statement by statement as the source does, and are proved equal to the matching
steps, so that the theorems about runs speak of those methods. The `Effects` modules state the whole new state of
each call in terms of its inputs alone, without those step functions' helpers. Text functions are written as the
source's regular expressions match, and compared with an independent definition (a printer, a single pass over the
characters, a walk over pages).

## Assumptions

- A user's plan does not change during a run; a job is delivered at most once (`attempts: 1`); a save either takes
  effect or is refused without effect; the database clock supplies `createdAt`, so its month may differ from the one
  the quota guard saw.
- SHA-256 and HMAC are injective; a refresh token that carries the service's signature is one the service issued; ids
  of seeded accounts hold no colon; raw mail tokens and object keys are fresh. The clock never goes back.
- Access and refresh lifetimes are the configured defaults, fifteen minutes and seven days; the second is the session's
  own (`LifetimeFitsIff` tells what other values would do).
- AES-256-GCM unseals what it sealed, and a ciphertext is as long as its plaintext.
- The language model is an arbitrary function of the calls so far. Independence of the analysts' order needs analysts
  that do not hear each other and later answers that do not depend on the order of those two calls (`OrderCanShow`).
- Saving an entity whose row was deleted meanwhile inserts it again, as TypeORM documents.

## What the code does not give

Each point names the lemma with a concrete run or an exact condition, or the branch of the model, that shows it.

- The month of a refund is the row's, the month of a reservation is the guard's: over a month boundary a refund credits
  another counter than was charged (`RefundCreditsTheReservedRowIff`) and can leave live rows uncovered
  (`MonthBoundaryUncoversARow`; exactly when: `CounterCoversIff`).
- Overlapping reservations can grant more than the plan although the counter never shows it (`OverlapGrantsPastTheCap`).
  A save does what the atomic ledger would exactly when what it overwrites did not change since it was read, or it is
  an insert lost where the ledger refuses too (`SaveIsAtomicIffCurrent`, `RunIsAtomicIffSavesCurrent`); so the second of
  two first reservations of a month is refused although there is room for it (`FirstReservationsCollide`).
- Overlapping resume creates can pass their limit, by at most their number less one (`OverlapPassesLimitByAtMost`,
  `OverlapReachesTheBound`).
- A row goes from queued straight to failed exactly when the save of its first phase is refused and its failure is then
  saved (`RunningIsSkippedIff`).
- A failed row holds markdown exactly when its job failed because its completing save was refused
  (`FailedRowHoldsMarkdownIff`, `RefusedCompletionKeepsMarkdown`).
- A refresh answered after a sign-out signs the user back in (`LateGrantSignsBackIn`; exactly when: `SignOutLastsIff`).
- A resume removed while its text is being parsed comes back, without its file once that is deleted
  (`LateSaveLeavesADanglingRow`; exactly when: `LateSaveIsSafeIff`).
- A refresh whose update lands behind that of a pair signed in a later second leaves a session that expires before its
  newest token (`OvertakenUpdateHidesASession`; exactly when: `RowsOutlastTokensIff`).
- Two sign-ins of one user within a second share a session number, and the second insert loses to the unique index
  (`SignInHandsOutPairIff`, `SecondSignInOfASecondFails`).
- The empty string cannot be decrypted again (`DecryptUndoesEncryptIff`).

## Model

| member | source | states |
|---|---|---|
| `Ledger.PeriodKeysAgree` | backend/src/workers/shared/generation-runner.base.ts:107-110 | the worker's period key and the quota service's, computed separately, name the same row if and only if the two moments share their UTC year and month |
| `Ledger.ReserveGrantedIffRoomLeft` | backend/src/modules/subscription/services/quota.service.ts:45-78 | a reservation is granted if and only if one more use still fits the plan; granting adds one to the charged column, of a row of zeros if there was none, and leaves the other column alone; it is refused as not included if and only if the plan allows not even one use |
| `MeteringSafety.EveryRunIsValid` | backend/src/workers/shared/generation-runner.base.ts:46-105 | from empty tables, under any plan and after any sequence of steps with workers stopping anywhere: every counter is reservations less refunds and within a positive limit, and every row, worker and queue entry is sound |
| `MeteringSafety.EveryRowIsSound` | backend/database/migrations/1783629598107-AddNarrationSupport.ts:32-38 | in every run, after any number of commits, a row has a repository if and only if it is a repo row, a completed row has provider, model and non-empty markdown, and only completed rows carry a commit SHA |
| `MeteringSafety.CounterCoversNonFailed` | backend/src/modules/subscription/services/quota.service.ts:59-78 | in every valid state the rows of a user, month and kind that have not failed are at most the counter plus the strays of that month; with no strays the counter covers them all and the plan covers the counter |
| `MeteringSafety.CounterCoversIff` | backend/src/modules/subscription/services/quota.service.ts:59-78 | in every valid state the counter covers the rows that have not failed if and only if the strays among the rows alive or refunded are no more than the month's reservations without such a row |
| `MeteringSafety.StrayIffMonthBoundary` | backend/src/modules/subscription/services/quota.service.ts:81-86 | a row is a stray of its month if and only if a month boundary fell between its reservation and its insert |
| `MeteringSafety.SameMonthRunsAreCovered` | backend/src/workers/shared/generation-runner.base.ts:95-110 | when every row is created in the month it was reserved in, there are no strays, so non-failed rows never outnumber the counter |
| `MeteringSafety.MonthBoundaryUncoversARow` | backend/src/workers/shared/generation-runner.base.ts:96-104 | a concrete run over a month boundary after which a live row is no longer covered by its month's counter |
| `MeteringSafety.RefundCreditsTheReservedRowIff` | backend/src/workers/shared/generation-runner.base.ts:96-104 | a refund lowers the very counter its reservation raised if and only if no month boundary fell between them and that counter is above zero, which it is as long as its month has no strays |
| `MeteringSafety.RefundTakesEffectIff` | backend/src/workers/shared/generation-runner.base.ts:101-104 | a refund is recorded and lowers its own month by one if and only if that counter is above zero; otherwise it changes nothing |
| `MeteringSafety.RefundTakesEffect` | backend/src/workers/shared/generation-runner.base.ts:101-104 | a due refund is never swallowed by the greater-than-zero guard when its month has no strays |
| `MeteringSafety.ReserveChargesOneCounter` | backend/src/modules/subscription/services/quota.service.ts:40-79 | a granted reservation raises the one counter of its user, month and kind by one, leaves every other counter alone and stays within the limit |
| `MeteringSafety.RefundCreditsOneCounter` | backend/src/workers/shared/generation-runner.base.ts:96-105 | a refund that takes effect lowers the one counter of its row's user, creation month and kind by one and no other |
| `MeteringSafety.StepAdvancesStatus` | backend/src/workers/shared/generation-runner.base.ts:46-93 | a status moves only from queued to running or failed and from running to completed or failed; a step takes it from queued to failed if and only if it saves the failure of a worker caught while the row was still queued |
| `MeteringSafety.RunningIsSkippedIff` | backend/src/workers/shared/generation-runner.base.ts:53-86 | after any run a step takes a row from queued straight to failed if and only if it saves a failure and the last thing that happened to the job, just loaded, was that its first save was refused |
| `MeteringSafety.StatusOrderHoldsWithoutRefusals` | backend/src/workers/shared/generation-runner.base.ts:53-86 | in any run in which the first saves of a job take effect its row never goes from queued to failed |
| `MeteringSafety.RefusedFirstSaveSkipsRunning` | backend/src/workers/shared/generation-runner.base.ts:53-86 | from every sound state with a job just loaded, a refused first save followed by the failure save takes the row from queued to failed |
| `MeteringSafety.FailedRowHoldsMarkdownIff` | backend/src/workers/shared/generation-runner.base.ts:68-86 | in every run a row that fails is left with markdown if and only if what made its job fail is that its completing save was refused |
| `MeteringSafety.RefusedCompletionKeepsMarkdown` | backend/src/workers/shared/generation-runner.base.ts:68-86 | from every sound state with a job at work, a refused completing save followed by the failure save leaves a failed row with the agent's markdown |
| `MeteringSafety.SettledRowsStaySettled` | backend/src/modules/generations/services/narration.service.ts:87-108 | for the rest of any run a completed row stays completed with its provider and model, whatever is committed, and a failed row does not change at all |
| `MeteringSafety.DeliveredAtMostOnce` | backend/src/modules/generations/factories/profile-generation.factory.ts:13-20 | under the assumption, built into the enqueue step, that a job is enqueued once and not retried (attempts: 1), a job that no queue offers and no worker holds is never handed out again in any run |
| `MeteringService.Backend.Reserve` | backend/src/modules/subscription/services/quota.service.ts:40-79 | the quota guard as code over the table equals the atomic reserve step, and refuses as not included if and only if the plan has no such feature |
| `MeteringService.Backend.Start` | backend/src/modules/generations/services/narration.service.ts:44-67 | inserting the row and enqueuing it equals the start step, for either kind of job |
| `MeteringService.Backend.Advance` | backend/src/workers/shared/generation-runner.base.ts:89-93 | one phase save equals the advance step, whether the save takes effect or is refused |
| `MeteringService.Backend.SavePhases` | backend/src/workers/shared/generation-runner.base.ts:61-63 | the phases of a job, each saved until one save is refused, equal their run of advance steps |
| `MeteringService.PhasesAreSavedInOrder` | backend/src/workers/shared/generation-runner.base.ts:61-63 | the steps of a delivery save each phase the agent reports once and in its order |
| `MeteringService.Backend.Finish` | backend/src/workers/shared/generation-runner.base.ts:64-77 | checking and saving the outcome equals the finish step |
| `MeteringService.Backend.Catch` | backend/src/workers/shared/generation-runner.base.ts:78-86 | recording the failure and then refunding equals those two steps, and a refused failure save skips the refund |
| `MeteringService.Backend.Refund` | backend/src/workers/shared/generation-runner.base.ts:95-105 | giving a reservation back equals the refund step |
| `MeteringService.Backend.Run` | backend/src/workers/shared/generation-runner.base.ts:46-87 | one whole delivery, under any agent and database behaviour, equals the run of its steps |
| `MeteringService.Backend.Commit` | backend/src/modules/generations/services/repo-generation.service.ts:98-130 | a commit goes through if and only if the row is the caller's own, of that kind and completed, has a repository where one is needed, the text is not empty and GitHub gave a SHA; then it changes that row's markdown and commit SHA and nothing else |
| `MeteringService.DeliveredJobSettles` | backend/src/workers/shared/generation-runner.base.ts:46-87 | when every save succeeds, a delivered job ends completed with the agent's markdown and all counters as they were, or failed with the agent's reason and its month's counter lowered by one, unless that is at zero, which it is not while the month has no strays |
| `MeteringEffects.PeriodKeyReads` | backend/src/modules/subscription/services/quota.service.ts:81-86 | the period key is the UTC year, a dash, the month counted from one in two digits, and -01 |
| `MeteringEffects.ReserveProfile` | backend/src/modules/subscription/services/quota.service.ts:45-78 | a profile reservation is granted if and only if the plan has the feature, without limit or with use below a limit of at least one, and raises the profile column alone |
| `MeteringEffects.ReserveRepo` | backend/src/modules/subscription/services/quota.service.ts:45-78 | the same of a repo reservation and the generations column |
| `MeteringEffects.RefundEffect` | backend/src/workers/shared/generation-runner.base.ts:96-105 | the whole state after a refund: the row's own column of its creation month, one lower if above zero |
| `MeteringEffects.StartRecordsTheRequest` | backend/src/modules/generations/services/narration.service.ts:51-66 | a start records one queued row for the request's own user and kind with the resolved model, everything a run fills in still empty, and changes nothing else |
| `MeteringEffects.StartRefuses` | backend/src/modules/generations/services/repo-generation.service.ts:50-75 | without a model, or a repository for a repo run, nothing is recorded |
| `MeteringEffects.QueueEffects` | backend/src/modules/generations/factories/profile-generation.factory.ts:13-20 | enqueuing offers the job once, a delivery takes it off the queue with its row as it is then |
| `MeteringEffects.PhaseEffect` | backend/src/workers/shared/generation-runner.base.ts:89-93 | a saved phase is the row's phase and makes it running; a refused one leaves the row and throws the reason |
| `MeteringEffects.CompletionEffect` | backend/src/workers/shared/generation-runner.base.ts:68-74 | a result is saved whole, with both token counts, status and phase; a refused save leaves the row and throws |
| `MeteringEffects.TryThrows` | backend/src/workers/shared/generation-runner.base.ts:57-66 | without provider or model, with an empty result, or when the agent throws, the worker goes to its catch block with exactly that reason |
| `MeteringEffects.FailureEffect` | backend/src/workers/shared/generation-runner.base.ts:78-86 | a failure is saved with its reason and then refunded; when that save is refused there is no refund |
| `MeteringEffects.OutOfTurnDoesNothing` | backend/src/workers/shared/generation-runner.base.ts:46-87 | a step that is not the next one of its job's worker changes nothing |
| `MeteringEffects.CommitEffect` | backend/src/modules/generations/services/narration.service.ts:87-108 | for any state and call, the exact new state of a commit: the text and SHA on the owner's completed row, or nothing; a profile row needs no repository |
| `QuotaRace.EveryRunIsBounded` | backend/src/modules/subscription/services/quota.service.ts:59-78 | with reserve and refund split into read and save, every stored counter stays between zero and its cap under every interleaving of any number of calls |
| `QuotaRace.EveryDisjointRunRefinesLedger` | backend/src/workers/shared/generation-runner.base.ts:96-105 | a run in which no two read-save windows on one row overlap leaves the rows, and gives the answers, of the atomic ledger run on its calls in the order they take effect |
| `QuotaRace.EveryCallIsAnsweredOnce` | backend/src/modules/subscription/services/quota.service.ts:59-78 | in every run, for every call, the answers recorded and the windows still open number exactly the times it was started: none is lost and none answered twice |
| `QuotaRace.SaveIsAtomicIffCurrent` | backend/src/modules/subscription/services/quota.service.ts:59-78 | a save, of the whole row or of its column, answers and leaves the rows as the atomic ledger would at that moment if and only if what it overwrites is still as it was read, or it is an insert lost to the unique index where the ledger refuses the call too |
| `QuotaRace.RunIsAtomicIffSavesCurrent` | backend/src/modules/subscription/services/quota.service.ts:59-78 | in every run every save acts as the atomic ledger would there if and only if each save is of what was read or is an insert lost where the ledger refuses too; such a run leaves the rows and gives the answers of the ledger |
| `QuotaRace.FirstReservationsCollide` | backend/database/migrations/1710000000000-InitialSchema.ts:157 | the first two reservations of a month, overlapping: one is granted and the insert of the other is refused, which is the ledger's answer if and only if the cap is one |
| `QuotaRace.MeteredRunsKeepTheAtomicLedger` | backend/src/workers/shared/generation-runner.base.ts:95-105 | the counters of every metered run are those of the atomic ledger on the run's own reserve and refund calls, answer for answer |
| `QuotaRace.OverlapGrantsPastTheCap` | backend/src/modules/subscription/services/quota.service.ts:60-78 | a concrete overlap in which two calls are granted under a cap of one |
| `Tokens.DigestIdentifiesSession` | backend/src/modules/identity/services/token.service.ts:103-107 | for colon-free ids and roles, two digests are equal if and only if user, role and session number are |
| `Tokens.MintedPairAcceptedIff` | backend/src/modules/identity/services/token.service.ts:186-240 | any access and refresh token from any two mintings are accepted together if and only if the refresh token is unexpired and both carry the same user, role and session; the identity returned is that one |
| `Tokens.RefreshChainKeepsIdentity` | backend/src/modules/identity/services/token.service.ts:116-145 | in a chain of refreshes of any length every pair carries the user, role and session number the first pair was minted for |
| `Tokens.TokenTypesDoNotMix` | backend/src/modules/identity/services/token.service.ts:151-240 | an access token is refused wherever a refresh token is read and the reverse, beside any other token; each is accepted in its own place for exactly its own lifetime from its own signing, and logout reads the refresh token whatever its age |
| `AccountEffects.PairClaims` | backend/src/modules/identity/services/token.service.ts:103-145 | the claims of both tokens of a pair, each signed with its own secret: user, role, digest, session number, signing second, and expiry fifteen minutes or seven days later |
| `AccountEffects.VerifyAccessIff` | backend/src/modules/identity/services/token.service.ts:151-172 | any token whatever opens a protected route if and only if it is a signed access token, before its exp, whose digest is that of its own user, role and session |
| `AccountEffects.VerifyRefreshPairIff` | backend/src/modules/identity/services/token.service.ts:186-240 | any two tokens whatever are let through to a refresh if and only if the refresh token is signed, alive and sound and the access token carries the same digest, its own signature and age aside |
| `AccountEffects.DecodeRefreshIff` | backend/src/modules/identity/services/token.service.ts:246-262 | logout reads any refresh token with the service's signature, however old, and nothing else |
| `AccountEffects.TokenRefusals` | backend/src/modules/identity/services/token.service.ts:151-233 | which refusal any two tokens get: a wrong access token first, then signature and age, then the type, then the digest |
| `AccountEffects.RefreshGoesOnIff` | backend/src/modules/identity/services/token.service.ts:116-145 | a pair is refreshed to one for its own user, role and session if and only if its refresh token's week is not over, so chains do go on |
| `AccountSafety.MailTokensAreSpentOnce` | backend/src/modules/identity/services/verification.service.ts:55-84 | in every run of the identity services each mail token is redeemed at most once, before its expiry, and while no later token of its user and type had been issued |
| `MailTokens.IssueKeepsValid` | backend/src/modules/identity/services/verification.service.ts:92-117 | issuing keeps the invariant: hashes are unique, a token is used if and only if it was superseded or redeemed, and each redemption was of a live, latest token and happened once |
| `MailTokens.RedeemKeepsValid` | backend/src/modules/identity/services/verification.service.ts:55-84 | redeeming an acceptable token keeps that invariant |
| `MailTokens.IssuedTokenWorksForItsHour` | backend/src/modules/identity/services/verification.service.ts:92-129 | a new token is accepted exactly until its hour is over, its predecessors of the same user and type are refused as used, and every other token is answered as before |
| `MailTokens.RedeemSpendsOneToken` | backend/src/modules/identity/services/verification.service.ts:55-84 | redeeming makes that token refused as used for good and changes the answer for no other |
| `MailTokens.AtMostOneUnused` | backend/src/modules/identity/services/verification.service.ts:93-101 | two unused tokens of the same user and type are the same token |
| `MailTokens.RedeemableIff` | backend/src/modules/identity/services/verification.service.ts:123-129 | a raw token can be redeemed if and only if it was issued for that type, is not past its expiry, was never redeemed, and no later token of its user and type was issued |
| `MailTokens.IssueSupersedes` | backend/src/modules/identity/services/verification.service.ts:92-117 | after issuing, a token is superseded if and only if it was so before or shares the new token's user and type |
| `AccountSafety.EveryRunIsValid` | backend/src/modules/identity/services/auth.service.ts:57-145 | from any seeded accounts and after any sequence of sign-ups, mail redemptions, sign-ins, GitHub sign-ins, refresh reads and writes and logouts: unseeded accounts have role user, sessions belong to verified accounts, and issued tokens carry the stored role |
| `AccountSafety.RefreshableSessionIsListed` | backend/src/modules/identity/services/session.service.ts:78-117 | after any run in which no landing update is overtaken, a refresh token that verifies belongs to a session whose expiry is strictly later than now, which is therefore listed if and only if it is not revoked, and whose user is verified and has the stored role |
| `AccountSafety.RowsOutlastTokensIff` | backend/src/modules/identity/services/session.service.ts:103-116 | along a run, with minting and the update's landing as separate steps, every session outlasts all its refresh tokens at every moment if and only if no update lands after a pair of its session that was signed in a later second |
| `AccountSafety.FitsIffNeverOutlived` | backend/src/modules/identity/services/session.service.ts:46-56 | a row expires no earlier than a token if and only if the token verifies at no moment from the row's expiry on |
| `AccountSafety.NewSessionCanBeRefreshed` | backend/src/modules/identity/services/session.service.ts:40-56 | a new session of a verified user is active, and its pair is accepted for refresh until, and not after, the refresh token's exp second begins |
| `AccountSafety.ExpiryFitsRow` | backend/src/modules/identity/services/session.service.ts:46-56 | the whole-second expiry of a refresh token lies within a row expiry computed at some millisecond if and only if the token's signing second had begun by then |
| `AccountSafety.LifetimeFitsIff` | backend/src/shared/Configuration/configuration.ts:24 | a configured refresh lifetime keeps every token within a row written once it was signed if and only if it is at most the session's seven days |
| `AccountSafety.LateUpdateIsSafeIff` | backend/src/modules/identity/services/session.service.ts:109-114 | when every session outlasts its tokens, an update that lands keeps it so if and only if no pair of the session was signed in a later second than the update was computed |
| `AccountSafety.OvertakenUpdateHidesASession` | backend/src/modules/identity/services/session.service.ts:94-117 | from every state with a live session: two of its refreshes minted a second apart that land in the other order leave, a week later, a token that is let in and a session that is no longer listed |
| `AccountSafety.SignInHandsOutPairIff` | backend/src/modules/identity/services/session.service.ts:44-56 | the right password of a verified account gets a pair if and only if the account has no session of that second yet |
| `AccountSafety.SecondSignInOfASecondFails` | backend/src/modules/identity/entities/session.entity.ts:12 | of two sign-ins of one account within a second the second gets nothing and changes no session |
| `AccountSafety.IssuedPairsMixIff` | backend/src/modules/identity/services/token.service.ts:225-233 | two tokens of one run are accepted together if and only if user and session agree, role then agreeing by itself |
| `AccountSafety.RunKeepsRows` | backend/src/modules/identity/services/auth.service.ts:57-97 | over any run no account disappears, loses its verification or changes role, and no revocation is undone |
| `AccountSafety.LogoutBoundsLaterPairs` | backend/src/modules/identity/services/session.service.ts:94-145 | after a revocation, under every interleaving, the session stays revoked and the pairs still issued for it number at most the refreshes already past their read |
| `AccountSafety.RefreshAfterLogoutFails` | backend/src/modules/identity/services/session.service.ts:103-107 | a refresh whose row read follows the revocation changes nothing |
| `AccountSafety.LogoutRevokes` | backend/src/modules/identity/services/session.service.ts:124-145 | logging out with any refresh token of the session, expired or not, revokes it |
| `AccountEffects.SignUpEffect` | backend/src/modules/identity/services/auth.service.ts:103-128 | a sign-up with a free address outside the staff domain adds one unverified user and mails a token; any other changes nothing |
| `AccountEffects.ForgotPasswordEffect` | backend/src/modules/identity/services/verification.service.ts:46-53 | a reset mail is issued for a stored address and for no other |
| `AccountEffects.ResetChangesThePassword` | backend/src/modules/identity/services/verification.service.ts:55-70 | redeeming a live reset token sets its owner's password hash to the new one, spends the token, and changes nothing else |
| `AccountEffects.VerifyingMarksTheAccount` | backend/src/modules/identity/services/verification.service.ts:72-84 | redeeming a live verification token marks its owner verified now, spends the token, and changes nothing else |
| `AccountEffects.BadMailTokensDoNothing` | backend/src/modules/identity/services/verification.service.ts:123-129 | a token that is not redeemable, or of the other type, changes nothing |
| `AccountEffects.MailAnswers` | backend/src/modules/identity/services/verification.service.ts:56-63 | a mail token is answered as unknown, used or expired, in that order, or accepted, by its own row |
| `AccountEffects.ForgottenPasswordIsReplaced` | backend/src/modules/identity/services/verification.service.ts:46-70 | asking for a reset and redeeming the mailed token replaces the password if and only if no more than an hour has passed |
| `AccountEffects.NewAccountSignsInOnceVerified` | backend/src/modules/identity/services/auth.service.ts:103-145 | a new account cannot sign in until its mailed token is redeemed, and then gets a pair, unless one was handed out for it that second |
| `AccountEffects.NewSessionEffect` | backend/src/modules/identity/services/session.service.ts:40-56 | a new session's row expires seven days after the last clock read, and its pair is for the stored role |
| `AccountEffects.SignInEffect` | backend/src/modules/identity/services/auth.service.ts:130-145 | a sign-in goes on to a session if and only if the account has that address and a password, is verified, and the password matches |
| `AccountEffects.FirstGithubVisit` | backend/src/modules/identity/services/auth.service.ts:61-82 | a first GitHub visit makes a verified user with role user, unless its address is taken |
| `AccountEffects.LaterGithubVisit` | backend/src/modules/identity/services/auth.service.ts:83-96 | a later one takes over GitHub's address, verifies the account if it was not, and keeps the rest |
| `AccountEffects.LogoutEffect` | backend/src/modules/identity/services/session.service.ts:124-145 | logging out with a handed-out refresh token revokes its session now, unless it was revoked, and touches nothing else |
| `AccountEffects.BadLogoutDoesNothing` | backend/src/modules/identity/services/session.service.ts:124-134 | a token of the other type, or signed otherwise, logs no one out |
| `AccountEffects.RefreshEffect` | backend/src/modules/identity/services/session.service.ts:94-117 | a refresh past its read mints for the admitted identity and session number, and its landing moves the row's expiry to seven days from the last clock read and leaves the revocation alone |
| `AccountService.Identities.IssueToken` | backend/src/modules/identity/services/verification.service.ts:92-117 | the update and insert of a mail token equal the issue step |
| `AccountService.Identities.VerifyEmail` | backend/src/modules/identity/services/verification.service.ts:72-84 | redeeming a verification token equals its event, whose effect VerifyingMarksTheAccount gives, and passes on the refusal |
| `AccountService.Identities.ResetPassword` | backend/src/modules/identity/services/verification.service.ts:55-70 | redeeming a reset token equals its event, whose effect ResetChangesThePassword gives, and passes on the refusal |
| `AccountService.Identities.CreateSession` | backend/src/modules/identity/services/session.service.ts:40-72 | minting and inserting equal the session-creation step, including the lost insert |
| `AccountService.Identities.Refresh` | backend/src/modules/identity/services/session.service.ts:94-117 | an uninterrupted refresh equals its read, its minting and its landing in a row, and a refused one names the refusal of the pair or else the revoked session |
| `AccountService.Identities.Logout` | backend/src/modules/identity/services/session.service.ts:124-145 | logout equals its one-update event, with a bad token a no-op |
| `AccountService.Identities.SignUp` | backend/src/modules/identity/services/auth.service.ts:103-128 | sign-up equals its event and answers exactly: a taken address is refused as registered before an admin address is refused as such |
| `AccountService.Identities.SignIn` | backend/src/modules/identity/services/auth.service.ts:130-145 | sign-in equals its event and answers exactly: an unverified account with a password is told so before the password is looked at, every other refusal is invalid credentials, and an insert lost within the second is a violation |
| `AccountService.Identities.GithubAuth` | backend/src/modules/identity/services/auth.service.ts:57-97 | GitHub sign-in equals its event for a new and for a known account, and fails if and only if the address belongs to another or the account has a session of that second |
| `CardRoundTrip.RoundTrip` | backend/src/workers/shared/agent/card-loader.ts:14-44 | parsing a printed card with at least one entry, in any mix of the three forms and either line ending, returns its map and its trimmed body, whatever fences the body holds |
| `CardRoundTrip.MetaBindsEveryEntry` | backend/src/workers/shared/agent/card-loader.ts:37-38 | with distinct keys that map binds exactly the printed keys, each to its own items |
| `CardRoundTrip.FormsAgree` | backend/src/workers/shared/agent/card-loader.ts:21-42 | two cards with the same keys and items read the same, whatever form each entry is written in and whichever line ending is used |
| `CardRoundTrip.EntryReadsBack` | backend/src/workers/shared/agent/card-loader.ts:20-42 | the lines of one entry bind its key to its items and leave that list open for more |
| `CardRoundTrip.HeaderEndsAtFence` | backend/src/workers/shared/agent/card-loader.ts:15 | the lazy group ends at the closing fence of a printed header and at no earlier place, whatever follows |
| `CardLineEndings.CrlfReadsTheSame` | backend/src/workers/shared/agent/card-loader.ts:15-43 | for every text without a carriage return, replacing each LF by CRLF leaves the map unchanged and rewrites the body alike |
| `CardLineEndings.FenceSearchSurvives` | backend/src/workers/shared/agent/card-loader.ts:15 | the search for the closing fence finds the rewritten text's fence where it found the original's |
| `CardLineEndings.LinesSurvive` | backend/src/workers/shared/agent/card-loader.ts:20 | splitting into lines gives the same lines after the rewriting |
| `CardLoader.ItemsAreClean` | backend/src/workers/shared/agent/card-loader.ts:24-36 | whatever a key line holds, each item it gives is trimmed and not empty, items of an inline list hold no comma, and any other non-empty text is one item |
| `CardPatterns.KeyLineIff` | backend/src/workers/shared/agent/card-loader.ts:22 | for any line, the key pattern matches with exactly the key and value whose pieces make the line up |
| `CardPatterns.ItemLineIff` | backend/src/workers/shared/agent/card-loader.ts:23 | for any line, the item pattern matches with exactly the item whose pieces make the line up |
| `CardPatterns.KeyLineOpens` | backend/src/workers/shared/agent/card-loader.ts:24-39 | a key line opens its list anew, whatever the key held |
| `CardPatterns.ItemLineExtends` | backend/src/workers/shared/agent/card-loader.ts:40-42 | an item line that is no key line extends the open list, and is skipped when none is open |
| `CardPatterns.OtherLinesAreSkipped` | backend/src/workers/shared/agent/card-loader.ts:24-42 | any line that is neither changes nothing |
| `CardPatterns.InlinePart` | backend/src/workers/shared/agent/card-loader.ts:27-32 | an inline list is read part by part, blank parts giving no item, whatever character stands for the closing bracket |
| `CardPatterns.TrimIff` | backend/src/workers/shared/agent/card-loader.ts:25 | trimming takes away the blanks around a text and nothing of it |
| `CardPatterns.LinesAreCut` | backend/src/workers/shared/agent/card-loader.ts:21 | a line ends at the first line feed, without a carriage return right before it; the last line keeps its own |
| `CardPatterns.FirstFenceEndsHeader` | backend/src/workers/shared/agent/card-loader.ts:16 | the header ends at the first closing fence of either line ending, and there is no header without one |
| `CardPatterns.TextWithoutOpening` | backend/src/workers/shared/agent/card-loader.ts:16-17 | a text that does not open with a fence and a line end is all body |
| `CardPatterns.TextWithoutClosing` | backend/src/workers/shared/agent/card-loader.ts:16-17 | so is one whose fence is never closed |
| `CardRoundTrip.InlineItemsReadBack` | backend/src/workers/shared/agent/card-loader.ts:26-31 | a bracketed list of comma-free trimmed items reads back as exactly those items |
| `CardLoader.TakeLine` | backend/src/workers/shared/agent/card-loader.ts:20-42 | one turn of the loop equals reading that line: a key line opens a list, an item line extends the open one |
| `CardLoader.ReadHeader` | backend/src/workers/shared/agent/card-loader.ts:18-42 | the loop over the lines, changing map and list in place, equals the fold of its lines |
| `CardLoader.ParseCard` | backend/src/workers/shared/agent/card-loader.ts:14-44 | the parser as it runs equals the specification the round trip is proved about |
| `ReadmeAgent.LoopIsBoundedAndReviewed` | backend/src/workers/profile/services/profile-readme-agent.service.ts:121-186 | for every model and bound the loop ends; drafts, reviews and revisions agree and stay within the bound (one at least), an unapproved end means the bound was reached, and the draft returned is the one last reviewed |
| `ReadmeAgent.LoopShape` | backend/src/workers/repo/services/repo-readme-agent.service.ts:70-98 | calls of the loop alternate writing and reviewing, each prompt built from the reply before it, and every verdict but the last sent the draft back |
| `ReadmeAgent.LoopBackFeedsCritique` | backend/src/workers/profile/context/profile.prompts.ts:60-63 | going back to the writer always gives it the last critique, unless that is empty |
| `ReadmeAgent.LoopForgetsOrder` | backend/src/workers/profile/services/profile-readme-agent.service.ts:121-157 | from histories that differ only in the order of their first two calls, a model blind to that order takes the loop to the same markdown and token totals, however much else it remembers |
| `ReadmeAgent.LoopForgetsHistory` | backend/src/workers/profile/services/profile-readme-agent.service.ts:121-157 | a model that answers by prompt alone does so from any two histories of equal cost |
| `ReadmeAgent.AnalystOrderDoesNotShow` | backend/src/workers/profile/services/profile-readme-agent.service.ts:163-171 | the profile README and its token totals do not depend on which analyst answered first, for every model whose analysts answer independently of each other and whose later answers do not depend on the order of those two calls |
| `ReadmeAgent.StatelessIsOrderBlind` | backend/src/workers/profile/services/profile-readme-agent.service.ts:76-81 | a model that answers by prompt alone is one of those |
| `ReadmeAgent.OrderCanShow` | backend/src/workers/profile/services/profile-readme-agent.service.ts:163-171 | for a model that tells the writer who spoke first the order does show, although its analysts are independent |
| `ReadmeAgent.AgentRun.Consult` | backend/src/workers/profile/services/profile-readme-agent.service.ts:76-81 | one call reports its phase, appends to the log and adds its tokens, keeping the totals equal to the sums over all calls |
| `ReadmeAgent.AgentRun.Revise` | backend/src/workers/profile/services/profile-readme-agent.service.ts:121-157 | the loop as it runs returns what the specification does and reports drafting and reviewing once a revision |
| `ReadmeAgent.AgentRun.RunRepo` | backend/src/workers/repo/services/repo-readme-agent.service.ts:60-116 | a repo run returns the trimmed draft and token totals of the specification |
| `ReadmeAgent.AgentRun.Analyse` | backend/src/workers/profile/services/profile-readme-agent.service.ts:83-106 | the two analysts run in either order and leave the calls of that order |
| `ReadmeAgent.AgentRun.RunProfile` | backend/src/workers/profile/services/profile-readme-agent.service.ts:72-189 | a profile run returns the trimmed draft and token totals of the specification, having reported three analyzing phases and then the loop's |
| `ReadmeAgent.ProfileRunPrompts` | backend/src/workers/profile/services/profile-readme-agent.service.ts:83-156 | in every profile run the planner is asked with the resume's analysis and the repositories' in their own places, the writer first with the plan and both and no feedback; the result is the last draft, trimmed, with the totals of all calls |
| `ReadmeAgent.RepoRunPrompts` | backend/src/workers/repo/services/repo-readme-agent.service.ts:71-101 | in every repo run the writer is asked first, without feedback, and the result is the last draft, trimmed, with the totals |
| `ReadmeAgent.TotalsAddUp` | backend/src/workers/profile/services/profile-readme-agent.service.ts:76-81 | the token totals of a run are the sums over its calls, starting from zero |
| `ReadmeAgent.ApprovedIff` | backend/src/workers/profile/services/profile-readme-agent.service.ts:151 | for any text, it approves if and only if it holds the word approved, in any case, with no letter, digit or underscore next to it |
| `PhaseProgress.ShownRevisionNeverExceeds` | frontend/src/modules/client/sections/narrate/PhaseProgress.tsx:86-93 | however polls fall on a trace, the revision shown is at most the review-to-draft loop-backs that have happened |
| `PhaseProgress.ShownRevisionIsExact` | frontend/src/modules/client/sections/narrate/PhaseProgress.tsx:86-93 | when no phase goes by unseen, the revision shown equals the loop-backs so far |
| `PhaseProgress.PercentageIsMonotoneAndUnfinished` | frontend/src/modules/client/sections/narrate/PhaseProgress.tsx:98-103 | over any polls the percentage never decreases and, with fewer than a hundred steps, stays below 100 |
| `PhaseProgress.AllStepsBelow100Iff` | frontend/src/modules/client/sections/narrate/PhaseProgress.tsx:99-101 | a list of n steps keeps every step's percentage below 100 if and only if n is below 100 |
| `PhaseProgress.BarShowsTheStep` | frontend/src/modules/client/sections/narrate/PhaseProgress.tsx:101-103 | a poll at a known step gives the middle of that step in percent, rounded with halves up, which lies between the step's two ends; a queued one gives 6 |
| `PhaseProgress.BarStarts` | frontend/src/modules/client/sections/narrate/PhaseProgress.tsx:74-77 | a poll without a phase, or with one the panel does not list, gives 6 |
| `PhaseProgress.BarShowsTheFurthest` | frontend/src/modules/client/sections/narrate/PhaseProgress.tsx:104 | the bar is the largest percentage of any poll so far |
| `PhaseProgress.AgentTraceLoopsBack` | backend/src/workers/profile/services/profile-readme-agent.service.ts:121-156 | a run of r revisions emits a trace with exactly r - 1 loop-backs, whatever phases lead in |
| `PhaseProgress.ProfileBar` | frontend/src/modules/client/sections/narrate/PhaseProgress.tsx:28-57 | after any save of a profile job the panel's percentage is that of its step, 13, 38, 63 or 88, and 6 before the first |
| `PhaseProgress.RepoBar` | frontend/src/modules/client/sections/projects/RepoGenerateList.tsx:57-82 | after any save of a repo job it is 17, 50 or 83, and 6 before the first |
| `PhaseProgress.ProfileJobShowsItsRevisions` | frontend/src/modules/client/sections/narrate/PhaseProgress.tsx:86-95 | for a profile job of any model and bound the panel's last revision is at most, and with no phase missed exactly, the agent's revisions beyond the first draft |
| `PhaseProgress.RepoJobShowsItsRevisions` | frontend/src/modules/client/sections/narrate/PhaseProgress.tsx:86-95 | the same for a repo job and its three steps |
| `PhaseProgress.Panel.Render` | frontend/src/modules/client/sections/narrate/PhaseProgress.tsx:74-103 | one render, changing the remembered phase, flag, round and percentage in place, equals the observation step |
| `ClientSafety.OneRefreshInFlight` | frontend/src/lib/api/baseApi.ts:28-43 | in every run of the client at most one refresh request is in flight, and it is the one the next caller joins |
| `ClientSafety.RequestsAreRetriedOnce` | frontend/src/lib/api/baseApi.ts:48-67 | no request is sent more than twice, requests to the auth endpoints once, and a second send follows the success of the refresh the request waited for, with that refresh's token |
| `ClientSafety.WaitersShareOneToken` | frontend/src/lib/api/baseApi.ts:57-59 | requests that waited for the same refresh were given the same token |
| `ClientSafety.EveryWaiterIsServed` | frontend/src/lib/api/baseApi.ts:55-66 | the answer to a refresh serves every request waiting for it: a token sends it again with that token, a failure ends it with the user signed out |
| `ClientSafety.UnauthorizedJoinsRefresh` | frontend/src/lib/api/baseApi.ts:50-57 | the first 401 of a request makes it wait for the refresh under way, and starts one if and only if there is none |
| `ClientSafety.LastUnauthorizedSignsOut` | frontend/src/lib/api/baseApi.ts:69-72 | a 401 on a retry or on an auth endpoint ends the request, signs the user out, stops the timer and starts no refresh |
| `ClientSafety.DueTimerRenewsOrSignsOut` | frontend/src/lib/auth/silentRefresh.ts:32-43 | a due timer with no refresh under way starts one, whose answer renews the token or signs the user out |
| `ClientSafety.SignOutLastsIff` | frontend/src/lib/api/baseApi.ts:30-43 | in every run without a sign-in a signed-out store stays signed out at every moment if and only if no refresh then in flight is answered with a token |
| `ClientSafety.QuietSignOutLasts` | frontend/src/lib/api/baseApi.ts:30-43 | so a sign-out lasts when no refresh is in flight at it and no request is answered 401 before the next sign-in |
| `ClientSafety.LateGrantSignsBackIn` | frontend/src/lib/api/baseApi.ts:32-36 | from every valid state with a refresh in flight, a sign-out followed by its token leaves the user signed in |
| `ClientSafety.TimerIsForTheCurrentToken` | frontend/src/store/index.tsx:35-41 | in every run a timer belongs to the token now in the store and fires no later than the skew before that token's expiry |
| `ClientSafety.NewTokenArmsTimerIff` | frontend/src/lib/auth/silentRefresh.ts:26-44 | a new token arms a timer if and only if its expiry lies beyond the skew, for exactly the skew before expiry unless the delay overflows the browser's timer |
| `ClientSafety.StaleTokenRefreshesAtOnce` | frontend/src/lib/auth/silentRefresh.ts:37-41 | a new token with no more than thirty seconds left starts a refresh at once, or joins the one under way |
| `ClientSafety.SkewedGrantIsQuiet` | frontend/src/lib/api/baseApi.ts:31-39 | a refresh that returns a token already inside the skew starts no other, and leaves nothing that could, except when it returns the very token the store held with its timer pending |
| `ClientSafety.SkewedTokenStartsNothing` | frontend/src/lib/auth/silentRefresh.ts:36-43 | from such a state no run without a sign-in or a 401 starts another refresh |
| `ClientSafety.RunKeepsValid` | frontend/src/lib/api/baseApi.ts:28-81 | every run keeps the invariant and never changes or drops a settled refresh |
| `ClientSafety.SendCarriesTheToken` | frontend/src/lib/api/baseApi.ts:18-26 | a request goes out once, with the store's token of that moment as its header |
| `ClientSafety.ResumedRequestCarries` | frontend/src/lib/api/baseApi.ts:57-59 | a resumed request goes out again with the store's token, or its refresh's when the store has none |
| `ClientSafety.OtherAnswersEndTheRequest` | frontend/src/lib/api/baseApi.ts:50-81 | any answer but a 401 ends the request and changes nothing else |
| `ClientSafety.SignOutEffect` | frontend/src/store/index.tsx:35-41 | a sign-out clears the token and the timer and nothing else |
| `ClientSafety.PageLoadEffect` | frontend/src/store/index.tsx:35-41 | a page load schedules the persisted token, with no request and no other refresh |
| `ClientService.Session.RefreshAccessToken` | frontend/src/lib/api/baseApi.ts:30-43 | the single-flight function as code over the module variable |
| `ClientService.Session.ScheduleTokenRefresh` | frontend/src/lib/auth/silentRefresh.ts:26-44 | clearing the old timer and arming or refreshing at once equals the schedule step |
| `ClientService.Session.Store` | frontend/src/store/index.tsx:35-41 | a store write runs the subscription if and only if the token changed |
| `ClientService.Session.OnResponse` | frontend/src/lib/api/baseApi.ts:50-76 | the response interceptor up to its await equals the respond step |
| `ClientService.Session.OnResume` | frontend/src/lib/api/baseApi.ts:56-66 | the interceptor after its await equals the wake step |
| `ClientService.Session.OnRefreshReply` | frontend/src/lib/api/baseApi.ts:32-37 | the refresh's then, with the interceptor's sign-out on a 401, equals the reply step |
| `ClientService.Session.OnRefreshSettled` | frontend/src/lib/api/baseApi.ts:37-39 | the finally clears the module variable, which then always holds this very refresh |
| `ClientService.Session.OnTimer` | frontend/src/lib/auth/silentRefresh.ts:32-43 | the timer's callback equals the fire step |
| `ClientService.Session.Request` | frontend/src/lib/api/baseApi.ts:18-26 | sending a request puts the store's token on it |
| `ResumeSafety.EveryUploadHasItsFile` | backend/src/modules/resumes/services/resume.service.ts:58-141 | after any interleaving of creates and removes stopping anywhere, every saved upload row points at an existing object that no other row points at |
| `ResumeSafety.StrayFilesHaveACall` | backend/src/modules/resumes/services/resume.service.ts:84-94 | an object no row points at is held by a create or a remove that is unfinished or was abandoned, or by a remove whose delete failed |
| `ResumeSafety.CacheIsTransparent` | backend/src/workers/profile/services/resume-text.service.ts:31-53 | in every run extractText answers for a row what it would answer with the cache empty |
| `ResumeSafety.ReadTextNeedsNoFile` | backend/src/workers/profile/services/resume-text.service.ts:31-53 | once a text was read, reading it again gives the same answer with neither the file nor the parser; when nothing could be read, nothing is saved |
| `ResumeSafety.LimitHoldsWithoutOverlap` | backend/src/modules/resumes/services/resume.service.ts:129-151 | in any run of requests that do not overlap, each stopping anywhere and each user with a limit of their own, the row count of a user with a finite limit never exceeds the larger of that limit and the count at the start |
| `ResumeSafety.UnderLimitLeavesRoom` | backend/src/modules/resumes/services/resume.service.ts:129-141 | the check lets a create pass if and only if the plan is unlimited or one more row of the user still fits the limit |
| `ResumeSafety.OverlapPassesLimitByAtMost` | backend/src/modules/resumes/services/resume.service.ts:69-81 | under every interleaving with at most k creates of a user between check and save, rows and creates under way never exceed the larger of the limit less one plus k and what there was at the start |
| `ResumeSafety.OverlapReachesTheBound` | backend/src/modules/resumes/services/resume.service.ts:69-81 | from every state with room, k creates that all check before any saves all land |
| `ResumeSafety.OverlappingCreatesPassTheLimit` | backend/src/modules/resumes/services/resume.service.ts:69-81 | a concrete overlap in which two creates pass a limit of one |
| `ResumeSafety.CreateAddsWhatWasSent` | backend/src/modules/resumes/services/resume.service.ts:58-82 | an accepted create adds one row holding what was sent, and for an upload one object under a new key; a refused one changes no row and no object |
| `ResumeSafety.RemoveTakesRowAndFile` | backend/src/modules/resumes/services/resume.service.ts:84-94 | a remove of the user's own row takes exactly that row and, if the storage call succeeds, its object; any other remove changes nothing |
| `ResumeSafety.LateSaveIsSafeIff` | backend/src/workers/profile/services/resume-text.service.ts:48-52 | saving, after any run of other steps, a text read earlier keeps the invariant if and only if the row is still there; and after a pending delete has landed too, every upload row has its file if and only if the row is still there or its file outlived it and was not the one deleted |
| `ResumeSafety.LateSaveLeavesADanglingRow` | backend/src/workers/profile/services/resume-text.service.ts:48-52 | a concrete run in which such a save brings back a removed row whose file is gone |
| `ResumeEffects.CreateIsRefusedIff` | backend/src/modules/resumes/services/resume.service.ts:58-82 | for any input, plan and table, the exact answer of a create: which refusal comes first, by the own plan's limit, else the free plan's, else one, five megabytes, and the three types; or the new row |
| `ResumeEffects.UploadIsParsed` | backend/src/workers/profile/services/resume-text.service.ts:38-52 | the text of an unread upload is the first 12000 characters of what the parser makes of its file, or nothing if that is missing, throws or is empty |
| `ResumeEffects.LinkIsNamed` | backend/src/workers/profile/services/resume-text.service.ts:34-36 | a link's text says where it is, and nothing is cached for it |
| `ResumeEffects.ReadOnce` | backend/src/workers/profile/services/resume-text.service.ts:31-32 | a resume whose text was read is not read again |
| `ResumeEffects.CallsEndInOrder` | backend/src/modules/resumes/services/resume.service.ts:69-94 | a create saves its row only once its file is stored, and a remove deletes its object once, giving it up when that fails |
| `ResumeEffects.AbandonedCallIsOver` | backend/src/modules/resumes/services/resume.service.ts:58-94 | a call can stop anywhere, leaving rows, objects and the other calls as they were, and keeps at most its own object |
| `ResumeEffects.EndedCallsDoNothing` | backend/src/modules/resumes/services/resume.service.ts:58-94 | a call that has ended or stopped takes no further step |
| `ResumeService.Library.BuildUpload` | backend/src/modules/resumes/services/resume.service.ts:109-126 | validating and storing a file equals the put step, with the size check before the type check |
| `ResumeService.Library.Create` | backend/src/modules/resumes/services/resume.service.ts:58-82 | create as code equals its three steps and answers with the new row or the first check that failed; the limit refuses it if and only if the user is at the limit of the own plan, else of the free one, else at one |
| `ResumeService.Library.Remove` | backend/src/modules/resumes/services/resume.service.ts:84-94 | remove as code equals its three steps, whatever the storage call does |
| `ResumeService.Library.ExtractText` | backend/src/workers/profile/services/resume-text.service.ts:31-53 | extractText as code caches the parsed text and answers the same before and after |
| `Paging.FetchAll` | backend/src/modules/generations/services/github-repos.service.ts:88-115 | the loop returns exactly the first five hundred items of a stable list, in as few requests of a hundred as show there is no more and at most five, and fails if and only if a page it asked for failed |
| `Paging.WalkMeetsEverything` | backend/src/shared/Common/paged-result.ts:16-35 | following HasNext from page 1 ends and meets every item once and in order, for every page size of at least 1 |
| `Paging.OutOfRangePagesAreClamped` | backend/src/shared/Common/paged-result.ts:22-34 | any page number is served as the nearest real page, with the list's own size and the caller's page size, and that page is never empty unless the list is, and HasNext and HasPrev tell exactly which neighbours exist |
| `Paging.PageItems` | backend/src/shared/Common/paged-result.ts:24-27 | a page in range holds exactly its stretch of the list |
| `Paging.LastPageReachesTheEnd` | backend/src/shared/Common/paged-result.ts:23 | the page count is the least, and at least 1, whose pages cover the list |
| `Paging.FilterJoins` | backend/src/modules/generations/services/github-repos.service.ts:70-71 | excluding the profile repository keeps the order of the rest: filtering two lists joined is joining the filtered lists |
| `Paging.EveryRepoIsListedOnce` | backend/src/modules/generations/services/github-repos.service.ts:70-86 | walking the pages meets each fetched repository that is not the profile repository as often as it was fetched, and the profile repository never |
| `AccountSlug.SlugJoinsTheWords` | frontend/src/lib/auth/account.ts:8-15 | for every name the slug is the alphanumeric runs of the lower-cased name joined by single hyphens, or me when there are none |
| `AccountSlug.SlugIsOnePass` | frontend/src/lib/auth/account.ts:8-15 | for every name, trimming, lower-casing, collapsing and stripping come to one pass that adds each letter or digit in small, behind a hyphen where a gap was |
| `AccountSlug.SlugIgnoresCase` | frontend/src/lib/auth/account.ts:11 | spelling any capital of a name as its small letter does not change the slug |
| `AccountSlug.PlainNameJoinsItsWords` | frontend/src/lib/auth/account.ts:8-15 | a name of ASCII characters without capitals has the slug of its own alphanumeric runs |
| `AccountSlug.SlugIsSlug` | frontend/src/lib/auth/account.ts:8-15 | for every name the slug is one or more non-empty lower-case alphanumeric runs joined by single hyphens, with none at either end |
| `AccountSlug.FixedPointsAreTheSlugs` | frontend/src/lib/auth/account.ts:8-15 | a string is its own slug if and only if it has that shape |
| `AccountSlug.SlugIsIdempotent` | frontend/src/lib/auth/account.ts:8-15 | applying accountSlug twice equals applying it once |
| `Base64.DecodeOfEncode` | backend/src/modules/identity/services/encryption.service.ts:38-42 | padded base64 decoding undoes encoding for every number of bytes |
| `Base64.EncodeShape` | backend/src/modules/identity/services/encryption.service.ts:38-42 | the encoded text has four characters for each three bytes begun and never a colon |
| `Base64.SextetsKeepTheNumber` | backend/src/modules/identity/services/encryption.service.ts:38-42 | the encoded digits in base 64 stand for the bytes' number, with two zero bits for each padding character |
| `Base64.SymbolsInOrder` | backend/src/modules/identity/services/encryption.service.ts:38-42 | the symbols are the standard alphabet in its order |
| `Base64.EncodeReads` | backend/src/modules/identity/services/encryption.service.ts:38-42 | every character of the text is the symbol of its sextet, or an equals sign after the last |
| `Utf8.DecodeOfEncode` | backend/src/modules/identity/services/encryption.service.ts:33 | UTF-8 decoding undoes encoding for every well-formed string |
| `Utf8.CharacterForm` | backend/src/modules/identity/services/encryption.service.ts:33 | each character takes as many bytes as its number needs, with the markers of RFC 3629 section 3 and the number in the bits between them |
| `Utf8.AsciiIsItself` | backend/src/modules/identity/services/encryption.service.ts:33 | ASCII text is encoded as its own codes |
| `Encryption.FieldsAreRecovered` | backend/src/modules/identity/services/encryption.service.ts:47 | splitting a payload on the colon recovers the three joined fields |
| `Encryption.FramingIsInjective` | backend/src/modules/identity/services/encryption.service.ts:38-42 | no two triples of IV, tag and ciphertext share a payload |
| `Encryption.DecryptUndoesEncryptIff` | backend/src/modules/identity/services/encryption.service.ts:29-63 | decrypt gives back what encrypt was given if and only if that was not empty; the empty string reads as malformed |
| `Encryption.PayloadHoldsTheSealedText` | backend/src/modules/identity/services/encryption.service.ts:29-43 | the three fields of a payload are the nonce, the tag and the ciphertext of the text's UTF-8, in that order |
| `Encryption.PayloadIsOpened` | backend/src/modules/identity/services/encryption.service.ts:46-63 | any three non-empty fields are opened by the cipher under their own nonce and tag, or refused as tampered with |
| `Encryption.MalformedIff` | backend/src/modules/identity/services/encryption.service.ts:47-50 | a payload is malformed if and only if one of its first three fields is missing or empty |

## Left out

- HTTP, dependency injection, TypeORM, BullMQ, Redis, React and e-mail delivery: only row reads, row writes and job
  delivery are modelled.
- The prompts' fixed wording, the agent cards' content and the assembly of a system prompt from two card roots.
- `resolveModel` and the plan's tier ranking, `ensureRepo`'s metadata refresh, device and location descriptors, response
  envelopes: facts of one branch each.
- LangGraph's own step limit, which would stop loops far longer than the shipped bound of 2.
- Phase saves of the slower analyst after the faster one failed: all phase saves of a job are taken to end before its
  catch block begins.
- Interleavings inside issuing or redeeming a mail token, and inside the two inserts of a sign-up.
- AccountSafety.RefreshableSessionIsListed: a refresh hands its pair out in the same step in which its update lands,
  and the insert of a new session is one step with the minting of its first pair.
- PhaseProgress.PercentageIsMonotoneAndUnfinished: percentages are computed exactly, not in floating point; for the
  shipped lists of three and four steps the values agree.
- Paging.FetchAll: the list of repositories does not change between requests, and the two-minute cache and the
  unlinked-account shortcuts of `getAllRepos` are not modelled; the lower-casing of names is an arbitrary function.
- AccountSlug.SlugJoinsTheWords: lower-casing outside ASCII is modelled only as far as `[a-z0-9]` can tell it apart.
- Base64.DecodeOfEncode: decoding stops at the first character outside the standard alphabet, where Node skips some and
  accepts the URL-safe ones; only texts this encoder made are decoded in the theorems.
- Utf8.DecodeOfEncode: bytes that are no UTF-8 decode to replacement characters of which only the presence, not the
  number, follows the standard.
- PDF and Word parsing (an arbitrary function of the bytes and type), presigned downloads and the list view of resumes.
- ClientSafety.OneRefreshInFlight: redirects after a sign-out, request time-outs and other browser tabs are not
  modelled.
