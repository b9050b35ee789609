# Verified models of nestcore's hard parts

Dafny models of the parts of nestcore where a subtle order of events, a fast data structure or a
hand-written parser carries the promise, with proofs that the promise holds on every input and over
every run. `dafny verify dfyconfig.toml` checks the whole project (Dafny 4.11).

- `AttemptLimiter`, `LimiterModel`, `LimiterRuns`: The attempt limiter: a class over a map and two recency lists, proved equal, call by call, to a specification that scans the whole table; then the promises over whole runs
- `OwnerProtocol`: Concurrent member writes under a hashed advisory lock, and why the lock needs a statement of its own
- `MfaStore`, `MfaService`, `RecoveryCode`: MFA rows under row locks and interleaved statements; the service calls with arbitrary interference between their statements; recovery codes
- `StorageKey`, `Uploads`, `Reaper`: Content-addressed photos: the key layout, interleaved uploads and deletes, and the mark-and-sweep with its recheck
- `ExifStrip`, `Orientation`: The JPEG segment walk as print after filter after parse, and the eight orientations
- `Conninfo`, `ConninfoEdit`, `ConninfoNames`, `ConninfoCert`: The keyword/value scanner, the database-name splice, which database a string names, and the certificate escape
- `WebAuthn`: The order-independent passkey counter
- `Seqs`, `Chars`: Facts about sequences and ASCII character classes that several modules share

Where the source mutates fields, the model is a class or a loop proved against a specification
function; the theorems about whole runs are lemmas over that function. Where callers run
concurrently, a run is any sequence of atomic statements, and a caller's own program may be
interrupted by any statements of others between two of its own. Clocks, randomness, cipher, hashes,
TOTP and content digests are parameters, so the results hold for every choice of them.

Where the code and its comments differ, the code is modelled:

- `memberWriteFailureReason` (identity/adapter/member_postgres.go:251-253) is said not to race. A
  member created between the refused UPDATE and the look-up is reported as the last active owner.
  `OwnerProtocol.NewcomerMisreported` gives the run; `OwnerProtocol.ReasonExactly` proves that this
  is the only way a reason can be wrong, and that it always is then.
- `ConfirmEnrollment` validates a code against the secret it read, but confirms whatever secret is
  pending when it takes the row. `MfaStore.ConfirmsWhatWasRead` says exactly when the two are the
  same, and `MfaStore.ValidatedIsNotAlwaysConfirmed` gives a run in which they are not.
- `Disenroll` looks at the household only in its last statement, after the step-up: a good recovery
  code is spent even though the household is wrong (`MfaService.Service.Disenroll`,
  `MfaService.CodeLostToWrongHousehold`).
- `derive` promises a string that connects to the database it returns, but `rewriteDatabase` splices
  the name in as it is. `ConninfoNames.DerivedNames` proves that the value put there is the one that
  counts and denotes that database if and only if the base name has no white space, no backslash and no
  leading quote, and white space or the end follows the old value. `ConninfoNames.QuotedBaseNamesNothing`,
  `ConninfoNames.SlashedBaseNamesAnother`, `ConninfoEdit.SpacedNameMissed` and
  `ConninfoEdit.TextBehindQuoteFails` give the families on which it does not, and
  `ConninfoNames.NamedByAccident` the one way an unrelated key can still name it.
- `ApplySSLRootCert`'s appended parameters only come out as the last two when the DSN's last value
  is closed: `ConninfoCert.AppendsExactlyIfClean`.

## Model

| member | source | states |
|---|---|---|
| `AttemptLimiter.AttemptLimiter.constructor` | ratelimit/attempt_limiter.go:118-133 | an empty limiter under a valid policy |
| `AttemptLimiter.AttemptLimiter.Reserve` | ratelimit/attempt_limiter.go:173-200 | new state, outcome and reservation are those of the table-scanning specification, and the cost counter grows by the elements expiry looked at |
| `AttemptLimiter.AttemptLimiter.Attempt` | ratelimit/attempt_limiter.go:157-160 | Reserve without the reservation |
| `AttemptLimiter.AttemptLimiter.Locked` | ratelimit/attempt_limiter.go:139-148 | answer and state of the specification's Locked |
| `AttemptLimiter.AttemptLimiter.Cancel` | ratelimit/attempt_limiter.go:212-229 | state of the specification's Cancel, for any reservation at all |
| `AttemptLimiter.AttemptLimiter.Refund` | ratelimit/attempt_limiter.go:243-254 | state of the specification's Refund, expiring nothing |
| `AttemptLimiter.AttemptLimiter.Reset` | ratelimit/attempt_limiter.go:257-263 | the key is gone, everything else stays |
| `AttemptLimiter.AttemptLimiter.ExpireLocked` | ratelimit/attempt_limiter.go:273-288 | popping overdue list backs removes exactly what a scan of the whole table would, and says how many elements it looked at |
| `AttemptLimiter.AttemptLimiter.MakeRoomLocked` | ratelimit/attempt_limiter.go:299-309 | room is made by dropping the oldest unlocked key, or refused exactly when the table is full of lockouts |
| `AttemptLimiter.AttemptLimiter.ObserveLocked` | ratelimit/attempt_limiter.go:333-338 | the newest time is kept and everything overdue expires |
| `AttemptLimiter.AttemptLimiter.LockLocked` | ratelimit/attempt_limiter.go:313-318 | the key moves from the counting list to the front of the lockouts, until one window later |
| `AttemptLimiter.AttemptLimiter.UnlockLocked` | ratelimit/attempt_limiter.go:323-329 | the key returns to the front of the counting list, stamped with the newest time |
| `AttemptLimiter.AttemptLimiter.RemoveLocked` | ratelimit/attempt_limiter.go:342-349 | the entry leaves the map and whichever list holds it |
| `AttemptLimiter.AttemptLimiter.SaturatedLocked` | ratelimit/attempt_limiter.go:292-294 | full of lockouts, as the specification says |
| `AttemptLimiter.BackDecides` | ratelimit/attempt_limiter.go:271-288 | if a list's back is not overdue, nothing in it is: why stopping at the back is enough |
| `LimiterModel.ReserveKeeps` | ratelimit/attempt_limiter.go:173-200 | Reserve keeps the structure: lists, order, cap, distinct epochs, nothing overdue |
| `LimiterModel.CancelKeeps` | ratelimit/attempt_limiter.go:212-229 | so does Cancel |
| `LimiterModel.RefundKeeps` | ratelimit/attempt_limiter.go:243-254 | so does Refund |
| `LimiterModel.RefundExactly` | ratelimit/attempt_limiter.go:243-254 | Refund takes exactly one attempt off an unlocked key, forgets the key at zero, leaves a locked or unknown one alone, and touches nothing else |
| `LimiterModel.ResetKeeps` | ratelimit/attempt_limiter.go:257-263 | so does Reset |
| `LimiterModel.ExpireIdle` | ratelimit/attempt_limiter.go:271-288 | a full scan of any sound state at its newest time removes nothing |
| `LimiterRuns.StepAccounted` | ratelimit/attempt_limiter.go:139-263 | every call keeps the accounts: an entry counts exactly its epoch's outstanding reservations, a locked one has exactly one engaging reservation, and epochs of one key lie a window apart |
| `LimiterRuns.RunAccounted` | ratelimit/attempt_limiter.go:139-263 | so does every run |
| `LimiterRuns.Budget` | ratelimit/attempt_limiter.go:173-229 | over any run, at most Threshold standing attempts of a never-refunded key fall in any half-open span one window long |
| `LimiterRuns.Structure` | ratelimit/attempt_limiter.go:271-349 | in every reachable state the lists partition the map and are ordered, the cap holds, and a scan would expire nothing |
| `LimiterRuns.DisplacedIsOldest` | ratelimit/attempt_limiter.go:296-309 | only a full table displaces a key, never a locked one, and always the one idle longest |
| `LimiterRuns.DisplacementTakesAFlood` | ratelimit/attempt_limiter.go:80-95 | in any run, a new key displaces another or is denied a slot only while maxKeys distinct keys were active within the last window, each never-refunded one with an attempt that still stands |
| `LimiterRuns.LockedPredictsReserve` | ratelimit/attempt_limiter.go:135-148 | Locked is true exactly when Reserve would deny |
| `LimiterRuns.ReserveAnswers` | ratelimit/attempt_limiter.go:173-200 | what Reserve answers follows from the history of outstanding attempts alone; it denies exactly a locked key, or a new one in a table full of lockouts |
| `LimiterRuns.ReservationIsItsAttempt` | ratelimit/attempt_limiter.go:162-229 | in any run a permitted Reserve returns a reservation that names its key and its current entry, and cancelling that value, whenever that is, is cancelling that attempt; what a denied Reserve returns cancels nothing |
| `LimiterRuns.StaleCancelIsIdle` | ratelimit/attempt_limiter.go:209-219 | a zero or outlived reservation cancels nothing |
| `LimiterRuns.CancelAll` | ratelimit/attempt_limiter.go:202-229 | cancelling all outstanding reservations of a key, in any order, leaves it untracked |
| `LimiterRuns.Lockout` | ratelimit/attempt_limiter.go:139-200 | after AllowedLastAttempt the key is denied until a window later, through any floods and cancels, unless it is Reset or that reservation is cancelled |
| `LimiterRuns.AmortisedCost` | ratelimit/attempt_limiter.go:72-76 | n calls look at no more than 3n list elements |
| `OwnerProtocol.OneWriter` | identity/adapter/member_postgres.go:113-148 | one household's writers exclude each other, whatever else shares their lock key |
| `OwnerProtocol.ExecuteIsSafe` | identity/adapter/member_postgres.go:150-163 | a guarded write never takes the last active owner, given a current snapshot |
| `OwnerProtocol.StepKeepsInv` | identity/adapter/member_postgres.go:143-246 | every step of every writer keeps the lock table and the snapshots' currency |
| `OwnerProtocol.OwnerNeverLost` | identity/adapter/member_postgres.go:113-246 | over all interleavings of profile, active and create transactions, for any lock hash, a household with a committed active owner keeps one |
| `OwnerProtocol.LoneWriter` | identity/adapter/member_postgres.go:167-268 | run alone, a writer leaves in its row exactly the name and role, or the activity, asked for, and every other field and row as it was; unless the guard refuses or the row is not there, when nothing changes; it is told exactly which |
| `OwnerProtocol.GuardExactly` | identity/adapter/member_postgres.go:150-163 | the guard refuses exactly the write that would leave a household that has an active owner without one |
| `OwnerProtocol.CommitWritesWhatWasAsked` | identity/adapter/member_postgres.go:167-246 | whatever runs between a writer's start and its commit, the commit puts exactly what was asked for at the start into its own member's row as that stands, and changes nothing else |
| `OwnerProtocol.OnlyCommitsAndCreatesWrite` | identity/adapter/member_postgres.go:47-268 | every other step leaves all rows; a create adds the row given |
| `OwnerProtocol.NobodyIsStuck` | identity/adapter/member_postgres.go:113-148 | a writer that is not done can go on, or waits for the holder of its lock key or for a pending row of another household whose writer can commit; no UPDATE waits for a row of its own household |
| `OwnerProtocol.FailureLeavesNothing` | identity/adapter/member_postgres.go:167-246 | a writer may fail at any point; it leaves every row as it was and its lock free |
| `OwnerProtocol.RepliesStand` | identity/adapter/member_postgres.go:167-268 | a writer's reply is final |
| `OwnerProtocol.OneStatementLosesTheOwner` | identity/adapter/member_postgres.go:118-132 | with the lock taken inside the guarded statement, two owners deactivating each other leave none |
| `OwnerProtocol.ReasonExactly` | identity/adapter/member_postgres.go:248-268 | over any run, a refused writer is told the wrong reason if and only if its member was not in the household when its UPDATE took its snapshot and was created there before the look-up; LastActiveOwner, when true, means the only active owner |
| `OwnerProtocol.KnownMemberToldRight` | identity/adapter/member_postgres.go:248-268 | a member that was in the household when the writer began is always reported truthfully |
| `OwnerProtocol.SnapshotTaken` | identity/adapter/member_postgres.go:143-165 | whoever's refusal is looked up started its UPDATE at some step of the run, so the above covers every refusal |
| `OwnerProtocol.NewcomerMisreported` | identity/adapter/member_postgres.go:248-268 | a member created in between is reported as the last active owner |
| `MfaStore.StepKeepsInv` | identity/adapter/mfa_postgres.go:98-353 | every statement of every call keeps the rows, codes, calls and past events in agreement |
| `MfaStore.OneConfirmPerLife` | identity/adapter/mfa_postgres.go:194-254 | at most one confirm commits per enrollment-row lifetime |
| `MfaStore.ConfirmStands` | identity/adapter/mfa_postgres.go:194-254 | while that row lives it stays confirmed with the same secret, and the member's codes are exactly the winner's hashes |
| `MfaStore.ConfirmCommits` | identity/adapter/mfa_postgres.go:231-254 | the commit confirms the row and leaves exactly the call's hashes as codes, all unused, and other members' codes as they were |
| `MfaStore.ConfirmFindsNoCodes` | identity/adapter/mfa_postgres.go:234-236 | the confirming transaction's DELETE of earlier codes never finds one |
| `MfaStore.AcceptedStepsRise` | identity/adapter/mfa_postgres.go:329-353 | accepted login steps strictly increase per enrollment row |
| `MfaStore.NoCodeRedeemedTwice` | identity/adapter/mfa_postgres.go:316-328 | no recovery code is redeemed twice |
| `MfaStore.UsedIsRedeemed` | identity/adapter/mfa_postgres.go:241-328 | in every state of every run a stored code is used if and only if the log shows it redeemed |
| `MfaStore.DeletedIsOver` | identity/adapter/mfa_postgres.go:257-271 | after a delete nothing more happens in the row's name |
| `MfaStore.CredentialsMoveByEvent` | identity/adapter/mfa_postgres.go:316-353 | a row's step only rises and a code only turns used, each by its own statement |
| `MfaStore.SameEnrollmentExactly` | identity/adapter/mfa_postgres.go:257-353 | a member's rows in two states of a run are one enrollment if and only if the log shows no end of it in between |
| `MfaStore.HitsWhatItSaw` | identity/adapter/mfa_postgres.go:130-353 | a statement deletes, steps or locks only the very row that was there when it started |
| `MfaStore.RepliesStand` | identity/adapter/mfa_postgres.go:112-254 | a transaction that is over keeps its reply until its call starts another |
| `MfaStore.ConfirmsWhatWasRead` | identity/app/mfa.go:138-171 | over any run between a read of a row and a confirmation's commit, the secret confirmed is the one read if and only if no BeginEnrollment of the member was logged in between, or the last one stored that same secret |
| `MfaStore.ValidatedIsNotAlwaysConfirmed` | identity/app/mfa.go:138-171 | a run on the failing side: another BeginEnrollment replaces the validated secret before the confirmation takes the row |
| `MfaStore.TransactionAlone` | identity/adapter/mfa_postgres.go:130-254 | one transaction on an unlocked pending row, from start to commit: the row, the unused codes with these hashes, everybody else's codes |
| `MfaService.GenerateRecoveryCodes` | identity/app/mfa.go:404-423 | ten codes and the hashes of their normal forms, or neither |
| `MfaService.FirstMatch` | identity/app/mfa.go:386-400 | the first listed code that opens, skipping malformed hashes, or proof that none does |
| `MfaService.Service.RecordLoginStep` | identity/adapter/mfa_postgres.go:329-353 | one accepted step on the row there is, or none; success and refusal say whether the row took the step after the others ran, and undisturbed whether the step is later |
| `MfaService.Service.MarkRecoveryCodeUsed` | identity/adapter/mfa_postgres.go:316-328 | turns one unused code used, or nothing |
| `MfaService.Service.MatchRecoveryCode` | identity/app/mfa.go:372-401 | a code that opens, of this member, or none while none does |
| `MfaService.Service.ConsumeRecoveryCode` | identity/app/mfa.go:314-331 | success spends exactly one matching code, refusal none; undisturbed, invalid exactly if no unused code opens |
| `MfaService.Service.VerifyLoginTotp` | identity/app/mfa.go:333-370 | success records the matched step, a refusal nothing, and each says whether the code verified against the row read |
| `MfaService.Service.RequireConfirmedEnrollment` | identity/app/mfa.go:261-274 | the confirmed row as committed when read; not enrolled exactly if there is none |
| `MfaService.Service.VerifyLoginCode` | identity/app/mfa.go:205-259 | under any interference a success spends exactly one credential and a refusal none; a recovery code is spent only if no TOTP code was given or it failed; an accepted step is on the enrollment read unless that was deleted meanwhile; what each refusal means; undisturbed, success exactly on a good code, by TOTP if that is good, and otherwise exactly the documented refusal |
| `MfaService.Service.VerifyTotpOrRecovery` | identity/app/mfa.go:276-312 | the step-up: a recovery code is spent only when the TOTP code is not valid, and undisturbed nothing is spent exactly when it is, and the reply is the documented one |
| `MfaService.Service.Disenroll` | identity/app/mfa.go:173-207 | success deletes the row after a step-up; under any interference a refusal has spent a code if and only if the step-up spent one and the delete that follows does not go through; undisturbed, if and only if the step-up passed by recovery code and the household is not the row's, and the reply is the documented one |
| `MfaService.WrongHouseholdSpendsTheCode` | identity/app/mfa.go:173-207 | any good recovery code with another household is in that case |
| `MfaService.CodeLostToWrongHousehold` | identity/app/mfa.go:173-207 | and a state in it is reachable |
| `MfaService.Service.DeleteEnrollment` | identity/adapter/mfa_postgres.go:257-271 | the row and all its codes go, or nothing does; it goes exactly if nothing breaks and, after others ran, the row seen is still there, free and the household's |
| `MfaService.Service.TakeRow` | identity/adapter/mfa_postgres.go:140-192 | what SELECT ... FOR UPDATE leads to, and the reply when it ends the call: the one the locked row gives, or a failure |
| `MfaService.Service.TryInsert` | identity/adapter/mfa_postgres.go:149-166 | what the INSERT leads to: the row pending its commit, or the reply for a lost race, an unknown member or a failure |
| `MfaService.Service.ConfirmEnrollmentWithCodes` | identity/adapter/mfa_postgres.go:194-254 | one confirmation with exactly these hashes, all unused, or no effect; undisturbed, the exact reply |
| `MfaService.Service.ConfirmEnrollment` | identity/app/mfa.go:119-171 | the codes shown are those stored, all unused, and each that verifies against its own hash opens a login; the secret confirmed is the one validated if and only if no other one was begun since the read; undisturbed, it is, success comes exactly when everything checks out, and otherwise exactly the documented refusal |
| `MfaService.ShownCodesOpen` | identity/app/mfa.go:138-171 | any code of an unused batch that verifies against its own stored hash opens a login |
| `MfaService.Service.BeginEnrollmentOnce` | identity/adapter/mfa_postgres.go:112-192 | one pending row with this secret or no effect; undisturbed, the exact reply |
| `MfaService.Service.BeginEnrollment` | identity/adapter/mfa_postgres.go:81-110 | the same with exactly one retry, after a lost insert race and no other reply; the retry finds a row, and left alone is answered by it |
| `RecoveryCode.GenerateRecoveryCode` | identity/domain/recovery_code_gen.go:42-57 | the loop prints the sixteen symbols in four dashed groups of four, which normalizes back to them |
| `RecoveryCode.SymbolsAreTheAlphabet` | identity/domain/recovery_code_gen.go:10-13 | the symbol ranges are Crockford's alphabet |
| `RecoveryCode.GroupLayout` | identity/domain/recovery_code_gen.go:15-25 | of five bytes, the i-th symbol is the alphabet's entry for the i-th five bits from the left |
| `RecoveryCode.DecodeEncode` | identity/domain/recovery_code_gen.go:15-25 | the base-32 text decodes to the bytes |
| `RecoveryCode.CodeRoundTrip` | identity/domain/recovery_code_gen.go:42-77 | for every ten bytes, normalizing the printed code gives sixteen symbols that decode to the bytes |
| `RecoveryCode.CodesDiffer` | identity/domain/recovery_code_gen.go:42-77 | different bytes stay different after normalizing |
| `RecoveryCode.NormalizeIdempotent` | identity/domain/recovery_code_gen.go:69-77 | normalizing twice is normalizing once |
| `RecoveryCode.FoldTable` | identity/domain/recovery_code_gen.go:59-81 | which character is read as which symbol, and which as none |
| `RecoveryCode.LowerCaseIsIgnored` | identity/domain/recovery_code_gen.go:59-77 | ASCII lower case is ignored |
| `RecoveryCode.LookAlikesAreIgnored` | identity/domain/recovery_code_gen.go:79-81 | O for 0 and I or L for 1, in either case, are ignored |
| `RecoveryCode.StrayIsIgnored` | identity/domain/recovery_code_gen.go:59-77 | an inserted character is ignored if and only if it does not fold to a symbol |
| `StorageKey.ClassRecovered` | media/adapter/photo_store_s3.go:379-385 | the listing's filter recovers exactly the class a key was built for |
| `StorageKey.FilterExactly` | media/adapter/photo_store_s3.go:379-385 | of all keys the filter takes exactly those under households/<anything>/<class> |
| `StorageKey.KeysAreDistinct` | media/adapter/photo_validation.go:217-243 | equal keys mean equal household, class, content and type |
| `StorageKey.KeyParts` | media/adapter/photo_validation.go:210-243 | a built key is exactly five plain parts, household first and content last: no class, sum or extension it accepts can add, drop or redirect one |
| `StorageKey.KeyBuilt` | media/adapter/photo_validation.go:210-254 | a key is built exactly for a registered class, sixty-four lower-case hexadecimal digits and one of the three types |
| `StorageKey.UuidsAdmitted` | media/adapter/photo_validation.go:230-242 | the usual text of any household id is admitted where a key takes one |
| `StorageKey.ClassNames` | media/domain/photo_class.go:27-52 | class names are a small letter followed by small letters, digits and underscores |
| `Uploads.StepKeepsInv` | media/app/photo_service.go:111-194 | every step of every upload and delete keeps rows backed and unique |
| `Uploads.RowsAreBacked` | media/app/photo_service.go:86-194 | every row's bytes are in the store its own backend names, and no household has two rows of one content |
| `Uploads.RowsHaveOwnKeys` | media/app/photo_service.go:86-160 | in any run every row refers to a key of its own household and content |
| `Uploads.PutKey` | media/app/photo_service.go:111-119 | a put succeeds exactly for a registered class and accepted bytes, under the key of the household, the class, the bytes' sum and their type |
| `Uploads.DeleteExactly` | media/app/photo_service.go:171-194 | a delete is the household's own, takes exactly that row, and leaves the bytes |
| `Uploads.EqualUploadsShareOneRow` | media/app/photo_service.go:94-160 | without deletes, uploads of equal bytes return one row, created by exactly one of them |
| `Uploads.LoserFindsWinner` | media/app/photo_service.go:148-157 | an upload beaten at the unique index always finds the winner's row |
| `Uploads.LoneUpload` | media/app/photo_service.go:111-160 | alone, an upload stores the bytes and creates the row, or returns the row there is as a duplicate |
| `Reaper.Survives` | media/app/reaper_service.go:28-58 | in any interleaving an object survives if all through its class's listing it is missing or within the grace window, or some source references it all through its recheck, or one source references it from before that listing ends |
| `Reaper.SurvivesThePass` | media/app/reaper_service.go:28-58 | from the worlds alone: an object one source references throughout the pass, or that is within the grace window throughout it, is there at the end |
| `Reaper.Service.Run` | media/app/reaper_service.go:142-174 | under any interference: every disappearance since the pass began is of an object whose class was listed in this pass with the object old in it, and which was rechecked after that without any one source referencing it throughout; a pass that answers has picked each class's candidates rightly, rechecked each once and in order, deleted exactly those it found free, and counted them; alone, it leaves exactly the non-orphans and counts what it deleted |
| `Reaper.OrphansGo` | media/app/reaper_service.go:142-174 | after a pass that answered, every object that was there and old all through its class's listing and that no source references in any world of the pass is missing from some world after that listing |
| `Reaper.Service.SweepClass` | media/app/reaper_service.go:150-172 | one class's listing and its candidates, each rechecked, and deleted and counted if free, whatever else runs |
| `Reaper.Service.SweepOne` | media/app/reaper_service.go:157-170 | one candidate: the recheck, and the delete unless it found a reference |
| `Reaper.Service.DryRun` | media/app/reaper_service.go:176-204 | nothing disappears; for every class the candidates a listing during the call could give, sure ones included, each once; alone, exactly the orphans Run would delete |
| `Reaper.NothingLeft` | media/app/reaper_service.go:142-174 | a second Run at the same time deletes nothing |
| `Reaper.SweepsAreSeparate` | media/app/reaper_service.go:149-172 | sweeping one class leaves another's orphans as they were |
| `Reaper.Service.OrphanCandidates` | media/app/reaper_service.go:206-230 | each once: only objects of the class that were there and old at some moment of the listing and are not in the snapshot, and every one of those that was so all through it |
| `Reaper.Service.ReferencedRefs` | media/app/reaper_service.go:232-255 | whatever interleaves, everything some source references all through the call, and nothing that no source references during it; alone, exactly what some source references |
| `Reaper.Service.ExistsByStorageRef` | media/app/reaper_service.go:257-272 | a no means every source was without the reference at some moment of the recheck; a yes, that one has it now |
| `Reaper.Service.ListObjects` | media/adapter/photo_store_s3.go:301-337 | page by page while others upload: each object once, as it stood at some moment of the listing, only the class's own, and every one of them that was there at the start |
| `Reaper.Service.DeleteObject` | media/adapter/photo_store_s3.go:253-263 | one justified deletion, whatever happens just before it and even if it reports a failure; after a success the object is gone |
| `Reaper.SourceRefsAre` | media/adapter/photo_postgres.go:145-175 | the bulk listing and the single-reference query agree |
| `ExifStrip.StripJpegExif` | media/adapter/exif_scrub.go:259-304 | the walk equals printing what is left after parsing and filtering |
| `ExifStrip.MarkersAreTheStandards` | media/adapter/exif_scrub.go:212-231 | the markers the walk treats apart are SOI, SOS, EOI, TEM and RST0 to RST7 of ITU-T T.81, section B.1.1.3 |
| `ExifStrip.ExifByItsBytes` | media/adapter/exif_scrub.go:306-315 | an EXIF segment is, byte for byte, 0xFF fill, 0xE1, a length, "Exif", NUL, NUL |
| `ExifStrip.LengthComesFirst` | media/adapter/exif_scrub.go:291-300 | a segment's length is two bytes, high byte first, that count themselves and the payload |
| `ExifStrip.ReadPrinted` | media/adapter/exif_scrub.go:268-300 | a printed segment is read back whatever follows it |
| `ExifStrip.ParseDecides` | media/adapter/exif_scrub.go:268-301 | parsing finds the one decomposition into well-formed segments and a tail, or there is none |
| `ExifStrip.RejectsExactlyMalformed` | media/adapter/exif_scrub.go:239-258 | it rejects exactly when there is none |
| `ExifStrip.OnlyExifGoes` | media/adapter/exif_scrub.go:233-258 | the output parses to the other segments and the same tail, with no EXIF segment left |
| `ExifStrip.StripsOnce` | media/adapter/exif_scrub.go:259-304 | stripping is idempotent |
| `ExifStrip.CleanIsUntouched` | media/adapter/exif_scrub.go:259-315 | a well-formed file without EXIF comes back byte for byte |
| `Orientation.ApplyOrientation` | media/adapter/exif_scrub.go:179-211 | every destination pixel, in bounds, is the documented source pixel |
| `Orientation.OneToOne` | media/adapter/exif_scrub.go:179-211 | source and destination grids correspond one to one |
| `Orientation.AsDocumented` | media/adapter/exif_scrub.go:170-178 | each orientation is the documented flip and quarter turns |
| `Orientation.UndoneByUndo` | media/adapter/exif_scrub.go:170-178 | 6 and 8 undo each other; 2, 3, 4, 5 and 7 undo themselves |
| `Conninfo.DbnameValueSpan` | db/dbtest/dbtest.go:292-312 | the loop's span is that of the last dbname piece of the string |
| `Conninfo.SkipConninfoSpace` | db/dbtest/dbtest.go:316-321 | stops at the first character that is not white space |
| `Conninfo.SpacesAre` | db/dbtest/dbtest.go:376-378 | white space is a blank, a tab, a line feed or a carriage return |
| `Conninfo.ScanConninfoKey` | db/dbtest/dbtest.go:326-332 | the key and where it ends: at the first '=' or white space |
| `Conninfo.KeyStops` | db/dbtest/dbtest.go:326-332 | the pieces' keys end at the first '=' or white space |
| `Conninfo.ScanConninfoValue` | db/dbtest/dbtest.go:337-342 | where the value ends, quoted or bare |
| `Conninfo.ScanQuotedConninfoValue` | db/dbtest/dbtest.go:348-362 | just after the first quote with an even number of backslashes before it, or at the end if there is none |
| `Conninfo.QuotedStopsAfterQuote` | db/dbtest/dbtest.go:348-362 | the pieces' quoted values end there too |
| `Conninfo.ScanBareConninfoValue` | db/dbtest/dbtest.go:366-374 | at the first white space with an even number of backslashes before it, or at the end |
| `Conninfo.BareStopsAtSpace` | db/dbtest/dbtest.go:366-374 | the pieces' bare values end there too |
| `Conninfo.ScanIsText` | db/dbtest/dbtest.go:283-312 | the pieces cover the string, losing nothing |
| `ConninfoEdit.RewriteSelects` | db/dbtest/dbtest.go:268-287 | re-read, the last dbname value of the rewritten string is, as text, the new name if and only if the value scanner stops where the name ends; then every other piece is unchanged and in order |
| `ConninfoEdit.PlainNameSelected` | db/dbtest/dbtest.go:268-287 | for a name without white space, quotes and backslashes, exactly when white space or the end follows the old value |
| `ConninfoEdit.SpacedNameMissed` | db/dbtest/dbtest.go:268-287 | a name with white space is never the one selected |
| `ConninfoEdit.DeriveDecides` | db/dbtest/dbtest.go:197-257 | derive answers if and only if the suffix is a non-empty identifier, the base is "test" or ends in "_test", the name has at most 63 characters and the string has a dbname value; otherwise the first of these that fails is the error |
| `ConninfoEdit.TextBehindQuoteFails` | db/dbtest/dbtest.go:268-287 | a DSN on the failing side: a quoted old name with text right behind its quote, whatever the new name |
| `ConninfoEdit.DerivedIsSelected` | db/dbtest/dbtest.go:219-258 | for every base name and suffix that derive accepts, the derived name is at most 63 characters, extends the base and is selected, as text, if and only if the value scanner stops at its end; on a plain base name only what follows the old value decides that, no suffix |
| `ConninfoEdit.SuffixesSeparate` | db/dbtest/dbtest.go:219-258 | suffixes that differ by more than case give different databases |
| `ConninfoEdit.LowersCapitals` | db/dbtest/dbtest.go:246-246 | ASCII capitals of a suffix become their small letters, everything else stays |
| `ConninfoNames.NameDenoted` | db/dbtest/dbtest.go:268-287 | whatever follows, the value read where a name is spliced in denotes that name if and only if the name has no white space, backslash or leading quote, and white space or the end follows |
| `ConninfoNames.RewriteNames` | db/dbtest/dbtest.go:268-287 | the rewritten string names the new database by the value put there if and only if that holds; if no other dbname occurs behind it, that decides which database the string names at all |
| `ConninfoNames.DerivedNames` | db/dbtest/dbtest.go:219-258 | the string derive returns names, by the value put there, the database derive returns if and only if the base name has no white space, backslash or leading quote, and white space or the end follows the old value; if no other dbname occurs behind it, that decides which database the string names at all |
| `ConninfoNames.LeadingQuoteNamesNothing` | db/dbtest/dbtest.go:268-287 | a name that opens with a quote, put at the end: selected as text, it denotes nothing |
| `ConninfoNames.BackslashNamesAnother` | db/dbtest/dbtest.go:268-287 | a name with a backslash: selected as text, it denotes the name without it |
| `ConninfoNames.QuotedBaseNamesNothing` | db/dbtest/dbtest.go:219-258 | for every suffix, a base string whose database opens with a quote is derived into one that names nothing |
| `ConninfoNames.SlashedBaseNamesAnother` | db/dbtest/dbtest.go:219-258 | for every suffix, a base string whose database has a backslash is derived into one that names another database |
| `ConninfoNames.NamedByAccident` | db/dbtest/dbtest.go:219-287 | a family of base strings on the failing side whose derived string names the derived database through a key from inside a later quoted value |
| `ConninfoCert.TwoPassesAreOne` | db/db.go:225-228 | the two replacement passes are one simultaneous escape |
| `ConninfoCert.UnescapeEscape` | db/db.go:225-229 | unescaping gives back the path |
| `ConninfoCert.StopsAtClosingQuote` | db/db.go:225-229 | the quoted scanner stops exactly at the appended closing quote |
| `ConninfoCert.CertDenotes` | db/db.go:225-229 | the appended quoted value denotes exactly the path, whatever is in it |
| `ConninfoCert.AppendsExactlyIfClean` | db/db.go:202-229 | sslrootcert and sslmode=verify-full come out as the last two pairs, all else unchanged, if and only if white space would end the DSN's last value |
| `ConninfoCert.OpenQuoteIsUnclean` | db/db.go:202-229 | a DSN on the failing side: one that leaves a quote open |
| `WebAuthn.Credentials.Create` | identity/adapter/webauthn_postgres.go:97-115 | a fresh row without a last use, unless the id is taken |
| `WebAuthn.Credentials.UpdateAfterAssertion` | identity/adapter/webauthn_postgres.go:264-298 | the guarded update; only a missing row is an error |
| `WebAuthn.FreshShowsGreatest` | identity/adapter/webauthn_postgres.go:246-281 | after any assertions on a fresh credential, the lexicographic maximum of the submitted pairs |
| `WebAuthn.OrderDoesNotMatter` | identity/adapter/webauthn_postgres.go:265-281 | any two orders of the same assertions leave the same row |
| `WebAuthn.NeverDecreases` | identity/adapter/webauthn_postgres.go:246-281 | the stored pair never goes back |

## Left out

- Times are integers counted from the zero instant; time.Time's range, its monotonic reading and Postgres's microsecond rounding are not modelled.
- The limiter's uint64 epoch counter does not wrap, and its list elements are positions in a sequence, so the O(1) cost of container/list is not part of the cost bound, which counts the elements expiry looks at.
- `LimiterRuns.Budget`: says nothing of a key that was ever refunded, since Refund is anonymous and deprecated.
- The limiter's mutex: each method is one atomic step.
- SQL text, pgx, goose, S3, the filesystem, image codecs and EXIF tag parsing; only the semantics the code relies on are modelled: atomic conditional updates, row and advisory locks held to the end of the transaction, snapshots fixed when a statement starts, unique indexes.
- Member writes, enrollment transactions and uploads are state machines over values rather than classes, because their theorems are about interleavings; update in place is not captured there.
- `OwnerProtocol.CommitWritesWhatWasAsked`: a role is one of the three there are; the refusal of an invalid one ahead of the transaction is not modelled.
- `OwnerProtocol.OwnerNeverLost`: transactions on a pool, not nested inside a caller's transaction; a unique-name violation and any other error is the abort step.
- `MfaStore.StepKeepsInv`: recovery code ids are numbered in insertion order, which stands for fresh random ids; a connection that fails after its commit took effect is not modelled.
- `MfaService.Service.VerifyLoginCode`: white-space trimming, decryption, TOTP matching and hash verification are parameters; throttling is the caller's, as the source says.
- `RecoveryCode.StrayIsIgnored`: upper-casing outside ASCII is modelled by the two characters whose upper case is an ASCII letter; invalid UTF-8 is not modelled.
- `Uploads.RowsAreBacked`: without a reaper; with one, a row that commits between a recheck and its delete loses its object, as the source warns.
- `Reaper.Service.ListObjects`: pages are any cut of the key space, each read at one moment; a page size and continuation tokens are not modelled.
- `Reaper.Service.constructor`: takes any distinct classes and any grace window; the error returns of NewReaperService for empty or invalid arguments are not modelled.
- `Reaper.Survives`: a re-upload of an old orphan after its class was listed is not protected, and the code does not protect it.
- `Orientation.ApplyOrientation`: colours are copied as they are; conversion to RGBA and re-encoding are not modelled.
- `ConninfoNames.DerivedNames`: takes the parsed, lower-cased base name as given; parsing by pgx and the URL form are not modelled. A value's escapes are read as libpq documents them, and a value that ends inside a quote or an escape denotes nothing.
- `ConninfoEdit.DerivedIsSelected`: speaks of the text selected; what that text denotes is `ConninfoNames.DerivedNames`.
- `ConninfoCert.AppendsExactlyIfClean`: the keyword/value form only; the URL form is a call into net/url.
- Configuration loaders, bootstrap, metrics, HTTP server and middleware, rendering, QR codes, caches and the UI: plumbing with easy members.
- `WebAuthn.Credentials.Create`: foreign-key errors for an unknown household or member are not modelled.
- WebAuthn ceremonies, password hashing, sessions and the storage migrator.
