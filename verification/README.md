# Verified model of the unified account center

The service signs users in by password, one-time code or external identity, hands out access
and refresh tokens, and keeps the stores behind them. This project models the stateful
protocols in that code and proves what they keep over whole runs.

Database tables are maps or sequences, Redis is a map with expiry instants, and time is a
nondecreasing integer in milliseconds. Hashes are injective, signatures verify only under the
key that made them, random ids and generated keys are fresh, and store operations succeed. A
service object whose methods change its tables is a class; its methods are proved to do to the
abstract state what the functions of the model do, and the theorems are about runs of those
functions. Each method also states, in terms of the stored rows and keys alone, when it succeeds
and what it leaves changed. (`Accounts.Directory.Bind` equals its step for a caller who exists, as
the bearer of an access token does.)

| file | what it models |
|---|---|
| `Common.dfy`, `Spaces.dfy` | options, results, the clock; trimming of texts |
| `Redis.dfy`, `FixedWindow.dfy` | counters with an expiry and the fixed-window limiter built on them |
| `RiskLock.dfy` | login failures, the timed lock, and how many `Verify` calls they let fail; a password login has a counter of its own inside `Verify` (10 in 15 minutes), which is not modelled |
| `OtpSend.dfy`, `OtpPeak.dfy`, `OtpVerify.dfy` | sending one-time codes under four counters and a cooldown, and the exact most they allow in an hour; verifying them under races |
| `Sessions.dfy` | refresh tokens: the serial calls, and every interleaving of their single store operations |
| `AccessTokens.dfy` | blacklists, user versions, introspection and the request filter |
| `JwkCodec.dfy`, `KeyRing.dfy`, `KeyFiles.dfy`, `JwksCache.dfy` | signing keys: publication, rotation, the files they live in, the SDK's cache of them |
| `Accounts.dfy` | who owns an identity: registration, bind, unbind, merge |
| `PasswordHistory.dfy`, `BackupCodes.dfy`, `Webhooks.dfy` | reuse of passwords, spending of backup codes, delivery retries |

Where the code does not do what its documentation or a first reading suggests:

- The limiter lets up to `2L - 1` calls through in one window length, and reaches that number
  (`FixedWindow.BoundIsTight`); it keeps to `L` exactly when `L <= 1` or the window is at most
  one tick (`FixedWindow.AtMostLimitIff`).
- One identity can be sent 19 codes of one method within an hour, although the hourly limit is
  10, exactly when the daily limit is 10 or more and the resend interval 199 seconds or less
  (`OtpPeak.NineteenIff`). For every configuration the most is the least of 19, twice the daily
  limit, and what the interval fits into an hour (`OtpPeak.PeakBound`, `OtpPeak.PeakIsReached`).
- The revocation endpoint believes the client's hint: an access token posted as a
  `refresh_token` is refused ever after only if it was dead already
  (`AccessTokens.RevocationIsFinalIff`, `AccessTokens.RefreshHintSparesAccessToken`).
- A one-time code is single-use only while calls on it do not overlap
  (`OtpVerify.SingleUseIffSerial`); with `k` overlapping calls, `k` may succeed.
- The lock does not stop failures at the limit `F`: with window `W` and lock time `L` an identity
  can fail `F + ceil(W / L)` times in one counter window, and every configuration reaches that
  number, from any address (`RiskLock.BoundIsReached`).
- A forced logout also rejects tokens issued after it, exactly until its time limit lapses
  (`AccessTokens.ForceLogoutShutsOutNewTokens`).
- A merge does not look at its target's status, and binding does not look at the caller's. The
  owners of identities all stay active through a run exactly when no merge moves an identity to
  a disabled user and no disabled user binds one (`Accounts.OwnersStayActiveIff`); a run that
  loses an identity is `Accounts.DisabledTargetLocksOut`.
- A kid is trimmed when read back but not when written, so the files rebuild the ring exactly
  when the new kid has no surrounding space (`KeyFiles.RotationReloadsIff`); otherwise the next
  start takes another kid, or fails (`KeyFiles.UntrimmedKidIsLost`).
- A kid may be used again for another key. The SDK's cache then answers with the old key exactly
  until it fetches again, at most CacheTTL later (`JwksCache.AnsweredRightlyIff`,
  `JwksCache.WrongAnswersAreShort`, `JwksCache.ReusedKidAnswersOldKey`).
- A webhook row whose process stops before its first attempt stays pending for good: flushes
  only look at rows that already wait for a retry (`Webhooks.PendingIffNeverTried`,
  `Webhooks.PendingIsStuck`).

## Model

| member | source | states |
|---|---|---|
| Redis.Client.Allow | internal/pkg/redisx/redisx.go:35-58 | one limiter call: the counter starts its expiry with the first hit only, the call passes iff the new count is within the limit, and a refusal names the remaining seconds, or the whole window if less than one is left |
| Redis.Client.SetNX | internal/pkg/redisx/redisx.go:60-62 | sets the key with its time limit iff no live key was there, and otherwise changes nothing |
| FixedWindow.CounterCountsWindow | internal/pkg/redisx/redisx.go:35-58 | after any calls the counter is the number of calls since the window opened, and it dies one window after the opening call |
| FixedWindow.WindowAdmitsExactlyLimit | internal/pkg/redisx/redisx.go:35-58 | every counter window lets exactly min(calls, limit) calls through, for every limit including negative ones |
| FixedWindow.AtMostTwiceLimitLessOne | internal/pkg/redisx/redisx.go:35-58 | no half-open interval of one window length lets more than 2 * limit - 1 calls through, for all nondecreasing call times |
| FixedWindow.BoundIsTight | internal/pkg/redisx/redisx.go:35-58 | for every limit and every window of two ticks or more some call times reach that bound |
| FixedWindow.AtMostLimitIff | internal/pkg/redisx/redisx.go:35-58 | every interval of one window length is held to the limit itself iff the limit is at most one or the window at most one tick |
| RiskLock.Guard.AssertNotLocked | internal/service/risk.go:15-31 | refused as rate limited iff the identity or the address has a live lock |
| RiskLock.Guard.NoteLoginFailure | internal/service/risk.go:33-60 | counts the failure for identity and address, each in its own window, and locks whichever went over the limit |
| RiskLock.Guard.ClearLoginFailures | internal/service/risk.go:62-70 | removes the two locks and leaves the counters |
| RiskLock.Guard.AdminUnlock | internal/service/merge.go:199-211 | an administrator deletes one lock, and nothing for an unknown kind or an empty subject |
| RiskLock.Guard.Login | internal/service/auth_service.go:201-334 | the lock handling of one login: Verify is reached iff nothing is locked; a failed Verify counts, a success clears, anything between does neither |
| RiskLock.FailuresPerWindowBounded | internal/service/risk.go:15-60 | in every serial run an identity's failed Verify calls in one counter window are at most F + ceil(W / L) plus the administrator unlocks in it, whatever other identities and addresses do |
| RiskLock.Guard.Check | internal/service/risk.go:36-57 | the count, its window, the limit and the lock time of one subject, each from its own setting or its default |
| RiskLock.FailuresInSettings | internal/service/risk.go:33-60 | the same bound in the settings: lock_after_failures + ceil(lock_window / lock_duration), and 11 by default |
| RiskLock.WindowIsPaced | internal/service/risk.go:33-60 | the invariant behind it: beyond the limit every failure but the first has cost a whole lock time or an unlock, and the last one's lock is over or still on |
| RiskLock.BoundIsReached | internal/service/risk.go:15-60 | for every configuration, identity and address a run without unlocks makes exactly F + ceil(W / L) failures in one window |
| RiskLock.StepForOthers | internal/service/risk.go:15-70 | calls for other identities change neither this identity's counter nor its live lock |
| OtpSend.Sender.Challenge | internal/authenticator/otp.go:79-178 | spends the four counters and the cooldown in order, stops at the first refusal keeping what was spent, and inserts a row iff every counter had room (10 and the daily limit per identity, 30 and the daily limit per address) and no cooldown was on, even when delivery then fails |
| OtpSend.AddressHourlyBound | internal/authenticator/otp.go:97-107 | no run creates more than 59 challenges from one address in any interval of an hour |
| OtpSend.DailyBoundsInSettings | internal/authenticator/otp.go:109-131 | on every UTC day an identity and an address each keep to their own configured limit, or to 20 and 50 |
| OtpSend.HourlyBound | internal/authenticator/otp.go:88-107 | no run creates more than 19 challenges for an identity in any interval of an hour |
| OtpSend.DailyBound | internal/authenticator/otp.go:109-120 | on every UTC day an identity gets at most its daily limit of challenges, over both code methods |
| OtpSend.DayKeyCountsDay | internal/authenticator/otp.go:109-120 | why: the day's key never expires inside its day, and bounds the challenges created that day, although refused calls move it too |
| OtpSend.ResendsAreSpaced | internal/authenticator/otp.go:133-142 | two challenges of one method and identity are at least the resend interval apart |
| OtpSend.HourKeyReplaysTimes | internal/authenticator/otp.go:88-107 | the hourly key sees every call of the identity, refused or not, and no other identity's |
| OtpPeak.PeakBound | internal/authenticator/otp.go:88-142 | in any hour of any run an identity gets at most min(19, 2 * daily limit, ceil(3600 / resend interval)) challenges of one method |
| OtpPeak.PeakIsReached | internal/authenticator/otp.go:88-142 | for every configuration, method and identity a run through all four counters and the cooldown reaches that number |
| OtpPeak.NineteenIff | internal/authenticator/otp.go:88-142 | nineteen within an hour are possible iff the daily limit is 10 or more and the resend interval 199 seconds or less |
| OtpPeak.TwoDaysBound | internal/authenticator/otp.go:109-120 | an hour touches two UTC days, so both methods together get at most twice the daily limit in it |
| OtpVerify.Challenges.Verify | internal/authenticator/otp.go:180-234 | succeeds iff the challenge exists, method and identity agree, client and scene agree where both are set, it is neither used, expired nor out of tries, and the code is its own; counts a try iff only the code is wrong; writes nothing otherwise |
| OtpVerify.OverlapBounds | internal/authenticator/otp.go:191-225 | with at most k calls under way at once, the try count plus wrong codes about to be counted never exceeds MaxTries - 1 + k, and at most k calls succeed |
| OtpVerify.SuccessNeedsRightCall | internal/authenticator/otp.go:180-234 | in every run, however calls overlap, nothing succeeds unless some call presented the row's own code, in time, for its method, identity, client and scene |
| OtpVerify.RightCallSucceeds | internal/authenticator/otp.go:217-225 | such a call on an open challenge, run by itself, does succeed and uses the challenge up |
| OtpVerify.SerialBounds | internal/authenticator/otp.go:191-225 | one call at a time: at most MaxTries wrong codes are counted and at most one call succeeds |
| OtpVerify.SingleUseIffSerial | internal/authenticator/otp.go:200-225 | a code is single-use in every run with at most k calls under way iff k <= 1 |
| OtpVerify.SerialVerifyIsBeginFinish | internal/repository/impl.go:254-264 | the uninterrupted call is its reading half followed at once by its writing half |
| Sessions.TokenService.ConsumeActive | internal/repository/impl.go:368-376 | compare-and-set: wins iff the row is there and active, and only then revokes it |
| Sessions.TokenService.RevokeAllByUser | internal/repository/impl.go:345-351 | revokes exactly the user's active rows, in one app or everywhere, and keeps older revocation times |
| Sessions.TokenService.RevokeOthers | internal/repository/impl.go:353-360 | the same, sparing the one session named |
| Sessions.TokenService.RevokeByClient | internal/service/admin_ops.go:132-134 | revokes exactly the app's active rows |
| Sessions.TokenService.RevokeOtherSessions | internal/service/hosted.go:216-229 | ends every other session of the caller in this app, and refuses an empty current one |
| Sessions.TokenService.SetUserStatus | internal/service/admin_ops.go:173-202 | switches the user and, when disabling, ends every session of theirs and nobody else's |
| Sessions.TokenService.Refresh | internal/service/auth_service.go:346-406 | succeeds iff the row is there, of the caller's app, active, in time and its user known and enabled; a success revokes the row, adds a successor with its user and device and keeps every other row; a revoked row of the app revokes the user's active rows there; every other refusal writes nothing; and which error each refusal gives |
| Sessions.TokenService.Logout | internal/service/auth_service.go:413-421 | the refresh half of a logout: revokes everything of the user in the app, or the presented token, or nothing |
| Sessions.TokenService.RevokeSession | internal/service/hosted.go:197-214 | revokes one session of the caller's own in this app, and reports anything else as not found |
| Sessions.FamilyHasOneHolder | internal/service/auth_service.go:346-406 | under every interleaving of logins, refreshes and revocations, a login's lineage has at most one active row or refresh that won and has not inserted |
| Sessions.TokenExchangedAtMostOnce | internal/repository/impl.go:368-376 | under every interleaving a refresh token has at most one successor |
| Sessions.StepKeepsInv | internal/service/auth_service.go:356-398 | each single store operation keeps the invariant: one holder per lineage, one successor per token, no successor of a token still held |
| Sessions.ConsumeConservesHolders | internal/repository/impl.go:368-376 | winning the compare-and-set keeps the number of active rows plus winners of every lineage |
| Sessions.InsertConservesHolders | internal/service/auth_service.go:396-398 | inserting the successor keeps that number too |
| Sessions.ReuseIsContained | internal/service/auth_service.go:366-370 | after a revoked token is presented, every token of that user and app active later comes, rotation by rotation, from a later login or from a refresh that had already won |
| Sessions.RevocationIsContained | internal/repository/impl.go:345-360 | the same from any bulk revocation on: logging out everywhere, disabling a user, a forced logout, a password change, a rotated app secret |
| Sessions.SerialReuseIsContained | internal/service/auth_service.go:366-370 | with no other refresh under way, no earlier token survives: the rotations start at a later login |
| Sessions.SerialRefreshIsFiveSteps | internal/service/auth_service.go:346-406 | the uninterrupted refresh is the same five store operations of the interleaved system with nothing in between |
| Sessions.RefreshSucceedsIff | internal/service/auth_service.go:356-398 | exactly when a refresh succeeds, and that nothing else becomes or stays active but what was |
| Sessions.ReplayRevokesEverything | internal/service/auth_service.go:366-370 | presenting an exchanged token again is refused, leaves the user nothing active in that app, its own successor included, and touches no other user or app |
| AccessTokens.Gate.Introspect | internal/service/auth_service.go:505-539 | active iff the token is one of this service's, alive, on neither blacklist and not behind its user's version |
| AccessTokens.Gate.UserAuth | internal/middleware/middleware.go:79-131 | accepts iff introspection says active and the client header and forced-password checks pass |
| AccessTokens.Gate.IssueAccess | internal/service/auth_service.go:1011-1031 | the claims of a new access token, with the version its user has now |
| AccessTokens.Gate.Logout | internal/service/auth_service.go:408-426 | revokes the refresh tokens named and blacklists the caller's own access token for the rest of its life |
| AccessTokens.Gate.RevokeToken | internal/service/auth_service.go:429-450 | blacklists a live access token for the rest of its life unless the hint calls it a refresh token, revokes a refresh token whatever the hint, and does nothing for any other text |
| AccessTokens.Gate.ForceLogout | internal/service/admin_ops.go:204-224 | an unknown user is not found; else revokes the user's refresh tokens in the app or everywhere, bumps the version and blacklists the user for the access token lifetime |
| AccessTokens.RefreshRunIsSessionsRun | internal/service/auth_service.go:408-450 | in any run of these operations the refresh tokens go through a run of their own system, so its theorems hold beside the access tokens |
| AccessTokens.UsableIff | internal/service/auth_service.go:505-522 | in every reachable state the expiring blacklist and the versions decide as a permanent record would |
| AccessTokens.LogoutIsFinal | internal/service/auth_service.go:422-424 | a token logged out is refused at every later moment of every run |
| AccessTokens.RevocationIsFinalIff | internal/service/auth_service.go:429-450 | in every reachable state an access token handed to RevokeToken is refused at every later moment of every run iff the hint is not "refresh_token" or it was dead already: expired, blacklisted, behind its user's version, or shut out with its user until it expires |
| AccessTokens.RefreshHintSparesAccessToken | internal/service/auth_service.go:434-445 | the failing input: a live access token posted with that hint goes on working |
| AccessTokens.RefreshRevocationIsFinal | internal/service/auth_service.go:446-448 | a refresh token handed to it is inactive ever after, whatever the hint |
| AccessTokens.BumpIsFinal | internal/pkg/redisx/redisx.go:73-84 | a version bump ends for good every token whose version was read before it, even one signed after |
| AccessTokens.ForceLogoutShutsOutNewTokens | internal/service/admin_ops.go:204-224 | a token issued right after a forced logout is refused exactly until the time limit lapses |
| AccessTokens.VersionsOnlyGrow | internal/pkg/redisx/redisx.go:73-84 | no event lowers a user's version, and a bump raises it by one |
| JwkCodec.JwkToRSA | sdk/go/uac/jwks_middleware.go:169-183 | the folding loop returns the big-endian value of the bytes, the exponent wrapped to 64 bits, or an error for text that does not decode |
| JwkCodec.FoldWraps | sdk/go/uac/jwks_middleware.go:176-181 | folding with wrap-around at every byte is wrapping the exact value once |
| JwkCodec.BytesRoundTrip | internal/pkg/jwtutil/jwtutil.go:495-504 | minimal big-endian bytes fold back to their number and have no leading zero |
| JwkCodec.BytesAreCanonical | internal/pkg/jwtutil/jwtutil.go:495-504 | conversely, bytes without a leading zero are the ones published for their number |
| JwkCodec.PublishRoundTripIff | internal/pkg/jwtutil/jwtutil.go:495-504 | publishing then decoding is the identity iff the 64-bit exponent is not negative or is the smallest one, so every key that RSA parsing lets in comes back |
| KeyRing.Manager.SetPreviousRSA | internal/pkg/jwtutil/jwtutil.go:92-114 | when the previous key is accepted, which public half is taken, and that a refusal changes nothing |
| KeyRing.Manager.RotateRSA | internal/pkg/jwtutil/jwtutil.go:126-151 | the new key signs, the old one only verifies, the kid may not repeat the current one, and a refusal changes nothing |
| KeyRing.Manager.KeyFunc | internal/pkg/jwtutil/jwtutil.go:462-477 | which key a kid selects, an empty one selecting the current key |
| KeyRing.Manager.JWKS | internal/pkg/jwtutil/jwtutil.go:479-493 | the published set, in order |
| KeyRing.RunsStaySound | internal/pkg/jwtutil/jwtutil.go:92-151 | through any run kids are set and differ, and an old key is present exactly with its kid |
| KeyRing.PublishedIsWhatVerifies | internal/pkg/jwtutil/jwtutil.go:462-493 | a key is published under a kid iff tokens with that kid are checked against it |
| KeyRing.SignerIsPublished | internal/pkg/jwtutil/jwtutil.go:339-352 | the signing key is published under the kid it signs with and verifies its own tokens |
| KeyRing.TokenLivesUntilGone | internal/pkg/jwtutil/jwtutil.go:92-151 | a key verifies its tokens through any run until a second rotation, or until it is cleared or replaced after the first |
| KeyRing.TokenVerifiesIffNotGone | internal/pkg/jwtutil/jwtutil.go:92-151 | and, unless someone brings the key back, no longer than that |
| KeyFiles.SiblingsAreDistinct | internal/pkg/jwtutil/jwtutil.go:270-280 | derived previous paths never run together: a sibling is not its own key file, and different key files have different siblings, with or without extensions |
| KeyFiles.Disk.BuildJWT | internal/app/app.go:160-214 | start-up: HS256 touches no file; else keys and kids read or generated, the kid written back, the previous key and its kid found in their order of preference |
| KeyFiles.KeyAdmin.RotateJWTKeys | internal/service/admin_jwt.go:56-104 | the ring and every file after a rotation; a refusal leaves both alone |
| KeyFiles.KeyAdmin.RetireJWTPrevious | internal/service/admin_jwt.go:106-131 | clears the previous key and removes its four files |
| KeyFiles.BootTakesCurrent | internal/app/app.go:167-176 | the signing key is the one on disk or a new one written there, and its kid the one on disk or the configured one, written back |
| KeyFiles.BootTakesPrevious | internal/app/app.go:177-212 | whatever half of a previous key is on disk comes up as the previous key under its kid, and a start fails only over one |
| KeyFiles.Disk.LoadPreviousKey | internal/app/app.go:186-199 | the previous private key if there is one, else the previous public key alone |
| KeyFiles.RotationWritesAll | internal/service/admin_jwt.go:76-92 | a rotation leaves both halves of the new key and of the one it replaced on disk, each with its kid, and no other file changed |
| KeyFiles.DiskRebuildsRing | internal/app/app.go:160-214 | after any sequence of rotations, retirements and restarts, starting on the files rebuilds exactly the ring in memory and changes no file |
| KeyFiles.RotationReloadsIff | internal/service/admin_jwt.go:56-104 | after a successful rotation the files rebuild the ring iff the new kid has no surrounding space |
| KeyFiles.UntrimmedKidIsLost | internal/pkg/jwtutil/jwtutil.go:507-527 | with such a space the next start comes up under the trimmed, the configured or the default kid, never the one in memory, and fails iff that is the kid the rotation replaced |
| KeyFiles.BootIsGood | internal/app/app.go:160-214 | a start from any files leaves files from which the next start gives the same ring |
| KeyFiles.RetirementReloads | internal/service/admin_jwt.go:106-131 | retirement keeps that property |
| JwksCache.Verifier.Refresh | sdk/go/uac/jwks_middleware.go:62-95 | replaces the cache by the entries that decode, and leaves keys and fetch time alone when the server is unreachable or nothing decodes |
| JwksCache.Verifier.KeyFor | sdk/go/uac/jwks_middleware.go:97-121 | a cached kid in date is answered from the cache; an outage keeps the cache and answers what it holds, whatever its age; otherwise the document decides, and without a kid any of its keys will do |
| JwksCache.LastEntryWins | sdk/go/uac/jwks_middleware.go:80-87 | of several entries of a kid the last that decodes counts |
| JwksCache.KeyHasEntry | sdk/go/uac/jwks_middleware.go:80-87 | every key kept comes from such an entry |
| JwksCache.OutageAnswersCached | sdk/go/uac/jwks_middleware.go:97-121 | over any run, during an outage a query is answered exactly by what is cached, and that was published under its kid at the last fetch or later |
| JwksCache.DocumentDecodes | sdk/go/uac/jwks_middleware.go:62-95 | decoding the published document gives the server's kid-to-key map |
| JwksCache.AnsweredRightlyIff | sdk/go/uac/jwks_middleware.go:97-121 | over any run of rotations, retirements and outages, kids reused or not, a published kid is answered with the server's key for it and no other iff the query fetches, or has the kid cached by a fetch that came after the kid got that key |
| JwksCache.WrongAnswersAreShort | sdk/go/uac/jwks_middleware.go:97-121 | while the server can be reached, a wrong answer comes at most CacheTTL after the kid changed keys |
| JwksCache.PublishedKidIsAnswered | sdk/go/uac/jwks_middleware.go:97-121 | with kids never reused the answer is right, whatever the cache age, iff the server can be reached or the kid is cached |
| JwksCache.AnswersAreFresh | sdk/go/uac/jwks_middleware.go:97-121 | while the server can be reached, an answer was published, under the kid asked for, at some moment of the last CacheTTL, kids reused or not |
| JwksCache.ReusedKidAnswersOldKey | internal/pkg/jwtutil/jwtutil.go:126-151 | the failing run, for any two kids and any CacheTTL: a kid queried, given up and taken again is answered with the replaced key only |
| Accounts.Directory.ResolveUser | internal/service/auth_service.go:865-948 | finds the owner, refuses a disabled one, registers an unknown identity where allowed, and changes nothing otherwise |
| Accounts.Directory.Bind | internal/service/auth_service.go:593-631 | attaches an unowned identity, accepts one already the caller's, refuses one of somebody else's |
| Accounts.Directory.Unbind | internal/service/auth_service.go:640-701 | removes one identity that the request names iff the user keeps another; succeeds iff such an identity exists |
| Accounts.Directory.InheritCredential | internal/service/merge.go:148-163 | the target keeps its own second factor and its password if it had one; the source's row is gone |
| Accounts.Directory.MergeUsers | internal/service/merge.go:113-180 | the whole state after a merge, or the error and the old state |
| Accounts.MergeConserves | internal/service/merge.go:113-180 | a merge conserves identities, moves all of the source's to the target, disables and empties the source, ends its sessions, keeps the target's password if it had one, and touches no third user |
| Accounts.MergeMovesLinks | internal/service/merge.go:136-147 | no identity, external account or passkey names the source afterwards, and none of anyone else's moves |
| Accounts.LoginThroughMerge | internal/service/merge.go:148-161 | afterwards the source's identities log in by the password that survived iff the target is active |
| Accounts.OwnerIsPushed | internal/service/merge.go:136-139 | until it is unbound an identity's owner is its earlier owner pushed through the merges in order |
| Accounts.FirstOwnerIsPushed | internal/service/auth_service.go:593-616 | from its registration or bind on that is its first owner |
| Accounts.CommonOwnerIsKept | internal/service/merge.go:136-139 | two identities with one owner keep a common owner until one is unbound |
| Accounts.NobodyIsStranded | internal/service/auth_service.go:640-701 | in every serial run from the empty store each user not merged away owns an identity, and each identity belongs to a user there is |
| Accounts.ActiveIffNotMergedAway | internal/service/merge.go:166-171 | through any run of these operations a user is active iff it was not disabled before and was never the source of a merge |
| Accounts.OwnerActiveIff | internal/service/auth_service.go:866-890 | in every run from the empty store an identity's owner is active, and so may log in, iff it was never the source of a merge |
| Accounts.OwnersStayActiveIff | internal/service/merge.go:113-139 | every owner is active throughout a run iff no step of it merges an identity into a disabled target or binds one to a disabled caller |
| Accounts.DisabledTargetLocksOut | internal/service/merge.go:113-139 | the failing run: a merged into b, then c into the disabled a, after which no password logs in by c's identity |
| PasswordHistory.Passwords.AssertPasswordNotReused | internal/service/auth_service.go:1156-1182 | the loop over the listed hashes accepts iff neither the current hash nor one of the newest n verifies |
| PasswordHistory.Passwords.Trim | internal/repository/impl.go:163-176 | keeps exactly the newest rows of the user, in order, and nobody else's are touched |
| PasswordHistory.Passwords.SetPassword | internal/service/auth_service.go:708-749 | what an accepted and a refused attempt do to the credential, the history, the refresh tokens in the app and, if the change was overdue, the user's version |
| PasswordHistory.Passwords.ResetPasswordConfirm | internal/service/auth_service.go:809-837 | the same for a reset, which bumps no version; an unbound identity is not found |
| PasswordHistory.TableIsWindow | internal/service/auth_service.go:1184-1193 | after any run the table is the last n replaced hashes in order and the credential is the last accepted one |
| PasswordHistory.AcceptedIffNotRecent | internal/service/auth_service.go:1156-1182 | after any run an attempt succeeds iff its password is not one of the user's last n + 1 |
| PasswordHistory.ConsecutiveDiffer | internal/service/auth_service.go:816-833 | any n + 2 consecutive passwords of a user are pairwise different |
| PasswordHistory.HistoryOff | internal/service/auth_service.go:1184-1193 | with a count of zero or less nothing is recorded and nothing refused |
| BackupCodes.Mfa.VerifyMFACode | internal/service/mfa.go:184-210 | a one-time password spends nothing; otherwise the loop with its flag removes one hash and accepts iff there was one |
| BackupCodes.Mfa.GenerateBackupCodes | internal/service/mfa.go:236-250 | one hash for each drawn code, in order |
| BackupCodes.Mfa.Enable | internal/service/mfa.go:91-111 | eight hashes replace whatever was there, iff setup was done and the one-time password is right |
| BackupCodes.RemovesFirstOccurrence | internal/service/mfa.go:193-203 | the scan drops exactly the first occurrence and keeps the order of the rest |
| BackupCodes.RemovesOneOccurrence | internal/service/mfa.go:193-203 | counted with multiplicity it removes that one hash and nothing else |
| BackupCodes.CodesAreConserved | internal/service/mfa.go:184-210 | through any run, with disabling and enabling again, remaining and accepted codes are together exactly those last issued |
| BackupCodes.AlwaysEight | internal/service/mfa.go:91-111 | while the second factor is on, accepted codes and remaining hashes total eight |
| BackupCodes.AcceptedIffUnspent | internal/service/mfa.go:184-210 | a backup code is accepted iff it was issued more often than it was spent |
| Webhooks.Bus.MarkFail | internal/pkg/webhook/bus.go:180-201 | counts the attempt and kills the row at its last one, else schedules the next after min(attempts, 5) doublings |
| Webhooks.Bus.Deliver | internal/pkg/webhook/bus.go:131-178 | a 2xx answer delivers the row; any other one kills it at the endpoint's limit, or five, and else schedules the next attempt; no other row moves |
| Webhooks.Bus.FlushRetries | internal/pkg/webhook/bus.go:203-224 | services exactly the batch of due rows, killing those whose endpoint is gone or disabled; the answers of the others may come in any order |
| Webhooks.Bus.ReplayDelivery | internal/pkg/webhook/bus.go:255-278 | opens a fresh pending row for any old delivery whose endpoint exists and leaves the old row |
| Webhooks.BatchIsLowest | internal/pkg/webhook/bus.go:207-210 | a batch passes over no due row for a later one |
| Webhooks.AttemptsAreBounded | internal/pkg/webhook/bus.go:180-201 | if no endpoint is ever set above M attempts, no row is ever attempted more than M times |
| Webhooks.OutcomeIff | internal/pkg/webhook/bus.go:131-224 | after every run a row is delivered iff some attempt on it was answered 2xx, and dead iff a failed answer met the limit then in force or a flush found its endpoint gone or disabled |
| Webhooks.AttemptsAreCounted | internal/pkg/webhook/bus.go:167-201 | after every run a row's counter is the number of attempts made on it |
| Webhooks.FinalIsFinal | internal/pkg/webhook/bus.go:131-224 | a delivered or dead row never changes again |
| Webhooks.FlushSpendsFuel | internal/pkg/webhook/bus.go:203-224 | the attempts left over all waiting rows fall by at least the number of rows a flush takes up |
| Webhooks.BacklogDrains | internal/pkg/webhook/bus.go:39-54 | for every schedule of flushes at most g apart, answers in before the next one, a closed backlog is empty after depth + fuel / 50 + 1 rounds of 32 s + 2g: depth is the most attempts one row has left, fuel the attempts left in all |
| Webhooks.RoundsDrain | internal/pkg/webhook/bus.go:203-224 | the invariant behind it: in a round either some batch is full, which costs fifty attempts, or every waiting row has its turn |
| Webhooks.PendingIffNeverTried | internal/pkg/webhook/bus.go:207-210 | after any run a row is pending iff its first attempt never ran after it was opened |
| Webhooks.PendingIsStuck | internal/pkg/webhook/bus.go:207-210 | a pending row is the same after any number of flushes and other rows' events |
| Webhooks.TotalDelayIsBounded | internal/pkg/webhook/bus.go:187-200 | the delays of one row total at most 2^M - 2 seconds, or 62 + 32 * (M - 6) beyond six attempts, and exactly that for a row dying of its M-th failure |

## Left out

- Token names: a token is named by its jti; drawing random tokens and hashing them is taken as an injection.
- Sub-millisecond expiries: the clock ticks in milliseconds and time limits are whole ticks.
- Failing stores and crashes: a database or Redis error, and a stop midway through a key rotation, do not occur.
- RiskLock.FailuresPerWindowBounded: runs of serial logins; logins that overlap between the lock check and the failure count are not modelled, nor are the failures noted by the second-factor endpoint.
- The password authenticator's own failure counter (10 failures in 15 minutes, answered without comparing the password), and alerts and device notices around logins.
- OtpSend.HourlyBound: the sharper limits of the per-address counters and the tenant quota are not stated; the counters themselves are modelled.
- AccessTokens.BumpIsFinal: speaks of user tokens; machine and admin tokens are not part of this model.
- AccessTokens.RevocationIsFinalIff: events carry their own times, which need not be in order; the texts of access and refresh tokens are distinct.
- Accounts.NobodyIsStranded: serial operations; overlapping unbinds of one user, users created by administrators, join requests or SAML, and users left by a partly failed registration are not covered.
- Accounts.OwnersStayActiveIff: an administrator's own disabling and enabling of users is not an event of these runs.
- Accounts.MergeConserves: access tokens of the source issued before the merge are not revoked by the code and not modelled here.
- JwksCache.AnswersAreFresh: says nothing of outages, which JwksCache.OutageAnswersCached covers; a fetch reads the published set at one instant, concurrent fetches and server restarts are not modelled, and exponents are below 2^63 and not negative.
- JwksCache.AnsweredRightlyIff: rotations bring a key generated for them, never one used before, as the rotation endpoint does.
- KeyFiles.DiskRebuildsRing: the configured paths are distinct, kids carry no surrounding space and writes succeed; a kid file that holds a key block reads as empty.
- PasswordHistory.ConsecutiveDiffer: passwords set by an administrator for a new account or taken over in a merge bypass the history in the code and are not attempts here.
- PasswordHistory.Passwords.SetPassword: the app lookup, step-up and password rules before the history check are one flag.
- BackupCodes.AcceptedIffUnspent: calls for one user do not overlap; two overlapping calls could spend one code twice.
- Webhooks.Bus.FlushRetries: attempts on one row do not overlap; the code may pick a row again whose answer is not in by the next flush.
- Webhooks.BacklogDrains: for the same reason answers are in before the next flush, and no new rows arrive.
- Emitting events to matching endpoints, signing of payloads, and the HTTP exchange, which is a reply parameter.
- Cryptography, base64, JWT parsing, one-time password validation and WebAuthn: ideal functions or flags.
- HTTP handlers, SQL, user interfaces, OAuth and message adapters, SAML, access rules, dashboards, audit and pagination: no invariant of their own, or settled by reading one function.
