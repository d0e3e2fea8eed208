# StellarMesh SDK: verified models of five components

Dafny models of the parts of the SDK that hold state across calls, with proofs of what they are relied on for.
`dafny verify dfyconfig.toml` checks everything.

| files | component |
|---|---|
| `SessionKeys`, `SessionIdentity`, `SessionScript`, `SessionRefinement`, `SessionRuns`, `SessionCorruption`, `SessionStore`, `Base64Url` | the Redis session store of the Go gateway |
| `AuthProtocol`, `AuthSafety`, `AuthRecovery`, `HttpCalls`, `HttpRefinement` | session recovery, retries and streams in the browser client |
| `LogSanitizer`, `LogSafety`, `LogEquivalence`, `LogHandler`, `LogPython`, `LogFormatter`, `LogFidelity`, `LogLeaves`, `Utf8` | the Go log sanitizer and the Python formatter |
| `TokenBucket` | the Redis token bucket and its Retry-After header |
| `SseParser`, `SseRoundTrip` | the incremental parser of server-sent events |
| `Common` | types shared by the models |

## How the models are built

**Session store.** Redis is a map from keys to records and sorted sets with deadlines. The script runs as the method
`Redis.Eval`, command by command, and is specified by the function `Exec`. A whole run interleaves script calls with
`Wait` (the clock moves on) and `Drop` (Redis removes an expired key, at any time or never). The refinement is to a
*ledger*, a map of sessions that only calls change. Assumed, as the code does: the clock is monotone, positive and
constant within a script; identifiers are fresh, that is never issued before (32 random bytes not drawn before, `GeneratedApart`); all stores use one separator and a limit
of at least 1; the clock leaves room for every lifetime below 2^53 - 1 milliseconds. An identity is the Go struct, and
what is stored is its JSON by structure. Two constants come from the decoders: Redis's cjson refuses more than 1000
nested arrays and objects unless configured otherwise, Go's encoding/json more than 10000.

**Recovery protocol.** Each stretch of code between two awaits is one step of a transition system over the
coordinator's epoch states and rounds, all requests, and the session. The environment changes the epoch, makes
`getSessionEpoch` fail, cancels requests and chooses every answer. Epoch values are never reused, as
`sdk/frontend/src/http/auth/contracts.ts` demands. A step that does not apply changes nothing, so a run is any list of
actions. Where user callbacks run inside one stretch the model lets other steps in between: it has more interleavings
than the code, never fewer.

**Sanitizer.** Maps and slices are nodes of a finite graph, possibly cyclic; groups are trees; map entries have a fixed
order. The sensitive-key test is an arbitrary predicate that rejects the empty key, as every configured name holds a
letter or digit. The Python model works on the same values with Python's own containers.

**Token bucket.** Tokens are reals, times integer milliseconds.

**Parser.** The reference is a reading of the whole text by lines, as sections 9.2.5 and 9.2.6 of the WHATWG HTML Standard
prescribe, with the reconnection time restricted to safe integers and reported with each message.

## What does not hold as one might expect

- `Create` does not check how deeply the identity's attributes are nested. Up to 1000 levels of JSON all is well.
  From 1001 on the create still succeeds (up to 10000 levels it even reports the session), but the script can never
  read the record. `OneLevelTooDeep` gives the identities on both sides of the limit. From then on, while Redis keeps
  the record and the index, and at least for the session's lifetime, every lookup, renewal, revocation, listing,
  revocation of all and further create of that user is answered SESSION_CORRUPT and changes nothing
  (`TooDeepStopsUser`, `TooDeepLastsItsLifetime`); a create whose identifier is taken still reports the collision. Over
  whole runs: no call is ever answered SESSION_CORRUPT if and only if no create carries an identity that deep
  (`NoCorruptionByDepth`).
- The script lets an empty JSON object pass for the roles and an empty list for the attributes, which Go's decoder refuses.
  For every other text that passes the script's checks Go finds an identity of that user (`ScriptReadsGoDecodes`). No
  create stores such a text.
- The parser keeps the reconnection time once it was given, so a list of messages in which `retry` is absent after
  having been present cannot be produced. `EncodableExactly` shows that nothing else is missing.
- Burst plus rate times a window's length bounds what is admitted in it, for every limit and whatever the bucket
  holds when the window begins, if and only if the clock never steps back (`LengthBoundsIffMonotone`); in general the
  bound is burst plus rate times the forward steps (`WindowBound`). `StepBackAdmitsMore` is a run with the excess.
- A WithGroup path means the explicitly nested group if and only if no budget is left or no earlier attribute was logged
  under groups that share the path down to a sensitive or too deep one (`WithGroupMeansGroupByInput`); otherwise the
  nested group costs one more unit of the budget and shows a second placeholder (`ClosedGroupSwallows`).
- Go and Python give the same value, on any data, if and only if the Python traversal does not come back to a container it is
  still inside of while depth and budget would let it in (`AgreesUnlessReenters`). Python refuses to enter it again, Go
  enters it. On acyclic data this cannot happen (`CleanAgrees`); a list inside itself is the smallest case
  (`CyclesDiffer`). For whole records the empty attribute, which slog drops, is the only further difference
  (`RecordsAgree`).
- The test `state.round === round` in the coordinator's finally callback never fails: a round that is not settled is
  always its epoch state's own (the invariant `AuthSafety.RoundOk`).

## Model

| member | source | states |
|---|---|---|
| `SessionKeys.NewKeyBuilder` | sdk/go/gateway/sessionauth/key.go:16-27 | accepts exactly the empty separator, meaning ":", and separators of ASCII punctuation without % { } |
| `SessionKeys.EscapeInto` | sdk/go/gateway/sessionauth/key.go:54-68 | the escaping loop computes `Escape`, whose inverse and separator-freeness are the lemmas below |
| `SessionKeys.EscapeHasInverse` | sdk/go/gateway/sessionauth/key.go:54-68 | decoding %HH undoes escaping, for every separator and every byte string |
| `SessionKeys.EscapeAvoidsSeparator` | sdk/go/gateway/sessionauth/key.go:54-68 | an escaped segment contains no byte of a legal separator |
| `SessionKeys.EscapeOneByte` | sdk/go/gateway/sessionauth/key.go:54-68 | a byte that is no printable ASCII, one of % { } or in the separator becomes % and two upper-case hexadecimal digits, every other stays |
| `SessionKeys.EscapeFixesExactly` | sdk/go/gateway/sessionauth/key.go:54-68 | a value is its own escaped form exactly if it is printable ASCII without % { } and the separator's bytes |
| `SessionKeys.LuaEscapeAgrees` | sdk/go/gateway/sessionauth/store.go:283-291 | the script escapes every identifier as the Go builder does |
| `SessionKeys.EscapeInjective` | sdk/go/gateway/sessionauth/key.go:54-68 | different values escape differently |
| `SessionKeys.KeysNeverCollide` | sdk/go/gateway/sessionauth/key.go:45-53 | scope, kind and identifier can be read back from a key: projects and the two key kinds are disjoint |
| `SessionKeys.ScriptDerivesTheSameKey` | sdk/go/gateway/sessionauth/store.go:293-294 | the key the script derives for a session or an index is the one the Go side passes in |
| `SessionScript.Redis.Eval` | sdk/go/gateway/sessionauth/store.go:278-390 | the script, command by command, has the effect and reply of `Exec` on any contents, corrupted ones included |
| `SessionScript.Redis.Scan` | sdk/go/gateway/sessionauth/store.go:333-345 | the loop over the index finds exactly the live rows and the stale members, or that something disagrees |
| `SessionScript.Redis.Clean` | sdk/go/gateway/sessionauth/store.go:355-358 | the stale members lose their records and their place in the index |
| `SessionScript.Redis.Evict` | sdk/go/gateway/sessionauth/store.go:364-369 | the loop removes the oldest rows until one fewer than the limit is left |
| `SessionScript.Redis.Commit` | sdk/go/gateway/sessionauth/store.go:354-390 | the writes of a run whose prechecks passed |
| `SessionScript.Redis.Finish` | sdk/go/gateway/sessionauth/store.go:383-385 | the index lives as long as its longest member, or is gone |
| `SessionScript.Redis.DropFirst` | sdk/go/gateway/sessionauth/store.go:381 | the loop that takes the revoked row out of the active ones |
| `SessionScript.ActiveRowsComplete` | sdk/go/gateway/sessionauth/store.go:337-343 | every live record listed in the index is found |
| `SessionScript.ActiveRowsProper` | sdk/go/gateway/sessionauth/store.go:334-345 | the rows found are in order of (created_at, id), without repetition |
| `SessionScript.StaleIdsExact` | sdk/go/gateway/sessionauth/store.go:337-345 | the stale members are exactly the members without a live record |
| `SessionScript.BeforeTotal` | sdk/go/gateway/sessionauth/store.go:334 | the order of (created_at, id) is total and strict |
| `SessionRefinement.InsertProper` | sdk/go/gateway/sessionauth/store.go:371 | ZADD of a new member keeps a sorted set ordered by score, then member, with one entry per member |
| `SessionRefinement.InsertContents` | sdk/go/gateway/sessionauth/store.go:371 | ZADD adds exactly that member |
| `SessionRefinement.CallRefines` | sdk/go/gateway/sessionauth/store.go:278-390 | from a sound database every call answers as the ledger does, changes the ledger as specified, and keeps the database sound |
| `SessionRefinement.CreateRefines` | sdk/go/gateway/sessionauth/store.go:324-371 | create: the new session is live, exactly the displaced ones are gone |
| `SessionRefinement.CreateWrites` | sdk/go/gateway/sessionauth/store.go:324-386 | what a create writes into a sound database |
| `SessionRefinement.LookupRefines` | sdk/go/gateway/sessionauth/store.go:326-387 | lookup answers the live session of the ledger, or missing; nothing observable changes |
| `SessionRefinement.RenewRefines` | sdk/go/gateway/sessionauth/store.go:349-377 | renew extends a live session and never revives a dead one |
| `SessionRefinement.RevokeRefines` | sdk/go/gateway/sessionauth/store.go:378-381 | revoke removes the session and nothing else, or reports missing |
| `SessionRefinement.ByUserRefines` | sdk/go/gateway/sessionauth/store.go:359-363 | list returns exactly the live sessions of the user ordered by (created_at, id); revoke_user removes exactly those |
| `SessionRefinement.EvictedAreDisplaced` | sdk/go/gateway/sessionauth/store.go:364-369 | the rows evicted are exactly the live sessions that already have limit - 1 newer ones |
| `SessionRefinement.NeverBroken` | sdk/go/gateway/sessionauth/store.go:293-322 | no record of a sound database is ever found corrupt |
| `SessionRefinement.SoundPrechecks` | sdk/go/gateway/sessionauth/store.go:331-346 | in a sound database every precheck passes for every user |
| `SessionRefinement.ActiveRowsAreLive` | sdk/go/gateway/sessionauth/store.go:333-345 | the active rows of a user are exactly the live records of that user |
| `SessionRefinement.Rebuilt` | sdk/go/gateway/sessionauth/store.go:354-385 | rebuilding one index together with one written record keeps every record and every index sound |
| `SessionRefinement.RenewExtends` | sdk/go/gateway/sessionauth/store.go:373-385 | a renewal, to a shorter lifetime too, leaves the index outliving every live member |
| `SessionRefinement.RevokeRemoves` | sdk/go/gateway/sessionauth/store.go:378-385 | after a revocation the index and the records of the user agree again |
| `SessionRefinement.RevokeUserRemoves` | sdk/go/gateway/sessionauth/store.go:359-363 | after revoke_user neither a record nor the index of the user is left |
| `SessionRefinement.CreateAdds` | sdk/go/gateway/sessionauth/store.go:364-385 | after a create the index lists the survivors and the new session, and outlives them |
| `SessionRefinement.FreshIsNobodyElses` | sdk/go/gateway/sessionauth/store.go:325 | a fresh identifier is in nobody else's index and names no record |
| `SessionRefinement.NewerIsSuffix` | sdk/go/gateway/sessionauth/store.go:365-366 | the sessions newer than a row are the rows after it |
| `SessionRuns.StoreRefinesLedger` | sdk/go/gateway/sessionauth/store.go:277-391 | over every run from an empty Redis the replies are the ledger's, none is an error, and lookups see exactly the ledger |
| `SessionRuns.RunRefines` | sdk/go/gateway/sessionauth/store.go:277-391 | the same from any sound database, which stays sound |
| `SessionRuns.NeverCorrupt` | sdk/go/gateway/sessionauth/store.go:293-346 | no reply of a run is SESSION_CORRUPT or a collision |
| `SessionRuns.WaitRefines` | sdk/go/gateway/sessionauth/store.go:282 | time alone changes nothing but which sessions have ended |
| `SessionRuns.DropRefines` | sdk/go/gateway/sessionauth/store.go:318-320 | Redis removing an expired key is unobservable |
| `SessionRuns.IndexAgreement` | sdk/go/gateway/sessionauth/store.go:331-385 | in every reachable state each live record is in its own user's index under created_at, each member is dead or its user's, and the index outlives its live members |
| `SessionRuns.CreateKeepsTheLatest` | sdk/go/gateway/sessionauth/store.go:364-369 | create keeps exactly the latest limit - 1 of the live sessions by (created_at, id) |
| `SessionRuns.NextKeepsCap` | sdk/go/gateway/sessionauth/store.go:364-369 | no call takes a user above the limit |
| `SessionRuns.CapHolds` | sdk/go/gateway/sessionauth/store.go:338-372 | over every run no user of the ledger has more than limit live sessions |
| `SessionRuns.StoreKeepsCap` | sdk/go/gateway/sessionauth/store.go:338-372 | the same of the database: no reachable state holds more than limit live sessions of a user |
| `SessionRuns.DeadStaysDead` | sdk/go/gateway/sessionauth/store.go:326-328 | over every run a session that ended, was revoked or evicted is never live again, renewals included |
| `SessionRuns.RenewKeepsEvictionOrder` | sdk/go/gateway/sessionauth/store.go:373-377 | renewing changes neither who is evicted next nor when |
| `SessionRuns.FailureWritesNothing` | sdk/go/gateway/sessionauth/store.go:323-353 | from any contents, an answer other than ok leaves every key as it was |
| `SessionRuns.OthersUntouched` | sdk/go/gateway/sessionauth/store.go:331-385 | from a sound database a call touches only its own user's index and sessions: everybody else's stay, and no key comes into being but that index and the session created |
| `SessionRuns.NoStrayKeys` | sdk/go/gateway/sessionauth/store.go:331-385 | from any contents, no call brings any other key into being |
| `SessionRuns.IndexIsTidy` | sdk/go/gateway/sessionauth/store.go:354-385 | from any contents: after every call that succeeds the index of the user concerned lists only stored records and ends exactly with the longest of them |
| `SessionRuns.StaleAreGone` | sdk/go/gateway/sessionauth/store.go:355-358 | from any contents: the members whose sessions were over have lost their records |
| `SessionIdentity.RoundTrip` | sdk/go/gateway/sessionauth/store.go:78-81 | what json.Marshal encodes, decodeSession decodes to the same identity, up to 10000 levels of nesting and not beyond |
| `SessionIdentity.ScriptReadsByDepth` | sdk/go/gateway/sessionauth/store.go:306-317 | of an identity Create encoded, the script's checks pass if and only if it is nested at most 1000 levels deep |
| `SessionIdentity.EncodedDepth` | sdk/go/gateway/sessionauth/store.go:78-81 | the attributes decide how deep the encoded identity is |
| `SessionIdentity.NestedIdentityDepth` | sdk/go/gateway/authentication.go:16-20 | identities of every depth exist |
| `SessionIdentity.ScriptReadsGoDecodes` | sdk/go/gateway/sessionauth/store.go:306-317 | of any stored text: what passes the script's checks Go decodes to an identity of that user, except that the script lets an empty object pass for a list and an empty list for an object |
| `SessionCorruption.OnlyFlawlessIsServed` | sdk/go/gateway/sessionauth/store.go:293-328 | from any contents: what a lookup or listing answers is stored without a flaw, not over, and the one asked for or owned by the user asked for; a renewal changes only its end |
| `SessionCorruption.FlawStopsUser` | sdk/go/gateway/sessionauth/store.go:293-346 | from any contents: a flawed record stops every call that names it and every call on a user whose index lists it, and nothing is written |
| `SessionCorruption.CorruptExactly` | sdk/go/gateway/sessionauth/store.go:293-346 | from any contents: a call is answered SESSION_CORRUPT exactly if the record it names is flawed, or not over and not listed by its owner, or the index concerned disagrees with what it lists |
| `SessionCorruption.CreatedSessionIsReadable` | sdk/go/gateway/sessionauth/store.go:306-317 | every create succeeds; its session can be looked up if and only if the identity is nested at most 1000 levels deep |
| `SessionCorruption.CreatePoisonsByDepth` | sdk/go/gateway/sessionauth/store.go:306-317 | a create leaves an unreadable record in its user's index if and only if the identity is nested deeper |
| `SessionCorruption.PoisonStopsUser` | sdk/go/gateway/sessionauth/store.go:333-346 | with such a record in the index every call on the user, the session or another live session of the user fails and writes nothing |
| `SessionCorruption.TooDeepStopsUser` | sdk/go/gateway/sessionauth/store.go:333-346 | the same at every later point of any run, for as long as Redis keeps the record and the index |
| `SessionCorruption.TooDeepLastsItsLifetime` | sdk/go/gateway/sessionauth/store.go:370-385 | Redis keeps them at least until the session's time is up |
| `SessionCorruption.PoisonStays` | sdk/go/gateway/sessionauth/store.go:333-390 | no call of anybody removes such a record or its place in the index |
| `SessionCorruption.OneLevelTooDeep` | sdk/go/gateway/sessionauth/store.go:306-317 | concrete identities on both sides of the limit |
| `SessionCorruption.NoCorruptionByDepth` | sdk/go/gateway/sessionauth/store.go:293-346 | a run is free of SESSION_CORRUPT, at every point and for every call, if and only if no create carries an identity nested too deeply |
| `Base64Url.DecodeEncode` | sdk/go/gateway/sessionauth/store.go:87 | decoding gives back the bytes that were encoded |
| `Base64Url.EncodeDecode` | sdk/go/gateway/sessionauth/store.go:252-253 | encoding gives back exactly the texts without spare bits |
| `Base64Url.EncodeIsCanonical` | sdk/go/gateway/sessionauth/store.go:87 | the encoding holds digits only, no spare bits, and four digits for each three bytes |
| `Base64Url.AlphabetIsStandard` | sdk/go/gateway/sessionauth/store.go:87 | the digits are those of the URL-safe alphabet, one by one |
| `Base64Url.StandardVectors` | sdk/go/gateway/sessionauth/store.go:87 | the standard's own examples |
| `SessionStore.ValidIsGenerated` | sdk/go/gateway/sessionauth/store.go:248-254 | the valid identifiers are exactly those the generator can make of 32 bytes |
| `SessionStore.GeneratedApart` | sdk/go/gateway/sessionauth/store.go:83-87 | different random bytes make different identifiers |
| `SessionStore.ValidIdsPassTheScript` | sdk/go/gateway/sessionauth/store.go:248-254 | identifiers Go accepts pass the script's own test |
| `SessionStore.Store.Create` | sdk/go/gateway/sessionauth/store.go:71-105 | up to three attempts with new identifiers until one does not collide, each on whatever Redis holds by then; invalid input and identities that cannot be encoded change nothing, a failing random source ends the attempts |
| `SessionStore.Store.Lookup` | sdk/go/gateway/sessionauth/store.go:108-113 | an impossible identifier is not found without asking Redis; otherwise the script's answer, decoded |
| `SessionStore.Store.Renew` | sdk/go/gateway/sessionauth/store.go:116-124 | likewise, after the lifetime was checked |
| `SessionStore.Store.ListByUser` | sdk/go/gateway/sessionauth/store.go:150-170 | every listed row is decoded and its owner checked |
| `SessionStore.Store.Revoke` | sdk/go/gateway/sessionauth/store.go:141-147 | revoking is idempotent |
| `SessionStore.Store.RevokeByUser` | sdk/go/gateway/sessionauth/store.go:173-179 | revoking a user's sessions |
| `SessionStore.CreateSucceeds` | sdk/go/gateway/sessionauth/store.go:71-105 | over a sound database Create succeeds at once with any 32 random bytes not drawn before; the ledger gains exactly that session, and the lookup that follows returns it |
| `SessionStore.CollisionsAreRetried` | sdk/go/gateway/sessionauth/store.go:82-104 | identifiers that collide are passed over: Create goes on with the first that does not, and reports a collision only if all attempts collided |
| `SessionStore.DecodeExactly` | sdk/go/gateway/sessionauth/store.go:230-247 | a record is taken for a session exactly if its version is 1, its identifier one the generator makes, its identity of the same user, not blank, and its times in order |
| `SessionStore.CreateReportsByDepth` | sdk/go/gateway/sessionauth/store.go:95-102 | Create reports the session if and only if Go can decode the identity again |
| `SessionStore.ReadsTheLedger` | sdk/go/gateway/sessionauth/store.go:108-138 | Lookup and Renew report exactly the ledger's live session, for any text given as identifier |
| `SessionStore.ListsTheLedger` | sdk/go/gateway/sessionauth/store.go:150-170 | ListByUser returns the live sessions in order and never an error |
| `SessionStore.NextKeepsGoLedger` | sdk/go/gateway/sessionauth/store.go:243-245 | every call keeps the ledger decodable |
| `SessionStore.RunKeepsGoLedger` | sdk/go/gateway/sessionauth/store.go:230-247 | over every run each session of the ledger can be decoded by every reader |
| `AuthProtocol.Coordinator.Capture` | sdk/frontend/src/http/auth/session.ts:58-68 | capture makes a new epoch state exactly when the epoch is not the current state's |
| `AuthProtocol.Coordinator.Refresh` | sdk/frontend/src/http/auth/session.ts:117-147 | refresh creates at most one shared promise per round, and only in the captured epoch |
| `AuthProtocol.Coordinator.Notify` | sdk/frontend/src/http/auth/session.ts:149-163 | notify likewise, when there is an onUnauthorized |
| `AuthProtocol.Coordinator.CallRefresh` | sdk/frontend/src/http/auth/session.ts:122-125 | the microtask calls refreshSession only if the epoch is still the captured one |
| `AuthProtocol.Coordinator.TakeAnswer` | sdk/frontend/src/http/auth/session.ts:125-139 | an answer that arrives in another epoch counts as a failure |
| `AuthProtocol.Coordinator.Finally` | sdk/frontend/src/http/auth/session.ts:141-145 | the finally callback replaces the state's round only if it still is this one |
| `AuthProtocol.Coordinator.CallUnauthorized` | sdk/frontend/src/http/auth/session.ts:153-157 | the microtask calls onUnauthorized only if the epoch is still the captured one |
| `AuthSafety.SingleFlight` | sdk/frontend/src/http/auth/session.ts:117-163 | over every interleaving a round calls refreshSession and onUnauthorized at most once each, the latter only after the refresh fulfilled, and no epoch has two refreshes in flight |
| `AuthSafety.SettledIsFinal` | sdk/frontend/src/http/auth/session.ts:142-147 | whoever waits for a round, however late, meets the same answer, and the round never refreshes again |
| `AuthSafety.RoundSettles` | sdk/frontend/src/http/auth/session.ts:121-146 | the steps of a round settle it, whatever refreshSession answers |
| `AuthSafety.WaiterResumes` | sdk/frontend/src/http/auth/request.ts:53-60 | a request waiting for the refresh can always be brought on by the steps of its round |
| `AuthSafety.SessionIsolation` | sdk/frontend/src/http/client/client.ts:32-91 | over every interleaving authenticated sends happen in the captured epoch with headers read in it, and responses and messages are handed over in it |
| `AuthSafety.EverySendIsLogged` | sdk/frontend/src/http/client/client.ts:43 | over every run the log that isolation speaks of holds one entry for each send of an authenticated request |
| `AuthSafety.HeadersArriveOk` | sdk/frontend/src/http/auth/session.ts:70-98 | headers accepted after the await were read in the captured epoch, whenever in between they were read |
| `AuthSafety.OldRoundsAreHarmless` | sdk/frontend/src/http/auth/session.ts:141-145 | no step of a round of another epoch changes this epoch's state, its round or any request |
| `AuthSafety.StepOk` | sdk/frontend/src/http/auth/session.ts:48-163 | every step of every party keeps the invariant of rounds, epochs and requests |
| `AuthSafety.RunOk` | sdk/frontend/src/http/auth/session.ts:48-163 | the invariant holds over every run |
| `AuthSafety.CapturedOk` | sdk/frontend/src/http/auth/session.ts:58-68 | at most one epoch state has the present epoch |
| `AuthSafety.FinishedOk` | sdk/frontend/src/http/auth/session.ts:141-145 | replacing a finished round keeps the unsettled rounds exactly those the epoch states hand out |
| `AuthSafety.JudgedOk` | sdk/frontend/src/http/auth/request.ts:46-58 | joining the refresh or the notification keeps the invariant |
| `AuthSafety.RefreshedOk` | sdk/frontend/src/http/auth/request.ts:55-62 | a notification is asked for only in a fulfilled round |
| `AuthSafety.CanceledIsQuiet` | sdk/frontend/src/http/error/cancellation.ts:14-39 | a canceled request changes nothing but itself |
| `AuthSafety.CancellationIsPrivate` | sdk/frontend/src/http/error/cancellation.ts:14-39 | over any continuation nobody else can tell a canceled request from one that takes no further step |
| `AuthSafety.CancelOneWaiter` | sdk/frontend/src/http/error/cancellation.ts:14-39 | the same for a cancellation at any point of a run |
| `AuthSafety.BoundedSends` | sdk/frontend/src/http/client/client.ts:35-99 | no call sends more than 2 + maxRetries times, a stream at most twice |
| `AuthSafety.MeasureFalls` | sdk/frontend/src/http/client/client.ts:35-99 | each step that changes a call lowers its measure: recovery unused plus retries left, then progress |
| `AuthSafety.CallsEnd` | sdk/frontend/src/http/client/client.ts:35-99 | in any run a call is moved on only as often as its measure allows |
| `AuthSafety.NothingSentOnceReading` | sdk/frontend/src/http/sse/client.ts:102-186 | once a stream is being read, or a call is over, nothing is sent for it again |
| `AuthRecovery.NoStateIsSpent` | sdk/frontend/src/http/auth/session.ts:141-145 | over every interleaving no epoch state hands out a settled round: what a capture gets has not begun to refresh or is in the middle of it |
| `AuthRecovery.EveryRefusalCanRefresh` | sdk/frontend/src/http/auth/session.ts:117-147 | at every point of every run with no refresh of the epoch in flight, and however often it was refreshed before, a new request that is refused leads to exactly one more call of refreshSession, whose answer decides how it goes on |
| `AuthRecovery.RefreshesAreNotSpent` | sdk/frontend/src/http/auth/session.ts:141-145 | one refused request after the other in one epoch: as many calls of refreshSession as refusals, whatever the answers |
| `AuthRecovery.RecoveryCalls` | sdk/frontend/src/http/auth/request.ts:53-58 | a refused request judged Recover for the first time, in a round not yet begun, makes exactly one more call for the epoch |
| `AuthRecovery.AnswerArrives` | sdk/frontend/src/http/auth/session.ts:125-146 | the answer takes the request on, calls nothing more, and leaves the epoch a new round |
| `AuthRecovery.RenewedSucceeds` | sdk/frontend/src/http/client/client.ts:36-98 | after a renewal the request reads its headers anew, is sent a second time and delivered |
| `AuthRecovery.ExpiredIsTold` | sdk/frontend/src/http/auth/request.ts:59-64 | after an expiry onUnauthorized is called, once, and the call ends |
| `AuthRecovery.CanceledEnds` | sdk/frontend/src/http/error/cancellation.ts:14-39 | a canceled request ends with its next step, whatever it waits for, and changes nothing else |
| `AuthRecovery.NothingUnasked` | sdk/frontend/src/http/auth/request.ts:48-53 | over every interleaving no request recovers that is not authenticated, was not meant to or has no refreshSession, and without onUnauthorized no notice is given |
| `AuthRecovery.PastRoundsOnlyFail` | sdk/frontend/src/http/auth/session.ts:121-157 | once the session moved to another epoch, over every continuation a round of an earlier one calls nothing again and can only fail |
| `AuthRecovery.RefusedAgainIsTold` | sdk/frontend/src/http/auth/request.ts:53-64 | a request refused again after its recovery asks for no second refresh; onUnauthorized is called |
| `HttpCalls.DelayIsBounded` | sdk/frontend/src/http/retry/policy.ts:28-63 | a retry happens exactly under the policy's conditions; the wait is at least the server's Retry-After and at most maxDelayMs |
| `HttpCalls.CeilingBounds` | sdk/frontend/src/http/retry/policy.ts:58-62 | the backoff ceiling stays within maxDelayMs and never shrinks |
| `HttpCalls.CeilingDoubles` | sdk/frontend/src/http/retry/policy.ts:58-61 | the ceiling starts at the base delay and doubles with each of the first thirty retries, up to maxDelayMs |
| `HttpCalls.EveryDelayOccurs` | sdk/frontend/src/http/retry/policy.ts:58-62 | each wait from what the server asks to below the ceiling occurs with some random number |
| `HttpCalls.AllRetriesAreUsed` | sdk/frontend/src/http/client/client.ts:35-99 | a call that meets only transient failures is sent again until it succeeds or all its retries are used, not fewer |
| `HttpCalls.SuccessIsLast` | sdk/frontend/src/http/client/client.ts:35-99 | a call succeeds only with its last attempt, after failures |
| `HttpCalls.RequestAuth.Recover` | sdk/frontend/src/http/auth/request.ts:46-65 | another attempt is granted at most once |
| `HttpCalls.ExecuteHttp` | sdk/frontend/src/http/client/client.ts:35-99 | the loop computes `HttpSpec`, with at most 2 + maxRetries sends and maxRetries waits |
| `HttpCalls.WaitsAreBounded` | sdk/frontend/src/http/client/client.ts:91-98 | every wait of a call is within the longest delay, and each is followed by another send unless the call is stopped |
| `HttpCalls.StreamCall.Execute` | sdk/frontend/src/http/sse/client.ts:94-200 | at most two fetches, and the messages before the end, as `StreamSpec` says; the finally block clears the flags that stand for timer, listener, body and reader on every way out of the try block |
| `HttpCalls.StreamCall.Stream` | sdk/frontend/src/http/sse/client.ts:99-186 | the try block: a second fetch only after a refusal was recovered from |
| `HttpCalls.TakenUpToTheEnd` | sdk/frontend/src/http/sse/client.ts:166-186 | all messages in front of the end count and none after it; only the stream's own end is a clean one |
| `HttpCalls.StreamCall.ReadAll` | sdk/frontend/src/http/sse/client.ts:166-186 | the reading loop delivers what precedes the end or the first failure |
| `HttpRefinement.LoopIsProtocol` | sdk/frontend/src/http/client/client.ts:35-99 | the loop is a behaviour of the protocol: whatever the other parties do between its stages, a request driven through the protocol sends as often and ends as the loop does |
| `HttpRefinement.AttemptIsProtocol` | sdk/frontend/src/http/client/client.ts:36-98 | one attempt: sending, answer, recovery and back-off agree step by step |
| `HttpRefinement.StreamIsProtocol` | sdk/frontend/src/http/sse/client.ts:102-147 | the stream's loop is one too: as many fetches, and reading begins exactly for an answer that is no refusal |
| `HttpRefinement.SettleRefresh` | sdk/frontend/src/http/auth/request.ts:53-61 | after the shared refresh a request is ready again exactly if it was renewed and the session still is the captured one |
| `LogSafety.RecordWithinBudget` | sdk/go/logging/handler.go:83-114 | at most MaxAttributes nodes are emitted for a record, static, context and own fields together, on every graph |
| `LogSafety.CleanWithin` | sdk/go/logging/handler.go:238-322 | cleaning any value, cyclic ones included, emits no more nodes than it takes from the budget |
| `LogSafety.AddWithin` | sdk/go/logging/handler.go:163-202 | the same for adding an attribute |
| `LogSafety.AddUnderWithin` | sdk/go/logging/handler.go:163-173 | the same under a WithGroup path |
| `LogSafety.RecordIsSafe` | sdk/go/logging/handler.go:83-114 | every emitted entry with a sensitive key shows [REDACTED], even past the depth bound; no group opens under one; past the bound there are only markers |
| `LogSafety.CleanSafe` | sdk/go/logging/handler.go:238-322 | the same for any cleaned value, at any depth |
| `LogSafety.AddSafe` | sdk/go/logging/handler.go:163-224 | the same for adding an attribute |
| `LogSafety.ObjectSafe` | sdk/go/logging/handler.go:324-334 | turning fields into an object keeps it |
| `LogEquivalence.SecretsDoNotInterfere` | sdk/go/logging/handler.go:83-114 | records that differ only in what is stored under sensitive keys or paths, containers included, give the same output and leave the same budget |
| `LogEquivalence.CleanIgnoresSecrets` | sdk/go/logging/handler.go:238-322 | the same for any two values over any two graphs whose corresponding containers differ only in secrets; nothing is said of containers held by secrets alone |
| `LogEquivalence.AddIgnoresSecrets` | sdk/go/logging/handler.go:163-202 | the same for attributes |
| `LogEquivalence.AddUnderIgnoresSecrets` | sdk/go/logging/handler.go:163-173 | the same under a WithGroup path: below a sensitive group nothing of the attribute matters |
| `LogEquivalence.WithGroupMeansGroup` | sdk/go/logging/handler.go:125-133 | a handler under WithGroup and one logging the nested group emit the same and leave the same budget, if and only if no earlier attribute closed a group on the path |
| `LogEquivalence.WithGroupMeansGroupByInput` | sdk/go/logging/handler.go:125-133 | the same in terms of what was logged: no budget left, or no fixed attribute under groups that share the path down to a sensitive or too deep one |
| `LogEquivalence.AddScopedBlocks` | sdk/go/logging/handler.go:163-224 | a path is closed exactly when some attribute was logged under groups sharing it down to a group that may not open |
| `LogEquivalence.AddKeepsBlocked` | sdk/go/logging/handler.go:174-202 | attributes logged without a path close nothing |
| `LogEquivalence.WithGroupIsGroup` | sdk/go/logging/handler.go:163-236 | the same at any depth, over any fields already present |
| `LogEquivalence.ClosedGroupSwallows` | sdk/go/logging/handler.go:214-224 | a concrete difference: a second placeholder and one more unit of budget |
| `LogEquivalence.EachInside` | sdk/go/logging/handler.go:168-173 | logging under an open first group is logging inside it |
| `LogEquivalence.RenderUpdate` | sdk/go/logging/handler.go:226-236 | two field lists render alike exactly when they do where they differ |
| `LogHandler.Sanitizer.Clean` | sdk/go/logging/handler.go:238-310 | the recursive cleaning with the shared counter computes `LogSanitizer.Clean` |
| `LogHandler.Sanitizer.CleanMap` | sdk/go/logging/handler.go:277-294 | the loop over a map |
| `LogHandler.Sanitizer.CleanSlice` | sdk/go/logging/handler.go:295-306 | the loop over a slice |
| `LogHandler.Sanitizer.Add` | sdk/go/logging/handler.go:163-202 | adding one attribute |
| `LogHandler.Sanitizer.AddUnder` | sdk/go/logging/handler.go:163-173 | adding one attribute under a path |
| `LogHandler.Sanitizer.OpenGroup` | sdk/go/logging/handler.go:214-224 | finding the group of that name or opening it for one unit of the budget |
| `LogHandler.RenderFields` | sdk/go/logging/handler.go:226-236 | the attributes handed on, closed groups as their placeholder |
| `LogHandler.Handler.WithAttrs` | sdk/go/logging/handler.go:117-123 | a copy with the attributes scoped to the present path |
| `LogHandler.Handler.WithGroup` | sdk/go/logging/handler.go:126-133 | a copy with a longer path; an empty name is ignored |
| `LogHandler.Handler.Handle` | sdk/go/logging/handler.go:84-114 | if the level is enabled, the next handler receives the truncated message and the rendered `Record` under the record's time, level and position; otherwise nothing |
| `LogPython.AgreesUnlessReenters` | sdk/python/logging/src/stellarmesh_logging/formatter.py:153-205 | on all data, at every depth and budget, Python and Go give the same value and leave the same budget if the traversal reenters no container, and different values if it does |
| `LogPython.AcyclicNeverReenters` | sdk/python/logging/src/stellarmesh_logging/formatter.py:182-184 | on acyclic data no container is ever reentered |
| `LogPython.CleanAgrees` | sdk/python/logging/src/stellarmesh_logging/formatter.py:153-205 | on acyclic data Python and Go give the same value and leave the same budget, at every depth |
| `LogPython.CyclesDiffer` | sdk/python/logging/src/stellarmesh_logging/formatter.py:182-184 | a list inside itself: the two agree if and only if the depth bound or the budget stops both first |
| `LogPython.RecordsAgree` | sdk/python/logging/src/stellarmesh_logging/formatter.py:104-130 | whole records of plain fields, cyclic values included, agree if and only if within the budget no field reenters a container and none is the empty attribute slog drops |
| `LogPython.OwnIsFixed` | sdk/python/logging/src/stellarmesh_logging/formatter.py:121-130 | fields neither reserved nor already present are treated like the fixed ones |
| `LogPython.GoFieldsAreGo` | sdk/go/logging/handler.go:163-202 | what the Go handler makes of plain fields, as a list of entries |
| `LogFormatter.RecordIsBoundedAndSafe` | sdk/python/logging/src/stellarmesh_logging/formatter.py:104-139 | on every data, cyclic included, at most max_attributes nodes, sensitive keys redacted, only markers past the depth bound |
| `LogFormatter.SanitizeWithin` | sdk/python/logging/src/stellarmesh_logging/formatter.py:153-205 | no value yields more nodes than it takes from the budget |
| `LogFormatter.SanitizeSafe` | sdk/python/logging/src/stellarmesh_logging/formatter.py:153-205 | every value is safe at its depth |
| `LogFormatter.Formatter.Sanitize` | sdk/python/logging/src/stellarmesh_logging/formatter.py:153-205 | the traversal with its shared budget and seen set computes `Sanitize`, and leaves the seen set as it was |
| `LogFormatter.Formatter.VisitDict` | sdk/python/logging/src/stellarmesh_logging/formatter.py:187-198 | the loop over a dict, given up at a key that is not a string |
| `LogFormatter.Formatter.VisitSequence` | sdk/python/logging/src/stellarmesh_logging/formatter.py:199-205 | the loop over a list or tuple |
| `LogFormatter.Formatter.RecordFields` | sdk/python/logging/src/stellarmesh_logging/formatter.py:104-130 | the two loops over fixed and own fields on one budget |
| `LogFidelity.TextIsKept` | sdk/go/logging/handler.go:259-260 | in both languages valid text of at most maxStringBytes bytes is emitted unchanged, longer text as the longest valid prefix that leaves room for the marker, and the marker |
| `LogFidelity.CleanShows` | sdk/go/logging/handler.go:238-322 | a value within the depth bound comes out as the same tree, every key and value in its place and [REDACTED] under sensitive keys, for as many units of the budget as it has nodes, unless the budget runs out |
| `LogFidelity.ObjectShows` | sdk/go/logging/handler.go:324-334 | an object of differently named attributes shows each of them |
| `LogFidelity.PlainNeverReenters` | sdk/python/logging/src/stellarmesh_logging/formatter.py:181-183 | data within the depth bound is acyclic: the Python traversal never comes back to a container |
| `LogFidelity.SanitizeShows` | sdk/python/logging/src/stellarmesh_logging/formatter.py:153-205 | in Python too such a value comes out as the same tree |
| `LogFidelity.FieldsAreKept` | sdk/python/logging/src/stellarmesh_logging/formatter.py:104-130 | whole Python records: the fixed fields, and those of the record whose names are neither reserved nor taken, come out each under its name with its value, in their order, as long as the budget covers them or is not used up |
| `LogLeaves.RecordIsKept` | sdk/go/logging/handler.go:83-114 | whole Go records: under every path of groups the next handler finds exactly the attributes logged there, in their order, with their keys and values, and [REDACTED] under sensitive keys, as long as the budget covers them or is not used up |
| `LogLeaves.AddKeeps` | sdk/go/logging/handler.go:174-202 | the same for adding an attribute to fields already present |
| `LogLeaves.AddUnderKeeps` | sdk/go/logging/handler.go:163-173 | the same under a WithGroup path |
| `Utf8.ValidExactly` | sdk/go/logging/handler.go:387-390 | valid are exactly the byte strings the encoder of RFC 3629 makes of Unicode scalar values |
| `Utf8.RunIsReplaced` | sdk/go/logging/handler.go:382 | a maximal run of bytes at which no character begins becomes one U+FFFD; the valid text in front stays and the rest is repaired likewise |
| `Utf8.InvalidHasRun` | sdk/go/logging/handler.go:382 | every text that is not valid has such a run behind its valid part |
| `Utf8.GoTruncate` | sdk/go/logging/handler.go:381-391 | the Go truncation computes `Truncate` |
| `Utf8.PythonTruncate` | sdk/python/logging/src/stellarmesh_logging/formatter.py:358-368 | the Python truncation computes the same |
| `Utf8.TruncateBounds` | sdk/go/logging/handler.go:381-391 | the result is valid UTF-8 within the limit; what fits is kept; otherwise the longest valid prefix the marker leaves room for |
| `Utf8.CutLosesLittle` | sdk/go/logging/handler.go:387-390 | a cut loses at most three bytes |
| `Utf8.ToValidIsValid` | sdk/go/logging/handler.go:382 | replacing invalid runs yields valid UTF-8 |
| `TokenBucket.Bucket.Run` | sdk/go/gateway/redislimit/limiter.go:20-49 | the script on the bucket hash computes `Take` and renews the deadline |
| `TokenBucket.TakeKeepsRange` | sdk/go/gateway/redislimit/limiter.go:34-44 | the stored tokens stay in [0, burst] |
| `TokenBucket.RangeHolds` | sdk/go/gateway/redislimit/limiter.go:34-44 | the same over every sequence of calls |
| `TokenBucket.WindowBound` | sdk/go/gateway/redislimit/limiter.go:34-44 | in any window of any run at most burst plus rate times the forward clock steps are allowed |
| `TokenBucket.Account` | sdk/go/gateway/redislimit/limiter.go:34-44 | tokens left plus calls allowed never exceed what was found plus what was earned |
| `TokenBucket.ExactAccount` | sdk/go/gateway/redislimit/limiter.go:34-44 | calls allowed plus tokens left are exactly what was found plus what was earned, less what the cap at burst discards |
| `TokenBucket.RefusedWhenSpent` | sdk/go/gateway/redislimit/limiter.go:39-44 | when the last call was refused, all that was found and earned and not discarded has been admitted but for less than one token |
| `TokenBucket.AtOnceAdmits` | sdk/go/gateway/redislimit/limiter.go:39-44 | of n calls at one instant on a bucket that holds a whole number of tokens, exactly as many are admitted as there are tokens |
| `TokenBucket.BurstAtOnce` | sdk/go/gateway/redislimit/limiter.go:29-44 | of any n calls at one instant on a new bucket exactly min(n, burst) are admitted |
| `TokenBucket.EarnedInASecond` | sdk/go/gateway/redislimit/limiter.go:35 | a full second earns exactly the rate |
| `TokenBucket.DropForgets` | sdk/go/gateway/redislimit/limiter.go:29-32 | a key that Redis dropped is found as a new one, any other as it was stored |
| `TokenBucket.LifetimeIsShort` | sdk/go/gateway/redislimit/limiter.go:105-113 | the key's lifetime is at most one second or two refills |
| `TokenBucket.MonotoneBound` | sdk/go/gateway/redislimit/limiter.go:34-44 | with a monotone clock at most burst plus rate times its length is allowed in any window of any run |
| `TokenBucket.LengthBoundsIffMonotone` | sdk/go/gateway/redislimit/limiter.go:34-44 | that bound holds in every window, for every limit and stored state, if and only if the clock never steps back |
| `TokenBucket.StepBackExceeds` | sdk/go/gateway/redislimit/limiter.go:34 | where the clock steps back, a window that exceeds the bound |
| `TokenBucket.MonotoneSteps` | sdk/go/gateway/redislimit/limiter.go:34 | for a monotone clock the forward steps are the window's length |
| `TokenBucket.StepBackAdmitsMore` | sdk/go/gateway/redislimit/limiter.go:34 | a clock that steps back admits more than the window's length accounts for |
| `TokenBucket.RetryIsExact` | sdk/go/gateway/redislimit/limiter.go:37-44 | after a rejection, with only rejected calls in between, a call is allowed if and only if retry_ms have passed |
| `TokenBucket.PollingIsNeutral` | sdk/go/gateway/redislimit/limiter.go:34-46 | rejected polling never delays admission |
| `TokenBucket.LifetimeRefills` | sdk/go/gateway/redislimit/limiter.go:105-113 | an empty bucket is full again within the key's lifetime |
| `TokenBucket.ExpiryIsUnobservable` | sdk/go/gateway/redislimit/limiter.go:105-113 | with one monotone clock, whether Redis drops an expired key is unobservable |
| `TokenBucket.EveryReplyParses` | sdk/go/gateway/redislimit/limiter.go:144-170 | parseDecision accepts every reply of the script and keeps its meaning, without overflow |
| `TokenBucket.RetryAfterHeader` | sdk/go/gateway/response.go:51-58 | the header is the duration in whole seconds, rounded up, or absent |
| `TokenBucket.HeaderSuffices` | sdk/go/gateway/response.go:51-58 | waiting the seconds of the header always suffices, whatever rejected calls come in between |
| `SseParser.Parser.ConsumeLine` | sdk/frontend/src/http/sse/parser.ts:12-42 | a finished line updates the fields or dispatches a message |
| `SseParser.Parser.Parse` | sdk/frontend/src/http/sse/parser.ts:44-58 | the loop over a chunk computes `Feed`, keeping its state for the next chunk |
| `SseParser.ChunksDoNotMatter` | sdk/frontend/src/http/sse/parser.ts:44-58 | the messages do not depend on how the text is cut |
| `SseParser.FeedReadsLines` | sdk/frontend/src/http/sse/parser.ts:44-58 | the character machine consumes exactly the terminated lines |
| `SseParser.ConsumeIsStandard` | sdk/frontend/src/http/sse/parser.ts:12-42 | a line is interpreted as the standard prescribes |
| `SseParser.ParserIsStandard` | sdk/frontend/src/http/sse/parser.ts:4-59 | for every text and every cut the parser emits the messages of the line-based reading |
| `SseRoundTrip.RoundTrip` | sdk/frontend/src/http/sse/parser.ts:12-58 | encoding an encodable list, generously or leaving out every space, name and field that may be left out, with line ends of any kind, cut anywhere, and parsing it returns the list |
| `SseRoundTrip.FieldIsTaken` | sdk/frontend/src/http/sse/parser.ts:23-41 | a value written after a colon and a space is taken exactly as it is, whatever it is, by the field of that name |
| `SseRoundTrip.SpaceIsOptional` | sdk/frontend/src/http/sse/parser.ts:25-26 | the space may be left out in front of a value that does not begin with one; a field alone on its line has an empty value |
| `SseRoundTrip.StandardSpaceIsOptional` | sdk/frontend/src/http/sse/parser.ts:25-26 | the standard reads the three forms the same way |
| `SseRoundTrip.RetryIsNumeral` | sdk/frontend/src/http/sse/parser.ts:37-40 | reconnection times are numerals of digits, leading zeros included, up to 2^53 - 1 |
| `SseRoundTrip.NoNumeralNoRetry` | sdk/frontend/src/http/sse/parser.ts:37-40 | and nothing else |
| `SseRoundTrip.IdleLinesDoNotMatter` | sdk/frontend/src/http/sse/parser.ts:23-41 | comments, fields of other names, identifiers with NUL and reconnection times without a digit may be left out wherever they stand |
| `SseRoundTrip.BlankEndsEvent` | sdk/frontend/src/http/sse/parser.ts:15-22 | a blank line without data forgets the event name and keeps identifier and reconnection time |
| `SseRoundTrip.LineEndsDoNotMatter` | sdk/frontend/src/http/sse/parser.ts:46-53 | rewriting the line ends of any text, each in any way, changes no message, as long as no CR meets the LF of a blank line |
| `SseRoundTrip.LinesOfTerminate` | sdk/frontend/src/http/sse/parser.ts:50-53 | terminated lines are read back as they were |
| `SseRoundTrip.OutputEncodable` | sdk/frontend/src/http/sse/parser.ts:12-42 | whatever the parser emits is encodable |
| `SseRoundTrip.EncodableExactly` | sdk/frontend/src/http/sse/parser.ts:12-58 | the encodable lists are exactly those the parser can emit |

## Left out

- JSON and cjson texts, SHA-1, SHA-256 and random generation: records are values with a flag for an intact hash; the random bytes of identifiers are given from outside.
- SessionIdentity.RoundTrip: numbers are compared as written, so that decoding them to float64 loses nothing; field names match exactly, where Go also accepts other cases.
- SessionIdentity.ScriptReadsByDepth: attributes holding raw JSON with an unpaired surrogate escape, which the script's decoder refuses as well, and Redis servers with a different nesting limit.
- A stored number with a fraction counts as a malformed record, which the script treats the same way.
- Redis value types other than strings and sorted sets are one kind, `Foreign`; Redis Cluster, connection errors and other failures of Eval are not modelled.
- Floating-point rounding in Lua and Go: tokens are reals, and the comparison of the lifetime with 2^63 nanoseconds in New is exact.
- asInt64, redisKey and the checks of the limiter's configuration other than rate and burst.
- SseRoundTrip.RoundTrip: lists in which retry is absent after having been given are excluded, because the parser never emits them (EncodableExactly).
- LogEquivalence.WithGroupMeansGroup: the attribute list is not empty and holds no zero attribute, which slog drops before a group is opened.
- LogHandler.Sanitizer.AddUnder: the tree of *logField pointers is passed and returned as a value, so updating it in place and sharing nodes are not captured.
- The order in which Go iterates over a map is fixed by the model; Go and Python keys are compared as text.
- Errors and LogValuers that panic; the Unicode tables behind key normalisation; the formatter's text layouts.
- LogFormatter.Formatter.RecordFields: the time, level, message, logger, source and exception entries around the fields.
- LogFormatter.RecordIsBoundedAndSafe: likewise; the bound is on the fields that draw on the budget.
- LogHandler.Handler.Handle: callbacks and next handlers that panic.
- TokenBucket.EveryReplyParses: the reply's integers and decimal text as such; a number printed by Lua is taken as that number.
- LogLeaves.RecordIsKept: where the record uses the budget up to the last unit, a group counts once for each attribute logged under it, so that some records that just fit are not covered.
- LogFidelity.CleanShows: a group inside a map or slice is shown attribute by attribute if its attributes have different names, none empty, and hold no empty group; otherwise the last of a name stays.
- LogPython.CleanAgrees: text is valid UTF-8, which encode() demands of a Python string; datetime, UUID and exception values are the texts they stand for.
- Fetch, Axios, header validation and merging, transform and error-code callbacks are arbitrary answers of the environment.
- isTrustedTarget and createAuthSession's configuration checks, which decide only whether a request is authenticated at all.
- AuthSafety.WaiterResumes: that refreshSession answers at all is up to the application; a promise that never settles keeps its waiters waiting until they are canceled.
- HttpCalls.StreamCall.Execute: chunks are counts of messages; their text is the parser's matter.
- The rest of the gateway, the storage services and clients, CORS, health checks, JWT and access logs: mostly straight-line checks and input-output that would only add easy members.
